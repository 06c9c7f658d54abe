# Breadcrumb path resolution, modelled in Dafny

This project models the breadcrumb bar of a hospital-management web client
(`src/components/Common/Breadcrumbs.tsx`). The bar turns the current URL path
into a trail of crumbs. Some path segments are route names, shown from a
fixed keyword table or capitalised. Others are 36-character identifiers.
When the segment before an identifier is `facility`, `patient` or
`encounter`, the identifier's display name is fetched. While the names are
loading, the crumb says "Loading...". When there is more than one crumb, every
crumb but the last folds into an overflow menu until the user clicks it open.

The modules follow the component's pipeline:

- `Text` (text.dfy): the JavaScript string operations the component uses:
  `split` on one character, `join`, `slice`, and ASCII `toUpperCase`.
- `Labels` (labels.dfy): the `MENU_TAGS` table and `capitalize`.
- `Identifiers` (identifiers.dfy): the `/^[0-9a-fA-F-]{36}$/` shape test.
- `Queries` (queries.dfy): `idQueries`, which says which segments are looked up
  and as what kind of entity.
- `Names` (names.dfy): the three `fetch*Name` wrappers and the `fetchNames`
  loop, which fills the id-to-name record.
- `Trail` (trail.dfy): `crumbs`, one crumb per segment, with caller overrides.
- `Presenter` (presenter.dfy): the render decision between the overflow menu
  and the full list.
- `Component` (component.dfy): a class with the component's two pieces of
  state. `showFullPath` only ever goes from false to true. `names` is
  replaced as a whole on each path change.
- `Scenarios` (scenarios.dfy): end-to-end properties on typical paths.
- `Wrappers` (wrappers.dfy): `Option`, and `Somes`, the model of `.filter(Boolean)`.

The request client is not modelled. It becomes a function parameter
`lookup: (EntityType, string) -> Fetch`. A request either throws (`Failed`)
or answers with `data`, which may be absent. The data carries a `name` for
facilities and patients, and a `period` with an optional `start` for
encounters.

Points where the code behaves in ways one might not expect. The model
follows the code in each case:

- Keywords are matched exactly and case-sensitively. `Facility/<id>` is not
  looked up.
- An id-shaped segment after any other segment is not looked up. It is not
  shown as a label either. It shows `names[field] || "Loading..."`, which is
  "Loading..." for good unless the same id is looked up elsewhere in the path
  (`UnqueriedCrumbLoads`).
- Lookups run one after another. A failed lookup becomes a fixed string
  ("Error fetching facility", "Error fetching patient" or
  "Error fetching encounter"), not a separate error state.
- `names` is not a persistent cache. Every path change looks up every
  queried id again and replaces the whole record. An id queried twice keeps
  the value from its last query.
- In `fetchEncounterName`, `"Encounter on " + data?.period.start || id` never
  falls back to `id`, because `+` binds tighter than `||` and the
  concatenation is never empty. Absent `data` gives
  "Encounter on undefined". A present `data` without `period` throws inside
  the `try`, so the result is the encounter error text.
- The path `/` yields one crumb with an empty name linking to `/`
  (`RootPathCrumbs`).
- After the overflow trigger is clicked, the non-last crumbs go through
  `renderCrumb`, which shows a name only for the last crumb. So the expanded
  bar shows separators for the middle crumbs and no names
  (`Presenter.LayoutSpec`: exactly one name is shown inline, in both states).
  This is listed under "## Findings" below. `Presenter.Layout` models the
  code as written. `Presenter.IntendedLayout` is the corrected bar, which
  links each crumb before the last by name; `Component.Breadcrumbs.View`
  renders with it.

## Model

| member | source | states |
|---|---|---|
| Wrappers.Somes | src/components/Common/Breadcrumbs.tsx:117 | `.filter(Boolean)` keeps no more elements than it was given, and each kept value is present in the input |
| Wrappers.SomesAt | src/components/Common/Breadcrumbs.tsx:99-117 | the k-th kept value sits at the k-th present position; the positions increase; every present position is kept |
| Text.Split | src/components/Common/Breadcrumbs.tsx:101 | `split` always gives at least one piece, and no piece contains the separator |
| Text.JoinSplit | src/components/Common/Breadcrumbs.tsx:164-167 | joining the pieces of a split gives back the string |
| Text.SplitJoin | src/components/Common/Breadcrumbs.tsx:164-167 | splitting a join of separator-free pieces gives back the pieces |
| Text.SplitCount | src/components/Common/Breadcrumbs.tsx:150-153 | a split has one more piece than the string has separators |
| Text.JoinTakePrefix | src/components/Common/Breadcrumbs.tsx:164-167 | joining the first n pieces gives a prefix of the string, followed by a separator when pieces remain |
| Text.Take | src/components/Common/Breadcrumbs.tsx:166 | `slice(0, n)` is a prefix of at most n elements, exactly n when there are enough, and the whole sequence when n reaches its length |
| Text.ToUpper | src/components/Common/Breadcrumbs.tsx:41 | ASCII upper-casing shifts `a`-`z` down by 32 and leaves every other character alone |
| Labels.MenuLabel | src/components/Common/Breadcrumbs.tsx:27-35 | a segment in the keyword table shows its table label; any other segment shows its capitalised text |
| Labels.Capitalize | src/components/Common/Breadcrumbs.tsx:37-42 | `capitalize` is title-casing after `_`/`-` become spaces, and keeps the length |
| Labels.WordsAreTitleCase | src/components/Common/Breadcrumbs.tsx:40-42 | splitting on spaces, capitalising each word and joining again upper-cases exactly the characters at the start or after a space |
| Labels.CapitalizeSpec | src/components/Common/Breadcrumbs.tsx:37-42 | `capitalize` keeps the length and leaves no `_` or `-`; each character becomes a space (for `_`/`-`), is upper-cased (when it starts a word) or is kept |
| Labels.CapitalizeIdempotent | src/components/Common/Breadcrumbs.tsx:37-42 | capitalising twice equals capitalising once |
| Identifiers.MatchesRepeatSpec | src/components/Common/Breadcrumbs.tsx:103 | the anchored pattern of n class atoms matches exactly the strings of length n made of class characters |
| Identifiers.IsIdShaped | src/components/Common/Breadcrumbs.tsx:103 | the id test holds exactly for 36 characters that are each a hex digit (either case) or a hyphen |
| Identifiers.AllHyphensIsIdShaped | src/components/Common/Breadcrumbs.tsx:154 | 36 hyphens pass the id test, and 35 or 37 hyphens fail it |
| Queries.Segments | src/components/Common/Breadcrumbs.tsx:99-101 | `path.slice(1).split("/")` has at least one segment |
| Queries.KeywordType | src/components/Common/Breadcrumbs.tsx:106-113 | the entity kind is Facility, Patient or Encounter exactly when the previous segment is `facility`, `patient` or `encounter` |
| Queries.ClassifyAt | src/components/Common/Breadcrumbs.tsx:102-116 | a segment gets a query exactly when it qualifies (id-shaped, after a keyword, not segment 0), and the query holds the segment and the kind its predecessor names |
| Queries.IdQueries | src/components/Common/Breadcrumbs.tsx:99-117 | there are never more queries than segments, and every queried id is id-shaped |
| Queries.IdQueriesSpec | src/components/Common/Breadcrumbs.tsx:99-117 | the k-th query comes from the k-th qualifying segment in path order: an id-shaped segment after a keyword (never segment 0), with the id and the keyword's kind; every qualifying segment has a query |
| Queries.QueryIds | src/components/Common/Breadcrumbs.tsx:103-108 | every queried id is id-shaped and has 36 characters |
| Names.FetchedName | src/components/Common/Breadcrumbs.tsx:65-97 | a failed lookup gives its kind's error text; a facility or patient shows its found non-empty name, and the id exactly when the name is missing, empty or equal to the id; an encounter shows "Encounter on undefined" without data, "Encounter on " and the start with a period, and the error text when data has no period; a non-empty id gives a non-empty value |
| Names.Resolve | src/components/Common/Breadcrumbs.tsx:122-130 | a failed lookup gives the kind's error text, and a non-empty id never resolves to an empty name |
| Names.NamesOf | src/components/Common/Breadcrumbs.tsx:119-137 | the last query's id maps to its resolved name, and every key of the record is the id of some query |
| Names.FetchNames | src/components/Common/Breadcrumbs.tsx:119-137 | the loop's record equals the in-order fold of the queries' resolved names |
| Names.NamesKeys | src/components/Common/Breadcrumbs.tsx:119-137 | the record's keys are exactly the queried ids |
| Names.NamesLastWins | src/components/Common/Breadcrumbs.tsx:131-133 | an id queried several times keeps the name from its last query |
| Names.NamesFromQueries | src/components/Common/Breadcrumbs.tsx:122-134 | every stored name is the resolved name of some query for that id |
| Names.NamesNonEmpty | src/components/Common/Breadcrumbs.tsx:65-97 | with non-empty ids, no stored name is empty |
| Trail.BuildCrumbs | src/components/Common/Breadcrumbs.tsx:150-153 | there is one crumb per segment |
| Trail.CrumbName | src/components/Common/Breadcrumbs.tsx:157-161 | a non-empty override name wins; otherwise a non-id segment shows its label, an id-shaped one its non-empty stored name or else "Loading..." |
| Trail.PrefixUri | src/components/Common/Breadcrumbs.tsx:164-167 | the default link is never longer than the path, and is the whole path once the slice takes every piece |
| Trail.CrumbCount | src/components/Common/Breadcrumbs.tsx:150-153 | the number of crumbs is the number of `/` after the first character, plus one |
| Trail.NameOverrideWins | src/components/Common/Breadcrumbs.tsx:157-158 | a non-empty override name is the crumb's name |
| Trail.UriOverrideWins | src/components/Common/Breadcrumbs.tsx:162-163 | a non-empty override link is the crumb's link |
| Trail.StyleOverrideWins | src/components/Common/Breadcrumbs.tsx:168 | a non-empty override style is the crumb's style |
| Trail.LabelCrumbName | src/components/Common/Breadcrumbs.tsx:159-161 | without an override, a non-id segment shows its table label or its title-cased text |
| Trail.CrumbsIgnoreNames | src/components/Common/Breadcrumbs.tsx:153-169 | the names record affects only the names of id-shaped crumbs; links, styles and all other crumbs are the same for any record |
| Trail.ResolvedCrumbName | src/components/Common/Breadcrumbs.tsx:141-160 | with the record fetched for the same path, a qualifying segment shows its stored name, which is never empty |
| Trail.UnqueriedCrumbLoads | src/components/Common/Breadcrumbs.tsx:159-160 | an id-shaped segment that no query names shows "Loading..." even after the names arrive |
| Trail.PrefixUriIsPrefix | src/components/Common/Breadcrumbs.tsx:164-167 | the default link is a prefix of the path, followed by `/` when it stops before the last piece |
| Trail.PrefixUriRooted | src/components/Common/Breadcrumbs.tsx:164-167 | for a path starting with `/`, the default link of crumb i is `/` followed by segments 0..i joined by `/` |
| Trail.CrumbUri | src/components/Common/Breadcrumbs.tsx:162-167 | without a link override, a crumb links to a prefix of the path that ends at a segment boundary; the last crumb links to the path itself |
| Trail.CrumbStyle | src/components/Common/Breadcrumbs.tsx:168 | without a style override, the style is empty |
| Trail.RootPathCrumbs | src/components/Common/Breadcrumbs.tsx:150-168 | the path `/` gives exactly one crumb, with an empty name, linking to `/` |
| Presenter.RenderCrumb | src/components/Common/Breadcrumbs.tsx:172-185 | a crumb shows its name exactly when its index is the last index of the full list; otherwise only a separator; the style is kept and there is no menu |
| Presenter.Layout | src/components/Common/Breadcrumbs.tsx:187-255 | the bar starts with Home; it is only Home exactly when there is no path; with crumbs it ends with the last crumb's name and style |
| Presenter.MiddleNames | src/components/Common/Breadcrumbs.tsx:218-253 | what sits between Home and the last crumb shows no name, collapsed or expanded |
| Presenter.MiddleMenus | src/components/Common/Breadcrumbs.tsx:218-253 | the middle's menu holds every crumb but the last while collapsed with at least two crumbs, and is empty otherwise |
| Presenter.LayoutLength | src/components/Common/Breadcrumbs.tsx:218-255 | the bar has 2 items for one crumb, 3 collapsed, and one more than the crumbs expanded |
| Presenter.MiddleItems | src/components/Common/Breadcrumbs.tsx:218-251 | between Home and the last crumb, the collapsed bar holds the menu of every crumb but the last, and the expanded bar one separator per earlier crumb in that crumb's style |
| Presenter.LayoutSpec | src/components/Common/Breadcrumbs.tsx:172-255 | the bar starts with Home; exactly one name is shown inline, the last crumb's, at the end; the overflow menu lists exactly the crumbs before the last when there are at least two and the bar is not expanded, and there is no menu otherwise; the bar's length is 1, 2, 3 or the number of crumbs plus one; collapsed, the item after Home is that menu; expanded, item k is a separator in the style of crumb k - 1, for every crumb before the last |
| Presenter.LayoutShapeStable | src/components/Common/Breadcrumbs.tsx:218-255 | two crumb lists of the same length give bars of the same shape, so names that arrive later change only the text |
| Presenter.IntendedExpanded | src/components/Common/Breadcrumbs.tsx:172-251 | expanded, the corrected bar shows every crumb's name in order, and offers no menu |
| Presenter.IntendedCollapsed | src/components/Common/Breadcrumbs.tsx:218-250 | collapsed, the corrected bar is the bar as written |
| Presenter.IntendedLayout | src/components/Common/Breadcrumbs.tsx:187-255 | the corrected bar starts with Home, is only Home exactly when there are no crumbs, and ends with the last crumb's name and style |
| Presenter.ExpandedBarHidesNames | src/components/Common/Breadcrumbs.tsx:251 | on two crumbs, the expanded bar as written shows only the last name and no menu, while the corrected bar shows both names |
| Component.Breadcrumbs.constructor | src/components/Common/Breadcrumbs.tsx:63 | the bar starts collapsed with an empty names record |
| Component.Breadcrumbs.Expand | src/components/Common/Breadcrumbs.tsx:229 | clicking the trigger sets `showFullPath` and leaves the names alone |
| Component.Breadcrumbs.OnPathChange | src/components/Common/Breadcrumbs.tsx:139-148 | a path change replaces the record with the names fetched for that path and leaves `showFullPath` as it was |
| Component.Breadcrumbs.Crumbs | src/components/Common/Breadcrumbs.tsx:150-153 | there are crumbs exactly when there is a path, and then at least one |
| Component.Breadcrumbs.View | src/components/Common/Breadcrumbs.tsx:187-255 | the rendered bar (with the expanded state corrected, see "## Findings") starts with Home, is only Home exactly when there is no path, and ends with the last crumb's name and style |
| Component.Breadcrumbs.ViewNames | src/components/Common/Breadcrumbs.tsx:187-255 | with a path, the collapsed bar shows only the last crumb's name and lists the other crumbs in order in its menu; with the expanded state corrected (see "## Findings"), the expanded bar shows every crumb's name in order and has no menu |
| Scenarios.FacilityPathSegments | src/components/Common/Breadcrumbs.tsx:99-101 | `/facility/<id>/patients` has the segments `facility`, the id and `patients` |
| Scenarios.FacilityPathQueries | src/components/Common/Breadcrumbs.tsx:99-117 | that path asks for exactly one name, the facility's |
| Scenarios.FacilityPathLabels | src/components/Common/Breadcrumbs.tsx:150-168 | its first crumb is "Facilities" linking to `/facility`, and its last is "Patients" linking to the path, whatever the names |
| Scenarios.FacilityPathIdCrumb | src/components/Common/Breadcrumbs.tsx:119-160 | its id crumb shows "Loading..." before the names arrive and the facility's fetched name after |
| Scenarios.FacilityPatients | src/components/Common/Breadcrumbs.tsx:65-168 | the whole scenario: one query; loading text, then the fetched name, which is the facility's own name when the lookup finds a non-empty one, or "Error fetching facility" when it fails; the label crumbs unchanged |
| Scenarios.FacilityNameShown | src/components/Common/Breadcrumbs.tsx:65-161 | a facility lookup answering "General Hospital" makes the middle crumb of `/facility/<id>/patients` read "General Hospital" |
| Scenarios.KeywordsArePlain | src/components/Common/Breadcrumbs.tsx:27-35 | no keyword in the table contains `/` or is id-shaped |
| Scenarios.KeywordPath | src/components/Common/Breadcrumbs.tsx:27-35 | a path naming one keyword (such as `/notice_board`) gives one crumb with the table label, linking to the path, and no lookups; a non-empty override name renames it |

## Findings

| source | as written | input that shows it | evidently intended | confidence | as-written member | corrected member |
|---|---|---|---|---|---|---|
| src/components/Common/Breadcrumbs.tsx:172-185, 251 | once expanded, the crumbs before the last are rendered by `renderCrumb`, whose `isLastItem` is false for each of them, so they show only a separator: their names appear neither inline nor in a menu | the crumbs "Facilities" and "Patients" with `showFullPath` set: the bar shows only "Patients" | the expanded bar shows every crumb before the last by name, as the overflow menu it replaces does | medium, not executed | Presenter.ExpandedBarHidesNames | Presenter.IntendedExpanded |

## Left out

- React rendering: hooks, re-render timing, JSX, CSS classes, the `Link`, `Button` and dropdown primitives, and React keys. These are presentation plumbing. `Presenter.Layout` records only which items appear, in which order, and with which text.
- The `className`, `hideBack`, `backUrl` and `onBackClick` props, the back button and `goBack`. They concern navigation, not the trail.
- The request client and endpoint registry are not modelled. Each request is the result of the `lookup` parameter. The model reads only the fields the wrappers read. A `period.start` that is `null` or not a string is not modelled.
- `Names.FetchNames`: the lookup is one pure function, so asking twice for the same kind and id, in one path change or in two, always gives the same answer. A server whose answers change over time is not modelled.
- `console.error` logging is left out. It has no effect on the result.
- Concurrency: the effect's awaits, and a stale `setNames` from an earlier path arriving after a later one. `Component.Breadcrumbs.OnPathChange` runs a path change's lookups and its record update as one step. Renders between two path changes read whatever record is current.
- Text beyond ASCII: `Text.ToUpper` upper-cases only `a`-`z`, not the full Unicode mapping of `toUpperCase`.
- Property names that every JavaScript object inherits, such as `constructor` or `toString`, are not modelled. In the code such a segment finds a value in `replacements` and `MENU_TAGS`. The model treats these tables as plain maps, so such a segment finds nothing.
- A `crumbs` list of length 0 cannot occur, because splitting always gives a piece. `Presenter.Layout` therefore requires a present list to be non-empty.
- src/components/Licenses/SBOMViewer.tsx, scripts/fetchSbomData.ts and scripts/fetchSbomData.js are not part of this model. They are a UI page and network-to-file scripts with no breadcrumb logic.
