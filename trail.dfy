/** The crumb builder: one crumb per path segment, with a display name, a
    link target and a style, each of which a caller override can replace. */
module Trail {
  import opened Wrappers
  import opened Text
  import opened Labels
  import opened Identifiers
  import opened Queries
  import opened Names

  /** A caller override for the crumb of one raw segment; each field that is
      absent or empty leaves the computed value in place. */
  datatype Replacement = Replacement(name: Option<string>, uri: Option<string>, style: Option<string>)

  type Replacements = map<string, Replacement>

  datatype Crumb = Crumb(name: string, uri: string, style: string)

  /** What an identifier crumb shows until its name is known. */
  const LoadingText: string := "Loading..."

  /** JavaScript's `a || b` for a string that may be `undefined`: `a` unless
      it is absent or empty. */
  function Or(a: Option<string>, b: string): string
  {
    if a.Some? && a.value != "" then a.value else b
  }

  function NameOverride(field: string, replacements: Replacements): Option<string>
  {
    if field in replacements then replacements[field].name else None
  }

  function UriOverride(field: string, replacements: Replacements): Option<string>
  {
    if field in replacements then replacements[field].uri else None
  }

  function StyleOverride(field: string, replacements: Replacements): Option<string>
  {
    if field in replacements then replacements[field].style else None
  }

  /** `names[field]`, absent when the record has no such key. */
  function NameIn(names: map<string, string>, field: string): Option<string>
  {
    if field in names then Some(names[field]) else None
  }

  /** The crumb's name: the override, else for an id-shaped segment its
      fetched name or the loading text, else the segment's label. */
  function CrumbName(field: string, replacements: Replacements, names: map<string, string>): (name: string)
    ensures NameOverride(field, replacements) !in {None, Some("")} ==> name == NameOverride(field, replacements).value
    ensures NameOverride(field, replacements) in {None, Some("")} ==>
              && (!IsIdShaped(field) ==> name == MenuLabel(field))
              && (IsIdShaped(field) && field in names && names[field] != "" ==> name == names[field])
              && (IsIdShaped(field) && (field !in names || names[field] == "") ==> name == LoadingText)
  {
    Or(NameOverride(field, replacements),
       if IsIdShaped(field) then Or(NameIn(names, field), LoadingText) else MenuLabel(field))
  }

  /** `path.split("/").slice(0, i + 2).join("/")`: never longer than the
      path, and the whole path once the slice takes every piece. */
  function PrefixUri(path: string, i: nat): (uri: string)
    ensures |uri| <= |path|
    ensures i + 2 >= |Split(path, '/')| ==> uri == path
  {
    if i + 2 <= |Split(path, '/')| then
      JoinTakePrefix(path, '/', i + 2);
      JoinSplit(path, '/');
      Join(Take(Split(path, '/'), i + 2), '/')
    else
      JoinSplit(path, '/');
      Join(Take(Split(path, '/'), i + 2), '/')
  }

  /** The crumb for segment `field` at index `i`. */
  function CrumbAt(path: string, field: string, i: nat, replacements: Replacements, names: map<string, string>): Crumb
  {
    Crumb(CrumbName(field, replacements, names),
          Or(UriOverride(field, replacements), PrefixUri(path, i)),
          Or(StyleOverride(field, replacements), ""))
  }

  /** `crumbs`: one crumb per segment of `path.slice(1).split("/")`. */
  function BuildCrumbs(path: string, replacements: Replacements, names: map<string, string>): (crumbs: seq<Crumb>)
    ensures |crumbs| == |Segments(path)|
  {
    var segs := Segments(path);
    seq(|segs|, i requires 0 <= i < |segs| => CrumbAt(path, segs[i], i, replacements, names))
  }

  /** There is one crumb per `/` after the first character, plus one. */
  lemma CrumbCount(path: string, replacements: Replacements, names: map<string, string>)
    ensures |BuildCrumbs(path, replacements, names)| == multiset(Tail(path))['/'] + 1
  {
    SplitCount(Tail(path), '/');
  }

  /** A non-empty name override wins over everything else. */
  lemma NameOverrideWins(path: string, replacements: Replacements, names: map<string, string>, i: nat)
    requires i < |Segments(path)|
    requires Segments(path)[i] in replacements
    requires replacements[Segments(path)[i]].name.Some? && replacements[Segments(path)[i]].name.value != ""
    ensures BuildCrumbs(path, replacements, names)[i].name == replacements[Segments(path)[i]].name.value
  {
  }

  /** A non-empty link override is the crumb's link. */
  lemma UriOverrideWins(path: string, replacements: Replacements, names: map<string, string>, i: nat)
    requires i < |Segments(path)|
    requires Segments(path)[i] in replacements
    requires replacements[Segments(path)[i]].uri.Some? && replacements[Segments(path)[i]].uri.value != ""
    ensures BuildCrumbs(path, replacements, names)[i].uri == replacements[Segments(path)[i]].uri.value
  {
  }

  /** A non-empty style override is the crumb's style. */
  lemma StyleOverrideWins(path: string, replacements: Replacements, names: map<string, string>, i: nat)
    requires i < |Segments(path)|
    requires Segments(path)[i] in replacements
    requires replacements[Segments(path)[i]].style.Some? && replacements[Segments(path)[i]].style.value != ""
    ensures BuildCrumbs(path, replacements, names)[i].style == replacements[Segments(path)[i]].style.value
  {
  }

  /** Without a name override, a segment that is not id-shaped shows its
      keyword label, or else its capitalised text. */
  lemma LabelCrumbName(path: string, replacements: Replacements, names: map<string, string>, i: nat)
    requires i < |Segments(path)|
    requires NameOverride(Segments(path)[i], replacements) in {None, Some("")}
    requires !IsIdShaped(Segments(path)[i])
    ensures var field := Segments(path)[i];
            BuildCrumbs(path, replacements, names)[i].name ==
              if field in MenuTags then MenuTags[field] else TitleCase(Spaced(field))
  {
    CapitalizeSpec(Segments(path)[i]);
  }

  /** Names are only ever read for id-shaped segments: every other crumb,
      and every crumb's link and style, is the same whatever the record. */
  lemma CrumbsIgnoreNames(path: string, replacements: Replacements, names1: map<string, string>, names2: map<string, string>)
    ensures |BuildCrumbs(path, replacements, names1)| == |BuildCrumbs(path, replacements, names2)|
    ensures forall i :: 0 <= i < |Segments(path)| ==>
              && BuildCrumbs(path, replacements, names1)[i].uri == BuildCrumbs(path, replacements, names2)[i].uri
              && BuildCrumbs(path, replacements, names1)[i].style == BuildCrumbs(path, replacements, names2)[i].style
              && (!IsIdShaped(Segments(path)[i]) ==> BuildCrumbs(path, replacements, names1)[i] == BuildCrumbs(path, replacements, names2)[i])
  {
  }

  /** With the record that `fetchNames` builds for the same path, every
      qualifying segment shows its fetched name, which is never empty. */
  lemma ResolvedCrumbName(path: string, replacements: Replacements, lookup: Lookup, i: nat)
    requires Qualifies(Segments(path), i)
    requires NameOverride(Segments(path)[i], replacements) in {None, Some("")}
    ensures var names := NamesOf(IdQueries(path), lookup);
            && Segments(path)[i] in names
            && BuildCrumbs(path, replacements, names)[i].name == names[Segments(path)[i]]
            && names[Segments(path)[i]] != ""
  {
    var names := NamesOf(IdQueries(path), lookup);
    var segs := Segments(path);
    IdQueriesSpec(path);
    QueryIds(path);
    var k :| 0 <= k < |QueryPositions(path)| && QueryPositions(path)[k] == i;
    assert IdQueries(path)[k].id == segs[i];
    NamesKeys(IdQueries(path), lookup);
    NamesNonEmpty(IdQueries(path), lookup);
  }

  /** An id-shaped segment that no query names (say, after a keyword other
      than the three) keeps the loading text for good. */
  lemma UnqueriedCrumbLoads(path: string, replacements: Replacements, lookup: Lookup, i: nat)
    requires i < |Segments(path)|
    requires IsIdShaped(Segments(path)[i])
    requires forall q :: q in IdQueries(path) ==> q.id != Segments(path)[i]
    requires NameOverride(Segments(path)[i], replacements) in {None, Some("")}
    ensures BuildCrumbs(path, replacements, NamesOf(IdQueries(path), lookup))[i].name == LoadingText
  {
    NamesKeys(IdQueries(path), lookup);
  }

  /** The default link is a prefix of the path, followed by `/` in the path
      when it stops before the last piece. */
  lemma PrefixUriIsPrefix(path: string, i: nat)
    ensures PrefixUri(path, i) <= path
    ensures i + 2 < |Split(path, '/')| ==> PrefixUri(path, i) + "/" <= path
  {
    if i + 2 <= |Split(path, '/')| {
      JoinTakePrefix(path, '/', i + 2);
    }
  }

  /** For a path that starts with `/`, the default link is the slash followed
      by the segments up to this one. */
  lemma PrefixUriRooted(path: string, i: nat)
    requires path != [] && path[0] == '/'
    requires i < |Segments(path)|
    ensures |Split(path, '/')| == |Segments(path)| + 1
    ensures PrefixUri(path, i) == "/" + Join(Segments(path)[..i + 1], '/')
  {
    var parts := Split(path, '/');
    var segs := Segments(path);
    assert IndexOf(path, '/') == 0;
    assert parts == [""] + segs;
    assert Take(parts, i + 2) == [""] + segs[..i + 1];
    JoinCons("", segs[..i + 1], '/');
  }

  /** Without a link override, a crumb links to a prefix of the path that
      ends where a segment ends; for a path starting with `/` it is the
      slash followed by the segments up to this one, and the last crumb links
      to the path itself. */
  lemma CrumbUri(path: string, replacements: Replacements, names: map<string, string>, i: nat)
    requires i < |Segments(path)|
    requires UriOverride(Segments(path)[i], replacements) in {None, Some("")}
    ensures var uri := BuildCrumbs(path, replacements, names)[i].uri;
            && uri <= path
            && (path != [] && path[0] == '/' ==>
                  && uri == "/" + Join(Segments(path)[..i + 1], '/')
                  && (i == |Segments(path)| - 1 ==> uri == path)
                  && (i < |Segments(path)| - 1 ==> uri + "/" <= path))
  {
    assert BuildCrumbs(path, replacements, names)[i].uri == PrefixUri(path, i);
    PrefixUriIsPrefix(path, i);
    if path != [] && path[0] == '/' {
      PrefixUriRooted(path, i);
      if i == |Segments(path)| - 1 {
        assert Take(Split(path, '/'), i + 2) == Split(path, '/');
        JoinSplit(path, '/');
      }
    }
  }

  /** Without a style override, the style is empty. */
  lemma CrumbStyle(path: string, replacements: Replacements, names: map<string, string>, i: nat)
    requires i < |Segments(path)|
    requires StyleOverride(Segments(path)[i], replacements) in {None, Some("")}
    ensures BuildCrumbs(path, replacements, names)[i].style == ""
  {
  }

  /** The root path gives one crumb with an empty name, not an empty trail. */
  lemma RootPathCrumbs(names: map<string, string>)
    ensures BuildCrumbs("/", map[], names) == [Crumb("", "/", "")]
  {
    assert Tail("/") == "";
    assert IndexOf("", '/') == 0;
    assert Segments("/") == [""];
    assert IndexOf("/", '/') == 0;
    assert Split("/", '/') == ["", ""];
    assert PrefixUri("/", 0) == "/";
    assert !IsIdShaped("");
    assert Spaced("") == "";
    assert IndexOf("", ' ') == 0;
    assert Capitalize("") == "";
    assert CrumbName("", map[], names) == "";
  }
}
