/** The breadcrumb component's state: the one-way `showFullPath` flag and the
    `names` record that every path change replaces. */
module Component {
  import opened Wrappers
  import opened Queries
  import opened Names
  import opened Trail
  import opened Presenter

  /** The queries for the current path; with no path there are none. */
  function QueriesFor(path: Option<string>): seq<Query>
  {
    match path
    case None => []
    case Some(p) => IdQueries(p)
  }

  class Breadcrumbs {
    /** Set once the overflow trigger is clicked; never cleared. */
    var showFullPath: bool
    /** The last record `fetchNames` delivered. */
    var names: map<string, string>

    constructor ()
      ensures !showFullPath && names == map[]
    {
      showFullPath := false;
      names := map[];
    }

    /** Clicking the overflow trigger. */
    method Expand()
      modifies this
      ensures showFullPath
      ensures names == old(names)
    {
      showFullPath := true;
    }

    /** The effect run on a path change: fetch the names for the new path one
        by one and replace the whole record with the result. */
    method OnPathChange(path: Option<string>, lookup: Lookup)
      modifies this
      ensures names == NamesOf(QueriesFor(path), lookup)
      ensures showFullPath == old(showFullPath)
    {
      var fetched := FetchNames(QueriesFor(path), lookup);
      names := fetched;
    }

    /** `crumbs` for the current path, from the current record. */
    function Crumbs(path: Option<string>, replacements: Replacements): (crumbs: Option<seq<Crumb>>)
      reads this
      ensures crumbs.Some? <==> path.Some?
      ensures crumbs.Some? ==> |crumbs.value| >= 1
    {
      match path
      case None => None
      case Some(p) => Some(BuildCrumbs(p, replacements, names))
    }

    /** What the component renders now, with the expanded bar corrected to
        show its crumbs by name: the home link first, nothing else without a
        path, and the last crumb at the end. */
    function View(path: Option<string>, replacements: Replacements): (items: seq<Item>)
      reads this
      ensures |items| >= 1 && items[0] == HomeLink
      ensures path.None? <==> |items| == 1
      ensures path.Some? ==>
                var cs := Crumbs(path, replacements).value;
                items[|items| - 1] == Current(cs[|cs| - 1].name, cs[|cs| - 1].style)
    {
      IntendedLayout(Crumbs(path, replacements), showFullPath)
    }

    /** With a path, the collapsed bar shows only the last crumb's name and
        lists every other crumb, in order, in its menu; the expanded bar, as
        corrected by `IntendedLayout`, shows every crumb's name, in order,
        and has no menu. */
    lemma ViewNames(path: string, replacements: Replacements)
      ensures var cs := BuildCrumbs(path, replacements, names);
              var n := |cs|;
              var items := View(Some(path), replacements);
              && InlineNames(items) == (if showFullPath then CrumbNames(cs) else [cs[n - 1].name])
              && MenuEntries(items) == (if n > 1 && !showFullPath then cs[..n - 1] else [])
    {
      var cs := BuildCrumbs(path, replacements, names);
      if showFullPath {
        IntendedExpanded(cs);
      } else {
        IntendedCollapsed(cs);
        LayoutNames(cs, false);
      }
    }
  }

  /** A user session: once expanded, the bar stays expanded through later
      path changes, and each path change leaves exactly that path's names. */
  method Session(path1: string, path2: string, lookup: Lookup)
  {
    var b := new Breadcrumbs();
    assert !b.showFullPath;
    b.OnPathChange(Some(path1), lookup);
    b.Expand();
    b.OnPathChange(Some(path2), lookup);
    assert b.showFullPath;
    assert b.names == NamesOf(IdQueries(path2), lookup);
  }
}
