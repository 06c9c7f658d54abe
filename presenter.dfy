/** What the breadcrumb bar shows for a list of crumbs: the home link, then
    either the overflow menu or the middle crumbs, then the last crumb. */
module Presenter {
  import opened Wrappers
  import opened Trail

  datatype Item =
    | HomeLink                              // the fixed link to "/"
    | Overflow(entries: seq<Crumb>)         // the "•••" trigger and its menu of links
    | Separator(style: string)              // a non-last crumb rendered inline: a separator only
    | Current(name: string, style: string)  // the last crumb: a separator and its name
    | Linked(name: string, uri: string, style: string)  // a non-last crumb shown as a link (corrected layout only)

  /** The name an item shows inline, if any. */
  function ShownName(item: Item): seq<string>
  {
    if item.Current? || item.Linked? then [item.name] else []
  }

  /** The crumbs an item offers in a menu, if any. */
  function MenuOf(item: Item): seq<Crumb>
  {
    if item.Overflow? then item.entries else []
  }

  /** The names shown inline, in order. */
  function InlineNames(items: seq<Item>): seq<string>
  {
    if items == [] then [] else ShownName(items[0]) + InlineNames(items[1..])
  }

  /** The crumbs offered in overflow menus, in order. */
  function MenuEntries(items: seq<Item>): seq<Crumb>
  {
    if items == [] then [] else MenuOf(items[0]) + MenuEntries(items[1..])
  }

  lemma {:induction false} NamesAppend(a: seq<Item>, b: seq<Item>)
    ensures InlineNames(a + b) == InlineNames(a) + InlineNames(b)
  {
    if a == [] {
      assert a + b == b;
    } else {
      assert (a + b)[0] == a[0] && (a + b)[1..] == a[1..] + b;
      NamesAppend(a[1..], b);
    }
  }

  lemma {:induction false} MenusAppend(a: seq<Item>, b: seq<Item>)
    ensures MenuEntries(a + b) == MenuEntries(a) + MenuEntries(b)
  {
    if a == [] {
      assert a + b == b;
    } else {
      assert (a + b)[0] == a[0] && (a + b)[1..] == a[1..] + b;
      MenusAppend(a[1..], b);
    }
  }

  /** Items that each show no name show no names together. */
  lemma {:induction false} NoNames(items: seq<Item>)
    requires forall k :: 0 <= k < |items| ==> ShownName(items[k]) == []
    ensures InlineNames(items) == []
  {
    if items != [] {
      NoNames(items[1..]);
    }
  }

  /** Items that each offer no menu offer no menu together. */
  lemma {:induction false} NoMenus(items: seq<Item>)
    requires forall k :: 0 <= k < |items| ==> MenuOf(items[k]) == []
    ensures MenuEntries(items) == []
  {
    if items != [] {
      NoMenus(items[1..]);
    }
  }

  /** `renderCrumb(crumb, index)`: the name is shown only when `index` is the
      last index of the list it is compared with; the style is always kept. */
  function RenderCrumb(crumbs: seq<Crumb>, index: nat): (item: Item)
    requires index < |crumbs|
    ensures ShownName(item) == (if index == |crumbs| - 1 then [crumbs[index].name] else [])
    ensures MenuOf(item) == []
    ensures (item.Current? || item.Separator?) && item.style == crumbs[index].style
  {
    if index == |crumbs| - 1 then Current(crumbs[index].name, crumbs[index].style)
    else Separator(crumbs[index].style)
  }

  /** `crumbs.slice(0, -1).map(renderCrumb)`: the first `m` crumbs, each
      rendered with its index in the shortened list. */
  function RenderedCrumbs(cs: seq<Crumb>, m: nat): (items: seq<Item>)
    requires m <= |cs| - 1
    ensures |items| == m
  {
    seq(m, i requires 0 <= i < m => RenderCrumb(cs, i))
  }

  /** What sits between the home link and the last crumb: nothing for one
      crumb; otherwise the overflow menu, or once expanded the rendered
      crumbs before the last. */
  function Middle(cs: seq<Crumb>, showFullPath: bool): seq<Item>
    requires |cs| >= 1
  {
    var n := |cs|;
    if n > 1 then
      if !showFullPath then [Overflow(cs[..n - 1])] else RenderedCrumbs(cs, n - 1)
    else []
  }

  /** The rendered bar. `crumbs` is absent when there is no path; a present
      list is never empty, since splitting always gives a piece. */
  function Layout(crumbs: Option<seq<Crumb>>, showFullPath: bool): (items: seq<Item>)
    requires crumbs.Some? ==> |crumbs.value| >= 1
    ensures |items| >= 1 && items[0] == HomeLink
    ensures crumbs.None? <==> |items| == 1
    ensures crumbs.Some? ==>
              var cs := crumbs.value;
              items[|items| - 1] == Current(cs[|cs| - 1].name, cs[|cs| - 1].style)
  {
    match crumbs
    case None => [HomeLink]
    case Some(cs) => [HomeLink] + Middle(cs, showFullPath) + [RenderCrumb(cs, |cs| - 1)]
  }

  /** The middle shows no names: collapsed it is the menu, expanded every
      crumb in it is compared with the full list's last index and fails. */
  lemma MiddleNames(cs: seq<Crumb>, showFullPath: bool)
    requires |cs| >= 1
    ensures InlineNames(Middle(cs, showFullPath)) == []
  {
    var m := Middle(cs, showFullPath);
    forall k | 0 <= k < |m|
      ensures ShownName(m[k]) == []
    {
    }
    NoNames(m);
  }

  /** The middle's menu is every crumb but the last while collapsed, and
      nothing otherwise. */
  lemma MiddleMenus(cs: seq<Crumb>, showFullPath: bool)
    requires |cs| >= 1
    ensures MenuEntries(Middle(cs, showFullPath)) ==
              if |cs| > 1 && !showFullPath then cs[..|cs| - 1] else []
  {
    var m := Middle(cs, showFullPath);
    if |cs| > 1 && !showFullPath {
      assert MenuEntries(m) == MenuOf(m[0]) + MenuEntries([]);
    } else {
      forall k | 0 <= k < |m|
        ensures MenuOf(m[k]) == []
      {
      }
      NoMenus(m);
    }
  }

  /** The names and menu part of `LayoutSpec`, for a present list. */
  lemma LayoutNames(cs: seq<Crumb>, showFullPath: bool)
    requires |cs| >= 1
    ensures InlineNames(Layout(Some(cs), showFullPath)) == [cs[|cs| - 1].name]
    ensures MenuEntries(Layout(Some(cs), showFullPath)) == (if |cs| > 1 && !showFullPath then cs[..|cs| - 1] else [])
  {
    var front := [HomeLink] + Middle(cs, showFullPath);
    var last := [RenderCrumb(cs, |cs| - 1)];
    assert InlineNames(front) == [] by {
      NamesAppend([HomeLink], Middle(cs, showFullPath));
      MiddleNames(cs, showFullPath);
    }
    assert MenuEntries(front) == (if |cs| > 1 && !showFullPath then cs[..|cs| - 1] else []) by {
      MenusAppend([HomeLink], Middle(cs, showFullPath));
      MiddleMenus(cs, showFullPath);
    }
    NamesAppend(front, last);
    MenusAppend(front, last);
  }

  /** The bar has 2 items for one crumb, 3 collapsed, and expanded one more
      than there are crumbs. */
  lemma LayoutLength(cs: seq<Crumb>, showFullPath: bool)
    requires |cs| >= 1
    ensures |Layout(Some(cs), showFullPath)| == (if |cs| == 1 then 2 else if !showFullPath then 3 else |cs| + 1)
  {
    assert |Layout(Some(cs), showFullPath)| == |Middle(cs, showFullPath)| + 2;
  }

  /** Between the home link and the last crumb, the collapsed bar holds the
      overflow menu of every crumb but the last, and the expanded bar holds
      one separator per crumb before the last, in that crumb's style. */
  lemma MiddleItems(cs: seq<Crumb>, showFullPath: bool)
    requires |cs| > 1
    ensures var items := Layout(Some(cs), showFullPath);
            && (!showFullPath ==> |items| == 3 && items[1] == Overflow(cs[..|cs| - 1]))
            && (showFullPath ==>
                  && |items| == |cs| + 1
                  && forall k :: 1 <= k < |cs| ==> items[k] == Separator(cs[k - 1].style))
  {
    var items := Layout(Some(cs), showFullPath);
    var m := Middle(cs, showFullPath);
    assert items == [HomeLink] + m + [RenderCrumb(cs, |cs| - 1)];
    if showFullPath {
      forall k | 1 <= k < |cs|
        ensures items[k] == Separator(cs[k - 1].style)
      {
        assert items[k] == m[k - 1] == RenderCrumb(cs, k - 1);
      }
    }
  }

  /** The bar starts with the home link. With crumbs, exactly one name is
      shown inline, the last crumb's, at the end. The menu holds every crumb
      but the last, in order, exactly when there is more than one crumb and
      the full path is not shown; otherwise there is no menu. The bar has 1,
      2, 3 or (expanded) one more item than there are crumbs; expanded, each
      crumb before the last is a separator in its own style. */
  lemma LayoutSpec(crumbs: Option<seq<Crumb>>, showFullPath: bool)
    requires crumbs.Some? ==> |crumbs.value| >= 1
    ensures var items := Layout(crumbs, showFullPath);
            && items[0] == HomeLink
            && (crumbs.None? ==> items == [HomeLink])
            && (crumbs.Some? ==>
                  var cs := crumbs.value;
                  var n := |cs|;
                  && items[|items| - 1] == Current(cs[n - 1].name, cs[n - 1].style)
                  && InlineNames(items) == [cs[n - 1].name]
                  && MenuEntries(items) == (if n > 1 && !showFullPath then cs[..n - 1] else [])
                  && |items| == (if n == 1 then 2 else if !showFullPath then 3 else n + 1)
                  && (n > 1 && !showFullPath ==> items[1] == Overflow(cs[..n - 1]))
                  && (n > 1 && showFullPath ==>
                        forall k :: 1 <= k < n ==> items[k] == Separator(cs[k - 1].style)))
  {
    if crumbs.Some? {
      LayoutNames(crumbs.value, showFullPath);
      LayoutLength(crumbs.value, showFullPath);
      if |crumbs.value| > 1 {
        MiddleItems(crumbs.value, showFullPath);
      }
    }
  }

  /** Two bars have the same shape when they have the same items up to the
      text they show. */
  ghost predicate SameShape(a: seq<Item>, b: seq<Item>)
  {
    && |a| == |b|
    && forall k :: 0 <= k < |a| ==>
         && a[k].HomeLink? == b[k].HomeLink?
         && a[k].Separator? == b[k].Separator?
         && a[k].Current? == b[k].Current?
         && a[k].Overflow? == b[k].Overflow?
         && a[k].Linked? == b[k].Linked?
         && (a[k].Overflow? ==> |a[k].entries| == |b[k].entries|)
  }

  /** The layout depends on the crumbs only through their number: names
      resolving later change the text, never the shape or the collapse
      state. */
  lemma LayoutShapeStable(cs1: seq<Crumb>, cs2: seq<Crumb>, showFullPath: bool)
    requires |cs1| == |cs2| >= 1
    ensures SameShape(Layout(Some(cs1), showFullPath), Layout(Some(cs2), showFullPath))
  {
    var a := Layout(Some(cs1), showFullPath);
    var b := Layout(Some(cs2), showFullPath);
    var m1 := Middle(cs1, showFullPath);
    var m2 := Middle(cs2, showFullPath);
    assert |m1| == |m2|;
    assert a == [HomeLink] + m1 + [RenderCrumb(cs1, |cs1| - 1)];
    assert b == [HomeLink] + m2 + [RenderCrumb(cs2, |cs2| - 1)];
    forall k | 0 < k < |a| - 1
      ensures a[k] == m1[k - 1] && b[k] == m2[k - 1]
      ensures m1[k - 1].Overflow? == m2[k - 1].Overflow? && m1[k - 1].Separator? == m2[k - 1].Separator?
      ensures !m1[k - 1].HomeLink? && !m2[k - 1].HomeLink? && !m1[k - 1].Current? && !m2[k - 1].Current?
      ensures !m1[k - 1].Linked? && !m2[k - 1].Linked?
      ensures m1[k - 1].Overflow? ==> |m1[k - 1].entries| == |m2[k - 1].entries|
    {
    }
  }

  /** The render of a non-last crumb that the expanded bar evidently calls
      for: its name as a link to its target, as the overflow menu offers it. */
  function RenderCrumbLinked(crumbs: seq<Crumb>, index: nat): (item: Item)
    requires index < |crumbs|
    ensures ShownName(item) == [crumbs[index].name]
    ensures MenuOf(item) == []
  {
    if index == |crumbs| - 1 then Current(crumbs[index].name, crumbs[index].style)
    else Linked(crumbs[index].name, crumbs[index].uri, crumbs[index].style)
  }

  /** The first `m` crumbs rendered as links. */
  function LinkedCrumbs(cs: seq<Crumb>, m: nat): (items: seq<Item>)
    requires m <= |cs| - 1
    ensures |items| == m
  {
    seq(m, i requires 0 <= i < m => RenderCrumbLinked(cs, i))
  }

  /** The corrected bar: as `Layout`, except that the expanded bar links
      every crumb before the last by name. */
  function IntendedLayout(crumbs: Option<seq<Crumb>>, showFullPath: bool): (items: seq<Item>)
    requires crumbs.Some? ==> |crumbs.value| >= 1
    ensures |items| >= 1 && items[0] == HomeLink
    ensures crumbs.None? <==> |items| == 1
    ensures crumbs.Some? ==>
              var cs := crumbs.value;
              items[|items| - 1] == Current(cs[|cs| - 1].name, cs[|cs| - 1].style)
  {
    match crumbs
    case None => [HomeLink]
    case Some(cs) =>
      var n := |cs|;
      var middle := if n > 1 && showFullPath then LinkedCrumbs(cs, n - 1) else Middle(cs, showFullPath);
      [HomeLink] + middle + [RenderCrumb(cs, n - 1)]
  }

  /** The names of a list of crumbs, in order. */
  function CrumbNames(cs: seq<Crumb>): (r: seq<string>)
    ensures |r| == |cs|
  {
    seq(|cs|, i requires 0 <= i < |cs| => cs[i].name)
  }

  lemma {:induction false} LinkedNames(cs: seq<Crumb>, m: nat)
    requires m <= |cs| - 1
    ensures InlineNames(LinkedCrumbs(cs, m)) == CrumbNames(cs[..m])
  {
    if m > 0 {
      var init := LinkedCrumbs(cs, m - 1);
      var item := RenderCrumbLinked(cs, m - 1);
      LinkedNames(cs, m - 1);
      assert LinkedCrumbs(cs, m) == init + [item];
      NamesAppend(init, [item]);
      assert CrumbNames(cs[..m]) == CrumbNames(cs[..m - 1]) + [cs[m - 1].name];
    }
  }

  /** Collapsed, the corrected bar is the bar as written. */
  lemma IntendedCollapsed(cs: seq<Crumb>)
    requires |cs| >= 1
    ensures IntendedLayout(Some(cs), false) == Layout(Some(cs), false)
  {
  }

  /** Expanded, the corrected bar is the home link, the linked crumbs before
      the last, and the last crumb. */
  lemma IntendedExpandedItems(cs: seq<Crumb>)
    requires |cs| >= 1
    ensures IntendedLayout(Some(cs), true) ==
              [HomeLink] + LinkedCrumbs(cs, |cs| - 1) + [RenderCrumb(cs, |cs| - 1)]
  {
    if |cs| == 1 {
      assert LinkedCrumbs(cs, 0) == [] == Middle(cs, true);
    }
  }

  lemma LinkedBarNames(cs: seq<Crumb>)
    requires |cs| >= 1
    ensures InlineNames([HomeLink] + LinkedCrumbs(cs, |cs| - 1) + [RenderCrumb(cs, |cs| - 1)]) == CrumbNames(cs)
  {
    var n := |cs|;
    var front := [HomeLink] + LinkedCrumbs(cs, n - 1);
    assert InlineNames(front) == CrumbNames(cs[..n - 1]) by {
      LinkedNames(cs, n - 1);
      NamesAppend([HomeLink], LinkedCrumbs(cs, n - 1));
    }
    NamesAppend(front, [RenderCrumb(cs, n - 1)]);
    assert CrumbNames(cs) == CrumbNames(cs[..n - 1]) + [cs[n - 1].name];
  }

  lemma LinkedBarMenus(cs: seq<Crumb>)
    requires |cs| >= 1
    ensures MenuEntries([HomeLink] + LinkedCrumbs(cs, |cs| - 1) + [RenderCrumb(cs, |cs| - 1)]) == []
  {
    var bar := [HomeLink] + LinkedCrumbs(cs, |cs| - 1) + [RenderCrumb(cs, |cs| - 1)];
    forall k | 0 <= k < |bar|
      ensures MenuOf(bar[k]) == []
    {
    }
    NoMenus(bar);
  }

  /** Expanded, the corrected bar shows every crumb's name, in order, and
      offers no menu. */
  lemma IntendedExpanded(cs: seq<Crumb>)
    requires |cs| >= 1
    ensures InlineNames(IntendedLayout(Some(cs), true)) == CrumbNames(cs)
    ensures MenuEntries(IntendedLayout(Some(cs), true)) == []
  {
    IntendedExpandedItems(cs);
    LinkedBarNames(cs);
    LinkedBarMenus(cs);
  }

  /** The bar as written, on two crumbs: once expanded, the first crumb's
      name appears nowhere, neither inline nor in a menu, while the
      corrected bar shows both names. */
  lemma ExpandedBarHidesNames()
    ensures var cs := [Crumb("Facilities", "/facility", ""), Crumb("Patients", "/facility/patients", "")];
            && InlineNames(Layout(Some(cs), true)) == ["Patients"]
            && MenuEntries(Layout(Some(cs), true)) == []
            && InlineNames(IntendedLayout(Some(cs), true)) == ["Facilities", "Patients"]
  {
    var cs := [Crumb("Facilities", "/facility", ""), Crumb("Patients", "/facility/patients", "")];
    LayoutSpec(Some(cs), true);
    IntendedExpanded(cs);
    assert CrumbNames(cs) == ["Facilities", "Patients"];
  }
}
