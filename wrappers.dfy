/** Optional values, and the `filter(Boolean)` step that drops the absent ones. */
module Wrappers {

  datatype Option<+T> = None | Some(value: T)

  /** The present values of `s`, in order: JavaScript's `.filter(Boolean)` over
      an array of objects and `null`s. */
  function Somes<T>(s: seq<Option<T>>): (r: seq<T>)
    ensures |r| <= |s|
    ensures forall k :: 0 <= k < |r| ==> Some(r[k]) in s
  {
    if s == [] then []
    else
      var init := Somes(s[..|s| - 1]);
      assert s == s[..|s| - 1] + [s[|s| - 1]];
      match s[|s| - 1]
      case None => init
      case Some(x) => init + [x]
  }

  /** The indices of `s` that hold a value, in increasing order. */
  ghost function SomePositions<T>(s: seq<Option<T>>): seq<nat>
  {
    if s == [] then []
    else if s[|s| - 1].Some? then SomePositions(s[..|s| - 1]) + [|s| - 1]
    else SomePositions(s[..|s| - 1])
  }

  ghost predicate StrictlyIncreasing(pos: seq<nat>)
  {
    forall a, b :: 0 <= a < b < |pos| ==> pos[a] < pos[b]
  }

  /** `Somes(s)[k]` is the value at the k-th present position of `s`, the
      positions are increasing and every present position is among them:
      the filter keeps every value, in order, and nothing else. */
  lemma {:induction false} SomesAt<T>(s: seq<Option<T>>)
    ensures |SomePositions(s)| == |Somes(s)|
    ensures StrictlyIncreasing(SomePositions(s))
    ensures forall k :: 0 <= k < |SomePositions(s)| ==>
              SomePositions(s)[k] < |s| && s[SomePositions(s)[k]] == Some(Somes(s)[k])
    ensures forall i :: 0 <= i < |s| && s[i].Some? ==> i in SomePositions(s)
  {
    if s != [] {
      var init := s[..|s| - 1];
      SomesAt(init);
      var pos := SomePositions(s);
      var pos0 := SomePositions(init);
      forall k | 0 <= k < |pos0|
        ensures pos0[k] < |init|
      {
      }
      forall i | 0 <= i < |s| && s[i].Some?
        ensures i in pos
      {
        if i < |s| - 1 {
          assert init[i] == s[i];
          assert i in pos0;
        }
      }
    }
  }
}
