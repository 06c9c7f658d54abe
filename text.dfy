/** JavaScript string operations the breadcrumb code relies on: `split` on one
    character, `join`, `slice`, and ASCII `toUpperCase`. */
module Text {

  /** Index of the first `c` in `s`, or `|s|` when there is none. */
  function IndexOf(s: string, c: char): (k: nat)
    ensures k <= |s|
    ensures k < |s| ==> s[k] == c
    ensures forall j :: 0 <= j < k ==> s[j] != c
  {
    if s == [] then 0
    else if s[0] == c then 0
    else 1 + IndexOf(s[1..], c)
  }

  /** `s.split(sep)`: the pieces between separators, always at least one
      (`"".split("/")` is `[""]`). */
  function Split(s: string, sep: char): (parts: seq<string>)
    ensures |parts| >= 1
    ensures forall k :: 0 <= k < |parts| ==> sep !in parts[k]
    decreases |s|
  {
    var k := IndexOf(s, sep);
    if k == |s| then [s]
    else [s[..k]] + Split(s[k + 1..], sep)
  }

  /** `parts.join(sep)`; the empty array joins to `""`. */
  function Join(parts: seq<string>, sep: char): string
  {
    if parts == [] then ""
    else if |parts| == 1 then parts[0]
    else parts[0] + [sep] + Join(parts[1..], sep)
  }

  /** `s.slice(1)`: everything but the first character (`""` stays `""`). */
  function Tail(s: string): string
  {
    if s == [] then [] else s[1..]
  }

  /** `a.slice(0, n)` for `n >= 0`: at most the first `n` elements. */
  function Take<T>(a: seq<T>, n: nat): (r: seq<T>)
    ensures |r| <= n && r <= a
    ensures n <= |a| ==> |r| == n
    ensures n >= |a| ==> r == a
  {
    if n <= |a| then a[..n] else a
  }

  /** ASCII `toUpperCase` of one character. */
  function ToUpper(c: char): (u: char)
    ensures 'a' <= c <= 'z' ==> u as int == c as int - 32
    ensures !('a' <= c <= 'z') ==> u == c
  {
    if 'a' <= c <= 'z' then (c as int - 32) as char else c
  }

  lemma UpperIdempotent(c: char)
    ensures ToUpper(ToUpper(c)) == ToUpper(c)
    ensures ToUpper(c) == ' ' <==> c == ' '
  {
  }

  /** Splitting at the first separator: the piece before it, then the
      pieces of the rest. */
  lemma SplitAtFirst(s: string, sep: char)
    requires IndexOf(s, sep) < |s|
    ensures var k := IndexOf(s, sep);
            && Split(s, sep) == [s[..k]] + Split(s[k + 1..], sep)
            && s == s[..k] + [sep] + s[k + 1..]
  {
    CutAt(s, IndexOf(s, sep));
  }

  /** A string is what comes before position `k`, the character there, and
      what follows. */
  lemma CutAt(s: string, k: nat)
    requires k < |s|
    ensures s == s[..k] + [s[k]] + s[k + 1..]
  {
    assert s[..k] + [s[k]] + s[k + 1..] == s[..k] + s[k..];
  }

  /** Splitting and joining again gives back the string. */
  lemma {:induction false} JoinSplit(s: string, sep: char)
    ensures Join(Split(s, sep), sep) == s
    decreases |s|
  {
    var k := IndexOf(s, sep);
    if k < |s| {
      var rest := Split(s[k + 1..], sep);
      SplitAtFirst(s, sep);
      JoinCons(s[..k], rest, sep);
      JoinSplit(s[k + 1..], sep);
    }
  }

  /** Joining pieces that hold no separator and splitting again gives back
      the pieces. */
  lemma {:induction false} SplitJoin(parts: seq<string>, sep: char)
    requires |parts| >= 1
    requires forall k :: 0 <= k < |parts| ==> sep !in parts[k]
    ensures Split(Join(parts, sep), sep) == parts
  {
    var s := Join(parts, sep);
    if |parts| == 1 {
      assert IndexOf(s, sep) == |s|;
    } else {
      var p := parts[0];
      var rest := Join(parts[1..], sep);
      assert s == p + [sep] + rest;
      assert s[|p|] == sep;
      assert IndexOf(s, sep) == |p|;
      assert s[..|p|] == p;
      assert s[|p| + 1..] == rest;
      SplitJoin(parts[1..], sep);
      assert parts == [p] + parts[1..];
    }
  }

  /** There is one more piece than there are separators. */
  lemma {:induction false} SplitCount(s: string, sep: char)
    ensures |Split(s, sep)| == multiset(s)[sep] + 1
    decreases |s|
  {
    var k := IndexOf(s, sep);
    if k == |s| {
      assert sep !in s;
    } else {
      SplitCount(s[k + 1..], sep);
      assert s == s[..k] + [sep] + s[k + 1..];
      assert sep !in s[..k];
      assert multiset(s) == multiset(s[..k]) + multiset([sep]) + multiset(s[k + 1..]);
    }
  }

  /** Joining a head piece onto a non-empty rest puts a separator between. */
  lemma JoinCons(head: string, rest: seq<string>, sep: char)
    requires rest != []
    ensures Join([head] + rest, sep) == head + [sep] + Join(rest, sep)
  {
    assert ([head] + rest)[1..] == rest;
  }

  /** Putting the same head before both sides keeps a prefix a prefix, with
      or without a separator after it. */
  lemma PrefixAfter(s: string, head: string, t: string, w: string, p: string, sep: char)
    requires s == head + t && w == head + p
    requires p <= t
    ensures w <= s
    ensures p + [sep] <= t ==> w + [sep] <= s
  {
    assert (head + t)[..|head + p|] == head + t[..|p|];
    if p + [sep] <= t {
      assert w + [sep] == head + (p + [sep]);
      assert (head + t)[..|head + p| + 1] == head + t[..|p| + 1];
    }
  }

  /** The first `n >= 2` pieces join to the piece before the first
      separator, the separator, and the first `n - 1` pieces of the rest. */
  lemma JoinTakeStep(s: string, sep: char, n: nat)
    requires IndexOf(s, sep) < |s|
    requires 2 <= n <= |Split(s, sep)|
    ensures var k := IndexOf(s, sep);
            Join(Split(s, sep)[..n], sep) == s[..k] + [sep] + Join(Split(s[k + 1..], sep)[..n - 1], sep)
  {
    var k := IndexOf(s, sep);
    var tail := Split(s[k + 1..], sep);
    assert Split(s, sep)[..n] == [s[..k]] + tail[..n - 1] && n - 1 <= |tail| by {
      SplitAtFirst(s, sep);
    }
    JoinCons(s[..k], tail[..n - 1], sep);
  }

  /** The step of `JoinTakePrefix`: the prefix property for the rest after
      the first separator carries over to the whole string. */
  lemma JoinTakePrefixStep(s: string, sep: char, n: nat)
    requires IndexOf(s, sep) < |s|
    requires 2 <= n <= |Split(s, sep)|
    requires var t := s[IndexOf(s, sep) + 1..];
             && Join(Split(t, sep)[..n - 1], sep) <= t
             && (n - 1 < |Split(t, sep)| ==> Join(Split(t, sep)[..n - 1], sep) + [sep] <= t)
    ensures Join(Split(s, sep)[..n], sep) <= s
    ensures n < |Split(s, sep)| ==> Join(Split(s, sep)[..n], sep) + [sep] <= s
  {
    var k := IndexOf(s, sep);
    var t := s[k + 1..];
    var head := s[..k] + [sep];
    var j := Join(Split(t, sep)[..n - 1], sep);
    assert s == head + t && |Split(s, sep)| == |Split(t, sep)| + 1 by {
      SplitAtFirst(s, sep);
    }
    assert Join(Split(s, sep)[..n], sep) == head + j by {
      JoinTakeStep(s, sep, n);
    }
    PrefixAfter(s, head, t, Join(Split(s, sep)[..n], sep), j, sep);
  }

  /** The first piece, followed by the separator, starts the string. */
  lemma JoinTakeFirst(s: string, sep: char)
    requires IndexOf(s, sep) < |s|
    ensures Join(Split(s, sep)[..1], sep) + [sep] <= s
  {
    var k := IndexOf(s, sep);
    SplitAtFirst(s, sep);
    assert Split(s, sep)[..1] == [s[..k]];
    assert s == (s[..k] + [sep]) + s[k + 1..];
  }

  lemma SplitLength(s: string, sep: char)
    requires IndexOf(s, sep) < |s|
    ensures |Split(s, sep)| == |Split(s[IndexOf(s, sep) + 1..], sep)| + 1
  {
  }

  /** Joining the first `n` pieces gives a prefix of the string; when pieces
      remain, the prefix is followed by a separator. */
  lemma {:induction false} JoinTakePrefix(s: string, sep: char, n: nat)
    requires 1 <= n <= |Split(s, sep)|
    ensures Join(Split(s, sep)[..n], sep) <= s
    ensures n < |Split(s, sep)| ==> Join(Split(s, sep)[..n], sep) + [sep] <= s
    decreases |s|
  {
    if n == |Split(s, sep)| {
      assert Split(s, sep)[..n] == Split(s, sep);
      JoinSplit(s, sep);
    } else if n == 1 {
      JoinTakeFirst(s, sep);
    } else {
      SplitLength(s, sep);
      JoinTakePrefix(s[IndexOf(s, sep) + 1..], sep, n - 1);
      JoinTakePrefixStep(s, sep, n);
    }
  }
}
