/** The identifier shape test: the anchored pattern `[0-9a-fA-F-]{36}`. */
module Identifiers {

  /** One character of the class `[0-9a-fA-F-]`. */
  predicate IdChar(c: char)
  {
    ('0' <= c <= '9') || ('a' <= c <= 'f') || ('A' <= c <= 'F') || c == '-'
  }

  /** The anchored pattern `^[0-9a-fA-F-]{n}$`, matched one class atom at a
      time from the left. */
  predicate MatchesRepeat(s: string, n: nat)
  {
    if n == 0 then s == []
    else s != [] && IdChar(s[0]) && MatchesRepeat(s[1..], n - 1)
  }

  /** The length of an identifier. */
  const IdLength: nat := 36

  /** The test a segment must pass to be treated as an identifier: it holds
      exactly when the segment has 36 characters and each is a hex digit
      (either case) or a hyphen. */
  predicate IsIdShaped(field: string)
    ensures IsIdShaped(field) <==>
              |field| == 36 && forall i :: 0 <= i < |field| ==> IdChar(field[i])
  {
    MatchesRepeatSpec(field, IdLength);
    MatchesRepeat(field, IdLength)
  }

  lemma {:induction false} MatchesRepeatSpec(s: string, n: nat)
    ensures MatchesRepeat(s, n) <==> |s| == n && forall i :: 0 <= i < |s| ==> IdChar(s[i])
  {
    if n > 0 && s != [] {
      MatchesRepeatSpec(s[1..], n - 1);
      if |s| == n && forall i :: 0 <= i < |s| ==> IdChar(s[i]) {
        assert forall i :: 0 <= i < |s[1..]| ==> s[1..][i] == s[i + 1];
      }
      if MatchesRepeat(s, n) {
        forall i | 0 <= i < |s|
          ensures IdChar(s[i])
        {
          if i > 0 { assert s[i] == s[1..][i - 1]; }
        }
      }
    }
  }

  /** The test is a shape check, not UUID validation: 36 hyphens pass it. */
  lemma AllHyphensIsIdShaped()
    ensures IsIdShaped(seq(36, _ => '-'))
    ensures !IsIdShaped(seq(35, _ => '-')) && !IsIdShaped(seq(37, _ => '-'))
  {
    assert |seq(35, _ => '-')| == 35;
  }
}
