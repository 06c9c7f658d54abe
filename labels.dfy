/** Display labels for path segments that are not identifiers: the fixed
    keyword table, and the capitalisation fallback. */
module Labels {
  import opened Text

  /** The keyword table: a route segment and the label it is shown as. */
  const MenuTags: map<string, string> := map[
    "facility" := "Facilities",
    "patients" := "Patients",
    "assets" := "Assets",
    "shifting" := "Shiftings",
    "resource" := "Resources",
    "users" := "Users",
    "notice_board" := "Notice Board"
  ]

  /** Every `_` and `-` replaced by a space. */
  function Spaced(s: string): (t: string)
  {
    seq(|s|, i requires 0 <= i < |s| => if s[i] == '_' || s[i] == '-' then ' ' else s[i])
  }

  /** One word with its first character upper-cased (`""` stays `""`). */
  function CapitalizeWord(w: string): string
  {
    if w == [] then [] else [ToUpper(w[0])] + w[1..]
  }

  function CapitalizeWords(ws: seq<string>): seq<string>
  {
    seq(|ws|, i requires 0 <= i < |ws| => CapitalizeWord(ws[i]))
  }

  /** `capitalize`: replace `_` and `-` by spaces, split on spaces, upper-case
      the first character of each word and join with spaces again. */
  function Capitalize(s: string): (r: string)
    ensures r == TitleCase(Spaced(s))
    ensures |r| == |s|
  {
    WordsAreTitleCase(Spaced(s));
    Join(CapitalizeWords(Split(Spaced(s), ' ')), ' ')
  }

  /** Reference definition, character by character: a character is
      upper-cased exactly when it starts the string or follows a space. */
  function TitleCase(t: string): (r: string)
  {
    seq(|t|, i requires 0 <= i < |t| => if i == 0 || t[i - 1] == ' ' then ToUpper(t[i]) else t[i])
  }

  lemma TitleCaseSplit(t: string, k: nat)
    requires k < |t| && t[k] == ' '
    ensures TitleCase(t) == TitleCase(t[..k]) + [' '] + TitleCase(t[k + 1..])
  {
    var lhs := TitleCase(t);
    var rhs := TitleCase(t[..k]) + [' '] + TitleCase(t[k + 1..]);
    assert |lhs| == |rhs|;
    forall i | 0 <= i < |t|
      ensures lhs[i] == rhs[i]
    {
      if i < k {
        assert rhs[i] == TitleCase(t[..k])[i];
      } else if i == k {
      } else {
        assert rhs[i] == TitleCase(t[k + 1..])[i - k - 1];
      }
    }
  }

  /** A word without spaces is title-cased by upper-casing its head. */
  lemma TitleCaseWord(w: string)
    requires ' ' !in w
    ensures TitleCase(w) == CapitalizeWord(w)
  {
    if w != [] {
      var r := CapitalizeWord(w);
      forall i | 0 < i < |w|
        ensures TitleCase(w)[i] == r[i]
      {
        assert w[i - 1] != ' ';
      }
    }
  }

  lemma CapitalizeWordsCons(w: string, ws: seq<string>)
    ensures CapitalizeWords([w] + ws) == [CapitalizeWord(w)] + CapitalizeWords(ws)
  {
    var lhs := CapitalizeWords([w] + ws);
    var rhs := [CapitalizeWord(w)] + CapitalizeWords(ws);
    forall i | 0 <= i < |lhs|
      ensures lhs[i] == rhs[i]
    {
      if i > 0 {
        assert ([w] + ws)[i] == ws[i - 1];
      }
    }
  }

  /** Capitalising the words of a string with a space: the first word,
      the space, and the capitalised words of the rest. */
  lemma WordsAtFirstSpace(t: string)
    requires IndexOf(t, ' ') < |t|
    ensures var k := IndexOf(t, ' ');
            Join(CapitalizeWords(Split(t, ' ')), ' ') ==
              CapitalizeWord(t[..k]) + [' '] + Join(CapitalizeWords(Split(t[k + 1..], ' ')), ' ')
  {
    var k := IndexOf(t, ' ');
    var tail := Split(t[k + 1..], ' ');
    SplitAtFirst(t, ' ');
    CapitalizeWordsCons(t[..k], tail);
    JoinCons(CapitalizeWord(t[..k]), CapitalizeWords(tail), ' ');
  }

  /** Splitting into words, capitalising each and joining again is the same
      as title-casing the string character by character. */
  lemma {:induction false} WordsAreTitleCase(t: string)
    ensures Join(CapitalizeWords(Split(t, ' ')), ' ') == TitleCase(t)
    decreases |t|
  {
    var k := IndexOf(t, ' ');
    if k == |t| {
      assert Split(t, ' ') == [t];
      TitleCaseWord(t);
    } else {
      WordsAtFirstSpace(t);
      WordsAreTitleCase(t[k + 1..]);
      assert ' ' !in t[..k];
      TitleCaseWord(t[..k]);
      TitleCaseSplit(t, k);
    }
  }

  /** `capitalize` is title-casing after `_`/`-` become spaces: it keeps the
      length, leaves no `_` or `-`, and upper-cases exactly the characters
      that start a word. */
  lemma CapitalizeSpec(s: string)
    ensures Capitalize(s) == TitleCase(Spaced(s))
    ensures |Capitalize(s)| == |s|
    ensures '_' !in Capitalize(s) && '-' !in Capitalize(s)
    ensures forall i :: 0 <= i < |s| ==>
              Capitalize(s)[i] ==
                if s[i] == '_' || s[i] == '-' then ' '
                else if i == 0 || Spaced(s)[i - 1] == ' ' then ToUpper(s[i])
                else s[i]
  {
    WordsAreTitleCase(Spaced(s));
    var r := Capitalize(s);
    forall i | 0 <= i < |r|
      ensures r[i] != '_' && r[i] != '-'
    {
    }
  }

  /** Capitalising twice is the same as capitalising once. */
  lemma CapitalizeIdempotent(s: string)
    ensures Capitalize(Capitalize(s)) == Capitalize(s)
  {
    var c := Capitalize(s);
    CapitalizeSpec(s);
    CapitalizeSpec(c);
    assert Spaced(c) == c;
    forall i | 0 <= i < |c|
      ensures TitleCase(c)[i] == c[i]
    {
      var t := Spaced(s);
      if i == 0 || t[i - 1] == ' ' {
        UpperIdempotent(t[i]);
      } else {
        UpperIdempotent(t[i - 1]);
      }
    }
  }

  /** The label a non-identifier segment gets without an override: the
      keyword table's entry, or else the capitalised segment. */
  function MenuLabel(field: string): (shown: string)
    ensures field in MenuTags ==> shown == MenuTags[field]
    ensures field !in MenuTags ==> shown == Capitalize(field)
  {
    if field in MenuTags && MenuTags[field] != "" then MenuTags[field] else Capitalize(field)
  }
}
