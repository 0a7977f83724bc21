/** Borough-name normalisation: lower-case the whole name, split it on
    single spaces, upper-case the first character of every word and join
    the words back with single spaces ("STATEN ISLAND" becomes
    "Staten Island").  Case mapping is modelled for ASCII letters only. */
module Names {

  /** ASCII lower-casing of one character. */
  function LowerChar(c: char): char {
    if 'A' <= c <= 'Z' then (c as int + 32) as char else c
  }

  /** ASCII upper-casing of one character. */
  function UpperChar(c: char): char {
    if 'a' <= c <= 'z' then (c as int - 32) as char else c
  }

  /** Lower-cases every character. */
  function Lower(s: string): string {
    seq(|s|, i requires 0 <= i < |s| => LowerChar(s[i]))
  }

  /** Splits at every space; two adjacent spaces give an empty word, and
      there is always at least one word. */
  function Split(s: string): (ws: seq<string>)
    ensures |ws| >= 1
    decreases |s|
  {
    if s == [] then [[]]
    else
      var rest := Split(s[1..]);
      if s[0] == ' ' then [[]] + rest
      else [[s[0]] + rest[0]] + rest[1..]
  }

  /** Joins words with a single space between consecutive words. */
  function Join(ws: seq<string>): string
    requires |ws| >= 1
    decreases |ws|
  {
    if |ws| == 1 then ws[0] else ws[0] + " " + Join(ws[1..])
  }

  /** Upper-cases the first character of a word and keeps the rest. */
  function CapitalizeWord(w: string): string {
    if w == [] then [] else [UpperChar(w[0])] + w[1..]
  }

  /** Applies `CapitalizeWord` to every word. */
  function CapitalizeWords(ws: seq<string>): seq<string> {
    seq(|ws|, i requires 0 <= i < |ws| => CapitalizeWord(ws[i]))
  }

  /** The borough-name normalisation. */
  function Capitalize(s: string): string {
    Join(CapitalizeWords(Split(Lower(s))))
  }

  /** Joining the words of a split gives the original string back. */
  lemma {:induction false} JoinSplit(s: string)
    ensures Join(Split(s)) == s
    decreases |s|
  {
    if s != [] {
      var rest := Split(s[1..]);
      JoinSplit(s[1..]);
      if s[0] == ' ' {
        assert s == [s[0]] + s[1..];
      } else {
        JoinFront(s[0], rest[0], rest[1..]);
        assert [rest[0]] + rest[1..] == rest;
        assert s == [s[0]] + s[1..];
      }
    }
  }

  /** No word of a split contains a space. */
  lemma {:induction false} SplitWordsHaveNoSpace(s: string)
    ensures forall i :: 0 <= i < |Split(s)| ==> ' ' !in Split(s)[i]
    decreases |s|
  {
    if s != [] {
      SplitWordsHaveNoSpace(s[1..]);
    }
  }

  /** A character put in front of the first word goes in front of the join. */
  lemma JoinFront(c: char, w: string, rest: seq<string>)
    ensures Join([[c] + w] + rest) == [c] + Join([w] + rest)
  {
    if rest != [] {
      assert ([[c] + w] + rest)[1..] == rest;
      assert ([w] + rest)[1..] == rest;
    }
  }

  /** The character-level reading of `Capitalize` on a lower-cased string:
      a character is upper-cased exactly when it starts a word, that is
      when it is first (`atStart`) or follows a space. */
  function Titled(t: string, atStart: bool): (r: string)
    ensures |r| == |t|
    decreases |t|
  {
    if t == [] then []
    else [if atStart then UpperChar(t[0]) else t[0]] + Titled(t[1..], t[0] == ' ')
  }

  /** Capitalising the words of a split, the first word only when `capFirst`. */
  function JoinTitled(ws: seq<string>, capFirst: bool): string
    requires |ws| >= 1
  {
    Join([if capFirst then CapitalizeWord(ws[0]) else ws[0]] + CapitalizeWords(ws[1..]))
  }

  /** Splitting, capitalising every word and joining is the character-level reading. */
  lemma {:induction false} JoinTitledSplit(t: string, atStart: bool)
    ensures JoinTitled(Split(t), atStart) == Titled(t, atStart)
    decreases |t|
  {
    if t != [] {
      var rest := Split(t[1..]);
      if t[0] == ' ' {
        JoinTitledSplit(t[1..], true);
        assert Split(t) == [[]] + rest;
        assert CapitalizeWords(rest) == [CapitalizeWord(rest[0])] + CapitalizeWords(rest[1..]);
        assert ([[]] + CapitalizeWords(rest))[1..] == CapitalizeWords(rest);
      } else {
        JoinTitledSplit(t[1..], false);
        var c := if atStart then UpperChar(t[0]) else t[0];
        assert Split(t) == [[t[0]] + rest[0]] + rest[1..];
        assert (if atStart then CapitalizeWord([t[0]] + rest[0]) else [t[0]] + rest[0]) == [c] + rest[0];
        JoinFront(c, rest[0], CapitalizeWords(rest[1..]));
      }
    }
  }

  /** Character `i` of the character-level reading. */
  lemma {:induction false} TitledAt(t: string, atStart: bool, i: nat)
    requires i < |t|
    ensures Titled(t, atStart)[i]
         == if (if i == 0 then atStart else t[i - 1] == ' ') then UpperChar(t[i]) else t[i]
    decreases |t|
  {
    if i > 0 {
      TitledAt(t[1..], t[0] == ' ', i - 1);
    }
  }

  /** Capitalize keeps the length; a character is upper-cased when it is the
      first or follows a space, and lower-cased otherwise. */
  lemma CapitalizeChars(s: string)
    ensures |Capitalize(s)| == |s|
    ensures forall i :: 0 <= i < |s| ==>
      Capitalize(s)[i] == if i == 0 || s[i - 1] == ' ' then UpperChar(LowerChar(s[i])) else LowerChar(s[i])
  {
    var t := Lower(s);
    var ws := Split(t);
    assert CapitalizeWords(ws) == [CapitalizeWord(ws[0])] + CapitalizeWords(ws[1..]);
    JoinTitledSplit(t, true);
    forall i | 0 <= i < |s|
      ensures Capitalize(s)[i] == if i == 0 || s[i - 1] == ' ' then UpperChar(LowerChar(s[i])) else LowerChar(s[i])
    {
      TitledAt(t, true, i);
    }
  }

  /** Case facts about single characters: lower-casing absorbs an earlier
      case mapping, and no case mapping produces or removes a space. */
  lemma CaseChar(c: char)
    ensures LowerChar(LowerChar(c)) == LowerChar(c)
    ensures LowerChar(UpperChar(LowerChar(c))) == LowerChar(c)
    ensures LowerChar(c) == ' ' <==> c == ' '
    ensures UpperChar(LowerChar(c)) == ' ' <==> c == ' '
  {
  }

  /** Character `i` of a capitalized name, as stated by `CapitalizeChars`. */
  lemma CapitalizeAt(s: string, i: nat)
    requires i < |s|
    ensures |Capitalize(s)| == |s|
    ensures Capitalize(s)[i] == if i == 0 || s[i - 1] == ' ' then UpperChar(LowerChar(s[i])) else LowerChar(s[i])
  {
    CapitalizeChars(s);
  }

  /** Capitalizing an already capitalized name changes nothing. */
  lemma CapitalizeIdempotent(s: string)
    ensures Capitalize(Capitalize(s)) == Capitalize(s)
  {
    var c := Capitalize(s);
    CapitalizeChars(s);
    CapitalizeChars(c);
    forall i | 0 <= i < |c| ensures Capitalize(c)[i] == c[i] {
      CapitalizeAt(s, i);
      CapitalizeAt(c, i);
      CaseChar(s[i]);
      if i > 0 {
        CapitalizeAt(s, i - 1);
        CaseChar(s[i - 1]);
      }
    }
  }

  /** Lower-casing before capitalizing changes nothing, so the extra
      lower-casing at the call site is redundant. */
  lemma CapitalizeIgnoresCase(s: string)
    ensures Capitalize(Lower(s)) == Capitalize(s)
  {
    var t := Lower(s);
    CapitalizeChars(s);
    CapitalizeChars(t);
    forall i | 0 <= i < |s| ensures Capitalize(t)[i] == Capitalize(s)[i] {
      CapitalizeAt(s, i);
      CapitalizeAt(t, i);
      CaseChar(s[i]);
      if i > 0 {
        CaseChar(s[i - 1]);
      }
    }
  }
}
