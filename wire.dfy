/**
 * Low-level text handling shared by the coordinator and the storage node:
 * Java's `String.split(" ")` as the handlers use it, the space-joined word
 * lists they build, and decimal numerals (`Integer.parseInt` and the
 * implicit int-to-string conversion in string concatenation).
 */
module Wire {

  newtype byte = x: int | 0 <= x < 256

  datatype Option<+T> = None | Some(value: T)

  /** An opaque identifier for one open connection (a socket in the source). */
  type ConnId = nat

  /** A protocol argument: non-empty and free of the separator. */
  predicate IsWord(w: string) {
    |w| > 0 && ' ' !in w
  }

  predicate AllWords(ws: seq<string>) {
    forall i :: 0 <= i < |ws| ==> IsWord(ws[i])
  }

  predicate Distinct<T(==)>(s: seq<T>) {
    forall i, j :: 0 <= i < j < |s| ==> s[i] != s[j]
  }

  // ---------------------------------------------------------------------
  // Java's String.split(" ")
  // ---------------------------------------------------------------------

  /** Splits at every single space, keeping every (possibly empty) piece. */
  function RawSplit(s: string): (r: seq<string>)
    ensures |r| >= 1
    ensures forall i :: 0 <= i < |r| ==> ' ' !in r[i]
    decreases |s|
  {
    if |s| == 0 then [""]
    else
      var rest := RawSplit(s[1..]);
      if s[0] == ' ' then [""] + rest
      else [[s[0]] + rest[0]] + rest[1..]
  }

  function DropTrailingEmpty(ws: seq<string>): (r: seq<string>)
    ensures |r| <= |ws| && r == ws[..|r|]
    ensures |r| > 0 ==> r[|r| - 1] != ""
    ensures forall i :: |r| <= i < |ws| ==> ws[i] == ""
  {
    if |ws| > 0 && ws[|ws| - 1] == "" then DropTrailingEmpty(ws[..|ws| - 1]) else ws
  }

  /**
   * `s.split(" ")` in Java: when the separator does not occur the result
   * is the whole string (so "" gives [""]); otherwise the pieces between
   * separators with trailing empty pieces removed.
   */
  function Split(s: string): (r: seq<string>)
    ensures forall i :: 0 <= i < |r| ==> ' ' !in r[i]
    ensures ' ' !in s ==> r == [s]
  {
    if ' ' !in s then [s] else DropTrailingEmpty(RawSplit(s))
  }

  /** The words separated by single spaces (`String.join(" ", ws)`). */
  function JoinWords(ws: seq<string>): string {
    if |ws| == 0 then ""
    else if |ws| == 1 then ws[0]
    else ws[0] + " " + JoinWords(ws[1..])
  }

  /** Every word followed by one space: what `acc += w + " "` builds in a loop. */
  function Spaced(ws: seq<string>): string {
    if |ws| == 0 then "" else Spaced(ws[..|ws| - 1]) + ws[|ws| - 1] + " "
  }

  lemma {:induction false} RawSplitNoSpace(a: string)
    requires ' ' !in a
    ensures RawSplit(a) == [a]
    decreases |a|
  {
    if |a| > 0 {
      RawSplitNoSpace(a[1..]);
      assert [a[0]] + a[1..] == a;
    }
  }

  lemma {:induction false} RawSplitCons(a: string, b: string)
    requires ' ' !in a
    ensures RawSplit(a + " " + b) == [a] + RawSplit(b)
    decreases |a|
  {
    var s := a + " " + b;
    if |a| == 0 {
      assert s[0] == ' ' && s[1..] == b;
    } else {
      assert s[0] == a[0];
      assert s[1..] == a[1..] + " " + b;
      RawSplitCons(a[1..], b);
      assert [a[0]] + a[1..] == a;
    }
  }

  /** Splitting undoes joining: the pieces of a space-joined word list are the words. */
  lemma {:induction false} RawSplitJoin(ws: seq<string>)
    requires |ws| >= 1 && AllWords(ws)
    ensures RawSplit(JoinWords(ws)) == ws
    decreases |ws|
  {
    if |ws| == 1 {
      RawSplitNoSpace(ws[0]);
    } else {
      RawSplitJoin(ws[1..]);
      RawSplitCons(ws[0], JoinWords(ws[1..]));
      assert [ws[0]] + ws[1..] == ws;
    }
  }

  lemma JoinWordsHasSpace(ws: seq<string>)
    requires |ws| >= 2
    ensures ' ' in JoinWords(ws)
  {
    var s := JoinWords(ws);
    assert s == ws[0] + " " + JoinWords(ws[1..]);
    assert s[|ws[0]|] == ' ';
  }

  /** `JoinWords(ws).split(" ") == ws` for a non-empty list of words. */
  lemma SplitJoin(ws: seq<string>)
    requires |ws| >= 1 && AllWords(ws)
    ensures Split(JoinWords(ws)) == ws
  {
    RawSplitJoin(ws);
    if |ws| >= 2 {
      JoinWordsHasSpace(ws);
    }
  }

  lemma JoinWordsCons(w: string, ws: seq<string>)
    requires |ws| >= 1
    ensures JoinWords([w] + ws) == w + " " + JoinWords(ws)
  {
    assert ([w] + ws)[1..] == ws;
  }

  lemma {:induction false} JoinWordsSnoc(ws: seq<string>, w: string)
    requires |ws| >= 1
    ensures JoinWords(ws + [w]) == JoinWords(ws) + " " + w
    decreases |ws|
  {
    if |ws| == 1 {
      assert (ws + [w])[1..] == [w];
    } else {
      assert (ws + [w])[1..] == ws[1..] + [w];
      JoinWordsSnoc(ws[1..], w);
    }
  }

  /** The loop-built `w1 + " " + ... + wn + " "` is the joined list plus one trailing space. */
  lemma {:induction false} SpacedIsJoinPlusSpace(ws: seq<string>)
    requires |ws| >= 1
    ensures Spaced(ws) == JoinWords(ws) + " "
    decreases |ws|
  {
    if |ws| > 1 {
      var init := ws[..|ws| - 1];
      SpacedIsJoinPlusSpace(init);
      JoinWordsSnoc(init, ws[|ws| - 1]);
      assert init + [ws[|ws| - 1]] == ws;
    }
  }

  lemma SpacedSnoc(ws: seq<string>, w: string)
    ensures Spaced(ws + [w]) == Spaced(ws) + w + " "
  {
    assert (ws + [w])[..|ws|] == ws;
  }

  /**
   * Removing the last character of the loop-built string, when there is
   * one (`s.substring(0, s.length() - 1)`), gives the joined list.
   */
  lemma StripSpaced(ws: seq<string>)
    ensures var s := Spaced(ws);
      (if |s| > 0 then s[..|s| - 1] else s) == JoinWords(ws)
  {
    if |ws| >= 1 {
      SpacedIsJoinPlusSpace(ws);
    }
  }

  /** The last character of a non-empty loop-built string is the separator. */
  lemma SpacedEndsInSpace(ws: seq<string>)
    requires |ws| >= 1
    ensures |Spaced(ws)| >= 1 && Spaced(ws)[|Spaced(ws)| - 1..] == " "
  {
  }

  /**
   * The STORE handlers' loop: `ports += words[i] + " "` for the first n
   * words, then the last character dropped when there is one. The result
   * is the first n words joined by single spaces.
   */
  method JoinFirst(words: seq<string>, n: nat) returns (joined: string)
    requires n <= |words|
    ensures joined == JoinWords(words[..n])
  {
    joined := "";
    var i := 0;
    while i < n
      invariant 0 <= i <= n
      invariant joined == Spaced(words[..i])
    {
      assert words[..i + 1][..i] == words[..i];
      joined := joined + words[i] + " ";
      i := i + 1;
    }
    if |joined| > 0 {
      joined := joined[..|joined| - 1];
    }
    StripSpaced(words[..n]);
  }

  /**
   * An enumeration of a set in some order, each element once: what
   * `keySet().toArray()` or iterating a hash map's entries yields. The
   * order is whatever the choices below make it; nothing depends on it.
   */
  method Enumerate<T(==)>(s: set<T>) returns (xs: seq<T>)
    ensures |xs| == |s| && Distinct(xs)
    ensures forall x :: x in xs <==> x in s
  {
    xs := [];
    var rest := s;
    while rest != {}
      invariant rest <= s
      invariant forall x :: x in xs <==> x in s && x !in rest
      invariant |xs| + |rest| == |s|
      invariant Distinct(xs)
      decreases rest
    {
      var x :| x in rest;
      xs := xs + [x];
      rest := rest - {x};
    }
  }

  // ---------------------------------------------------------------------
  // Decimal numerals
  // ---------------------------------------------------------------------

  predicate IsDigit(c: char) {
    '0' <= c <= '9'
  }

  /** A non-empty string of decimal digits (what `Integer.parseInt` accepts here). */
  predicate IsNumeral(s: string) {
    |s| > 0 && forall i :: 0 <= i < |s| ==> IsDigit(s[i])
  }

  function DigitChar(d: nat): (c: char)
    requires d < 10
    ensures IsDigit(c) && c as int - '0' as int == d
  {
    ('0' as int + d) as char
  }

  function DigitValue(c: char): (d: nat)
    requires IsDigit(c)
    ensures d < 10 && DigitChar(d) == c
  {
    c as int - '0' as int
  }

  /** The decimal text of `n`, as Java prints an int. */
  function NatToString(n: nat): (s: string)
    ensures IsNumeral(s)
  {
    if n < 10 then [DigitChar(n)] else NatToString(n / 10) + [DigitChar(n % 10)]
  }

  /** `Integer.parseInt` on a numeral. */
  function ParseNat(s: string): nat
    requires IsNumeral(s)
  {
    if |s| == 1 then DigitValue(s[0])
    else ParseNat(s[..|s| - 1]) * 10 + DigitValue(s[|s| - 1])
  }

  lemma NumeralIsWord(s: string)
    requires IsNumeral(s)
    ensures IsWord(s)
  {
  }

  /** Printing a number and parsing it back gives the number. */
  lemma {:induction false} ParseNatToString(n: nat)
    ensures ParseNat(NatToString(n)) == n
  {
    if n >= 10 {
      var s := NatToString(n);
      assert s[..|s| - 1] == NatToString(n / 10);
      ParseNatToString(n / 10);
    }
  }
}
