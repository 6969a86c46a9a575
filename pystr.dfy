/**
 * The Python string operations the chess and tournament code relies on:
 * `str.split()`, `str.split(sep)`, `sep.join`, `strip`, `startswith`,
 * `int(...)` on a string, `str(n)` on an integer and the ASCII case maps.
 * Character classes are those of ASCII; Python's wider Unicode classes are
 * not modelled.
 */
module PyStr {
  import opened Common

  // ---------------------------------------------------------------- characters

  /** Python's `str.isspace()` restricted to ASCII: space, \t \n \v \f \r and \x1c-\x1f. */
  predicate IsSpace(c: char) {
    c == ' ' || (9 <= c as int <= 13) || (28 <= c as int <= 31)
  }

  predicate IsDigit(c: char) { '0' <= c <= '9' }
  predicate IsUpper(c: char) { 'A' <= c <= 'Z' }
  predicate IsLower(c: char) { 'a' <= c <= 'z' }

  function Lower(c: char): (r: char)
    ensures IsUpper(c) ==> IsLower(r)
    ensures !IsUpper(c) ==> r == c
  {
    if IsUpper(c) then (c as int + 32) as char else c
  }

  /** Python's `s.lower()`, letter by letter. */
  function LowerText(s: string): (r: string)
    ensures |r| == |s| && forall i :: 0 <= i < |s| ==> r[i] == Lower(s[i])
  {
    if s == [] then [] else [Lower(s[0])] + LowerText(s[1..])
  }

    function Upper(c: char): (r: char)
    ensures IsLower(c) ==> IsUpper(r)
    ensures !IsLower(c) ==> r == c
  {
    if IsLower(c) then (c as int - 32) as char else c
  }

  function DigitVal(c: char): (n: nat)
    requires IsDigit(c)
    ensures n < 10
  {
    c as int - '0' as int
  }

  function DigitChar(n: nat): (c: char)
    requires n < 10
    ensures IsDigit(c) && DigitVal(c) == n
  {
    ('0' as int + n) as char
  }

  /** No character of `s` is white space. */
  predicate NoSpace(s: string) {
    forall i :: 0 <= i < |s| ==> !IsSpace(s[i])
  }

  // ---------------------------------------------------------------- str.split()

  /** The longest prefix of `s` free of white space. */
  function Word(s: string): (w: string)
    ensures |w| <= |s| && w == s[..|w|]
    ensures NoSpace(w)
    ensures |w| < |s| ==> IsSpace(s[|w|])
  {
    if s == [] || IsSpace(s[0]) then [] else [s[0]] + Word(s[1..])
  }

  /** Python's `s.split()`: the maximal runs of non-space characters, in order. */
  function Split(s: string): (r: seq<string>)
    ensures forall i :: 0 <= i < |r| ==> r[i] != [] && NoSpace(r[i])
    decreases |s|
  {
    if s == [] then []
    else if IsSpace(s[0]) then Split(s[1..])
    else var w := Word(s); [w] + Split(s[|w|..])
  }

  /** Python's `sep.join(parts)`. */
  function Join(sep: string, parts: seq<string>): string {
    if |parts| == 0 then ""
    else if |parts| == 1 then parts[0]
    else parts[0] + sep + Join(sep, parts[1..])
  }

  /** Joining two non-empty lists puts one separator between their joins. */
  lemma {:induction false} JoinAppend(sep: string, a: seq<string>, b: seq<string>)
    requires a != [] && b != []
    ensures Join(sep, a + b) == Join(sep, a) + sep + Join(sep, b)
    decreases |a|
  {
    if |a| == 1 {
      assert (a + b)[1..] == b;
    } else {
      JoinAppend(sep, a[1..], b);
      assert (a + b)[1..] == a[1..] + b;
    }
  }

  lemma WordOfPrefix(a: string, t: string)
    requires NoSpace(a)
    requires t == [] || IsSpace(t[0])
    ensures Word(a + t) == a
  {
    if a != [] {
      assert (a + t)[1..] == a[1..] + t;
      WordOfPrefix(a[1..], t);
    } else {
      assert a + t == t;
      assert Word(t) == [];
    }
  }

  /**
   * Splitting a space-joined list of non-empty, space-free fields gives the
   * fields back: the reason a FEN string can be read back field by field.
   */
  lemma {:induction false} SplitJoin(parts: seq<string>)
    requires forall i :: 0 <= i < |parts| ==> parts[i] != [] && NoSpace(parts[i])
    ensures Split(Join(" ", parts)) == parts
  {
    if |parts| == 0 {
    } else if |parts| == 1 {
      var a := parts[0];
      WordOfPrefix(a, []);
      assert a + [] == a;
      assert a[|a|..] == [];
    } else {
      var a := parts[0];
      var rest := Join(" ", parts[1..]);
      var s := a + " " + rest;
      assert s == a + (" " + rest);
      WordOfPrefix(a, " " + rest);
      assert s[|a|..] == " " + rest;
      assert (" " + rest)[1..] == rest;
      SplitJoin(parts[1..]);
      assert parts == [a] + parts[1..];
    }
  }

  // ---------------------------------------------------------------- str.split(sep)

  /** Python's `s.split(sep)` for a one-character separator: always at least one piece. */
  function SplitOn(s: string, sep: char): (r: seq<string>)
    ensures |r| >= 1
  {
    if s == [] then [""]
    else
      var rest := SplitOn(s[1..], sep);
      if s[0] == sep then [""] + rest else [[s[0]] + rest[0]] + rest[1..]
  }

  lemma SplitOnPrefix(a: string, t: string, sep: char)
    requires sep !in a
    ensures SplitOn(a + t, sep) == [a + SplitOn(t, sep)[0]] + SplitOn(t, sep)[1..]
  {
    if a != [] {
      assert (a + t)[1..] == a[1..] + t;
      SplitOnPrefix(a[1..], t, sep);
      var r := SplitOn(t, sep);
      var rest := SplitOn(a[1..] + t, sep);
      assert rest[0] == a[1..] + r[0];
      assert [a[0]] + rest[0] == a + r[0];
    } else {
      assert a + t == t;
      var r := SplitOn(t, sep);
      assert a + r[0] == r[0];
      assert r == [r[0]] + r[1..];
    }
  }

  /** A `sep`-free string splits into itself alone. */
  lemma SplitOnFree(a: string, sep: char)
    requires sep !in a
    ensures SplitOn(a, sep) == [a]
  {
    SplitOnPrefix(a, [], sep);
    assert a + [] == a;
  }

  /** A leading separator splits off an empty piece. */
  lemma SplitOnSepHead(rest: string, sep: char)
    ensures SplitOn([sep] + rest, sep) == [""] + SplitOn(rest, sep)
  {
    assert ([sep] + rest)[1..] == rest;
  }

  /** Splitting a `sep`-joined list of `sep`-free pieces gives the pieces back. */
  lemma {:induction false} SplitOnJoin(parts: seq<string>, sep: char)
    requires |parts| >= 1
    requires forall i :: 0 <= i < |parts| ==> sep !in parts[i]
    ensures SplitOn(Join([sep], parts), sep) == parts
  {
    var a := parts[0];
    if |parts| == 1 {
      SplitOnFree(a, sep);
    } else {
      var rest := Join([sep], parts[1..]);
      assert Join([sep], parts) == a + ([sep] + rest);
      SplitOnPrefix(a, [sep] + rest, sep);
      SplitOnSepHead(rest, sep);
      SplitOnJoin(parts[1..], sep);
      assert a + "" == a;
      assert parts == [a] + parts[1..];
    }
  }

  // ---------------------------------------------------------------- strip / startswith

  function LStrip(s: string): (r: string)
    ensures |r| <= |s|
  {
    if s != [] && IsSpace(s[0]) then LStrip(s[1..]) else s
  }

  function RStrip(s: string): (r: string)
    ensures |r| <= |s|
  {
    if s != [] && IsSpace(s[|s| - 1]) then RStrip(s[..|s| - 1]) else s
  }

  /** Python's `s.strip()`. */
  function Strip(s: string): (r: string)
    ensures r == [] || (!IsSpace(r[0]) && !IsSpace(r[|r| - 1]))
  {
    StripEnds(s);
    RStrip(LStrip(s))
  }

  /** A string without white space is its own `strip()`. */
  lemma StripNoSpace(s: string)
    requires NoSpace(s)
    ensures Strip(s) == s
  {
    assert LStrip(s) == s;
  }

  /** A string that starts with a non-space character splits into at least one field. */
  lemma SplitStartsWithWord(s: string)
    requires s != [] && !IsSpace(s[0])
    ensures Split(s) != [] && Split(s)[0] == Word(s)
  {
  }

  lemma StripEnds(s: string)
    ensures var r := RStrip(LStrip(s)); r == [] || (!IsSpace(r[0]) && !IsSpace(r[|r| - 1]))
  {
    var l := LStrip(s);
    LStripHead(s);
    RStripKeepsHead(l);
  }

  lemma LStripHead(s: string)
    ensures LStrip(s) == [] || !IsSpace(LStrip(s)[0])
  {
  }

  lemma RStripKeepsHead(s: string)
    requires s == [] || !IsSpace(s[0])
    ensures var r := RStrip(s); r == [] || (!IsSpace(r[0]) && !IsSpace(r[|r| - 1]))
    ensures RStrip(s) == s[..|RStrip(s)|]
  {
    if s != [] && IsSpace(s[|s| - 1]) {
      RStripKeepsHead(s[..|s| - 1]);
    }
  }

  /** Python's `s.startswith(prefix)`. */
  predicate StartsWith(s: string, prefix: string) {
    |prefix| <= |s| && s[..|prefix|] == prefix
  }

  /** Python's `s.replace(ch, '')` for one character. */
  function RemoveChar(s: string, ch: char): (r: string)
    ensures ch !in r
    ensures forall c :: c in r ==> c in s
  {
    if s == [] then []
    else
      var rest := RemoveChar(s[1..], ch);
      (if s[0] == ch then [] else [s[0]]) + rest
  }

  lemma RemoveCharCons(c: char, s: string, ch: char)
    ensures RemoveChar([c] + s, ch) == (if c == ch then [] else [c]) + RemoveChar(s, ch)
  {
    assert ([c] + s)[0] == c && ([c] + s)[1..] == s;
  }

  /** Removing a character keeps every other character, as many times as before. */
  lemma {:induction false} RemoveCharCount(s: string, ch: char)
    ensures multiset(RemoveChar(s, ch)) == multiset(s)[ch := 0]
  {
    if s != [] {
      var t := s[1..];
      assert s == [s[0]] + t;
      RemoveCharCount(t, ch);
      RemoveCharCons(s[0], t, ch);
    }
  }

  /** Removing a character from a concatenation removes it from both parts. */
  lemma {:induction false} RemoveCharAppend(a: string, b: string, ch: char)
    ensures RemoveChar(a + b, ch) == RemoveChar(a, ch) + RemoveChar(b, ch)
  {
    if a == [] {
      assert a + b == b;
    } else {
      var t := a[1..];
      assert a + b == [a[0]] + (t + b) && a == [a[0]] + t;
      RemoveCharAppend(t, b, ch);
      RemoveCharCons(a[0], t + b, ch);
      RemoveCharCons(a[0], t, ch);
    }
  }

  /** Removing a character that does not occur changes nothing. */
  lemma {:induction false} RemoveCharAbsent(s: string, ch: char)
    requires ch !in s
    ensures RemoveChar(s, ch) == s
  {
    if s != [] {
      var t := s[1..];
      assert s == [s[0]] + t && ch !in t;
      RemoveCharAbsent(t, ch);
      RemoveCharCons(s[0], t, ch);
    }
  }

  // ---------------------------------------------------------------- int(s) and str(n)

  /**
   * The body of a Python integer literal: decimal digits, where single
   * underscores may stand between two digits ("1_000").
   */
  predicate DigitGroups(s: string) {
    && DigitsOrUnderscores(s)
    && |s| > 0
    && IsDigit(s[0])
    && IsDigit(s[|s| - 1])
    && forall i :: 0 <= i < |s| ==>
         IsDigit(s[i]) || (s[i] == '_' && 0 < i < |s| - 1 && IsDigit(s[i - 1]) && IsDigit(s[i + 1]))
  }

  predicate DigitsOrUnderscores(s: string) {
    forall i :: 0 <= i < |s| ==> IsDigit(s[i]) || s[i] == '_'
  }

  /** The value of a digit string, underscores skipped. */
  function DigitsValue(s: string): nat
    requires DigitsOrUnderscores(s)
  {
    if s == [] then 0
    else
      var init := DigitsValue(s[..|s| - 1]);
      if s[|s| - 1] == '_' then init else init * 10 + DigitVal(s[|s| - 1])
  }

  /**
   * Python's `int(s)` on a string without surrounding white space: an optional
   * sign, then digit groups; `None` where Python raises `ValueError`.
   */
  function ParseInt(s: string): (r: Option<int>)
    ensures r.Some? ==> |s| > 0
  {
    if |s| > 0 && (s[0] == '-' || s[0] == '+') then
      if DigitGroups(s[1..]) then
        var v: int := DigitsValue(s[1..]);
        Some(if s[0] == '-' then -v else v)
      else None
    else if DigitGroups(s) then Some(DigitsValue(s))
    else None
  }

  /** Python's `str(n)` for a natural number. */
  function NatToString(n: nat): (s: string)
    ensures |s| >= 1 && forall i :: 0 <= i < |s| ==> IsDigit(s[i])
    ensures n < 10 ==> s == [DigitChar(n)]
  {
    if n < 10 then [DigitChar(n)] else NatToString(n / 10) + [DigitChar(n % 10)]
  }

  /** Python's `str(i)` for an integer. */
  function IntToString(i: int): (s: string)
    ensures s != [] && NoSpace(s)
    ensures '/' !in s
  {
    var d := NatToString(if i < 0 then -i else i);
    assert forall k :: 0 <= k < |d| ==> IsDigit(d[k]);
    if i < 0 then "-" + d else d
  }

  lemma {:induction false} NatToStringValue(n: nat)
    ensures DigitsOrUnderscores(NatToString(n))
    ensures DigitsValue(NatToString(n)) == n
  {
    var s := NatToString(n);
    if n >= 10 {
      NatToStringValue(n / 10);
      assert s[..|s| - 1] == NatToString(n / 10);
    }
  }

  /** `int(str(i)) == i`: what lets clocks and scores survive a round trip through text. */
  lemma ParseIntToString(i: int)
    ensures ParseInt(IntToString(i)) == Some(i)
  {
    var n: nat := if i < 0 then -i else i;
    var d := NatToString(n);
    NatToStringGroups(n);
    if i < 0 {
      ParseNegative(d);
    } else {
      ParsePlain(d);
    }
  }

  lemma NatToStringGroups(n: nat)
    ensures DigitGroups(NatToString(n)) && DigitsValue(NatToString(n)) == n
  {
    NatToStringValue(n);
  }

  lemma ParseNegative(d: string)
    requires DigitGroups(d)
    ensures ParseInt("-" + d) == Some(-(DigitsValue(d) as int))
  {
    assert ("-" + d)[1..] == d;
  }

  lemma ParsePlain(d: string)
    requires DigitGroups(d)
    ensures ParseInt(d) == Some(DigitsValue(d))
  {
  }
}
