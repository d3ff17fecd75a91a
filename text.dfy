/** The handful of Python string operations the two plugins rely on: whitespace
    stripping with Python's own notion of whitespace, stripping a given character,
    ASCII case mapping, `str.title`, substring search and decimal digits. */
module Text {
  import opened Wrappers

  /** `str.isspace` for one character: the code points Python's `str.strip()`
      removes when called without arguments. */
  predicate IsSpace(c: char) {
    var k := c as int;
    (0x09 <= k <= 0x0D) || (0x1C <= k <= 0x20) || k == 0x85 || k == 0xA0 ||
    k == 0x1680 || (0x2000 <= k <= 0x200A) || k == 0x2028 || k == 0x2029 ||
    k == 0x202F || k == 0x205F || k == 0x3000
  }

  /** The characters a strip removes: Python's whitespace (`strip()` without
      arguments) or one given character (`lstrip("#")`, `rstrip(":")`). */
  datatype CharClass = Whitespace | Only(c: char)

  predicate InClass(c: char, drop: CharClass) {
    match drop
    case Whitespace => IsSpace(c)
    case Only(d) => c == d
  }

  /** Drops the longest prefix of `s` whose characters all lie in `drop`. */
  function TrimLeft(s: string, drop: CharClass): (r: string)
    ensures |r| <= |s| && r == s[|s| - |r|..]
    ensures r == [] || !InClass(r[0], drop)
    ensures forall i :: 0 <= i < |s| - |r| ==> InClass(s[i], drop)
    decreases |s|
  {
    if s != [] && InClass(s[0], drop) then TrimLeft(s[1..], drop) else s
  }

  /** Drops the longest suffix of `s` whose characters all lie in `drop`. */
  function TrimRight(s: string, drop: CharClass): (r: string)
    ensures |r| <= |s| && r == s[..|r|]
    ensures r == [] || !InClass(r[|r| - 1], drop)
    ensures forall i :: |r| <= i < |s| ==> InClass(s[i], drop)
    decreases |s|
  {
    if s != [] && InClass(s[|s| - 1], drop) then TrimRight(s[..|s| - 1], drop) else s
  }

  /** `s.strip()`. */
  function Strip(s: string): string {
    TrimRight(TrimLeft(s, Whitespace), Whitespace)
  }

  /** `s.strip()` keeps exactly the part of `s` between its leading and its
      trailing whitespace: the result is the slice of `s` that starts after the
      leading whitespace, it neither starts nor ends with whitespace, and
      everything cut off on either side is whitespace. */
  lemma StripIsMaximalSlice(s: string)
    ensures var i := |s| - |TrimLeft(s, Whitespace)|; var r := Strip(s);
      && i + |r| <= |s| && r == s[i..i + |r|]
      && (forall k :: 0 <= k < i ==> IsSpace(s[k]))
      && (forall k :: i + |r| <= k < |s| ==> IsSpace(s[k]))
  {
    var l := TrimLeft(s, Whitespace);
    var r := TrimRight(l, Whitespace);
    var i := |s| - |l|;
    assert r == s[i..i + |r|];
    forall k | i + |r| <= k < |s|
      ensures IsSpace(s[k])
    {
      assert s[k] == l[k - i] && InClass(l[k - i], Whitespace);
    }
  }

  /** The result of `s.strip()` neither starts nor ends with whitespace. */
  lemma StripEnds(s: string)
    ensures Strip(s) == [] || (!IsSpace(Strip(s)[0]) && !IsSpace(Strip(s)[|Strip(s)| - 1]))
  {
    var l := TrimLeft(s, Whitespace);
    var r := TrimRight(l, Whitespace);
    if r != [] {
      assert r[0] == l[0];
    }
  }

  /** A string that neither starts nor ends with whitespace is its own strip. */
  lemma StripUnchanged(s: string)
    requires s == [] || (!IsSpace(s[0]) && !IsSpace(s[|s| - 1]))
    ensures Strip(s) == s
  {
    assert TrimLeft(s, Whitespace) == s;
    assert TrimRight(s, Whitespace) == s;
  }

  /** `s.strip()` is empty exactly when every character of `s` is whitespace. */
  lemma StripEmptyIffAllSpace(s: string)
    ensures Strip(s) == [] <==> forall k :: 0 <= k < |s| ==> IsSpace(s[k])
  {
    var l := TrimLeft(s, Whitespace);
    if Strip(s) == [] {
      assert l == [];
    } else {
      assert !IsSpace(l[0]);
      assert l[0] == s[|s| - |l|];
    }
  }

  function LowerChar(c: char): char {
    if 'A' <= c <= 'Z' then (c as int + 32) as char else c
  }

  function UpperChar(c: char): char {
    if 'a' <= c <= 'z' then (c as int - 32) as char else c
  }

  predicate IsLetter(c: char) {
    ('A' <= c <= 'Z') || ('a' <= c <= 'z')
  }

  /** `s.lower()` restricted to ASCII letters. */
  function Lower(s: string): (r: string)
    ensures |r| == |s|
  {
    seq(|s|, i requires 0 <= i < |s| => LowerChar(s[i]))
  }

  /** `s.title()` on ASCII: a letter is upper-cased when the character before it
      is not a letter, and lower-cased otherwise. `prevLetter` says whether the
      character before `s` was a letter. */
  function TitleFrom(s: string, prevLetter: bool): string
    decreases |s|
  {
    if s == [] then []
    else [if prevLetter then LowerChar(s[0]) else UpperChar(s[0])]
         + TitleFrom(s[1..], IsLetter(s[0]))
  }

  function Title(s: string): string {
    TitleFrom(s, false)
  }

  lemma {:induction false} TitleFromAt(s: string, prevLetter: bool, i: nat)
    requires i < |s|
    ensures |TitleFrom(s, prevLetter)| == |s|
    ensures TitleFrom(s, prevLetter)[i] ==
      if (if i == 0 then prevLetter else IsLetter(s[i - 1]))
      then LowerChar(s[i]) else UpperChar(s[i])
  {
    if i == 0 {
      if |s| > 1 {
        TitleFromAt(s[1..], IsLetter(s[0]), 0);
      }
    } else {
      TitleFromAt(s[1..], IsLetter(s[0]), i - 1);
      if i > 1 {
        assert s[1..][i - 2] == s[i - 1];
      }
    }
  }

  /** Each character of `Title(s)`: upper case at the start of a run of
      letters, lower case inside one, and anything else unchanged. */
  lemma TitleAt(s: string, i: nat)
    requires i < |s|
    ensures |Title(s)| == |s|
    ensures Title(s)[i] ==
      if i > 0 && IsLetter(s[i - 1]) then LowerChar(s[i]) else UpperChar(s[i])
  {
    TitleFromAt(s, false, i);
  }

  /** Python's `p in s` for strings. */
  predicate Contains(s: string, p: string)
    decreases |s|
  {
    p <= s || (s != [] && Contains(s[1..], p))
  }

  /** `p` occurs in `s` starting at index `i`. */
  predicate OccursAt(s: string, p: string, i: int) {
    0 <= i <= |s| - |p| && s[i..i + |p|] == p
  }

  /** `Contains` finds `p` exactly when `p` occurs at some position of `s`. */
  lemma {:induction false} ContainsIff(s: string, p: string)
    ensures Contains(s, p) <==> exists i :: OccursAt(s, p, i)
    decreases |s|
  {
    if p <= s {
      assert OccursAt(s, p, 0);
    } else if s == [] {
    } else {
      ContainsIff(s[1..], p);
      if exists i :: OccursAt(s, p, i) {
        var i :| OccursAt(s, p, i);
        assert i != 0;
        assert s[1..][i - 1..i - 1 + |p|] == s[i..i + |p|];
        assert OccursAt(s[1..], p, i - 1);
      }
      if Contains(s[1..], p) {
        var j :| OccursAt(s[1..], p, j);
        assert s[j + 1..j + 1 + |p|] == s[1..][j..j + |p|];
        assert OccursAt(s, p, j + 1);
      }
    }
  }

  // ---- decimal digits ----

  predicate IsDigit(c: char) {
    '0' <= c <= '9'
  }

  function DigitChar(d: int): (c: char)
    requires 0 <= d < 10
    ensures IsDigit(c)
  {
    ('0' as int + d) as char
  }

  function DigitValue(c: char): (d: int)
    requires IsDigit(c)
    ensures 0 <= d < 10 && DigitChar(d) == c
  {
    c as int - '0' as int
  }

  predicate AllDigits(s: string) {
    forall i :: 0 <= i < |s| ==> IsDigit(s[i])
  }

  /** The value of a string of decimal digits, most significant first. */
  function DigitsValue(s: string): (v: nat)
    requires AllDigits(s)
  {
    if s == [] then 0 else DigitsValue(s[..|s| - 1]) * 10 + DigitValue(s[|s| - 1])
  }

  /** The decimal representation of `n` without leading zeros, as `str(n)`. */
  function NatToDigits(n: nat): (s: string)
    ensures AllDigits(s) && |s| >= 1
  {
    if n < 10 then [DigitChar(n)] else NatToDigits(n / 10) + [DigitChar(n % 10)]
  }

  /** Reading back the digits of `n` gives `n`. */
  lemma {:induction false} DigitsRoundTrip(n: nat)
    ensures DigitsValue(NatToDigits(n)) == n
  {
    if n >= 10 {
      DigitsRoundTrip(n / 10);
      var s := NatToDigits(n);
      assert s[..|s| - 1] == NatToDigits(n / 10);
    }
  }

  /** A non-empty digit string without a leading zero is `NatToDigits` of its
      value, so `NatToDigits` is the canonical form. */
  lemma {:induction false} DigitsCanonical(s: string)
    requires AllDigits(s) && |s| >= 1 && (|s| > 1 ==> s[0] != '0')
    ensures NatToDigits(DigitsValue(s)) == s
    decreases |s|
  {
    var last := s[|s| - 1];
    if |s| == 1 {
    } else {
      var init := s[..|s| - 1];
      assert init[0] == s[0];
      DigitsCanonical(init);
      LeadingDigitBound(init);
      assert DigitsValue(s) == DigitsValue(init) * 10 + DigitValue(last);
      assert DigitsValue(s) / 10 == DigitsValue(init);
      assert DigitsValue(s) % 10 == DigitValue(last);
    }
  }

  /** A digit string of length at least two that does not start with `0` has a
      value of at least ten. */
  lemma {:induction false} LeadingDigitBound(s: string)
    requires AllDigits(s) && |s| >= 1 && s[0] != '0'
    ensures DigitsValue(s) >= 1
    ensures |s| >= 2 ==> DigitsValue(s) >= 10
    decreases |s|
  {
    if |s| >= 2 {
      var init := s[..|s| - 1];
      assert init[0] == s[0];
      LeadingDigitBound(init);
    }
  }

  /** Python's `int(s)` for a decimal string: surrounding whitespace, an
      optional sign and at least one ASCII digit; anything else raises, which
      is `None` here. */
  function ParseInt(s: string): (r: Option<int>)
  {
    var t := Strip(s);
    if t == [] then None
    else
      var negative := t[0] == '-';
      var body := if t[0] == '-' || t[0] == '+' then t[1..] else t;
      if body == [] || !AllDigits(body) then None
      else
        var v: int := DigitsValue(body);
        Some(if negative then -v else v)
  }

  /** A non-empty run of digits parses to its value. */
  lemma ParseIntOfUnsigned(d: string)
    requires AllDigits(d) && d != []
    ensures ParseInt(d) == Some(DigitsValue(d))
  {
    assert IsDigit(d[0]) && IsDigit(d[|d| - 1]);
    StripUnchanged(d);
  }

  /** `int(str(n)) == n` for every natural number `n`. */
  lemma ParseIntOfDigits(n: nat)
    ensures ParseInt(NatToDigits(n)) == Some(n)
  {
    ParseIntOfUnsigned(NatToDigits(n));
    DigitsRoundTrip(n);
  }

  /** `int(str(n)) == n` for every negative integer `n`. */
  lemma ParseIntOfNegative(n: int)
    requires n < 0
    ensures ParseInt("-" + NatToDigits(-n)) == Some(n)
  {
    var d := NatToDigits(-n);
    var s := "-" + d;
    assert s[|s| - 1] == d[|d| - 1];
    StripUnchanged(s);
    assert Strip(s) == s;
    assert s[0] == '-';
    assert s[1..] == d;
    DigitsRoundTrip(-n);
    assert DigitsValue(d) == -n;
  }
}
