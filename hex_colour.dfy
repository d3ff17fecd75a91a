/** `_hex_to_rgb`: a `#RRGGBB` colour, the six-digit form of the hex colour
    notation of section 5.2 of CSS Color Module Level 4, read as three
    components with Python's `int(..., 16)`. */
module HexColours {
  import opened Wrappers
  import opened Text

  /** The value of one hexadecimal digit, either case. */
  function HexDigit(c: char): (v: Option<int>)
    ensures v.Some? ==> 0 <= v.value < 16
    ensures v.Some? <==> ('0' <= c <= '9' || 'a' <= c <= 'f' || 'A' <= c <= 'F')
  {
    if '0' <= c <= '9' then Some(c as int - '0' as int)
    else if 'a' <= c <= 'f' then Some(c as int - 'a' as int + 10)
    else if 'A' <= c <= 'F' then Some(c as int - 'A' as int + 10)
    else None
  }

  /** The lower-case digit for a value below 16. */
  function HexChar(v: int): (c: char)
    requires 0 <= v < 16
    ensures HexDigit(c) == Some(v)
  {
    if v < 10 then ('0' as int + v) as char else ('a' as int + v - 10) as char
  }

  /** `int(s, 16)` for a two-character `s`, `None` where Python raises
      `ValueError`: surrounding whitespace is ignored (`StrippedPair` is
      `s.strip()`) and the rest is read by `ParseStripped`. Two characters
      leave no room for a `0x` prefix with digits after it, nor for an
      underscore between digits. */
  function ParsePair(s: string): (v: Option<int>)
    requires |s| == 2
    ensures v.Some? ==> -15 <= v.value < 256
  {
    ParseStripped(StrippedPair(s))
  }

  /** `s.strip()` for two characters. */
  function StrippedPair(s: string): (t: string)
    requires |s| == 2
    ensures |t| <= 2
  {
    if IsSpace(s[0]) && IsSpace(s[1]) then []
    else if IsSpace(s[0]) then s[1..]
    else if IsSpace(s[1]) then s[..1]
    else s
  }

  lemma StrippedPairIsStrip(s: string)
    requires |s| == 2
    ensures StrippedPair(s) == Strip(s)
  {
    if !IsSpace(s[0]) && !IsSpace(s[1]) {
      StripUnchanged(s);
    } else if IsSpace(s[0]) && !IsSpace(s[1]) {
      assert TrimLeft(s, Whitespace) == TrimLeft(s[1..], Whitespace) == s[1..];
    } else if !IsSpace(s[0]) && IsSpace(s[1]) {
      assert TrimLeft(s, Whitespace) == s;
      assert TrimRight(s, Whitespace) == TrimRight(s[..1], Whitespace) == s[..1];
    } else {
      assert TrimLeft(s, Whitespace) == TrimLeft(s[1..], Whitespace);
      assert TrimLeft(s[1..], Whitespace) == TrimLeft(s[1..][1..], Whitespace);
    }
  }

  /** At most two characters without surrounding whitespace: a sign and one
      hex digit, or one or two hex digits. */
  function ParseStripped(t: string): (v: Option<int>)
    requires |t| <= 2
    ensures v.Some? ==> -15 <= v.value < 256
  {
    if t == [] then None
    else if t[0] == '-' || t[0] == '+' then
      if |t| == 2 && HexDigit(t[1]).Some?
      then Some(if t[0] == '-' then -HexDigit(t[1]).value else HexDigit(t[1]).value)
      else None
    else if |t| == 1 then HexDigit(t[0])
    else if HexDigit(t[0]).Some? && HexDigit(t[1]).Some?
    then Some(16 * HexDigit(t[0]).value + HexDigit(t[1]).value)
    else None
  }

  /** Two hex digits read as a byte, most significant first. */
  lemma ParsePairOfDigits(s: string)
    requires |s| == 2 && HexDigit(s[0]).Some? && HexDigit(s[1]).Some?
    ensures ParsePair(s) == Some(16 * HexDigit(s[0]).value + HexDigit(s[1]).value)
    ensures 0 <= ParsePair(s).value < 256
  {
    assert !IsSpace(s[0]) && !IsSpace(s[1]);
  }

  type Rgb = (int, int, int)

  const White: Rgb := (255, 255, 255)

  /** The message of the `ValueError` `int(..., 16)` raises. */
  const InvalidHex: string := "invalid literal for int() with base 16"

  /** `_hex_to_rgb`: leading `#` characters are dropped; anything but six
      characters left gives white; otherwise each pair of characters is
      read with `int(..., 16)`, which may raise. */
  function HexToRgb(colour: string): (r: Result<Rgb, string>)
    ensures |TrimLeft(colour, Only('#'))| != 6 ==> r == Ok(White)
    ensures r.Err? ==> |TrimLeft(colour, Only('#'))| == 6
  {
    var h := TrimLeft(colour, Only('#'));
    if |h| != 6 then Ok(White)
    else
      var red := ParsePair(h[0..2]);
      var green := ParsePair(h[2..4]);
      var blue := ParsePair(h[4..6]);
      if red.None? || green.None? || blue.None? then Err(InvalidHex)
      else Ok((red.value, green.value, blue.value))
  }

  /** Two hex digits. */
  predicate IsHexPair(s: string) {
    |s| == 2 && HexDigit(s[0]).Some? && HexDigit(s[1]).Some?
  }

  /** The byte two hex digits spell, most significant first. */
  function PairValue(s: string): (v: int)
    requires IsHexPair(s)
    ensures 0 <= v < 256
  {
    16 * HexDigit(s[0]).value + HexDigit(s[1]).value
  }

  /** Six hex digits after the `#`s give the three bytes they spell, each
      within 0..255. */
  lemma HexToRgbOfDigits(colour: string, red: string, green: string, blue: string)
    requires IsHexPair(red) && IsHexPair(green) && IsHexPair(blue)
    requires TrimLeft(colour, Only('#')) == red + green + blue
    ensures HexToRgb(colour) == Ok((PairValue(red), PairValue(green), PairValue(blue)))
  {
    ThreePairs(red, green, blue);
    ParsePairOfDigits(red);
    ParsePairOfDigits(green);
    ParsePairOfDigits(blue);
    HexToRgbOfPairs(colour, red + green + blue);
  }

  /** A byte as two lower-case hex digits. */
  function HexByte(v: int): (s: string)
    requires 0 <= v < 256
    ensures IsHexPair(s) && PairValue(s) == v
  {
    [HexChar(v / 16), HexChar(v % 16)]
  }

  /** `#` repeated `k` times. */
  function Hashes(k: nat): (s: string)
    ensures |s| == k && forall i :: 0 <= i < k ==> s[i] == '#'
  {
    if k == 0 then [] else Hashes(k - 1) + "#"
  }

  /** Writing a colour as `#rrggbb`, behind any number of `#`s, and reading
      it back gives the colour. */
  lemma HexToRgbRoundTrip(r: int, g: int, b: int, k: nat)
    requires 0 <= r < 256 && 0 <= g < 256 && 0 <= b < 256
    ensures HexToRgb(Hashes(k) + HexByte(r) + HexByte(g) + HexByte(b)) == Ok((r, g, b))
  {
    var h := HexByte(r) + HexByte(g) + HexByte(b);
    var colour := Hashes(k) + h;
    assert colour == Hashes(k) + HexByte(r) + HexByte(g) + HexByte(b);
    TrimLeftOfPrefix(Hashes(k), h, '#');
    HexToRgbOfDigits(colour, HexByte(r), HexByte(g), HexByte(b));
  }

  /** The three pairs of six characters. */
  lemma ThreePairs(a: string, b: string, c: string)
    requires |a| == 2 && |b| == 2 && |c| == 2
    ensures (a + b + c)[0..2] == a && (a + b + c)[2..4] == b && (a + b + c)[4..6] == c
  {
    var h := a + b + c;
    assert h[0..2] == [h[0], h[1]] == a;
    assert h[2..4] == [h[2], h[3]] == b;
    assert h[4..6] == [h[4], h[5]] == c;
  }

  /** What `HexToRgb` makes of a colour whose six characters after the `#`s
      are `h`. */
  lemma HexToRgbOfPairs(colour: string, h: string)
    requires TrimLeft(colour, Only('#')) == h && |h| == 6
    ensures var (red, green, blue) := (ParsePair(h[0..2]), ParsePair(h[2..4]), ParsePair(h[4..6]));
      HexToRgb(colour) ==
        if red.None? || green.None? || blue.None? then Err(InvalidHex)
        else Ok((red.value, green.value, blue.value))
  {
  }

  /** Stripping `c` from `p + s` leaves `s` when `p` is all `c` and `s` does
      not start with `c`. */
  lemma TrimLeftOfPrefix(p: string, s: string, c: char)
    requires forall i :: 0 <= i < |p| ==> p[i] == c
    requires s == [] || s[0] != c
    ensures TrimLeft(p + s, Only(c)) == s
  {
    var u := p + s;
    if s != [] {
      assert u[|p|] == s[0];
    }
  }

  /** A sign may lead each pair, so six characters that are not all hex
      digits can still give components outside 0..255. */
  lemma SignedComponents()
    ensures HexToRgb("#-f+f-0") == Ok((-15, 15, 0))
  {
    var h := "-f+f-0";
    TrimLeftOfPrefix("#", h, '#');
    assert "#-f+f-0" == "#" + h;
    assert h[0..2] == "-f" && h[2..4] == "+f" && h[4..6] == "-0";
    assert !IsSpace('-') && !IsSpace('+') && !IsSpace('f') && !IsSpace('0');
    HexToRgbOfPairs("#-f+f-0", h);
  }
}
