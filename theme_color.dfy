/** `parseColorToRGB`: the hexadecimal notations of section 5.2 of CSS
    Color Module Level 4 (`#RGB`, `#RRGGBB`, `#RRGGBBAA`, the alpha pair
    ignored), the `rgb()`/`rgba()` prefix found by a regular expression,
    and five named colours. Each channel is read by `parseInt`. */
module ThemeColor {
  import opened Wrappers
  import opened Strings

  datatype RGB = RGB(r: int, g: int, b: int)

  predicate IsHex(c: char) {
    '0' <= c <= '9' || 'a' <= c <= 'f' || 'A' <= c <= 'F'
  }

  /** The value of a hexadecimal digit, in either case. */
  function HexVal(c: char): (v: nat)
    requires IsHex(c)
    ensures v < 16
  {
    if '0' <= c <= '9' then (c - '0') as nat
    else if 'a' <= c <= 'f' then (c - 'a') as nat + 10
    else (c - 'A') as nat + 10
  }

  /** Two digits read as one byte. */
  function PairVal(a: char, b: char): (v: nat)
    requires IsHex(a) && IsHex(b)
    ensures v <= 255
  {
    16 * HexVal(a) + HexVal(b)
  }

  /** White space skipped as `parseInt` and `\\s*` do. */
  function SkipSpaces(s: string): (r: string)
    ensures |r| <= |s|
  {
    if s != [] && IsSpace(s[0]) then SkipSpaces(s[1..]) else s
  }

  predicate IsDigit(c: char) { '0' <= c <= '9' }

  /** The longest prefix of hexadecimal digits: its value and its length. */
  function HexPrefix(s: string): (r: (nat, nat))
    ensures r.1 <= |s|
  {
    HexPrefixFrom(s, 0, 0)
  }

  function HexPrefixFrom(s: string, i: nat, acc: nat): (r: (nat, nat))
    requires i <= |s|
    requires forall j :: 0 <= j < i ==> IsHex(s[j])
    ensures i <= r.1 <= |s|
    decreases |s| - i
  {
    if i < |s| && IsHex(s[i]) then HexPrefixFrom(s, i + 1, 16 * acc + HexVal(s[i]))
    else (acc, i)
  }

  /** `parseInt(s, 16)`; `None` is NaN. Leading white space and a sign are
      skipped, then an optional `0x`, then the longest run of digits. */
  function ParseIntHex(s: string): (n: Option<int>)
  {
    var t := SkipSpaces(s);
    var negative := t != [] && t[0] == '-';
    var u := if t != [] && (t[0] == '-' || t[0] == '+') then t[1..] else t;
    var v := if |u| >= 2 && u[0] == '0' && (u[1] == 'x' || u[1] == 'X') then u[2..] else u;
    var (value, len) := HexPrefix(v);
    var n: int := if negative then -(value as int) else value;
    if len == 0 then None else Some(n)
  }

  /** Two hexadecimal digits give a byte. */
  lemma ParsePair(a: char, b: char)
    requires IsHex(a) && IsHex(b)
    ensures ParseIntHex([a, b]) == Some(PairVal(a, b) as int)
  {
    var s := [a, b];
    assert SkipSpaces(s) == s by {
      assert !IsSpace(a) by { assert IsHex(a); }
    }
    assert !(a == '-' || a == '+');
    if a == '0' {
      assert !(b == 'x' || b == 'X');
    }
    assert HexPrefixFrom(s, 0, 0) == HexPrefixFrom(s, 1, HexVal(a));
    assert HexPrefixFrom(s, 1, HexVal(a)) == HexPrefixFrom(s, 2, PairVal(a, b));
    assert HexPrefixFrom(s, 2, PairVal(a, b)) == (PairVal(a, b), 2);
  }

  // ----- The rgb() regular expression -----

  /** The longest prefix of decimal digits: its value and its length. */
  function DecimalPrefix(s: string): (r: (nat, nat))
    ensures r.1 <= |s|
  {
    DecimalPrefixFrom(s, 0, 0)
  }

  function DecimalPrefixFrom(s: string, i: nat, acc: nat): (r: (nat, nat))
    requires i <= |s|
    requires forall j :: 0 <= j < i ==> IsDigit(s[j])
    ensures i <= r.1 <= |s|
    decreases |s| - i
  {
    if i < |s| && IsDigit(s[i]) then DecimalPrefixFrom(s, i + 1, 10 * acc + (s[i] - '0') as nat)
    else (acc, i)
  }

  /** `(\d+)`: a run of digits and what follows it. */
  function Number(s: string): (r: Option<(nat, string)>)
    ensures r.Some? ==> |r.value.1| < |s|
  {
    var (value, len) := DecimalPrefix(s);
    if len == 0 then None else Some((value, s[len..]))
  }

  /** `\s*` then `c`: what follows, if `c` comes next. */
  function Expect(s: string, c: char): (r: Option<string>)
    ensures r.Some? ==> |r.value| < |s|
  {
    var t := SkipSpaces(s);
    if t != [] && t[0] == c then Some(t[1..]) else None
  }

  predicate CharIs(s: string, lower: char, upper: char) {
    s != [] && (s[0] == lower || s[0] == upper)
  }

  /** `\s*(\d+)\s*,`: the number and what follows the comma. */
  function NumberComma(t: string): (r: Option<(nat, string)>)
    ensures r.Some? ==> |r.value.1| + 2 <= |t|
  {
    var n := Number(SkipSpaces(t));
    if n.None? then None
    else
      var c := Expect(n.value.1, ',');
      if c.None? then None else Some((n.value.0, c.value))
  }

  /** The three numbers after the opening parenthesis. */
  function Triple(t: string): (r: Option<RGB>)
    ensures r.Some? ==> |t| >= 5
  {
    var n1 := NumberComma(t);
    if n1.None? then None
    else
      var n2 := NumberComma(n1.value.1);
      if n2.None? then None
      else
        var n3 := Number(SkipSpaces(n2.value.1));
        if n3.None? then None else Some(RGB(n1.value.0, n2.value.0, n3.value.0))
  }

  /** `rgba?\s*\(\s*(\d+)\s*,\s*(\d+)\s*,\s*(\d+)` matched at the start of `s`,
      case-insensitively. */
  function MatchAt(s: string): (r: Option<RGB>)
    ensures r.Some? ==> |s| >= 9
  {
    if |s| < 3 || !CharIs(s, 'r', 'R') || !CharIs(s[1..], 'g', 'G') || !CharIs(s[2..], 'b', 'B') then None
    else
      var s1 := if CharIs(s[3..], 'a', 'A') then s[4..] else s[3..];
      var open := Expect(s1, '(');
      if open.None? then None else Triple(open.value)
  }

  /** `color.match(...)`: the leftmost match, `None` when the expression
      matches at no position. */
  function FindRgb(s: string): (r: Option<RGB>)
    ensures r.Some? ==> |s| >= 9
    ensures r.None? <==> forall i :: 0 <= i < |s| ==> MatchAt(s[i..]).None?
    ensures r.Some? ==> exists i :: 0 <= i < |s| && r == MatchAt(s[i..]) &&
                                    forall j :: 0 <= j < i ==> MatchAt(s[j..]).None?
  {
    if s == [] then None
    else if MatchAt(s).Some? then
      assert s[0..] == s;
      MatchAt(s)
    else
      ShiftedSuffixes(s);
      FindRgb(s[1..])
  }

  /** The suffixes of `s[1..]` are the later suffixes of `s`. */
  lemma ShiftedSuffixes(s: string)
    requires s != []
    ensures s[0..] == s
    ensures forall i :: 0 <= i < |s| - 1 ==> s[1..][i..] == s[i + 1..]
    ensures forall i :: 1 <= i < |s| ==> s[i..] == s[1..][i - 1..]
  {
  }

  /** The five named colours known to the parser. */
  function NamedColor(name: string): Option<RGB> {
    if name == "white" then Some(RGB(255, 255, 255))
    else if name == "black" then Some(RGB(0, 0, 0))
    else if name == "azure" then Some(RGB(240, 255, 255))
    else if name == "snow" then Some(RGB(255, 250, 250))
    else if name == "ivory" then Some(RGB(255, 255, 240))
    else None
  }

  /** The digits after `#`: three are doubled, eight lose the alpha pair. */
  function Expand(hex: string): (h: string)
    ensures |hex| == 3 || |hex| == 6 || |hex| == 8 ==> |h| == 6
    ensures |hex| == 6 ==> h == hex
  {
    if |hex| == 3 then [hex[0], hex[0], hex[1], hex[1], hex[2], hex[2]]
    else if |hex| == 8 then hex[..6] else hex
  }

  /** Three channels from six digits. */
  function Channels(h: string): (r: Option<RGB>)
  {
    if |h| != 6 then None
    else
      var r, g, b := ParseIntHex(h[0..2]), ParseIntHex(h[2..4]), ParseIntHex(h[4..6]);
      if r.Some? && g.Some? && b.Some? then Some(RGB(r.value, g.value, b.value)) else None
  }

  /** The hexadecimal branch. */
  function HexColor(hex: string): Option<RGB> {
    Channels(Expand(hex))
  }

  /** `parseColorToRGB(color)`; `None` is `null`: the hexadecimal branch
      comes first, then the `rgb()` match, then the colour names, and
      anything else is `null`. */
  function ParseColorToRGB(color: string): (r: Option<RGB>)
    ensures |color| > 0 && color[0] == '#' && HexColor(color[1..]).Some? ==> r == HexColor(color[1..])
    ensures !(|color| > 0 && color[0] == '#' && HexColor(color[1..]).Some?) && FindRgb(color).Some? ==>
      r == FindRgb(color)
    ensures r.None? <==>
      !(|color| > 0 && color[0] == '#' && HexColor(color[1..]).Some?) &&
      FindRgb(color).None? && NamedColor(Lower(color)).None?
  {
    var hex := if |color| > 0 && color[0] == '#' then HexColor(color[1..]) else None;
    if hex.Some? then hex
    else if FindRgb(color).Some? then FindRgb(color)
    else NamedColor(Lower(color))
  }

  /** A six-digit hex colour gives each channel as the value of its pair,
      so each lies in 0..255. */
  lemma SixDigits(h: string)
    requires |h| == 6 && forall i :: 0 <= i < 6 ==> IsHex(h[i])
    ensures ParseColorToRGB("#" + h) ==
      Some(RGB(PairVal(h[0], h[1]), PairVal(h[2], h[3]), PairVal(h[4], h[5])))
  {
    ShortHashIsHexOnly("#" + h);
    assert ("#" + h)[1..] == h;
    SixDigitsHex(h);
  }

  lemma SixDigitsHex(h: string)
    requires |h| == 6 && forall i :: 0 <= i < 6 ==> IsHex(h[i])
    ensures HexColor(h) == Some(RGB(PairVal(h[0], h[1]), PairVal(h[2], h[3]), PairVal(h[4], h[5])))
  {
    assert Expand(h) == h;
    ParseSlice(h, 0);
    ParseSlice(h, 2);
    ParseSlice(h, 4);
    ChannelsOf(h, PairVal(h[0], h[1]), PairVal(h[2], h[3]), PairVal(h[4], h[5]));
  }

  lemma ChannelsOf(h: string, r: int, g: int, b: int)
    requires |h| == 6
    requires ParseIntHex(h[0..2]) == Some(r) && ParseIntHex(h[2..4]) == Some(g) && ParseIntHex(h[4..6]) == Some(b)
    ensures Channels(h) == Some(RGB(r, g, b))
  {
  }

  lemma ParseSlice(h: string, i: nat)
    requires i + 2 <= |h| && IsHex(h[i]) && IsHex(h[i + 1])
    ensures ParseIntHex(h[i..i + 2]) == Some(PairVal(h[i], h[i + 1]) as int)
  {
    assert h[i..i + 2] == [h[i], h[i + 1]];
    ParsePair(h[i], h[i + 1]);
  }

  /** No rgb() match and no colour name fits in a short string that starts with `#`. */
  lemma ShortHashIsHexOnly(color: string)
    requires 0 < |color| <= 9 && color[0] == '#'
    ensures ParseColorToRGB(color) == HexColor(color[1..])
  {
    assert MatchAt(color).None?;
    assert FindRgb(color) == FindRgb(color[1..]);
    assert Lower(color)[0] == '#';
  }

  /** `#RGB` is the same colour as `#RRGGBB`. */
  lemma ShorthandExpands(a: char, b: char, c: char)
    ensures ParseColorToRGB(['#', a, b, c]) == ParseColorToRGB(['#', a, a, b, b, c, c])
  {
    ShortHashIsHexOnly(['#', a, b, c]);
    ShortHashIsHexOnly(['#', a, a, b, b, c, c]);
    assert ['#', a, b, c][1..] == [a, b, c];
    assert ['#', a, a, b, b, c, c][1..] == [a, a, b, b, c, c];
  }

  /** `#RRGGBBAA` is the colour `#RRGGBB`: the alpha pair is ignored. */
  lemma AlphaIgnored(h: string)
    requires |h| == 8
    ensures ParseColorToRGB("#" + h) == ParseColorToRGB("#" + h[..6])
  {
    var long, short := "#" + h, "#" + h[..6];
    assert long[1..] == h && short[1..] == h[..6];
    ShortHashIsHexOnly(long);
    ShortHashIsHexOnly(short);
    HexColorCut(h);
  }

  lemma HexColorCut(h: string)
    requires |h| == 8
    ensures HexColor(h) == HexColor(h[..6])
  {
  }

  /** The named colours are recognised in any letter case. */
  lemma NamedAnyCase(color: string)
    requires NamedColor(Lower(color)).Some?
    ensures ParseColorToRGB(color) == NamedColor(Lower(color))
  {
    assert |color| <= 5;
    if |color| > 0 {
      assert color[0] != '#' by { assert Lower(color)[0] == LowerChar(color[0]); }
    }
  }

  lemma DigitsThen(a: string, rest: string)
    requires a != [] && forall i :: 0 <= i < |a| ==> IsDigit(a[i])
    requires rest == [] || !IsDigit(rest[0])
    ensures Number(a + rest) == Some((DecimalPrefix(a).0, rest))
  {
    DecimalPrefixSame(a, rest, 0, 0);
    assert (a + rest)[|a|..] == rest;
  }

  lemma {:induction false} DecimalPrefixSame(a: string, rest: string, i: nat, acc: nat)
    requires i <= |a| && forall j :: 0 <= j < |a| ==> IsDigit(a[j])
    requires rest == [] || !IsDigit(rest[0])
    ensures DecimalPrefixFrom(a + rest, i, acc) == (DecimalPrefixFrom(a, i, acc).0, |a|)
    decreases |a| - i
  {
    var s := a + rest;
    assert forall j :: 0 <= j < i ==> IsDigit(s[j]);
    if i < |a| {
      assert s[i] == a[i];
      DecimalPrefixSame(a, rest, i + 1, 10 * acc + (a[i] - '0') as nat);
    } else {
      assert i < |s| ==> s[i] == rest[0];
    }
  }

  predicate AllDigits(a: string) {
    a != [] && forall i :: 0 <= i < |a| ==> IsDigit(a[i])
  }

  /** A number, then `,` and the rest. */
  lemma NumberThenComma(a: string, y: string)
    requires AllDigits(a)
    ensures NumberComma(a + ([','] + y)) == Some((DecimalPrefix(a).0, y))
  {
    assert SkipSpaces(a + ([','] + y)) == a + ([','] + y) by {
      assert !IsSpace((a + ([','] + y))[0]);
    }
    DigitsThen(a, [','] + y);
    assert ([','] + y)[1..] == y;
  }

  /** `rgb(R,G,B)` gives the three decimal numbers. */
  lemma RgbChannels(a: string, b: string, c: string, tail: string)
    requires AllDigits(a) && AllDigits(b) && AllDigits(c)
    requires tail == [] || !IsDigit(tail[0])
    ensures MatchAt("rgb(" + a + "," + b + "," + c + tail) ==
      Some(RGB(DecimalPrefix(a).0, DecimalPrefix(b).0, DecimalPrefix(c).0))
  {
    var z := c + tail;
    var y := b + ([','] + z);
    var x := a + ([','] + y);
    assert "rgb(" + a + "," + b + "," + c + tail == "rgb(" + x;
    NumberThenComma(a, y);
    NumberThenComma(b, z);
    assert Number(SkipSpaces(z)) == Some((DecimalPrefix(c).0, tail)) by {
      assert !IsSpace(z[0]);
      DigitsThen(c, tail);
    }
    assert Triple(x) == Some(RGB(DecimalPrefix(a).0, DecimalPrefix(b).0, DecimalPrefix(c).0));
    OpenThen(x);
  }

  /** So `parseColorToRGB` reads an `rgb(R,G,B)` colour, whatever follows. */
  lemma RgbColor(a: string, b: string, c: string, tail: string)
    requires AllDigits(a) && AllDigits(b) && AllDigits(c)
    requires tail == [] || !IsDigit(tail[0])
    ensures ParseColorToRGB("rgb(" + a + "," + b + "," + c + tail) ==
      Some(RGB(DecimalPrefix(a).0, DecimalPrefix(b).0, DecimalPrefix(c).0))
  {
    var s := "rgb(" + a + "," + b + "," + c + tail;
    RgbChannels(a, b, c, tail);
    assert s[0] == 'r';
    assert FindRgb(s) == MatchAt(s);
  }

  lemma OpenThen(x: string)
    ensures MatchAt("rgb(" + x) == Triple(x)
  {
    var s := "rgb(" + x;
    var t := ['('] + x;
    assert s[3..] == t && t[0] == '(';
    assert s[0] == 'r' && s[1..][0] == 'g' && s[2..][0] == 'b';
    assert SkipSpaces(t) == t;
    assert t[1..] == x;
    assert Expect(t, '(') == Some(x);
  }
}
