/**
 * The pixel logic of the Paint accessory: the `#rrggbb` colour text used by
 * the palette and the eyedropper, the colour tolerance of the fill tool, the
 * RGBA byte buffer of the 420 x 280 canvas and the stack-based flood fill
 * that recolours it in place.
 *
 * The canvas itself (`getImageData`/`putImageData`, strokes, shapes, text)
 * is not part of this model: the buffer the fill works on is an array of
 * bytes, four per pixel, row by row.
 */
module Paint {
  import opened Wrappers
  import opened Decimal

  /** One entry of the canvas's `Uint8ClampedArray`. */
  newtype byte = x: int | 0 <= x < 256

  datatype Rgb = Rgb(r: byte, g: byte, b: byte)

  const CanvasWidth := 420
  const CanvasHeight := 280

  // ---------------------------------------------------------------- colours

  function Abs(x: int): nat {
    if x < 0 then -x else x
  }

  /** `colorsMatch`: every channel differs by less than 10. */
  predicate ColorsMatch(a: Rgb, b: Rgb) {
    && Abs(a.r as int - b.r as int) < 10
    && Abs(a.g as int - b.g as int) < 10
    && Abs(a.b as int - b.b as int) < 10
  }

  /** The tolerance is reflexive and symmetric. */
  lemma ColorsMatchTolerance(a: Rgb, b: Rgb)
    ensures ColorsMatch(a, a)
    ensures ColorsMatch(a, b) <==> ColorsMatch(b, a)
  {
  }

  /** It is not transitive: black matches (9,0,0), which matches (18,0,0), which black does not. */
  lemma ColorsMatchNotTransitive()
    ensures exists a, b, c :: ColorsMatch(a, b) && ColorsMatch(b, c) && !ColorsMatch(a, c)
  {
    var a, b, c := Rgb(0, 0, 0), Rgb(9, 0, 0), Rgb(18, 0, 0);
    assert ColorsMatch(a, b) && ColorsMatch(b, c) && !ColorsMatch(a, c);
  }

  // ------------------------------------------------------------ colour text

  predicate IsHexDigit(c: char) {
    '0' <= c <= '9' || 'a' <= c <= 'f' || 'A' <= c <= 'F'
  }

  predicate AllHex(s: string) {
    forall i :: 0 <= i < |s| ==> IsHexDigit(s[i])
  }

  /** The value of one hexadecimal digit, either case. */
  function HexValue(c: char): (v: nat)
    requires IsHexDigit(c)
    ensures v < 16
    ensures '0' <= c <= '9' ==> v == c as int - '0' as int
  {
    if '0' <= c <= '9' then c as int - '0' as int
    else if 'a' <= c <= 'f' then c as int - 'a' as int + 10
    else c as int - 'A' as int + 10
  }

  /** The digit `Number.prototype.toString(16)` writes for `v`: lower case. */
  function HexChar(v: nat): (c: char)
    requires v < 16
    ensures IsHexDigit(c) && HexValue(c) == v
    ensures !('A' <= c <= 'F')
  {
    if v < 10 then ('0' as int + v) as char else ('a' as int + v - 10) as char
  }

  /** A hexadecimal digit in lower case, as the regular expression's `i` flag equates them. */
  function Lower(c: char): (l: char)
    requires IsHexDigit(c)
    ensures IsHexDigit(l) && HexValue(l) == HexValue(c)
  {
    if 'A' <= c <= 'F' then (c as int - 'A' as int + 'a' as int) as char else c
  }

  function LowerAll(s: string): (l: string)
    requires AllHex(s)
    ensures |l| == |s| && AllHex(l)
    ensures forall i :: 0 <= i < |s| ==> l[i] == Lower(s[i])
  {
    seq(|s|, i requires 0 <= i < |s| => Lower(s[i]))
  }

  /** `parseInt(pair, 16)` on two hexadecimal digits. */
  function ParseByte(pair: string): byte
    requires |pair| == 2 && AllHex(pair)
  {
    (HexValue(pair[0]) * 16 + HexValue(pair[1])) as byte
  }

  /** The three channels of six hexadecimal digits. */
  function Channels(digits: string): Rgb
    requires |digits| == 6 && AllHex(digits)
  {
    Rgb(ParseByte(digits[0..2]), ParseByte(digits[2..4]), ParseByte(digits[4..6]))
  }

  /** The strings `/^#?([a-f\d]{2})([a-f\d]{2})([a-f\d]{2})$/i` accepts. */
  predicate HexPattern(s: string) {
    (|s| == 7 && s[0] == '#' && AllHex(s[1..])) || (|s| == 6 && AllHex(s))
  }

  /** `hexToRgb`: an optional leading '#' is dropped; what is left must be six hexadecimal digits. */
  function HexToRgb(hex: string): Option<Rgb> {
    var digits := if |hex| > 0 && hex[0] == '#' then hex[1..] else hex;
    if |digits| == 6 && AllHex(digits) then Some(Channels(digits)) else None
  }

  /** The text after an optional leading '#'. */
  function Unhashed(s: string): string {
    if |s| > 0 && s[0] == '#' then s[1..] else s
  }

  /** `hexToRgb` succeeds on exactly the strings the regular expression accepts. */
  lemma HexToRgbAccepts(s: string)
    ensures HexToRgb(s).Some? <==> HexPattern(s)
  {
    if |s| == 6 && s[0] == '#' {
      assert !IsHexDigit(s[0]);
      assert !AllHex(s);
      assert |s[1..]| == 5;
    }
  }

  /** `v.toString(16)` for a byte: one digit below 16, two from there on. */
  function ToHex(v: byte): (s: string)
    ensures 1 <= |s| <= 2 && AllHex(s)
    ensures |s| == 2 <==> v >= 16
  {
    if v < 16 then [HexChar(v as nat)] else [HexChar(v as nat / 16), HexChar(v as nat % 16)]
  }

  /** One channel of the eyedropper's colour text: `v.toString(16).padStart(2, '0')`. */
  function HexPair(v: byte): string {
    PadStart(ToHex(v), 2, '0')
  }

  /** Both digits of a channel's text, high digit first. */
  lemma HexPairDigits(v: byte)
    ensures HexPair(v) == [HexChar(v as nat / 16), HexChar(v as nat % 16)]
  {
    if v < 16 {
      assert HexChar(0) == '0';
      assert HexPair(v) == ['0'] + ToHex(v);
    }
  }

  /** A channel's text reads back as the channel. */
  lemma HexPairRoundTrip(v: byte)
    ensures |HexPair(v)| == 2 && AllHex(HexPair(v)) && ParseByte(HexPair(v)) == v
  {
    HexPairDigits(v);
  }

  /** The eyedropper's colour text: '#' and two lower-case digits per channel. */
  function Format(c: Rgb): string {
    "#" + HexPair(c.r) + HexPair(c.g) + HexPair(c.b)
  }

  /** Three channel texts put together parse channel by channel. */
  lemma ChannelsOfPairs(x: string, y: string, z: string)
    requires |x| == 2 && |y| == 2 && |z| == 2 && AllHex(x) && AllHex(y) && AllHex(z)
    ensures var d := x + y + z; AllHex(d) && Channels(d) == Rgb(ParseByte(x), ParseByte(y), ParseByte(z))
  {
    var d := x + y + z;
    assert d[0..2] == x && d[2..4] == y && d[4..6] == z;
  }

  /** Putting the '#' in front of the three channel texts at once. */
  lemma Regroup(x: string, y: string, z: string)
    ensures "#" + x + y + z == "#" + (x + y + z)
    ensures ("#" + (x + y + z))[1..] == x + y + z
  {
  }

  /** Formatting a colour and parsing the text gives the colour back. */
  lemma FormatRoundTrip(c: Rgb)
    ensures HexToRgb(Format(c)) == Some(c)
  {
    var x, y, z := HexPair(c.r), HexPair(c.g), HexPair(c.b);
    HexPairRoundTrip(c.r);
    HexPairRoundTrip(c.g);
    HexPairRoundTrip(c.b);
    ChannelsOfPairs(x, y, z);
    Regroup(x, y, z);
    HashedDigits(x + y + z);
  }

  /** Six digits behind a '#' parse as their channels. */
  lemma HashedDigits(d: string)
    requires |d| == 6 && AllHex(d)
    ensures HexToRgb("#" + d) == Some(Channels(d))
  {
    assert ("#" + d)[1..] == d;
  }

  /** The high and low digit values of a two-digit number in base 16. */
  lemma SplitByte(hi: nat, lo: nat)
    requires hi < 16 && lo < 16
    ensures hi * 16 + lo < 256
    ensures (hi * 16 + lo) / 16 == hi && (hi * 16 + lo) % 16 == lo
  {
    MulMono(hi, 15, 16);
    DivModUnique(hi * 16 + lo, 16, hi, lo);
  }

  /** The digit written for a digit's value is that digit in lower case. */
  lemma HexCharOfValue(c: char)
    requires IsHexDigit(c)
    ensures HexChar(HexValue(c)) == Lower(c)
  {
  }

  /** Two digits in lower case. */
  lemma LowerPair(pair: string)
    requires |pair| == 2 && AllHex(pair)
    ensures LowerAll(pair) == [Lower(pair[0]), Lower(pair[1])]
  {
  }

  /** The channel text of the byte with digit values `hi` and `lo`. */
  lemma HexPairOf(hi: nat, lo: nat)
    requires hi < 16 && lo < 16
    ensures hi * 16 + lo < 256
    ensures HexPair((hi * 16 + lo) as byte) == [HexChar(hi), HexChar(lo)]
  {
    SplitByte(hi, lo);
    HexPairDigits((hi * 16 + lo) as byte);
  }

  /** A pair of digits that parses to `v` is the channel text of `v`, up to case. */
  lemma ParsedPair(pair: string)
    requires |pair| == 2 && AllHex(pair)
    ensures HexPair(ParseByte(pair)) == LowerAll(pair)
  {
    var hi, lo := HexValue(pair[0]), HexValue(pair[1]);
    calc {
      HexPair(ParseByte(pair));
      HexPair((hi * 16 + lo) as byte);
      { HexPairOf(hi, lo); }
      [HexChar(hi), HexChar(lo)];
      { HexCharOfValue(pair[0]); HexCharOfValue(pair[1]); }
      [Lower(pair[0]), Lower(pair[1])];
      { LowerPair(pair); }
      LowerAll(pair);
    }
  }

  /** Lower-casing six digits is lower-casing each pair of them. */
  lemma LowerAllPairs(d: string)
    requires |d| == 6 && AllHex(d)
    ensures LowerAll(d) == LowerAll(d[0..2]) + LowerAll(d[2..4]) + LowerAll(d[4..6])
  {
  }

  /**
   * Conversely, whatever `hexToRgb` accepts is the formatted text of the colour
   * it returns, once the '#' is supplied and the digits are put in lower case.
   */
  lemma ParseThenFormat(s: string, c: Rgb)
    requires HexToRgb(s) == Some(c)
    ensures AllHex(Unhashed(s)) && Format(c) == "#" + LowerAll(Unhashed(s))
  {
    UnhashedDigits(s, c);
    ChannelsText(Unhashed(s));
  }

  /** What `hexToRgb` accepted is six digits after the optional '#', and the colour is their channels. */
  lemma UnhashedDigits(s: string, c: Rgb)
    requires HexToRgb(s) == Some(c)
    ensures |Unhashed(s)| == 6 && AllHex(Unhashed(s)) && c == Channels(Unhashed(s))
  {
  }

  /** The colour of six digits is formatted as those digits in lower case behind a '#'. */
  lemma ChannelsText(d: string)
    requires |d| == 6 && AllHex(d)
    ensures Format(Channels(d)) == "#" + LowerAll(d)
  {
    var p0, p1, p2 := d[0..2], d[2..4], d[4..6];
    var x, y, z := LowerAll(p0), LowerAll(p1), LowerAll(p2);
    calc {
      Format(Channels(d));
      "#" + HexPair(ParseByte(p0)) + HexPair(ParseByte(p1)) + HexPair(ParseByte(p2));
      { ParsedPair(p0); ParsedPair(p1); ParsedPair(p2); }
      "#" + x + y + z;
      { Regroup(x, y, z); }
      "#" + (x + y + z);
      { LowerAllPairs(d); }
      "#" + LowerAll(d);
    }
  }

  /** The sixteen colours of the palette, as the swatches hold them. */
  const Colors: seq<string> := [
    "#000000", "#808080", "#800000", "#808000",
    "#008000", "#008080", "#000080", "#800080",
    "#FFFFFF", "#C0C0C0", "#FF0000", "#FFFF00",
    "#00FF00", "#00FFFF", "#0000FF", "#FF00FF"
  ]

  /** Every palette colour is one `hexToRgb` accepts. */
  lemma PaletteParses(i: nat)
    requires i < |Colors|
    ensures HexToRgb(Colors[i]).Some?
  {
    var s := Colors[i];
    assert |s| == 7 && s[0] == '#';
    assert forall k :: 1 <= k < 7 ==> s[k] in "08CF";
    assert AllHex(s[1..]);
  }

  // ------------------------------------------------------------ pixel buffer

  type Pixel = (int, int)

  predicate InCanvas(p: Pixel, w: int, h: int) {
    0 <= p.0 < w && 0 <= p.1 < h
  }

  /** The index of the red byte of pixel (x, y): `(y * width + x) * 4`. */
  function Index(x: int, y: int, w: int): int {
    (y * w + x) * 4
  }

  /** The pixel a byte of the buffer belongs to. */
  function Owner(i: nat, w: nat): Pixel
    requires w > 0
  {
    ((i / 4) % w, (i / 4) / w)
  }

  /** `getPixelColor`: the red, green and blue bytes of pixel (x, y). */
  function PixelColor(data: seq<byte>, x: int, y: int, w: int): Rgb
    requires 0 <= Index(x, y, w) && Index(x, y, w) + 2 < |data|
  {
    var i := Index(x, y, w);
    Rgb(data[i], data[i + 1], data[i + 2])
  }

  /** The byte `setPixelColor` writes at offset `k` of a pixel: red, green, blue, then opaque alpha. */
  function FillByte(c: Rgb, k: int): byte
    requires 0 <= k < 4
  {
    [c.r, c.g, c.b, 255][k]
  }

  lemma MulMono(a: int, b: int, w: int)
    requires a <= b && w >= 0
    ensures a * w <= b * w
  {
    assert b * w == a * w + (b - a) * w;
  }

  lemma DivModUnique(n: int, w: int, q: int, r: int)
    requires w > 0 && 0 <= r < w && n == q * w + r
    ensures n / w == q && n % w == r
  {
    var q', r' := n / w, n % w;
    assert n == q' * w + r';
    if q' >= q + 1 {
      MulMono(q + 1, q', w);
    }
    if q >= q' + 1 {
      MulMono(q' + 1, q, w);
    }
  }

  /** The four bytes of an in-canvas pixel lie inside a buffer of `w * h` pixels. */
  lemma IndexInBuffer(x: int, y: int, w: int, h: int)
    requires InCanvas((x, y), w, h)
    ensures 0 <= Index(x, y, w) && Index(x, y, w) + 4 <= w * h * 4
  {
    assert y * w + x < (y + 1) * w;
    MulMono(y + 1, h, w);
  }

  /** A byte belongs to pixel (x, y) exactly when it is one of that pixel's four bytes. */
  lemma OwnerIndex(i: nat, x: int, y: int, w: nat)
    requires w > 0 && 0 <= x < w && 0 <= y
    ensures Owner(i, w) == (x, y) <==> Index(x, y, w) <= i < Index(x, y, w) + 4
  {
    var m := i / 4;
    var k := y * w + x;
    if Index(x, y, w) <= i < Index(x, y, w) + 4 {
      assert m == k;
      DivModUnique(k, w, y, x);
    }
    if Owner(i, w) == (x, y) {
      assert m == (m / w) * w + m % w;
      assert m == k;
    }
  }

  /** Every byte of a `w * h` buffer belongs to a pixel of the canvas. */
  lemma OwnerInCanvas(i: nat, w: nat, h: nat)
    requires w > 0 && i < w * h * 4
    ensures InCanvas(Owner(i, w), w, h)
  {
    var m, k := i / 4, w * h;
    assert m < k && h * w == k;
    assert m == (m / w) * w + m % w;
    if m / w >= h {
      MulMono(h, m / w, w);
    }
  }

  /** `getPixelColor` on a pixel of the canvas, whose bytes always lie inside the buffer. */
  function ColorAt(data: seq<byte>, w: nat, h: nat, p: Pixel): Rgb
    requires |data| == w * h * 4 && InCanvas(p, w, h)
  {
    IndexInBuffer(p.0, p.1, w, h);
    PixelColor(data, p.0, p.1, w)
  }

  /** The buffer with the four bytes of pixel `(x, y)` set to the colour and alpha 255. */
  function WithPixel(buf: seq<byte>, x: int, y: int, w: int, color: Rgb): (next: seq<byte>)
    requires 0 <= Index(x, y, w) && Index(x, y, w) + 3 < |buf|
    ensures |next| == |buf|
    ensures forall i :: 0 <= i < |buf| ==>
      next[i] == if Index(x, y, w) <= i < Index(x, y, w) + 4 then FillByte(color, i - Index(x, y, w)) else buf[i]
  {
    var i := Index(x, y, w);
    buf[i := color.r][i + 1 := color.g][i + 2 := color.b][i + 3 := 255]
  }

  /** `setPixelColor`: the pixel's four bytes become the colour and alpha 255; nothing else changes. */
  method SetPixelColor(data: array<byte>, x: int, y: int, w: int, color: Rgb)
    requires 0 <= Index(x, y, w) && Index(x, y, w) + 3 < data.Length
    modifies data
    ensures data[..] == WithPixel(old(data[..]), x, y, w, color)
    ensures PixelColor(data[..], x, y, w) == color
  {
    var i := Index(x, y, w);
    data[i] := color.r;
    data[i + 1] := color.g;
    data[i + 2] := color.b;
    data[i + 3] := 255;
  }

  // -------------------------------------------------------------- flood fill

  predicate Adjacent(p: Pixel, q: Pixel) {
    (p.0 == q.0 && (p.1 - q.1 == 1 || q.1 - p.1 == 1)) || (p.1 == q.1 && (p.0 - q.0 == 1 || q.0 - p.0 == 1))
  }

  /** A pixel of the canvas whose original colour is within tolerance of the target. */
  predicate Matches(orig: seq<byte>, w: int, h: int, target: Rgb, p: Pixel) {
    && InCanvas(p, w, h)
    && 0 <= Index(p.0, p.1, w) && Index(p.0, p.1, w) + 3 < |orig|
    && ColorsMatch(PixelColor(orig, p.0, p.1, w), target)
  }

  /** A 4-connected walk over matching pixels. */
  ghost predicate IsPath(orig: seq<byte>, w: int, h: int, target: Rgb, path: seq<Pixel>) {
    && |path| > 0
    && (forall i :: 0 <= i < |path| ==> Matches(orig, w, h, target, path[i]))
    && (forall i :: 0 <= i < |path| - 1 ==> Adjacent(path[i], path[i + 1]))
  }

  ghost predicate Reachable(orig: seq<byte>, w: int, h: int, target: Rgb, start: Pixel, p: Pixel) {
    exists path :: IsPath(orig, w, h, target, path) && path[0] == start && path[|path| - 1] == p
  }

  /** The set of all pixels of the canvas. */
  function Canvas(w: nat, h: nat): set<Pixel> {
    set x, y | 0 <= x < w && 0 <= y < h :: (x, y)
  }

  /** The buffer holds the fill colour on visited pixels and the original bytes elsewhere. */
  ghost predicate Painted(cur: seq<byte>, orig: seq<byte>, w: nat, fill: Rgb, visited: set<Pixel>)
    requires w > 0
  {
    && |cur| == |orig|
    && forall i :: 0 <= i < |cur| ==> cur[i] == if Owner(i, w) in visited then FillByte(fill, i % 4) else orig[i]
  }

  /** A stacked pixel is the start, or a neighbour of the end of a walk from the start. */
  ghost predicate Pending(orig: seq<byte>, w: int, h: int, target: Rgb, start: Pixel, path: seq<Pixel>, q: Pixel) {
    || (path == [] && q == start)
    || (IsPath(orig, w, h, target, path) && path[0] == start && Adjacent(path[|path| - 1], q))
  }

  /** The loop invariant of `floodFill`, with a ghost walk recorded for every stacked pixel. */
  ghost predicate Progress(cur: seq<byte>, orig: seq<byte>, w: nat, h: nat, start: Pixel, target: Rgb, fill: Rgb,
                           visited: set<Pixel>, stack: seq<Pixel>, via: seq<seq<Pixel>>)
    requires w > 0
  {
    && |orig| == w * h * 4
    && Painted(cur, orig, w, fill, visited)
    && visited <= Canvas(w, h)
    && |via| == |stack|
    && (forall p :: p in visited ==> Reachable(orig, w, h, target, start, p))
    && (forall k :: 0 <= k < |stack| ==> Pending(orig, w, h, target, start, via[k], stack[k]))
    && (forall p, q :: p in visited && Adjacent(p, q) && Matches(orig, w, h, target, q) ==> q in visited || q in stack)
    && (start in visited || start in stack)
  }

  /** An unvisited pixel still holds its original colour. */
  lemma Unpainted(cur: seq<byte>, orig: seq<byte>, w: nat, h: nat, fill: Rgb, visited: set<Pixel>, q: Pixel)
    requires w > 0 && |orig| == w * h * 4 && Painted(cur, orig, w, fill, visited)
    requires InCanvas(q, w, h) && q !in visited
    ensures 0 <= Index(q.0, q.1, w) && Index(q.0, q.1, w) + 4 <= |cur|
    ensures PixelColor(cur, q.0, q.1, w) == PixelColor(orig, q.0, q.1, w)
  {
    IndexInBuffer(q.0, q.1, w, h);
    var i := Index(q.0, q.1, w);
    OwnerIndex(i, q.0, q.1, w);
    OwnerIndex(i + 1, q.0, q.1, w);
    OwnerIndex(i + 2, q.0, q.1, w);
  }

  /** The start pixel matches its own colour, so the one-pixel walk reaches it. */
  lemma StartReached(orig: seq<byte>, w: nat, h: nat, start: Pixel)
    requires |orig| == w * h * 4 && InCanvas(start, w, h)
    ensures Matches(orig, w, h, ColorAt(orig, w, h, start), start)
    ensures Reachable(orig, w, h, ColorAt(orig, w, h, start), start, start)
  {
    IndexInBuffer(start.0, start.1, w, h);
    assert IsPath(orig, w, h, ColorAt(orig, w, h, start), [start]);
  }

  /** Popping a pixel that is visited or does not match keeps the invariant. */
  lemma SkipStep(cur: seq<byte>, orig: seq<byte>, w: nat, h: nat, start: Pixel, target: Rgb, fill: Rgb,
                 visited: set<Pixel>, stack: seq<Pixel>, via: seq<seq<Pixel>>)
    requires w > 0 && InCanvas(start, w, h) && |stack| > 0
    requires Progress(cur, orig, w, h, start, target, fill, visited, stack, via)
    requires Matches(orig, w, h, target, start)
    requires var q := stack[|stack| - 1]; q in visited || !Matches(orig, w, h, target, q)
    ensures Progress(cur, orig, w, h, start, target, fill, visited, stack[..|stack| - 1], via[..|via| - 1])
  {
    var q := stack[|stack| - 1];
    var rest := stack[..|stack| - 1];
    assert forall p :: p in stack ==> p in rest || p == q;
  }

  /** A walk to a stacked pixel that matches extends to a walk ending there. */
  lemma ExtendWalk(orig: seq<byte>, w: nat, h: nat, target: Rgb, start: Pixel, path: seq<Pixel>, q: Pixel)
    requires Pending(orig, w, h, target, start, path, q)
    requires Matches(orig, w, h, target, q)
    ensures IsPath(orig, w, h, target, path + [q]) && (path + [q])[0] == start
    ensures Reachable(orig, w, h, target, start, q)
  {
    var walk := path + [q];
    assert forall i :: 0 <= i < |path| ==> walk[i] == path[i];
    assert IsPath(orig, w, h, target, walk);
  }

  /** The four neighbours in the order `floodFill` pushes them: right, left, down, up. */
  function Neighbours(p: Pixel): (ns: seq<Pixel>)
    ensures |ns| == 4 && forall k :: 0 <= k < 4 ==> Adjacent(p, ns[k])
    ensures forall q :: Adjacent(p, q) ==> q in ns
  {
    [(p.0 + 1, p.1), (p.0 - 1, p.1), (p.0, p.1 + 1), (p.0, p.1 - 1)]
  }

  /** Painting a matching pixel and pushing its neighbours keeps the buffer part of the invariant. */
  lemma PaintStep(cur: seq<byte>, next: seq<byte>, orig: seq<byte>, w: nat, h: nat, fill: Rgb,
                  visited: set<Pixel>, q: Pixel)
    requires w > 0 && |orig| == w * h * 4 && Painted(cur, orig, w, fill, visited)
    requires InCanvas(q, w, h)
    requires 0 <= Index(q.0, q.1, w) && Index(q.0, q.1, w) + 3 < |cur|
    requires next == WithPixel(cur, q.0, q.1, w, fill)
    ensures Painted(next, orig, w, fill, visited + {q})
  {
    forall i | 0 <= i < |next|
      ensures next[i] == if Owner(i, w) in visited + {q} then FillByte(fill, i % 4) else orig[i]
    {
      OwnerIndex(i, q.0, q.1, w);
    }
  }

  /** Replacing the popped pixel by its neighbours, each recorded with the walk to it, keeps every stacked pixel pending. */
  lemma PushPending(orig: seq<byte>, w: nat, h: nat, target: Rgb, start: Pixel,
                    stack: seq<Pixel>, via: seq<seq<Pixel>>, walk: seq<Pixel>)
    requires |stack| > 0 && |via| == |stack|
    requires forall k :: 0 <= k < |stack| ==> Pending(orig, w, h, target, start, via[k], stack[k])
    requires IsPath(orig, w, h, target, walk) && walk[0] == start && walk[|walk| - 1] == stack[|stack| - 1]
    ensures var stack', via' := stack[..|stack| - 1] + Neighbours(stack[|stack| - 1]), via[..|via| - 1] + [walk, walk, walk, walk];
      |via'| == |stack'| && forall k :: 0 <= k < |stack'| ==> Pending(orig, w, h, target, start, via'[k], stack'[k])
  {
    var q := stack[|stack| - 1];
    var stack', via' := stack[..|stack| - 1] + Neighbours(q), via[..|via| - 1] + [walk, walk, walk, walk];
    forall k | 0 <= k < |stack'|
      ensures Pending(orig, w, h, target, start, via'[k], stack'[k])
    {
      if k < |stack| - 1 {
        assert stack'[k] == stack[k] && via'[k] == via[k];
      } else {
        assert via'[k] == walk;
      }
    }
  }

  /** Visiting the popped pixel and stacking its neighbours keeps every matching neighbour of a visited pixel accounted for. */
  lemma PushClosed(orig: seq<byte>, w: nat, h: nat, target: Rgb, visited: set<Pixel>, stack: seq<Pixel>)
    requires |stack| > 0
    requires forall p, r :: p in visited && Adjacent(p, r) && Matches(orig, w, h, target, r) ==> r in visited || r in stack
    ensures var q := stack[|stack| - 1]; var stack' := stack[..|stack| - 1] + Neighbours(q);
      forall p, r :: p in visited + {q} && Adjacent(p, r) && Matches(orig, w, h, target, r) ==> r in visited + {q} || r in stack'
  {
    var q := stack[|stack| - 1];
    var stack' := stack[..|stack| - 1] + Neighbours(q);
    forall p, r | p in visited + {q} && Adjacent(p, r) && Matches(orig, w, h, target, r)
      ensures r in visited + {q} || r in stack'
    {
      if p != q && r !in visited && r != q {
        var k :| 0 <= k < |stack| && stack[k] == r;
        assert k < |stack| - 1;
        assert stack'[k] == r;
      }
    }
  }

  /** The start stays visited or stacked. */
  lemma PushStart(start: Pixel, visited: set<Pixel>, stack: seq<Pixel>)
    requires |stack| > 0 && (start in visited || start in stack)
    ensures var q := stack[|stack| - 1];
      start in visited + {q} || start in stack[..|stack| - 1] + Neighbours(q)
  {
    var q := stack[|stack| - 1];
    if start !in visited && start != q {
      var k :| 0 <= k < |stack| && stack[k] == start;
      assert k < |stack| - 1;
      assert (stack[..|stack| - 1] + Neighbours(q))[k] == start;
    }
  }

  /** Painting the popped pixel and pushing its four neighbours keeps the invariant. */
  lemma FillStep(cur: seq<byte>, next: seq<byte>, orig: seq<byte>, w: nat, h: nat, start: Pixel, target: Rgb, fill: Rgb,
                 visited: set<Pixel>, stack: seq<Pixel>, via: seq<seq<Pixel>>)
    requires w > 0 && |stack| > 0
    requires Progress(cur, orig, w, h, start, target, fill, visited, stack, via)
    requires var q := stack[|stack| - 1]; q !in visited && Matches(orig, w, h, target, q)
    requires Painted(next, orig, w, fill, visited + {stack[|stack| - 1]})
    ensures var q := stack[|stack| - 1];
      var walk := via[|via| - 1] + [q];
      Progress(next, orig, w, h, start, target, fill, visited + {q},
               stack[..|stack| - 1] + Neighbours(q), via[..|via| - 1] + [walk, walk, walk, walk])
  {
    var q := stack[|stack| - 1];
    var walk := via[|via| - 1] + [q];
    ExtendWalk(orig, w, h, target, start, via[|via| - 1], q);
    assert q in Canvas(w, h);
    PushPending(orig, w, h, target, start, stack, via, walk);
    PushClosed(orig, w, h, target, visited, stack);
    PushStart(start, visited, stack);
  }

  /** When the stack is empty, every walk from the start ends on a visited pixel. */
  lemma {:induction false} Closed(orig: seq<byte>, w: nat, h: nat, start: Pixel, target: Rgb, visited: set<Pixel>,
                                  path: seq<Pixel>)
    requires start in visited
    requires forall p, q :: p in visited && Adjacent(p, q) && Matches(orig, w, h, target, q) ==> q in visited
    requires IsPath(orig, w, h, target, path) && path[0] == start
    ensures path[|path| - 1] in visited
    decreases |path|
  {
    if |path| > 1 {
      var prefix := path[..|path| - 1];
      assert IsPath(orig, w, h, target, prefix);
      Closed(orig, w, h, start, target, visited, prefix);
      assert Adjacent(path[|path| - 2], path[|path| - 1]);
    }
  }

  /** With the stack empty, the visited pixels are exactly those a walk from the start reaches. */
  lemma Done(cur: seq<byte>, orig: seq<byte>, w: nat, h: nat, start: Pixel, target: Rgb, fill: Rgb, visited: set<Pixel>)
    requires w > 0 && Progress(cur, orig, w, h, start, target, fill, visited, [], [])
    ensures forall p :: p in visited ==> InCanvas(p, w, h) && Reachable(orig, w, h, target, start, p)
    ensures forall p :: Reachable(orig, w, h, target, start, p) ==> p in visited
  {
    forall p | Reachable(orig, w, h, target, start, p)
      ensures p in visited
    {
      var path :| IsPath(orig, w, h, target, path) && path[0] == start && path[|path| - 1] == p;
      Closed(orig, w, h, start, target, visited, path);
    }
    forall p | p in visited
      ensures InCanvas(p, w, h)
    {
      assert p in Canvas(w, h);
    }
  }

  /**
   * `floodFill` from pixel (startX, startY) with the colour text `fillColor`,
   * on a `width * height` buffer changed in place. The ghost result `filled`
   * is the set the source keeps as `visited`.
   */
  method FloodFill(data: array<byte>, startX: int, startY: int, fillColor: string, width: nat, height: nat)
    returns (ghost filled: set<Pixel>)
    requires width > 0 && height > 0 && data.Length == width * height * 4
    modifies data
    ensures !InCanvas((startX, startY), width, height) || HexToRgb(fillColor).None? ==> filled == {}
    ensures InCanvas((startX, startY), width, height) && HexToRgb(fillColor).Some? ==>
      var target := ColorAt(old(data[..]), width, height, (startX, startY));
      var fill := HexToRgb(fillColor).value;
      && (ColorsMatch(target, fill) ==> filled == {})
      && (forall i :: 0 <= i < data.Length ==>
            data[i] == if Owner(i, width) in filled then FillByte(fill, i % 4) else old(data[i]))
      && (forall p :: p in filled ==> InCanvas(p, width, height) && Reachable(old(data[..]), width, height, target, (startX, startY), p))
      && (!ColorsMatch(target, fill) ==>
            forall p :: Reachable(old(data[..]), width, height, target, (startX, startY), p) ==> p in filled)
    ensures filled == {} ==> data[..] == old(data[..])
  {
    filled := {};
    var start := (startX, startY);
    if !InCanvas(start, width, height) {
      // the only stacked pixel is off the canvas and is popped without effect
      return;
    }
    var target := ColorAt(data[..], width, height, start);
    var parsed := HexToRgb(fillColor);
    if parsed.None? || ColorsMatch(target, parsed.value) {
      return;
    }
    filled := FillRegion(data, start, target, parsed.value, width, height);
    assert forall i :: 0 <= i < data.Length ==> data[i] == data[..][i] && old(data[i]) == old(data[..])[i];
  }

  /**
   * The loop of `floodFill` once the guards have passed: pixels are popped
   * from an explicit stack, skipped when visited, off the canvas or not
   * within tolerance of the target, and otherwise painted, marked visited
   * and their four neighbours pushed.
   */
  method FillRegion(data: array<byte>, start: Pixel, target: Rgb, fill: Rgb, width: nat, height: nat)
    returns (ghost visited: set<Pixel>)
    requires width > 0 && height > 0 && data.Length == width * height * 4
    requires InCanvas(start, width, height) && target == ColorAt(data[..], width, height, start)
    modifies data
    ensures Painted(data[..], old(data[..]), width, fill, visited)
    ensures start in visited
    ensures forall p :: p in visited ==> InCanvas(p, width, height) && Reachable(old(data[..]), width, height, target, start, p)
    ensures forall p :: Reachable(old(data[..]), width, height, target, start, p) ==> p in visited
  {
    ghost var orig := data[..];
    var stack: seq<Pixel> := [start];
    var pixels: set<Pixel> := {};
    ghost var via: seq<seq<Pixel>> := [[]];
    StartReached(orig, width, height, start);
    while |stack| > 0
      invariant Progress(data[..], orig, width, height, start, target, fill, pixels, stack, via)
      decreases Canvas(width, height) - pixels, |stack|
    {
      var q := stack[|stack| - 1];
      if q in pixels || !InCanvas(q, width, height) {
        SkipStep(data[..], orig, width, height, start, target, fill, pixels, stack, via);
        stack, via := stack[..|stack| - 1], via[..|via| - 1];
        continue;
      }
      Unpainted(data[..], orig, width, height, fill, pixels, q);
      var current := PixelColor(data[..], q.0, q.1, width);
      if !ColorsMatch(current, target) {
        SkipStep(data[..], orig, width, height, start, target, fill, pixels, stack, via);
        stack, via := stack[..|stack| - 1], via[..|via| - 1];
        continue;
      }
      ghost var before := data[..];
      SetPixelColor(data, q.0, q.1, width, fill);
      PaintStep(before, data[..], orig, width, height, fill, pixels, q);
      FillStep(before, data[..], orig, width, height, start, target, fill, pixels, stack, via);
      ghost var walk := via[|via| - 1] + [q];
      assert q in Canvas(width, height);
      pixels := pixels + {q};
      stack := stack[..|stack| - 1] + Neighbours(q);
      via := via[..|via| - 1] + [walk, walk, walk, walk];
    }
    Done(data[..], orig, width, height, start, target, fill, pixels);
    visited := pixels;
  }

  // ------------------------------------------------------------ colour state

  datatype Tool = Pencil | Brush | Eraser | FillTool | LineTool | RectTool | EllipseTool | Spray | TextTool | Eyedropper

  /** The colour and tool state of the Paint window. */
  class Editor {
    var color: string
    var bgColor: string
    var tool: Tool

    /** Both colours are texts the fill tool can parse. */
    ghost predicate Valid()
      reads this
    {
      HexToRgb(color).Some? && HexToRgb(bgColor).Some?
    }

    constructor()
      ensures Valid()
      ensures color == "#000000" && bgColor == "#FFFFFF" && tool == Pencil
    {
      color := "#000000";
      bgColor := "#FFFFFF";
      tool := Pencil;
      PaletteParses(0);
      PaletteParses(8);
    }

    /** A click on the swatch of the background colour swaps the two colours. */
    method SwapColors()
      requires Valid()
      modifies this
      ensures Valid()
      ensures color == old(bgColor) && bgColor == old(color) && tool == old(tool)
    {
      var temp := color;
      color := bgColor;
      bgColor := temp;
    }

    /** A left click on palette entry `i` sets the foreground colour. */
    method PickSwatch(i: nat)
      requires Valid() && i < |Colors|
      modifies this
      ensures Valid()
      ensures color == Colors[i] && bgColor == old(bgColor) && tool == old(tool)
    {
      PaletteParses(i);
      color := Colors[i];
    }

    /** A right click on palette entry `i` sets the background colour. */
    method PickBackground(i: nat)
      requires Valid() && i < |Colors|
      modifies this
      ensures Valid()
      ensures bgColor == Colors[i] && color == old(color) && tool == old(tool)
    {
      PaletteParses(i);
      bgColor := Colors[i];
    }

    method SelectTool(t: Tool)
      requires Valid()
      modifies this
      ensures Valid()
      ensures tool == t && color == old(color) && bgColor == old(bgColor)
    {
      tool := t;
    }

    /**
     * `pickColor`, given the four bytes `getImageData(x, y, 1, 1)` copies
     * out: the pixel's colour becomes the foreground colour, as its
     * lower-case `#rrggbb` text, and the tool goes back to the pencil.
     */
    method PickColor(pixel: seq<byte>)
      requires Valid() && |pixel| == 4
      modifies this
      ensures Valid()
      ensures color == Format(Rgb(pixel[0], pixel[1], pixel[2]))
      ensures HexToRgb(color) == Some(Rgb(pixel[0], pixel[1], pixel[2]))
      ensures tool == Pencil && bgColor == old(bgColor)
    {
      var picked := Rgb(pixel[0], pixel[1], pixel[2]);
      FormatRoundTrip(picked);
      color := Format(picked);
      tool := Pencil;
    }

    /** A press with the fill tool: `floodFill` at the pointer's pixel with the foreground colour. */
    method FillAt(data: array<byte>, x: int, y: int, w: nat, h: nat) returns (ghost filled: set<Pixel>)
      requires Valid() && w > 0 && h > 0 && data.Length == w * h * 4
      modifies data
      ensures !InCanvas((x, y), w, h) ==> filled == {} && data[..] == old(data[..])
      ensures InCanvas((x, y), w, h) && ColorsMatch(ColorAt(old(data[..]), w, h, (x, y)), HexToRgb(color).value) ==>
        filled == {} && data[..] == old(data[..])
      ensures InCanvas((x, y), w, h) && !ColorsMatch(ColorAt(old(data[..]), w, h, (x, y)), HexToRgb(color).value) ==>
        (x, y) in filled
        && forall p :: p in filled <==> Reachable(old(data[..]), w, h, ColorAt(old(data[..]), w, h, (x, y)), (x, y), p)
      ensures forall p :: p in filled ==> InCanvas(p, w, h)
      ensures forall i :: 0 <= i < data.Length ==>
        data[i] == if Owner(i, w) in filled then FillByte(HexToRgb(color).value, i % 4) else old(data[i])
    {
      filled := FloodFill(data, x, y, color, w, h);
      if InCanvas((x, y), w, h) && !ColorsMatch(ColorAt(old(data[..]), w, h, (x, y)), HexToRgb(color).value) {
        StartReached(old(data[..]), w, h, (x, y));
      }
    }
  }

  /** Swapping twice gives both colours back. */
  method SwapTwice(e: Editor)
    requires e.Valid()
    modifies e
    ensures e.Valid()
    ensures e.color == old(e.color) && e.bgColor == old(e.bgColor) && e.tool == old(e.tool)
  {
    e.SwapColors();
    e.SwapColors();
  }
}
