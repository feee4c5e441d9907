/**
 * The Clock app: the seven-segment table of its digital face, the two-digit
 * formatting of hours, minutes and seconds, and the two display flags
 * (analog/digital mode and the blinking colon).
 */
module Clock {
  import opened Decimal

  /** Segment flags in the order a, b, c, d, e, f, g (top, top right, bottom right, bottom, bottom left, top left, middle). */
  const Segments: map<string, seq<bool>> := map[
    "0" := [true, true, true, true, true, true, false],
    "1" := [false, true, true, false, false, false, false],
    "2" := [true, true, false, true, true, false, true],
    "3" := [true, true, true, true, false, false, true],
    "4" := [false, true, true, false, false, true, true],
    "5" := [true, false, true, true, false, true, true],
    "6" := [true, false, true, true, true, true, true],
    "7" := [true, true, true, false, false, false, false],
    "8" := [true, true, true, true, true, true, true],
    "9" := [true, true, true, true, false, true, true]
  ]

  /** `SEGMENTS[digit] || SEGMENTS['0']`: the lit segments of one digit, with the '0' pattern as fallback. */
  function SegmentsFor(digit: string): (lit: seq<bool>)
    ensures |lit| == 7
    ensures digit in Segments ==> lit == Segments[digit]
    ensures digit !in Segments ==> lit == Segments["0"]
  {
    if digit in Segments then Segments[digit] else Segments["0"]
  }

  /** Every entry has seven flags; '8' lights all of them and '1' only b and c. */
  lemma SegmentsTable()
    ensures forall d :: d in Segments ==> |Segments[d]| == 7
    ensures forall i :: 0 <= i < 7 ==> Segments["8"][i]
    ensures forall i :: 0 <= i < 7 ==> (Segments["1"][i] <==> i == 1 || i == 2)
  {
  }

  /** Every decimal digit has its own entry. */
  lemma DigitHasEntry(c: char)
    requires IsDigit(c)
    ensures [c] in Segments
  {
    var v := c as int - '0' as int;
    if v == 0 { assert c == '0'; }
    else if v == 1 { assert c == '1'; }
    else if v == 2 { assert c == '2'; }
    else if v == 3 { assert c == '3'; }
    else if v == 4 { assert c == '4'; }
    else if v == 5 { assert c == '5'; }
    else if v == 6 { assert c == '6'; }
    else if v == 7 { assert c == '7'; }
    else if v == 8 { assert c == '8'; }
    else { assert c == '9'; }
  }

  /** `formatDigit`: `n.toString().padStart(2, '0')`. */
  function FormatDigit(n: nat): (s: string)
    ensures |s| >= 2
    ensures forall i :: 0 <= i < |s| ==> IsDigit(s[i])
  {
    PadStart(ToDecimal(n), 2, '0')
  }

  /** For 0..99 the text has exactly two digits and reads back as `n`; from 100 on it is the plain decimal. */
  lemma FormatDigitTwoPlaces(n: nat)
    ensures n <= 99 ==> |FormatDigit(n)| == 2 && ParseDecimal(FormatDigit(n)) == n
    ensures n <= 9 ==> FormatDigit(n)[0] == '0'
    ensures n >= 10 ==> FormatDigit(n) == ToDecimal(n)
  {
    var d := ToDecimal(n);
    DecimalRoundTrip(n);
    if n >= 10 {
      assert |d| >= 2;
      if n <= 99 {
        assert n / 10 < 10;
        assert |ToDecimal(n / 10)| == 1;
      }
    } else {
      assert FormatDigit(n) == ['0'] + d;
      assert ['0'] + d == ['0', d[0]];
      assert ParseDecimal(['0']) == 0;
      assert ['0', d[0]][..1] == ['0'];
    }
  }

  /** One digit of the face: the table entry of the character, or the fallback. */
  function DigitSegments(c: char): (lit: seq<bool>)
    ensures |lit| == 7
  {
    SegmentsFor([c])
  }

  /** The segments of the six characters of the face: two for each field. */
  function Face(h: string, m: string, s: string): (face: seq<seq<bool>>)
    requires |h| >= 2 && |m| >= 2 && |s| >= 2
    ensures |face| == 6
    ensures forall k :: 0 <= k < 6 ==> |face[k]| == 7
  {
    [DigitSegments(h[0]), DigitSegments(h[1]), DigitSegments(m[0]),
     DigitSegments(m[1]), DigitSegments(s[0]), DigitSegments(s[1])]
  }

  /** The six digits of the digital face, hours then minutes then seconds. */
  function DigitalFace(hours: nat, minutes: nat, seconds: nat): (face: seq<seq<bool>>)
    requires hours < 24 && minutes < 60 && seconds < 60
    ensures |face| == 6
    ensures forall k :: 0 <= k < 6 ==> |face[k]| == 7
  {
    Face(FormatDigit(hours), FormatDigit(minutes), FormatDigit(seconds))
  }

  /** A real time of day never falls back to the '0' pattern: each digit shows its own table entry. */
  lemma DigitalFaceUsesTable(hours: nat, minutes: nat, seconds: nat)
    requires hours < 24 && minutes < 60 && seconds < 60
    ensures var h, m, s := FormatDigit(hours), FormatDigit(minutes), FormatDigit(seconds);
      && |h| == 2 && |m| == 2 && |s| == 2
      && [h[0]] in Segments && [h[1]] in Segments
      && [m[0]] in Segments && [m[1]] in Segments
      && [s[0]] in Segments && [s[1]] in Segments
      && DigitalFace(hours, minutes, seconds)
         == [Segments[[h[0]]], Segments[[h[1]]], Segments[[m[0]]], Segments[[m[1]]], Segments[[s[0]]], Segments[[s[1]]]]
  {
    FormatDigitTwoPlaces(hours);
    FormatDigitTwoPlaces(minutes);
    FormatDigitTwoPlaces(seconds);
    var h, m, s := FormatDigit(hours), FormatDigit(minutes), FormatDigit(seconds);
    DigitHasEntry(h[0]);
    DigitHasEntry(h[1]);
    DigitHasEntry(m[0]);
    DigitHasEntry(m[1]);
    DigitHasEntry(s[0]);
    DigitHasEntry(s[1]);
  }

  datatype ClockMode = Analog | Digital

  /** The mode button: analog and digital swap. */
  function ToggleMode(mode: ClockMode): (next: ClockMode)
    ensures next != mode
  {
    if mode == Analog then Digital else Analog
  }

  /** Two clicks on the mode button give back the mode. */
  lemma ToggleModeInvolution(mode: ClockMode)
    ensures ToggleMode(ToggleMode(mode)) == mode
  {
  }

  function ModeName(mode: ClockMode): string {
    if mode == Analog then "Analog" else "Digital"
  }

  /** The button's caption: the mode a click switches to. */
  function ButtonLabel(mode: ClockMode): (caption: string)
    ensures caption == ModeName(ToggleMode(mode))
    ensures caption != ModeName(mode)
  {
    if mode == Analog then "Digital" else "Analog"
  }

  datatype ClockState = ClockState(mode: ClockMode, blinkColon: bool)

  /** The 500 ms interval: flips the colon; the mode is untouched. */
  function Tick(c: ClockState): (next: ClockState)
    ensures next.blinkColon != c.blinkColon && next.mode == c.mode
  {
    c.(blinkColon := !c.blinkColon)
  }

  /** A click on the mode button; the colon is untouched. */
  function ClickMode(c: ClockState): (next: ClockState)
    ensures next.mode == ToggleMode(c.mode) && next.blinkColon == c.blinkColon
  {
    c.(mode := ToggleMode(c.mode))
  }

  /** The clock starts analog with the colon lit. */
  const Initial := ClockState(Analog, true)
}
