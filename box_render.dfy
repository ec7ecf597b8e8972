/**
 * The live part of src/lib/boxRender.ts: the `Colors` palette, the hex
 * colour parser behind `Colors.hexToRgba`, the font-size and line-width
 * formulas, and renderBoxes as a loop emitting abstract drawing commands.
 */
module BoxRender {
  import opened Wrappers

  // ---------------------------------------------------------------------------
  // Colors
  // ---------------------------------------------------------------------------

  /** The twenty palette entries `new Colors()` stores, in order. */
  const Palette: seq<string> := [
    "#FF3838", "#FF9D97", "#FF701F", "#FFB21D", "#CFD231",
    "#48F90A", "#92CC17", "#3DDB86", "#1A9334", "#00D4BB",
    "#2C99A8", "#00C2FF", "#344593", "#6473FF", "#0018EC",
    "#8438FF", "#520085", "#CB38FF", "#FF95C8", "#FF37C7"
  ]

  /** `Math.trunc(a / b)`: integer division rounding toward zero. */
  function TruncDiv(a: int, b: int): int
    requires b != 0
  {
    var m := if b < 0 then -b else b;
    var magnitude := if a >= 0 then a / m else -((-a) / m);
    if b < 0 then -magnitude else magnitude
  }

  /**
   * JavaScript's `a % b` on integers: the remainder truncates toward zero,
   * so it takes the sign of `a` and `a` is the truncated quotient times `b`
   * plus the remainder. `None` is the `NaN` of a zero divisor.
   */
  function JsRemainder(a: int, b: int): (r: Option<int>)
    ensures r.Some? <==> b != 0
    ensures r.Some? && a >= 0 && b > 0 ==> r.value == a % b
    ensures r.Some? ==> -(if b < 0 then -b else b) < r.value < (if b < 0 then -b else b)
    ensures r.Some? && a < 0 ==> r.value <= 0
    ensures r.Some? && a >= 0 ==> r.value >= 0
    ensures r.Some? ==> a == TruncDiv(a, b) * b + r.value
  {
    if b == 0 then None
    else
      var m := if b < 0 then -b else b;
      if a >= 0 then Some(a % m) else Some(-((-a) % m))
  }

  /**
   * A `Colors` object. Its fields are set once by the constructor and never
   * assigned again, so it is a value here.
   */
  datatype Colors = Colors(palette: seq<string>, n: int) {

    /**
     * `get(i)`: `palette[Math.floor(i) % n]`. A negative remainder indexes
     * nothing (`undefined`), except that `-0` indexes entry 0.
     */
    function Get(i: real): (c: Option<string>)
      ensures c.Some? ==> c.value in palette
      ensures 0 < n == |palette| && i >= 0.0 ==> c == Some(palette[i.Floor % n])
      ensures 0 < n == |palette| ==> (c.Some? <==> (i >= 0.0 || (-i.Floor) % n == 0))
      ensures 0 < n == |palette| && i < 0.0 && (-i.Floor) % n == 0 ==> c == Some(palette[0])
    {
      match JsRemainder(i.Floor, n)
      case Some(k) => if 0 <= k < |palette| then Some(palette[k]) else None
      case None => None
    }
  }

  /** `new Colors()`: the palette above and `n` its length, 20. */
  function NewColors(): (c: Colors)
    ensures |c.palette| == 20 && c.n == 20
    ensures forall k :: 0 <= k < 20 ==> c.palette[k] == Palette[k]
  {
    Colors(Palette, |Palette|)
  }

  /** `get` is periodic with period `n` on non-negative class ids. */
  lemma GetPeriodic(i: real)
    requires i >= 0.0
    ensures NewColors().Get(i + 20.0) == NewColors().Get(i)
  {
    assert |Palette| == 20;
    assert (i + 20.0).Floor == i.Floor + 20;
    assert (i.Floor + 20) % 20 == i.Floor % 20;
  }

  // ---------------------------------------------------------------------------
  // Colors.hexToRgba
  // ---------------------------------------------------------------------------

  /** A character of the class `[a-f\d]` matched case-insensitively. */
  predicate IsHexDigit(c: char) {
    ('0' <= c <= '9') || ('a' <= c <= 'f') || ('A' <= c <= 'F')
  }

  /** The value of one hexadecimal digit, as `parseInt(_, 16)` reads it. */
  function HexDigitValue(c: char): (v: int)
    requires IsHexDigit(c)
    ensures 0 <= v < 16
  {
    if '0' <= c <= '9' then c as int - '0' as int
    else if 'a' <= c <= 'f' then c as int - 'a' as int + 10
    else c as int - 'A' as int + 10
  }

  /** `parseInt(hi + lo, 16)` for two hexadecimal digits. */
  function PairValue(hi: char, lo: char): (v: int)
    requires IsHexDigit(hi) && IsHexDigit(lo)
    ensures 0 <= v <= 255
  {
    16 * HexDigitValue(hi) + HexDigitValue(lo)
  }

  /**
   * The strings `/^#?([a-f\d]{2})([a-f\d]{2})([a-f\d]{2})$/i` matches: six
   * hexadecimal digits, optionally after one `#`, and nothing else.
   */
  ghost predicate IsHexColor(hex: string)
    ensures IsHexColor(hex) ==> 6 <= |hex| <= 7 && forall k :: 0 < k < |hex| ==> hex[k] != '#'
  {
    || (|hex| == 6 && forall k :: 0 <= k < 6 ==> IsHexDigit(hex[k]))
    || (|hex| == 7 && hex[0] == '#' && forall k :: 1 <= k < 7 ==> IsHexDigit(hex[k]))
  }

  /** The three channels and the alpha that `rgba(r, g, b, alpha)` is formatted from. */
  datatype Rgba = Rgba(r: int, g: int, b: int, alpha: real)

  /**
   * `Colors.hexToRgba(hex, alpha)`: `None` for `null` when the pattern does
   * not match; otherwise the three two-digit groups in r, g, b order.
   */
  function HexToRgba(hex: string, alpha: real): (res: Option<Rgba>)
    ensures res.Some? <==> IsHexColor(hex)
    ensures res.Some? ==> var c := res.value;
              0 <= c.r <= 255 && 0 <= c.g <= 255 && 0 <= c.b <= 255 && c.alpha == alpha
  {
    var d := if |hex| > 0 && hex[0] == '#' then hex[1..] else hex;
    if |d| == 6 && forall k :: 0 <= k < 6 ==> IsHexDigit(d[k]) then
      Some(Rgba(PairValue(d[0], d[1]), PairValue(d[2], d[3]), PairValue(d[4], d[5]), alpha))
    else
      None
  }

  /** ASCII lower case, the folding the `i` flag applies to `[a-f]`. */
  function LowerChar(c: char): (l: char)
    ensures IsHexDigit(l) <==> IsHexDigit(c)
    ensures IsHexDigit(c) ==> HexDigitValue(l) == HexDigitValue(c)
    ensures l == '#' <==> c == '#'
  {
    if 'A' <= c <= 'Z' then (c as int - 'A' as int + 'a' as int) as char else c
  }

  function LowerCase(s: string): (t: string)
    ensures |t| == |s| && forall k :: 0 <= k < |s| ==> t[k] == LowerChar(s[k])
  {
    seq(|s|, k requires 0 <= k < |s| => LowerChar(s[k]))
  }

  /** The match is case-insensitive: lower-casing the input changes neither the verdict nor the channels. */
  lemma HexToRgbaIgnoresCase(hex: string, alpha: real)
    ensures HexToRgba(LowerCase(hex), alpha) == HexToRgba(hex, alpha)
  {
    var low := LowerCase(hex);
    if |hex| > 0 && hex[0] == '#' {
      assert low[1..] == LowerCase(hex[1..]);
    }
  }

  /** The leading `#` is optional: adding one to a string without one changes nothing. */
  lemma HashOptional(hex: string, alpha: real)
    requires |hex| == 0 || hex[0] != '#'
    ensures HexToRgba(['#'] + hex, alpha) == HexToRgba(hex, alpha)
  {
    assert (['#'] + hex)[1..] == hex;
  }

  /**
   * A missing palette entry reaches hexToRgba as `undefined`, which the
   * regular expression reads as the text "undefined" and does not match.
   */
  lemma UndefinedDoesNotParse(alpha: real)
    ensures HexToRgba("undefined", alpha) == None
  {
    assert !IsHexDigit("undefined"[1]);
  }

  /** The upper-case hexadecimal digit of `v`, as the palette writes them. */
  function HexDigit(v: int): (c: char)
    requires 0 <= v < 16
    ensures IsHexDigit(c) && HexDigitValue(c) == v
  {
    if v < 10 then ('0' as int + v) as char else ('A' as int + v - 10) as char
  }

  /** `#RRGGBB` for three channels in 0..255. */
  function RgbToHex(r: int, g: int, b: int): (hex: string)
    requires 0 <= r <= 255 && 0 <= g <= 255 && 0 <= b <= 255
    ensures |hex| == 7 && hex[0] == '#'
  {
    ['#', HexDigit(r / 16), HexDigit(r % 16), HexDigit(g / 16), HexDigit(g % 16),
     HexDigit(b / 16), HexDigit(b % 16)]
  }

  /** hexToRgba reads back exactly the channels a `#RRGGBB` string was written from. */
  lemma HexRoundTrip(r: int, g: int, b: int, alpha: real)
    requires 0 <= r <= 255 && 0 <= g <= 255 && 0 <= b <= 255
    ensures HexToRgba(RgbToHex(r, g, b), alpha) == Some(Rgba(r, g, b, alpha))
  {
    var hex := RgbToHex(r, g, b);
    assert IsHexColor(hex);
    var d := hex[1..];
    assert PairValue(d[0], d[1]) == r && PairValue(d[2], d[3]) == g && PairValue(d[4], d[5]) == b;
  }

  /**
   * Every palette colour parses, so the `as string` cast on hexToRgba's
   * result in renderBoxes never hides a `null` for a non-negative class id.
   */
  lemma PaletteParses(i: real, alpha: real)
    requires i >= 0.0
    ensures NewColors().Get(i).Some?
    ensures HexToRgba(NewColors().Get(i).value, alpha).Some?
  {
    PaletteEntryParses(i.Floor % 20);
  }

  lemma PaletteEntryParses(k: int)
    requires 0 <= k < 20
    ensures IsHexColor(Palette[k])
  {
    assert forall j :: 0 <= j < 20 ==> IsHexColor(Palette[j]);
  }

  // ---------------------------------------------------------------------------
  // renderBoxes
  // ---------------------------------------------------------------------------

  /** `Math.round`: the nearest integer, halves rounded up. */
  function Round(x: real): (r: int)
    ensures r as real - 0.5 <= x < r as real + 0.5
  {
    (x + 0.5).Floor
  }

  /** The pixel size in `${size}px Arial`: `max(round(max(W, H) / 40), 14)`. */
  function FontSize(canvasWidth: nat, canvasHeight: nat): (px: int)
    ensures px >= 14
    ensures var longer := (if canvasWidth > canvasHeight then canvasWidth else canvasHeight) as real / 40.0;
            px == 14 || (px as real - 0.5 <= longer < px as real + 0.5)
    ensures var longer := (if canvasWidth > canvasHeight then canvasWidth else canvasHeight) as real / 40.0;
            longer >= 14.5 ==> px as real - 0.5 <= longer < px as real + 0.5
  {
    var longer := if canvasWidth > canvasHeight then canvasWidth else canvasHeight;
    var rounded := Round(longer as real / 40.0);
    if rounded > 14 then rounded else 14
  }

  /** `max(min(W, H) / 200, 2.5)`: never thinner than 2.5, and the larger of the two. */
  function LineWidth(canvasWidth: nat, canvasHeight: nat): (w: real)
    ensures w >= 2.5
    ensures w >= (if canvasWidth < canvasHeight then canvasWidth else canvasHeight) as real / 200.0
    ensures w == 2.5 || w == (if canvasWidth < canvasHeight then canvasWidth else canvasHeight) as real / 200.0
  {
    var shorter := if canvasWidth < canvasHeight then canvasWidth else canvasHeight;
    var scaled := shorter as real / 200.0;
    if scaled > 2.5 then scaled else 2.5
  }

  /** The label's top edge, `yText < 0 ? 0 : yText` with `yText = y1 - (textHeight + lineWidth)`. */
  function LabelTop(y1: real, textHeight: real, lineWidth: real): (y: real)
    ensures y >= 0.0
    ensures y >= y1 - (textHeight + lineWidth)
    ensures y == 0.0 || y == y1 - (textHeight + lineWidth)
  {
    var yText := y1 - (textHeight + lineWidth);
    if yText < 0.0 then 0.0 else yText
  }

  /** An axis-aligned rectangle as canvas calls take it: corner, width, height. */
  datatype Rect = Rect(x: real, y: real, width: real, height: real)

  /**
   * A label text `${klass} - ${score}%`: the class label (`None` when the
   * class id is outside the table) and the raw score. Its formatting is not
   * modelled; `measureText` gives its width.
   */
  datatype Caption = Caption(klass: Option<string>, score: real)

  /** The fill or stroke style a drawing command uses. */
  datatype Paint =
    | HexColor(hex: Option<string>)      // a palette entry, `undefined` for no entry
    | Translucent(rgba: Option<Rgba>)    // `hexToRgba(color, 0.2)`, `null` when it does not parse
    | White                              // "#ffffff"

  /** The canvas operations renderBoxes issues, in order. */
  datatype Command =
    | ClearRect(area: Rect)
    | SetFont(px: int)
    | SetTextBaseline(baseline: string)
    | FillRect(paint: Paint, area: Rect)
    | StrokeRect(paint: Paint, lineWidth: real, area: Rect)
    | FillText(paint: Paint, caption: Caption, x: real, y: real)

  /** The arrays a call of renderBoxes draws from: four box slots and one class per score. */
  datatype Detections = Detections(boxes: seq<real>, scores: seq<real>, classes: seq<real>)

  /** Every score has its four box slots and its class id. */
  predicate WellFormed(d: Detections) {
    |d.boxes| >= 4 * |d.scores| && |d.classes| >= |d.scores|
  }

  /** `labels[classes_data[i]]`: defined only for an integral id inside the table. */
  function LabelOf(labels: seq<string>, classId: real): (l: Option<string>)
    ensures l.Some? <==> (classId == classId.Floor as real && 0 <= classId.Floor < |labels|)
    ensures l.Some? ==> l.value == labels[classId.Floor]
  {
    if classId == classId.Floor as real && 0 <= classId.Floor < |labels| then Some(labels[classId.Floor])
    else None
  }

  /** The corners of box `i`, scaled: x by `displayRatios[0]`, y by `displayRatios[1]`. */
  datatype Corners = Corners(x1: real, y1: real, x2: real, y2: real)

  function ScaledBox(boxes: seq<real>, i: nat, displayRatios: seq<real>): (c: Corners)
    requires 4 * i + 4 <= |boxes| && |displayRatios| >= 2
    ensures c.x2 - c.x1 == (boxes[4 * i + 2] - boxes[4 * i]) * displayRatios[0]
    ensures c.y2 - c.y1 == (boxes[4 * i + 3] - boxes[4 * i + 1]) * displayRatios[1]
    ensures displayRatios[0] >= 0.0 && boxes[4 * i] <= boxes[4 * i + 2] ==> c.x1 <= c.x2
    ensures displayRatios[1] >= 0.0 && boxes[4 * i + 1] <= boxes[4 * i + 3] ==> c.y1 <= c.y2
  {
    Corners(boxes[4 * i] * displayRatios[0], boxes[4 * i + 1] * displayRatios[1],
            boxes[4 * i + 2] * displayRatios[0], boxes[4 * i + 3] * displayRatios[1])
  }

  /** The four drawing commands of detection `i`. */
  function DetectionCommands(canvasWidth: nat, canvasHeight: nat, d: Detections, displayRatios: seq<real>,
                             labels: seq<string>, measureText: Caption -> real, i: nat): (cs: seq<Command>)
    requires WellFormed(d) && |displayRatios| >= 2 && i < |d.scores|
    ensures |cs| == 4
  {
    var klass := LabelOf(labels, d.classes[i]);
    var color := NewColors().Get(d.classes[i]);
    var caption := Caption(klass, d.scores[i]);
    var c := ScaledBox(d.boxes, i, displayRatios);
    var box := Rect(c.x1, c.y1, c.x2 - c.x1, c.y2 - c.y1);
    var lineWidth := LineWidth(canvasWidth, canvasHeight);
    var textHeight := FontSize(canvasWidth, canvasHeight) as real;
    var yText := LabelTop(c.y1, textHeight, lineWidth);
    [ FillRect(Translucent(if color.Some? then HexToRgba(color.value, 0.2) else None), box),
      StrokeRect(HexColor(color), lineWidth, box),
      FillRect(HexColor(color), Rect(c.x1 - 1.0, yText, measureText(caption) + lineWidth, textHeight + lineWidth)),
      FillText(White, caption, c.x1 - 1.0, yText) ]
  }

  /** The commands of the first `k` detections, in input order. */
  function DrawAll(canvasWidth: nat, canvasHeight: nat, d: Detections, displayRatios: seq<real>,
                   labels: seq<string>, measureText: Caption -> real, k: nat): (cs: seq<Command>)
    requires WellFormed(d) && |displayRatios| >= 2 && k <= |d.scores|
    ensures |cs| == 4 * k
  {
    if k == 0 then []
    else DrawAll(canvasWidth, canvasHeight, d, displayRatios, labels, measureText, k - 1)
         + DetectionCommands(canvasWidth, canvasHeight, d, displayRatios, labels, measureText, k - 1)
  }

  /**
   * One block of four commands per score, in input order: block `i` draws
   * detection `i`.
   */
  lemma {:induction false} DrawAllLayout(canvasWidth: nat, canvasHeight: nat, d: Detections, displayRatios: seq<real>,
                                         labels: seq<string>, measureText: Caption -> real, k: nat, i: nat)
    requires WellFormed(d) && |displayRatios| >= 2 && k <= |d.scores| && i < k
    ensures var cs := DrawAll(canvasWidth, canvasHeight, d, displayRatios, labels, measureText, k);
            cs[4 * i .. 4 * i + 4] == DetectionCommands(canvasWidth, canvasHeight, d, displayRatios, labels, measureText, i)
  {
    if i < k - 1 {
      DrawAllLayout(canvasWidth, canvasHeight, d, displayRatios, labels, measureText, k - 1, i);
    }
  }

  /**
   * The geometry of detection `i`: its box is the scaled corners with width
   * `x2' - x1'` and height `y2' - y1'`; its label sits just above the box,
   * or at the top edge when there is no room, never above it. The box is
   * filled with the class colour at alpha 0.2 and outlined in it at the
   * canvas line width; the label is filled in the class colour, as wide as
   * the measured caption plus the line width, and written in white.
   */
  lemma DetectionGeometry(canvasWidth: nat, canvasHeight: nat, d: Detections, displayRatios: seq<real>,
                          labels: seq<string>, measureText: Caption -> real, i: nat)
    requires WellFormed(d) && |displayRatios| >= 2 && i < |d.scores|
    ensures var cs := DetectionCommands(canvasWidth, canvasHeight, d, displayRatios, labels, measureText, i);
            var x1, y1 := d.boxes[4 * i] * displayRatios[0], d.boxes[4 * i + 1] * displayRatios[1];
            var x2, y2 := d.boxes[4 * i + 2] * displayRatios[0], d.boxes[4 * i + 3] * displayRatios[1];
            var gap := FontSize(canvasWidth, canvasHeight) as real + LineWidth(canvasWidth, canvasHeight);
            && cs[0].FillRect? && cs[0].area == Rect(x1, y1, x2 - x1, y2 - y1)
            && cs[1].StrokeRect? && cs[1].area == cs[0].area
            && cs[2].FillRect? && cs[2].area.x == x1 - 1.0 && cs[2].area.height == gap
            && cs[2].area.y >= 0.0
            && (y1 >= gap ==> cs[2].area.y + gap == y1)
            && (y1 < gap ==> cs[2].area.y == 0.0)
            && cs[3].FillText? && cs[3].x == cs[2].area.x && cs[3].y == cs[2].area.y
  ensures var cs := DetectionCommands(canvasWidth, canvasHeight, d, displayRatios, labels, measureText, i);
          var color := NewColors().Get(d.classes[i]);
          var caption := Caption(LabelOf(labels, d.classes[i]), d.scores[i]);
          var lineWidth := LineWidth(canvasWidth, canvasHeight);
          && cs[0].FillRect? && cs[0].paint == Translucent(if color.Some? then HexToRgba(color.value, 0.2) else None)
          && cs[1].StrokeRect? && cs[1].paint == HexColor(color) && cs[1].lineWidth == lineWidth
          && cs[2].FillRect? && cs[2].paint == HexColor(color) && cs[2].area.width == measureText(caption) + lineWidth
          && cs[3].FillText? && cs[3].paint == White && cs[3].caption == caption
  {
  }

  /**
   * renderBoxes: clear the whole canvas, set the font and the `top` text
   * baseline, then draw each
   * detection in input order, one block of commands per score entry.
   */
  method RenderBoxes(canvasWidth: nat, canvasHeight: nat, d: Detections, displayRatios: seq<real>,
                     labels: seq<string>, measureText: Caption -> real) returns (commands: seq<Command>)
    requires WellFormed(d) && |displayRatios| >= 2
    ensures |commands| == 3 + 4 * |d.scores|
    ensures commands[0] == ClearRect(Rect(0.0, 0.0, canvasWidth as real, canvasHeight as real))
    ensures commands[1] == SetFont(FontSize(canvasWidth, canvasHeight))
    ensures commands[2] == SetTextBaseline("top")
    ensures commands[3..] == DrawAll(canvasWidth, canvasHeight, d, displayRatios, labels, measureText, |d.scores|)
  {
    commands := [ClearRect(Rect(0.0, 0.0, canvasWidth as real, canvasHeight as real)),
                 SetFont(FontSize(canvasWidth, canvasHeight)), SetTextBaseline("top")];
    for i := 0 to |d.scores|
      invariant |commands| >= 3
      invariant commands[0] == ClearRect(Rect(0.0, 0.0, canvasWidth as real, canvasHeight as real))
      invariant commands[1] == SetFont(FontSize(canvasWidth, canvasHeight))
      invariant commands[2] == SetTextBaseline("top")
      invariant commands[3..] == DrawAll(canvasWidth, canvasHeight, d, displayRatios, labels, measureText, i)
    {
      commands := commands + DetectionCommands(canvasWidth, canvasHeight, d, displayRatios, labels, measureText, i);
    }
  }
}
