/**
 * The control panel's state logic in `scene_controller.tsx`: the `#rrggbb` colour codec,
 * section-wise replacement of the panel state, the per-field and per-axis edit handlers, and
 * the reset to defaults. Rendering is not modelled.
 */
module SceneController {
  import opened Text
  import opened SceneTypes

  // ---------------------------------------------------------------- colour codec

  /** `Math.round`: the nearest integer, halves rounded up. */
  function JsRound(x: real): (n: int)
    ensures n as real <= x + 0.5 < n as real + 1.0
  {
    (x + 0.5).Floor
  }

  /** `Number.prototype.toString(16)` on an integer: a minus sign before negative values. */
  function IntToHex(i: int): (r: string)
    ensures |r| >= 1
    ensures i >= 0 ==> r == NatToHex(i)
    ensures i < 0 ==> r[0] == '-'
  {
    if i < 0 then "-" + NatToHex(-i) else NatToHex(i)
  }

  /** A colour whose three components lie in [0, 1]. */
  predicate InUnit(c: Rgb) {
    0.0 <= c.r <= 1.0 && 0.0 <= c.g <= 1.0 && 0.0 <= c.b <= 1.0
  }

  /** The byte `round(255 n)` of a unit component. */
  function ByteOf(n: real): (b: nat)
    requires 0.0 <= n <= 1.0
    ensures b <= 255
  {
    JsRound(n * 255.0)
  }

  /** Two lower-case hex digits of a byte. */
  function HexPair(b: nat): (r: string)
    requires b < 256
    ensures |r| == 2 && IsHexDigit(r[0]) && IsHexDigit(r[1])
    ensures 16 * HexValue(r[0]) + HexValue(r[1]) == b
  {
    HexValueOfDigit(b / 16);
    HexValueOfDigit(b % 16);
    [HexDigit(b / 16), HexDigit(b % 16)]
  }

  /** The nested `toHex`: `round(255 n)` in hex, padded with a `0` when it has one digit. */
  function ToHex(n: real): (r: string)
    ensures |r| >= 2
  {
    var hex := IntToHex(JsRound(n * 255.0));
    if |hex| == 1 then "0" + hex else hex
  }

  /** On a unit component, `toHex` writes exactly the two digits of its byte. */
  lemma ToHexOfUnit(n: real)
    requires 0.0 <= n <= 1.0
    ensures ToHex(n) == HexPair(ByteOf(n))
  {
    PaddedHex(ByteOf(n));
  }

  /** For a byte, padding `toString(16)` to two characters gives its two digits. */
  lemma PaddedHex(b: nat)
    requires b < 256
    ensures (if |NatToHex(b)| == 1 then "0" + NatToHex(b) else NatToHex(b)) == HexPair(b)
  {
    if b >= 16 {
      assert NatToHex(b / 16) == [HexDigit(b / 16)];
    }
  }

  /** `rgbToHex`: `#` and the three channel pairs; seven characters for a unit colour. */
  function RgbToHex(c: Rgb): (r: string)
    ensures |r| >= 7 && r[0] == '#'
  {
    "#" + ToHex(c.r) + ToHex(c.g) + ToHex(c.b)
  }

  /** A unit colour is written as `#` and the two digits of each channel's byte: seven characters. */
  lemma RgbToHexOfUnit(c: Rgb)
    requires InUnit(c)
    ensures |RgbToHex(c)| == 7
    ensures RgbToHex(c) == "#" + HexPair(ByteOf(c.r)) + HexPair(ByteOf(c.g)) + HexPair(ByteOf(c.b))
  {
    ToHexOfUnit(c.r);
    ToHexOfUnit(c.g);
    ToHexOfUnit(c.b);
  }

  predicate AllHexDigits(s: string) {
    forall i :: 0 <= i < |s| ==> IsHexDigit(s[i])
  }

  /** The strings the pattern `^#?([a-f\d]{2})([a-f\d]{2})([a-f\d]{2})$` (case-insensitive) accepts. */
  predicate IsHexColor(h: string) {
    || (|h| == 7 && h[0] == '#' && AllHexDigits(h[1..]))
    || (|h| == 6 && AllHexDigits(h))
  }

  /** The six digits of an accepted colour string. */
  function Digits(h: string): (d: string)
    requires IsHexColor(h)
    ensures |d| == 6 && AllHexDigits(d)
  {
    if |h| == 7 then h[1..] else h
  }

  /** The byte written by digits `i` and `i + 1`. */
  function PairValue(d: string, i: nat): (b: nat)
    requires i + 1 < |d| && IsHexDigit(d[i]) && IsHexDigit(d[i + 1])
    ensures b < 256
  {
    16 * HexValue(d[i]) + HexValue(d[i + 1])
  }

  /** A byte as a fraction of 255. */
  function Fraction(b: nat): (x: real)
    requires b < 256
    ensures 0.0 <= x <= 1.0
  {
    b as real / 255.0
  }

  const WHITE: Rgb := Rgb(1.0, 1.0, 1.0)

  /** `hexToRgb`: each byte over 255 for an accepted string, white for anything else. */
  function HexToRgb(h: string): (c: Rgb)
    ensures InUnit(c)
    ensures !IsHexColor(h) ==> c == WHITE
    ensures IsHexColor(h) ==>
      c == Rgb(PairValue(Digits(h), 0) as real / 255.0, PairValue(Digits(h), 2) as real / 255.0,
               PairValue(Digits(h), 4) as real / 255.0)
  {
    if !IsHexColor(h) then WHITE
    else
      var d := Digits(h);
      Rgb(Fraction(PairValue(d, 0)), Fraction(PairValue(d, 2)), Fraction(PairValue(d, 4)))
  }

  /** Decoding a two-digit pair gives back its byte. */
  lemma PairOfHexPair(b: nat, d: string, i: nat)
    requires b < 256 && i + 1 < |d| && d[i..i + 2] == HexPair(b)
    ensures IsHexDigit(d[i]) && IsHexDigit(d[i + 1]) && PairValue(d, i) == b
  {
    assert d[i] == d[i..i + 2][0] && d[i + 1] == d[i..i + 2][1];
  }

  /** A unit colour survives encoding and decoding up to rounding each channel to a byte. */
  lemma RgbHexRoundTrip(c: Rgb)
    requires InUnit(c)
    ensures IsHexColor(RgbToHex(c))
    ensures HexToRgb(RgbToHex(c))
         == Rgb(ByteOf(c.r) as real / 255.0, ByteOf(c.g) as real / 255.0, ByteOf(c.b) as real / 255.0)
  {
    RgbToHexOfUnit(c);
    var h := RgbToHex(c);
    var d := h[1..];
    assert d == HexPair(ByteOf(c.r)) + HexPair(ByteOf(c.g)) + HexPair(ByteOf(c.b));
    assert AllHexDigits(d);
    assert Digits(h) == d;
    PairOfHexPair(ByteOf(c.r), d, 0);
    PairOfHexPair(ByteOf(c.g), d, 2);
    PairOfHexPair(ByteOf(c.b), d, 4);
  }

  /** Re-encoding a byte read as a fraction of 255 gives the byte back. */
  lemma ByteOfFraction(b: nat)
    requires b < 256
    ensures ByteOf(Fraction(b)) == b
  {
    assert (b as real / 255.0) * 255.0 == b as real;
  }

  /** Re-encoding a decoded pair gives the same digits in lower case. */
  lemma HexPairOfDigits(d: string, i: nat)
    requires i + 1 < |d| && IsHexDigit(d[i]) && IsHexDigit(d[i + 1])
    ensures HexPair(PairValue(d, i)) == [LowerAscii(d[i]), LowerAscii(d[i + 1])]
  {
    var hi := HexValue(d[i]);
    var lo := HexValue(d[i + 1]);
    assert PairValue(d, i) / 16 == hi && PairValue(d, i) % 16 == lo;
    HexDigitOfValue(d[i]);
    HexDigitOfValue(d[i + 1]);
  }

  /** The canonical digit of a hex digit's value is the digit in lower case. */
  lemma HexDigitOfValue(c: char)
    requires IsHexDigit(c)
    ensures HexDigit(HexValue(c)) == LowerAscii(c)
  {
  }

  /** Every accepted colour string comes back as `#` and its digits in lower case. */
  lemma HexRgbRoundTrip(h: string)
    requires IsHexColor(h)
    ensures RgbToHex(HexToRgb(h)) == "#" + ToLowerAscii(Digits(h))
  {
    var d := Digits(h);
    assert HexToRgb(h) == Rgb(Fraction(PairValue(d, 0)), Fraction(PairValue(d, 2)),
                              Fraction(PairValue(d, 4)));
    DigitsRoundTrip(d);
  }

  lemma DigitsRoundTrip(d: string)
    requires |d| == 6 && AllHexDigits(d)
    ensures RgbToHex(Rgb(Fraction(PairValue(d, 0)), Fraction(PairValue(d, 2)),
                         Fraction(PairValue(d, 4)))) == "#" + ToLowerAscii(d)
  {
    var s := ToLowerAscii(d);
    var r, g, b := Fraction(PairValue(d, 0)), Fraction(PairValue(d, 2)), Fraction(PairValue(d, 4));
    ChannelAt(d, 0, s);
    ChannelAt(d, 2, s);
    ChannelAt(d, 4, s);
    assert RgbToHex(Rgb(r, g, b)) == "#" + ToHex(r) + ToHex(g) + ToHex(b);
    SixDigits(s, ToHex(r), ToHex(g), ToHex(b));
  }

  /** A channel of `d`, re-encoded, is the matching pair of `d` in lower case. */
  lemma ChannelAt(d: string, i: nat, s: string)
    requires i + 1 < |d| && IsHexDigit(d[i]) && IsHexDigit(d[i + 1])
    requires s == ToLowerAscii(d)
    ensures ToHex(Fraction(PairValue(d, i))) == [s[i], s[i + 1]]
  {
    ChannelRoundTrip(d, i);
  }

  /** Three digit pairs that are the consecutive pairs of `s` spell `s`. */
  lemma SixDigits(s: string, x: string, y: string, z: string)
    requires |s| == 6
    requires x == [s[0], s[1]] && y == [s[2], s[3]] && z == [s[4], s[5]]
    ensures "#" + x + y + z == "#" + s
  {
    assert x + y + z == s;
  }

  /** One channel: decode a digit pair, re-encode it, and get the digits in lower case. */
  lemma ChannelRoundTrip(d: string, i: nat)
    requires i + 1 < |d| && IsHexDigit(d[i]) && IsHexDigit(d[i + 1])
    ensures ToHex(Fraction(PairValue(d, i))) == [LowerAscii(d[i]), LowerAscii(d[i + 1])]
  {
    ByteOfFraction(PairValue(d, i));
    ToHexOfUnit(Fraction(PairValue(d, i)));
    HexPairOfDigits(d, i);
  }

  // ---------------------------------------------------------------- panel state

  /** What `handleDataChange` receives: a section's new data, tagged with the section. */
  datatype SectionData =
    | BackgroundSection(background: BackgroundData)
    | LightingSection(lighting: LightingData)
    | ModelSection(model: ModelData)
  {
    function SectionOf(): Section {
      match this
      case BackgroundSection(_) => Background
      case LightingSection(_) => Lighting
      case ModelSection(_) => Model
    }
  }

  /** The current data of one section of the panel state. */
  function Get(s: SceneControlData, section: Section): (d: SectionData)
    ensures d.SectionOf() == section
  {
    match section
    case Background => BackgroundSection(s.background)
    case Lighting => LightingSection(s.lighting)
    case Model => ModelSection(s.model)
  }

  /** `handleDataChange`: `{ ...sceneData, [section]: data }`. */
  function HandleDataChange(s: SceneControlData, d: SectionData): (r: SceneControlData)
    ensures Get(r, d.SectionOf()) == d
    ensures forall other: Section :: other != d.SectionOf() ==> Get(r, other) == Get(s, other)
  {
    match d
    case BackgroundSection(b) => s.(background := b)
    case LightingSection(l) => s.(lighting := l)
    case ModelSection(m) => s.(model := m)
  }

  /** Writing back a section's own data changes nothing; a second write replaces the first. */
  lemma HandleDataChangeLaws(s: SceneControlData, section: Section, d: SectionData, e: SectionData)
    requires d.SectionOf() == e.SectionOf()
    ensures HandleDataChange(s, Get(s, section)) == s
    ensures HandleDataChange(HandleDataChange(s, d), e) == HandleDataChange(s, e)
  {
  }

  /** One control of the lighting panel. */
  datatype LightingEdit =
    | SetIntensity(intensity: real)
    | SetAmbient(ambient: real)
    | SetDirection(axis: Axis, value: real)
    | SetColor(hex: string)
    | SetShadowEnabled(enabled: bool)
    | SetShadowQuality(quality: string)

  /**
   * The lighting panel's handlers: each writes one field (one axis of the direction; the
   * decoded colour for a typed or picked hex string) and keeps the rest of the data.
   */
  function ApplyLightingEdit(d: LightingData, e: LightingEdit): (r: LightingData)
    ensures e.SetIntensity? ==> r == d.(intensity := e.intensity)
    ensures e.SetAmbient? ==> r == d.(ambientIntensity := e.ambient)
    ensures e.SetDirection? ==>
      && r.direction.Get(e.axis) == e.value
      && (forall other: Axis :: other != e.axis ==> r.direction.Get(other) == d.direction.Get(other))
      && r.(direction := d.direction) == d
    ensures e.SetColor? ==> r == d.(color := HexToRgb(e.hex)) && InUnit(r.color)
    ensures e.SetShadowEnabled? ==> r == d.(shadowEnabled := e.enabled)
    ensures e.SetShadowQuality? ==> r == d.(shadowQuality := e.quality)
  {
    match e
    case SetIntensity(v) => d.(intensity := v)
    case SetAmbient(v) => d.(ambientIntensity := v)
    case SetDirection(axis, v) => d.(direction := d.direction.With(axis, v))
    case SetColor(hex) => d.(color := HexToRgb(hex))
    case SetShadowEnabled(b) => d.(shadowEnabled := b)
    case SetShadowQuality(q) => d.(shadowQuality := q)
  }

  /** `handlePositionChange`: one axis of the position; the rotation is kept. */
  function HandlePositionChange(m: ModelData, axis: Axis, value: real): (r: ModelData)
    ensures r.position.Get(axis) == value && r.rotation == m.rotation
    ensures forall other: Axis :: other != axis ==> r.position.Get(other) == m.position.Get(other)
  {
    m.(position := m.position.With(axis, value))
  }

  /** `handleRotationChange`: one axis of the rotation; the position is kept. */
  function HandleRotationChange(m: ModelData, axis: Axis, value: real): (r: ModelData)
    ensures r.rotation.Get(axis) == value && r.position == m.position
    ensures forall other: Axis :: other != axis ==> r.rotation.Get(other) == m.rotation.Get(other)
  {
    m.(rotation := m.rotation.With(axis, value))
  }

  /** Setting the same axis to the value it holds changes nothing; two axes commute. */
  lemma AxisEditsCommute(m: ModelData, a: Axis, b: Axis, u: real, v: real)
    requires a != b
    ensures HandlePositionChange(m, a, m.position.Get(a)) == m
    ensures HandlePositionChange(HandlePositionChange(m, a, u), b, v)
         == HandlePositionChange(HandlePositionChange(m, b, v), a, u)
    ensures HandleRotationChange(HandleRotationChange(m, a, u), b, v)
         == HandleRotationChange(HandleRotationChange(m, b, v), a, u)
  {
  }

  /** The panel's initial state, which the reset also restores. */
  function Initial(): (s: SceneControlData)
    ensures s.background.image == "/assets/bg/bg.jpg"
    ensures !s.lighting.shadowEnabled && s.lighting.shadowQuality == "medium"
    ensures InUnit(s.lighting.color)
  {
    SceneControlData(
      BackgroundData("/assets/bg/bg.jpg"),
      LightingData(2.1, Vec3(0.5, -1.0, 1.0), WHITE, 0.5, false, "medium"),
      ModelData(Vec3(0.0, 0.0, 0.0), Vec3(0.0, -0.2, 0.0)))
  }

  /** `resetToDefault`: whatever was edited, the state is the initial one again. */
  function ResetToDefault(s: SceneControlData): (r: SceneControlData)
    ensures r == Initial()
  {
    SceneControlData(
      BackgroundData("/assets/bg/bg.jpg"),
      LightingData(2.1, Vec3(0.5, -1.0, 1.0), Rgb(1.0, 1.0, 1.0), 0.5, false, "medium"),
      ModelData(Vec3(0.0, 0.0, 0.0), Vec3(0.0, -0.2, 0.0)))
  }

  /** The initial colour shows as `#ffffff` in the colour field. */
  lemma InitialColorHex()
    ensures RgbToHex(Initial().lighting.color) == "#ffffff"
  {
    assert ByteOf(1.0) == 255;
    RgbToHexOfUnit(Initial().lighting.color);
  }
}
