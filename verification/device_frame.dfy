/** Geometry of the phone mock-ups drawn by the device-info worker:
    `TaskWorker._create_device_frame`, which wraps a captured image in a
    bezel, and the fixed placeholder mock-up drawn when no image could be
    captured. Only integer coordinates are modelled, never pixels. Boxes are
    PIL boxes `[left, top, right, bottom]` as handed to `rounded_rectangle`. */
module DeviceFrame {
  import opened Wrappers
  import Text

  newtype Byte = b: int | 0 <= b < 256
  type Bytes = seq<Byte>

  // Design constants shared by both mock-ups.
  const FrameThickness := 20
  const NotchAllowance := 60       // extra canvas height reserved for the notch
  const ScreenDrop := 30           // the screen starts this far below the bezel
  const NotchWidth := 60
  const NotchHeight := 8
  const NotchDrop := 5             // notch top sits this far below the bezel
  const IndicatorWidth := 40
  const IndicatorLift := 8         // indicator top sits this far above the bezel
  const FramedIndicatorHeight := 3
  const PlaceholderIndicatorHeight := 4

  datatype Rect = Rect(left: int, top: int, right: int, bottom: int)

  /** Decoded size of an image. */
  datatype Dims = Dims(width: nat, height: nat)

  /** `inner` lies within `outer`. */
  predicate Within(inner: Rect, outer: Rect) {
    outer.left <= inner.left && inner.right <= outer.right
    && outer.top <= inner.top && inner.bottom <= outer.bottom
  }

  /** `a` lies entirely above `b`. */
  predicate Above(a: Rect, b: Rect) { a.bottom < b.top }

  /** `a` lies entirely to the left of `b`. */
  predicate LeftOf(a: Rect, b: Rect) { a.right < b.left }

  /** `r` is centred on a canvas `width` wide, up to the one-pixel bias of
      Python's floor division. */
  predicate CentredIn(r: Rect, width: int) {
    0 <= (width - r.right) - r.left <= 1
  }

  /** A box `w` wide centred with Python's `(width - w) // 2`. Dafny's
      division rounds toward negative infinity for a positive divisor, as
      Python's `//` does, so a negative difference is handled alike. */
  function CentredLeft(width: int, w: int): int {
    (width - w) / 2
  }

  /** The boxes `_create_device_frame` draws on its canvas. `screen` is the
      area the pasted image covers. */
  datatype FrameLayout = FrameLayout(
    width: int, height: int,
    bezel: Rect, notch: Rect, indicator: Rect, screen: Rect)

  function FrameCanvas(l: FrameLayout): Rect { Rect(0, 0, l.width, l.height) }

  /** Layout of the frame around an image of size `d`. */
  function Layout(d: Dims): (l: FrameLayout)
    // the image is pasted unscaled, with 20-px side margins, 50 px above and below
    ensures l.screen.right - l.screen.left == d.width
    ensures l.screen.bottom - l.screen.top == d.height
    ensures l.screen.left == 20 && l.width - l.screen.right == 20
    ensures l.screen.top == 50 && l.height - l.screen.bottom == 50
    ensures l.width == d.width + 40 && l.height == d.height + 100
    ensures l.bezel == FrameCanvas(l)
    // notch: 60x8, centred, y from 25 to 33, above the pasted image
    ensures l.notch.top == 25 && l.notch.bottom == 33
    ensures l.notch.right - l.notch.left == 60 && CentredIn(l.notch, l.width)
    ensures Above(l.notch, l.screen)
    // home indicator: 40x3, centred, 28 px above the canvas bottom, below the image
    ensures l.indicator.top == l.height - 28 && l.indicator.bottom == l.height - 25
    ensures l.indicator.right - l.indicator.left == 40 && CentredIn(l.indicator, l.width)
    ensures Above(l.screen, l.indicator) && Within(l.indicator, FrameCanvas(l))
  {
    var fw := d.width + FrameThickness * 2;
    var fh := d.height + FrameThickness * 2 + NotchAllowance;
    var nx := CentredLeft(fw, NotchWidth);
    var ny := FrameThickness + NotchDrop;
    var ix := CentredLeft(fw, IndicatorWidth);
    var iy := fh - FrameThickness - IndicatorLift;
    var sx := FrameThickness;
    var sy := FrameThickness + ScreenDrop;
    FrameLayout(
      fw, fh,
      Rect(0, 0, fw, fh),
      Rect(nx, ny, nx + NotchWidth, ny + NotchHeight),
      Rect(ix, iy, ix + IndicatorWidth, iy + FramedIndicatorHeight),
      Rect(sx, sy, sx + d.width, sy + d.height))
  }

  /** The pasted image always fits the canvas; the notch fits it exactly
      when the image is at least 20 px wide (narrower canvases clip it). */
  lemma {:induction false} LayoutFitsCanvas(d: Dims)
    ensures Within(Layout(d).screen, FrameCanvas(Layout(d)))
    ensures Within(Layout(d).notch, FrameCanvas(Layout(d))) <==> d.width >= 20
  {
    var l := Layout(d);
    assert l.notch.left == (d.width - 20) / 2;
    if d.width < 20 {
      assert l.notch.left < 0;
    }
  }

  /** What `_create_device_frame` returns: the framed canvas (as its layout;
      the PNG encoding is not modelled) or the input bytes unchanged. */
  datatype FrameResult = Framed(layout: FrameLayout) | Original(data: Bytes)

  /** `_create_device_frame(data)`. `decode` stands for PIL's `Image.open`
      (`None` when it raises) and `draws` for whether allocating, drawing,
      pasting and encoding a canvas of the decoded size succeeds. */
  function CreateDeviceFrame(data: Bytes, decode: Bytes -> Option<Dims>, draws: Dims -> bool): (r: FrameResult)
    ensures r.Original? <==> decode(data).None? || !draws(decode(data).value)
    ensures r.Original? ==> r.data == data
    ensures r.Framed? ==> decode(data).Some? && r.layout == Layout(decode(data).value)
  {
    match decode(data)
    case None => Original(data)
    case Some(d) => if draws(d) then Framed(Layout(d)) else Original(data)
  }

  // ---------------------------------------------------------------------
  // Placeholder mock-up

  const PlaceholderWidth := 240
  const PlaceholderHeight := 480
  const ScreenWidth := 200
  const ScreenHeight := 420
  const IconCount := 4
  const IconInset := 30     // first icon centre, right of the screen's left edge
  const IconPitch := 35     // distance between icon centres
  const IconHalf := 14      // icon background is 28 px square
  const IconRise := 60      // icon row centre, above the screen's bottom edge

  /** A line of text drawn centred (anchor `mm`) at height `y`. */
  datatype Caption = Caption(y: int, text: string)

  datatype PlaceholderLayout = PlaceholderLayout(
    width: int, height: int,
    bezel: Rect, screen: Rect, notch: Rect, indicator: Rect,
    centreX: int, icons: seq<Rect>)

  function PlaceholderCanvas(p: PlaceholderLayout): Rect { Rect(0, 0, p.width, p.height) }

  function IconBox(sx: int, iconY: int, i: nat): Rect {
    var x := sx + IconInset + i * IconPitch;
    Rect(x - IconHalf, iconY - IconHalf, x + IconHalf, iconY + IconHalf)
  }

  /** The fixed geometry of the placeholder mock-up. */
  function Placeholder(): (p: PlaceholderLayout)
    ensures p.width == 240 && p.height == 480 && p.bezel == PlaceholderCanvas(p)
    ensures p.screen == Rect(20, 50, 220, 470) && Within(p.screen, PlaceholderCanvas(p))
    ensures Above(p.notch, p.screen) && CentredIn(p.notch, p.width)
    ensures Within(p.indicator, p.screen) && CentredIn(p.indicator, p.width)
    ensures p.indicator.bottom - p.indicator.top == 4
    ensures p.centreX == (p.screen.left + p.screen.right) / 2
    ensures |p.icons| == 4
    ensures forall i :: 0 <= i < |p.icons| ==>
      Within(p.icons[i], p.screen) && p.icons[i].left + IconHalf == 50 + 35 * i
    ensures forall i, j :: 0 <= i < j < |p.icons| ==> LeftOf(p.icons[i], p.icons[j])
  {
    var sx := FrameThickness;
    var sy := FrameThickness + ScreenDrop;
    var nx := CentredLeft(PlaceholderWidth, NotchWidth);
    var ny := FrameThickness + NotchDrop;
    var ix := CentredLeft(PlaceholderWidth, IndicatorWidth);
    var iy := PlaceholderHeight - FrameThickness - IndicatorLift;
    var iconY := sy + ScreenHeight - IconRise;
    PlaceholderLayout(
      PlaceholderWidth, PlaceholderHeight,
      Rect(0, 0, PlaceholderWidth, PlaceholderHeight),
      Rect(sx, sy, sx + ScreenWidth, sy + ScreenHeight),
      Rect(nx, ny, nx + NotchWidth, ny + NotchHeight),
      Rect(ix, iy, ix + IndicatorWidth, iy + PlaceholderIndicatorHeight),
      sx + ScreenWidth / 2,
      seq(IconCount, i requires 0 <= i < IconCount => IconBox(sx, iconY, i)))
  }

  /** The placeholder shares the frame's notch: it is the notch a 200-px
      wide image gets, while its 480-px canvas is 40 px shorter than the
      frame of a 200x420 image, and its home indicator is 1 px taller and
      sits on the screen instead of below it. */
  lemma PlaceholderAgainstFrame()
    ensures Placeholder().notch == Layout(Dims(200, 420)).notch
    ensures Placeholder().height + 40 == Layout(Dims(200, 420)).height
    ensures Within(Placeholder().indicator, Placeholder().screen)
    ensures Above(Layout(Dims(200, 420)).screen, Layout(Dims(200, 420)).indicator)
  {
  }

  /** The text lines of the placeholder, top to bottom: a phone glyph, the
      device name, `iOS <version>`, the model with `iPhone` removed and two
      fixed status lines. */
  function PlaceholderCaptions(name: string, version: string, model: string): (cs: seq<Caption>)
    ensures |cs| == 6
    ensures cs[1].text == name && cs[2].text == "iOS " + version
    ensures cs[3].text == Text.RemoveAll(model, "iPhone")
    ensures cs[4].text == "Screenshot unavailable" && cs[5].text == "SSL connection issue"
    // stacked downwards on the screen, all above the icon row
    ensures forall i, j :: 0 <= i < j < |cs| ==> cs[i].y < cs[j].y
    ensures forall i :: 0 <= i < |cs| ==>
      Placeholder().screen.top < cs[i].y < Placeholder().icons[0].top
  {
    var p := Placeholder();
    var cy := p.screen.top + ScreenHeight / 2;
    [ Caption(cy - 60, "\U{1F4F1}"),
      Caption(cy - 20, name),
      Caption(cy + 10, "iOS " + version),
      Caption(cy + 30, Text.RemoveAll(model, "iPhone")),
      Caption(cy + 80, "Screenshot unavailable"),
      Caption(cy + 100, "SSL connection issue") ]
  }
}
