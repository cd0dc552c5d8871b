/** The integer geometry of one frame of the watch face (`onDraw`): the inner
    rectangle, the 16-unit grid derived from it, and the rectangles and anchors
    measured in grid units. Text measurement and the floating-point text centring
    are not part of it; the 70% scaling of the screen bounds is a parameter. */
module WatchLayout {
  import JavaInt
  import opened Optional

  /** The inner rectangle is divided into 16 by 16 grid units. */
  const GRID_UNITS: int := 16
  /** The divider bar is 32 pixels wide, 16 on each side of the centre, and 1 tall. */
  const DIVIDER_HALF_WIDTH: int := 16
  const DIVIDER_HEIGHT: int := 1

  /** android.graphics.Rect: edges in pixels. */
  datatype Rect = Rect(left: int, top: int, right: int, bottom: int) {
    function Width(): int { right - left }
    function Height(): int { bottom - top }
    /** Rect.centerX() is `(left + right) >> 1`, which rounds toward minus infinity. */
    function CenterX(): int { (left + right) / 2 }
  }

  datatype Point = Point(x: int, y: int)

  /** Ambient mode paints the whole canvas black; interactive mode fills the
      rectangle (0, 0, width, height) with the themed background colour. */
  datatype Background = SolidBlack | Themed(area: Rect)

  /** Everything integer that one frame places on the canvas. */
  datatype Layout = Layout(
    background: Background,
    inner: Rect,
    unitWidth: int,
    unitHeight: int,
    timeTextSize: int,
    timeBaseline: int,
    divider: Rect,
    dateTextSize: int,
    dateBaseline: int,
    temperatureTextSize: int,
    maxTemperature: Point,
    minTemperature: Point,
    icon: Option<Rect>)

  /** `Double.valueOf(k * unit).intValue()` for k = halves / 2 (9.5, 5.5 or 1.5). The
      product is exact in a double, and intValue truncates toward zero. */
  function HalfUnits(halves: int, unit: int): int {
    JavaInt.Div(halves * unit, 2)
  }

  /** One grid unit along a side of the given size: Java's `size / 16`. */
  function GridUnit(size: int): int {
    JavaInt.Div(size, GRID_UNITS)
  }

  /** The offset added to every scaled edge. It is computed from the screen's WIDTH and
      the scaled HEIGHT, and added to the vertical edges as well as the horizontal ones. */
  function InnerOffset(bounds: Rect, scale: int -> int): int {
    JavaInt.Div(bounds.Width() - (scale(bounds.bottom) - scale(bounds.top)), 2)
  }

  /** The inner rectangle: each edge of the screen bounds scaled (by `scale`, standing
      for `Double.valueOf(edge * 0.7).intValue()`) and shifted by the offset. */
  function InnerRect(bounds: Rect, scale: int -> int): Rect {
    var offset := InnerOffset(bounds, scale);
    Rect(scale(bounds.left) + offset, scale(bounds.top) + offset,
         scale(bounds.right) + offset, scale(bounds.bottom) + offset)
  }

  /** The divider bar under the time, at 9.5 units below the top of the inner rectangle. */
  function DividerRect(inner: Rect, unitHeight: int): Rect {
    var y := inner.top + HalfUnits(19, unitHeight);
    Rect(inner.CenterX() - DIVIDER_HALF_WIDTH, y,
         inner.CenterX() + DIVIDER_HALF_WIDTH, y + DIVIDER_HEIGHT)
  }

  /** The icon rectangle: 2 to 6 units from the left, 5.5 to 1.5 units above the bottom. */
  function IconRect(inner: Rect, unitWidth: int, unitHeight: int): Rect {
    Rect(inner.left + 2 * unitWidth, inner.bottom - HalfUnits(11, unitHeight),
         inner.left + 6 * unitWidth, inner.bottom - HalfUnits(3, unitHeight))
  }

  /** The geometry of one frame for the given screen bounds and mode; the icon is
      placed only when its bitmap could be loaded. */
  function FrameLayout(bounds: Rect, scale: int -> int, inAmbientMode: bool, hasIcon: bool): Layout {
    var inner := InnerRect(bounds, scale);
    var uw := GridUnit(inner.Width());
    var uh := GridUnit(inner.Height());
    Layout(
      if inAmbientMode then SolidBlack else Themed(Rect(0, 0, bounds.Width(), bounds.Height())),
      inner, uw, uh,
      5 * uh, inner.top + 5 * uh,
      DividerRect(inner, uh),
      2 * uh, inner.top + 8 * uh,
      2 * uh,
      Point(inner.left + 7 * uw, inner.bottom - 3 * uh),
      Point(inner.left + 11 * uw, inner.top + 13 * uh),
      if hasIcon then Some(IconRect(inner, uw, uh)) else None)
  }

  /** The inner rectangle is the scaled rectangle moved by the same offset on both axes,
      so it keeps the scaled width and height; twice the offset is the screen width less
      the scaled height, up to the one pixel truncation drops. */
  lemma InnerRectTranslation(bounds: Rect, scale: int -> int)
    ensures var inner, offset := InnerRect(bounds, scale), InnerOffset(bounds, scale);
      && inner.Width() == scale(bounds.right) - scale(bounds.left)
      && inner.Height() == scale(bounds.bottom) - scale(bounds.top)
      && inner.left - scale(bounds.left) == offset
      && inner.top - scale(bounds.top) == offset
      && -1 <= bounds.Width() - (scale(bounds.bottom) - scale(bounds.top)) - 2 * offset <= 1
  {
  }

  /** On a square screen whose bounds start at the origin, the inner rectangle is centred
      on both axes: the margins on opposite sides differ by at most one pixel. */
  lemma InnerRectCentredOnSquareScreen(bounds: Rect, scale: int -> int)
    requires bounds.left == 0 && bounds.top == 0 && bounds.right == bounds.bottom
    requires scale(0) == 0
    ensures var inner := InnerRect(bounds, scale);
      && -1 <= (inner.left - bounds.left) - (bounds.right - inner.right) <= 1
      && -1 <= (inner.top - bounds.top) - (bounds.bottom - inner.bottom) <= 1
  {
  }

  /** The offset on a tall screen: 300 by 400 pixels, scaled to 210 by 280. The one
      offset is the screen width less the scaled height, halved, and it is added to
      every edge, so on this screen neither axis is centred: the margins are 10 and 80 pixels
      horizontally and 10 and 110 vertically. */
  lemma TallScreenInnerRect(scale: int -> int)
    requires scale(0) == 0 && scale(300) == 210 && scale(400) == 280
    ensures InnerRect(Rect(0, 0, 300, 400), scale) == Rect(10, 10, 220, 290)
    ensures var inner := InnerRect(Rect(0, 0, 300, 400), scale);
      && inner.left - 0 == 10 && 300 - inner.right == 80
      && inner.top - 0 == 10 && 400 - inner.bottom == 110
  {
  }

  /** A grid unit is Java's truncating division by 16: for a non-negative side, 16 units
      fit in the side, and the side is less than 16 pixels longer than 16 units; the
      unit never has the opposite sign of the side. */
  lemma GridUnitBounds(size: int)
    ensures size >= 0 ==> 0 <= GRID_UNITS * GridUnit(size) <= size < GRID_UNITS * GridUnit(size) + GRID_UNITS
    ensures size < 0 ==> size <= GRID_UNITS * GridUnit(size) <= 0
  {
  }

  /** Truncating k * unit for a half-integer k gives k * unit rounded toward zero: for a
      non-negative unit, twice the result is `halves * unit` or one less. */
  lemma HalfUnitsBounds(halves: int, unit: int)
    requires halves >= 0 && unit >= 0
    ensures halves * unit - 1 <= 2 * HalfUnits(halves, unit) <= halves * unit
  {
  }

  /** The divider is exactly 32 pixels wide and 1 tall, centred horizontally on the inner
      rectangle, with its top 9.5 units (rounded toward zero) below the inner top. */
  lemma DividerShape(inner: Rect, unitHeight: int)
    ensures var d := DividerRect(inner, unitHeight);
      && d.Width() == 2 * DIVIDER_HALF_WIDTH && d.Height() == DIVIDER_HEIGHT
      && d.CenterX() == inner.CenterX()
      && d.top == inner.top + HalfUnits(19, unitHeight)
      && (unitHeight >= 0 ==> 19 * unitHeight - 1 <= 2 * (d.top - inner.top) <= 19 * unitHeight)
  {
  }

  /** The icon is 4 units wide, and its height trunc(5.5 u) - trunc(1.5 u) is exactly
      4 units whatever the sign of u: 5.5 u and 1.5 u round toward zero by the same half. */
  lemma IconShape(inner: Rect, unitWidth: int, unitHeight: int)
    ensures var icon := IconRect(inner, unitWidth, unitHeight);
      && icon.Width() == 4 * unitWidth
      && icon.Height() == HalfUnits(11, unitHeight) - HalfUnits(3, unitHeight)
      && icon.Height() == 4 * unitHeight
  {
  }

  /** With an inner rectangle of non-negative width and height everything the frame
      places lies inside it: the baselines, the temperature anchors and the icon; the
      divider lies inside vertically once the rectangle is at least 16 pixels tall, and
      horizontally once it is at least 32 wide. */
  lemma FrameInsideInnerRect(bounds: Rect, scale: int -> int, inAmbientMode: bool, hasIcon: bool)
    requires InnerRect(bounds, scale).Width() >= 0 && InnerRect(bounds, scale).Height() >= 0
    ensures var l := FrameLayout(bounds, scale, inAmbientMode, hasIcon);
      && l.unitWidth >= 0 && l.unitHeight >= 0
      && l.inner.top <= l.timeBaseline <= l.inner.bottom
      && l.inner.top <= l.dateBaseline <= l.inner.bottom
      && l.inner.left <= l.maxTemperature.x <= l.inner.right
      && l.inner.top <= l.maxTemperature.y <= l.inner.bottom
      && l.inner.left <= l.minTemperature.x <= l.inner.right
      && l.inner.top <= l.minTemperature.y <= l.inner.bottom
      && (l.icon.Some? ==>
            && l.inner.left <= l.icon.value.left <= l.icon.value.right <= l.inner.right
            && l.inner.top <= l.icon.value.top <= l.icon.value.bottom <= l.inner.bottom)
      && (l.inner.Height() >= GRID_UNITS ==>
            l.inner.top <= l.divider.top < l.divider.bottom <= l.inner.bottom)
      && (l.inner.Width() >= 2 * DIVIDER_HALF_WIDTH ==>
            l.inner.left <= l.divider.left < l.divider.right <= l.inner.right)
  {
  }

  /** A coordinate within 2^26 pixels of the origin. */
  predicate NearOrigin(e: int) {
    -0x400_0000 <= e <= 0x400_0000
  }

  /** On such a screen the inner rectangle's edges stay within 3 * 2^26 of the origin. */
  lemma InnerRectNearOrigin(bounds: Rect, scale: int -> int)
    requires NearOrigin(bounds.left) && NearOrigin(bounds.right)
    requires NearOrigin(scale(bounds.left)) && NearOrigin(scale(bounds.top))
    requires NearOrigin(scale(bounds.right)) && NearOrigin(scale(bounds.bottom))
    ensures JavaInt.IsInt(bounds.Width() - (scale(bounds.bottom) - scale(bounds.top)))
    ensures var inner := InnerRect(bounds, scale);
      && -0xC00_0000 <= inner.left <= 0xC00_0000 && -0xC00_0000 <= inner.right <= 0xC00_0000
      && -0xC00_0000 <= inner.top <= 0xC00_0000 && -0xC00_0000 <= inner.bottom <= 0xC00_0000
      && -0x800_0000 <= inner.Width() <= 0x800_0000 && -0x800_0000 <= inner.Height() <= 0x800_0000
  {
  }

  /** A side within 2^27 pixels gives a grid unit within 2^23. */
  lemma UnitNearOrigin(size: int)
    requires -0x800_0000 <= size <= 0x800_0000
    ensures -0x80_0000 <= GridUnit(size) <= 0x80_0000
  {
    GridUnitBounds(size);
  }

  /** Up to 9.5 grid units of at most 2^23 pixels stay within 2^27 pixels, and the
      doubled product within 2^28. */
  lemma HalfUnitsNearOrigin(halves: int, unit: int)
    requires 0 <= halves <= 19 && -0x80_0000 <= unit <= 0x80_0000
    ensures -0x1000_0000 <= halves * unit <= 0x1000_0000
    ensures -0x800_0000 <= HalfUnits(halves, unit) <= 0x800_0000
  {
    if unit >= 0 {
      JavaInt.MulNonNegative(19 - halves, unit);
      JavaInt.MulNonNegative(halves, unit);
    } else {
      JavaInt.MulNonNegative(19 - halves, -unit);
      JavaInt.MulNonNegative(halves, -unit);
    }
    JavaInt.DivBounds(halves * unit, 2);
  }

  /** The source computes in Java `int`s; on a screen whose edges, scaled or not, lie
      within 2^26 pixels of the origin, no int value of the frame leaves that range: the
      screen's width and height, the offset operand, the inner edges and size, the grid
      units and every multiple of a unit the frame uses, the text sizes, baselines,
      anchors and the divider and icon edges. It also bounds `19 * unitHeight` and
      `11 * unitHeight`, the doubled forms of the double products `9.5 * oneUnitHeight`
      and `5.5 * oneUnitHeight`, so their `intValue()` truncations are ints as well. So
      this unbounded-integer model computes what the 32-bit code computes. */
  lemma FrameFitsInInt(bounds: Rect, scale: int -> int, inAmbientMode: bool, hasIcon: bool)
    requires NearOrigin(bounds.left) && NearOrigin(bounds.top)
    requires NearOrigin(bounds.right) && NearOrigin(bounds.bottom)
    requires NearOrigin(scale(bounds.left)) && NearOrigin(scale(bounds.top))
    requires NearOrigin(scale(bounds.right)) && NearOrigin(scale(bounds.bottom))
    ensures var l := FrameLayout(bounds, scale, inAmbientMode, hasIcon);
      && JavaInt.IsInt(bounds.Width()) && JavaInt.IsInt(bounds.Height())
      && JavaInt.IsInt(bounds.Width() - (scale(bounds.bottom) - scale(bounds.top)))
      && JavaInt.IsInt(l.inner.left) && JavaInt.IsInt(l.inner.top)
      && JavaInt.IsInt(l.inner.right) && JavaInt.IsInt(l.inner.bottom)
      && JavaInt.IsInt(l.inner.Width()) && JavaInt.IsInt(l.inner.Height())
      && JavaInt.IsInt(l.inner.left + l.inner.right)
      && -0x80_0000 <= l.unitWidth <= 0x80_0000 && -0x80_0000 <= l.unitHeight <= 0x80_0000
      && JavaInt.IsInt(2 * l.unitWidth) && JavaInt.IsInt(6 * l.unitWidth)
      && JavaInt.IsInt(7 * l.unitWidth) && JavaInt.IsInt(11 * l.unitWidth)
      && JavaInt.IsInt(2 * l.unitHeight) && JavaInt.IsInt(3 * l.unitHeight)
      && JavaInt.IsInt(5 * l.unitHeight) && JavaInt.IsInt(8 * l.unitHeight)
      && JavaInt.IsInt(13 * l.unitHeight)
      && JavaInt.IsInt(19 * l.unitHeight) && JavaInt.IsInt(11 * l.unitHeight)
      && JavaInt.IsInt(l.timeTextSize) && JavaInt.IsInt(l.timeBaseline)
      && JavaInt.IsInt(l.divider.left) && JavaInt.IsInt(l.divider.right)
      && JavaInt.IsInt(l.divider.top) && JavaInt.IsInt(l.divider.bottom)
      && JavaInt.IsInt(l.dateTextSize) && JavaInt.IsInt(l.dateBaseline)
      && JavaInt.IsInt(l.temperatureTextSize)
      && JavaInt.IsInt(l.maxTemperature.x) && JavaInt.IsInt(l.maxTemperature.y)
      && JavaInt.IsInt(l.minTemperature.x) && JavaInt.IsInt(l.minTemperature.y)
      && (l.icon.Some? ==>
            && JavaInt.IsInt(l.icon.value.left) && JavaInt.IsInt(l.icon.value.top)
            && JavaInt.IsInt(l.icon.value.right) && JavaInt.IsInt(l.icon.value.bottom))
  {
    var inner := InnerRect(bounds, scale);
    InnerRectNearOrigin(bounds, scale);
    UnitNearOrigin(inner.Width());
    UnitNearOrigin(inner.Height());
    var uh := GridUnit(inner.Height());
    HalfUnitsNearOrigin(19, uh);
    HalfUnitsNearOrigin(11, uh);
    HalfUnitsNearOrigin(3, uh);
  }
}
