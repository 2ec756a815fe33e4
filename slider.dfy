/**
 * The seek slider (`CustomSlider`): clicking jumps straight to the clicked
 * position, dragging follows the cursor, and only the release asks the
 * player to seek, so playback position updates do not fight the user.
 */
module Slider {

  /** `int(q)` for the rational `v / w` (w > 0): truncation toward zero. */
  function TruncDiv(v: int, w: int): int
    requires w > 0
  {
    if v >= 0 then v / w else -((-v) / w)
  }

  lemma MulMono(a: int, b: int, w: int)
    requires a <= b && w >= 0
    ensures a * w <= b * w
  {
    assert b * w - a * w == (b - a) * w;
  }

  /** The truncated quotient of a value between `lo * w` and `hi * w` lies between `lo` and `hi`. */
  lemma TruncDivBetween(v: int, w: int, lo: int, hi: int)
    requires w > 0 && lo * w <= v <= hi * w
    ensures lo <= TruncDiv(v, w) <= hi
  {
    if v >= 0 {
      var q := v / w;
      assert v == q * w + v % w;
      if q < lo { MulMono(q + 1, lo, w); }
      if q > hi { MulMono(hi + 1, q, w); }
    } else {
      var u := -v;
      var q := u / w;
      assert u == q * w + u % w;
      if -q < lo { MulMono(-lo + 1, q, w); }
      if -q > hi { MulMono(q + 1, -hi, w); }
    }
  }

  /** `TruncDiv` of an exact multiple is the factor. */
  lemma TruncDivExact(k: int, w: int)
    requires w > 0
    ensures TruncDiv(k * w, w) == k
  {
    TruncDivBetween(k * w, w, k, k);
  }

  lemma FloorDivMono(u1: int, u2: int, w: int)
    requires w > 0 && 0 <= u1 <= u2
    ensures u1 / w <= u2 / w
  {
    var q1, q2 := u1 / w, u2 / w;
    assert u1 == q1 * w + u1 % w;
    assert u2 == q2 * w + u2 % w;
    if q1 > q2 {
      MulMono(q2 + 1, q1, w);
    }
  }

  /** A larger numerator never gives a smaller truncated quotient. */
  lemma TruncDivMono(v1: int, v2: int, w: int)
    requires w > 0 && v1 <= v2
    ensures TruncDiv(v1, w) <= TruncDiv(v2, w)
  {
    if v1 >= 0 {
      FloorDivMono(v1, v2, w);
    } else if v2 < 0 {
      FloorDivMono(-v2, -v1, w);
      assert TruncDiv(v1, w) == -((-v1) / w) && TruncDiv(v2, w) == -((-v2) / w);
    } else {
      FloorDivMono(0, -v1, w);
      FloorDivMono(0, v2, w);
      assert TruncDiv(v1, w) == -((-v1) / w) && TruncDiv(v2, w) == v2 / w;
    }
  }

  function Clamp(x: int, lo: int, hi: int): int
    requires lo <= hi
  {
    if x < lo then lo else if x > hi then hi else x
  }

  /**
   * `_pixel_to_value`: 0 for a widget without width; otherwise the cursor
   * clamped into the widget, scaled from pixels onto `[lo, hi]` and truncated.
   */
  function PixelToValue(x: int, width: int, lo: int, hi: int): int {
    if width <= 0 then 0
    else
      var xc := Clamp(x, 0, width);
      TruncDiv(lo * width + (hi - lo) * xc, width)
  }

  /** The mapped value is a legal slider value. */
  lemma PixelToValueInRange(x: int, width: int, lo: int, hi: int)
    requires width > 0 && lo <= hi
    ensures lo <= PixelToValue(x, width, lo, hi) <= hi
  {
    var xc := Clamp(x, 0, width);
    MulMono(0, xc, hi - lo);
    MulMono(xc, width, hi - lo);
    assert lo * width + (hi - lo) * width == hi * width;
    TruncDivBetween(lo * width + (hi - lo) * xc, width, lo, hi);
  }

  /** Left of the slider is its minimum, right of it its maximum. */
  lemma PixelToValueEnds(x: int, width: int, lo: int, hi: int)
    requires width > 0
    ensures x <= 0 ==> PixelToValue(x, width, lo, hi) == lo
    ensures x >= width ==> PixelToValue(x, width, lo, hi) == hi
  {
    TruncDivExact(lo, width);
    assert lo * width + (hi - lo) * width == hi * width;
    TruncDivExact(hi, width);
  }

  /** Further right never maps to a smaller value. */
  lemma PixelToValueMonotone(x1: int, x2: int, width: int, lo: int, hi: int)
    requires width > 0 && lo <= hi && x1 <= x2
    ensures PixelToValue(x1, width, lo, hi) <= PixelToValue(x2, width, lo, hi)
  {
    var c1, c2 := Clamp(x1, 0, width), Clamp(x2, 0, width);
    MulMono(c1, c2, hi - lo);
    TruncDivMono(lo * width + (hi - lo) * c1, lo * width + (hi - lo) * c2, width);
  }

  datatype MouseButton = LeftButton | OtherButton

  class CustomSlider {
    var isDragging: bool
    var value: int
    var minimum: int
    var maximum: int
    var width: int
    /** The values sent by `seek_request`, oldest first. */
    var seekRequests: seq<int>

    predicate Valid()
      reads this
    {
      minimum <= value <= maximum
    }

    constructor (minimum: int, maximum: int, width: int)
      requires minimum <= maximum
      ensures Valid() && !isDragging && value == minimum && seekRequests == []
      ensures this.minimum == minimum && this.maximum == maximum && this.width == width
    {
      isDragging := false;
      value := minimum;
      this.minimum, this.maximum, this.width := minimum, maximum, width;
      seekRequests := [];
    }

    /** `QSlider.setValue`: the value, kept within the range. */
    method SetValue(v: int)
      requires Valid()
      modifies this
      ensures Valid() && value == Clamp(v, minimum, maximum)
      ensures isDragging == old(isDragging) && seekRequests == old(seekRequests)
      ensures minimum == old(minimum) && maximum == old(maximum) && width == old(width)
    {
      value := Clamp(v, minimum, maximum);
    }

    /** `mousePressEvent`: a left click starts a drag at the clicked value. */
    method MousePress(button: MouseButton, x: int)
      requires Valid()
      modifies this
      ensures Valid()
      ensures button == LeftButton ==> isDragging && value == Clamp(PixelToValue(x, width, minimum, maximum), minimum, maximum)
      ensures button == LeftButton && width > 0 ==> value == PixelToValue(x, width, minimum, maximum)
      ensures button != LeftButton ==> isDragging == old(isDragging) && value == old(value)
      ensures seekRequests == old(seekRequests)
      ensures minimum == old(minimum) && maximum == old(maximum) && width == old(width)
    {
      if button == LeftButton {
        isDragging := true;
        var v := PixelToValue(x, width, minimum, maximum);
        if width > 0 {
          PixelToValueInRange(x, width, minimum, maximum);
        }
        SetValue(v);
      }
    }

    /** `mouseMoveEvent`: the value follows the cursor only during a drag. */
    method MouseMove(x: int)
      requires Valid()
      modifies this
      ensures Valid()
      ensures isDragging == old(isDragging) && seekRequests == old(seekRequests)
      ensures isDragging ==> value == Clamp(PixelToValue(x, width, minimum, maximum), minimum, maximum)
      ensures isDragging && width > 0 ==> value == PixelToValue(x, width, minimum, maximum)
      ensures !isDragging ==> value == old(value)
      ensures minimum == old(minimum) && maximum == old(maximum) && width == old(width)
    {
      if isDragging {
        var v := PixelToValue(x, width, minimum, maximum);
        if width > 0 {
          PixelToValueInRange(x, width, minimum, maximum);
        }
        SetValue(v);
      }
    }

    /** `mouseReleaseEvent`: releasing the left button ends a drag and asks once to seek to the value. */
    method MouseRelease(button: MouseButton)
      requires Valid()
      modifies this
      ensures Valid() && value == old(value)
      ensures button == LeftButton && old(isDragging) ==> !isDragging && seekRequests == old(seekRequests) + [value]
      ensures !(button == LeftButton && old(isDragging)) ==> isDragging == old(isDragging) && seekRequests == old(seekRequests)
      ensures minimum == old(minimum) && maximum == old(maximum) && width == old(width)
    {
      if button == LeftButton && isDragging {
        isDragging := false;
        seekRequests := seekRequests + [value];
      }
    }
  }

  /** A press, a move and a release send exactly one seek, to the value the cursor was released at. */
  method ClickAndDrag(s: CustomSlider, x0: int, x1: int)
    requires s.Valid() && s.width > 0
    modifies s
    ensures s.Valid() && !s.isDragging
    ensures s.seekRequests == old(s.seekRequests) + [s.value]
    ensures s.value == PixelToValue(x1, s.width, s.minimum, s.maximum)
  {
    s.MousePress(LeftButton, x0);
    s.MouseMove(x1);
    s.MouseRelease(LeftButton);
  }
}
