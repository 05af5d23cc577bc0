/** The palette-index step of the image output: a raw raster value becomes an index
    into a 256-entry colour table. Values below the minimum map to 0; everything else
    is scaled and rounded (the rounding is an input here) and then clamped. */
module Palette {

  /** The largest palette index: the colour tables have 256 entries. */
  const MaxIndex: int := 255

  function Distance(a: int, b: int): nat
  {
    if a < b then b - a else a - b
  }

  /** The clamp into [0, MaxIndex]: the palette index nearest to `v`. */
  function Clamp(v: int): (r: int)
    ensures 0 <= r <= MaxIndex
    ensures forall k :: 0 <= k <= MaxIndex ==> Distance(r, v) <= Distance(k, v)
  {
    var low := if v < 0 then 0 else v;
    if low > MaxIndex then MaxIndex else low
  }

  /** The palette index of one raster value, given the final minimum and the rounded
      scaled value `rounded` that the output loop computes for it. */
  function PaletteIndex(raw: real, minValue: real, rounded: int): (r: int)
    ensures 0 <= r <= MaxIndex
    ensures raw < minValue ==> r == 0
    ensures raw >= minValue && 0 <= rounded <= MaxIndex ==> r == rounded
    ensures raw >= minValue && rounded < 0 ==> r == 0
    ensures raw >= minValue && rounded > MaxIndex ==> r == MaxIndex
  {
    var v := if raw < minValue then 0 else rounded;
    Clamp(v)
  }

  /** Clamping never reorders values. */
  lemma ClampMonotone(a: int, b: int)
    requires a <= b
    ensures Clamp(a) <= Clamp(b)
  {
  }

  /** `rounded` is an integer nearest to `t`. */
  predicate RoundsTo(rounded: int, t: real)
  {
    t - 0.5 <= rounded as real <= t + 0.5
  }

  /** A value between the extremes scales into [0, 255] before rounding, so with
      max > min the clamp never changes the index of such a value. */
  lemma InRangeNeedsNoClamp(raw: real, minValue: real, maxValue: real, rounded: int)
    requires minValue <= raw <= maxValue && minValue < maxValue
    requires RoundsTo(rounded, (raw - minValue) * (255.0 / (maxValue - minValue)))
    ensures PaletteIndex(raw, minValue, rounded) == rounded
  {
    var span, scale := maxValue - minValue, 255.0 / (maxValue - minValue);
    var t := (raw - minValue) * scale;
    assert scale * span == 255.0;
    assert 0.0 <= t by {
      assert scale > 0.0;
    }
    assert t <= 255.0 by {
      assert (span - (raw - minValue)) * scale >= 0.0;
      assert span * scale - t == (span - (raw - minValue)) * scale;
    }
    assert -1 < rounded < 256;
  }

  /** The palette indices of 10, 20, 30 and 40 under minimum 10 and maximum 40. */
  lemma FourValuesSpreadOverPalette()
    ensures RoundsTo(0, (10.0 - 10.0) * (255.0 / (40.0 - 10.0)))
    ensures RoundsTo(85, (20.0 - 10.0) * (255.0 / (40.0 - 10.0)))
    ensures RoundsTo(170, (30.0 - 10.0) * (255.0 / (40.0 - 10.0)))
    ensures RoundsTo(255, (40.0 - 10.0) * (255.0 / (40.0 - 10.0)))
    ensures PaletteIndex(10.0, 10.0, 0) == 0 && PaletteIndex(20.0, 10.0, 85) == 85
    ensures PaletteIndex(30.0, 10.0, 170) == 170 && PaletteIndex(40.0, 10.0, 255) == 255
  {
  }
}
