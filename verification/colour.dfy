/**
 The temperature colouriser of the hot-water tank picture (`colourFromTemp`).

 A reading is clamped to the range 20..55 degrees, shifted to start at zero and
 rescaled linearly onto 0..255: red grows with the temperature, blue shrinks,
 green is always zero. Each channel is rounded with JavaScript's `Math.round`.
 Readings are exact reals here, not IEEE doubles.
 */
module Colour {

  /** The colour written into a gradient stop, `rgb(red,green,blue)`. */
  datatype Rgb = Rgb(red: int, green: int, blue: int)

  /** Coldest and hottest readings the scale distinguishes, in degrees. */
  const Coldest: real := 20.0
  const Hottest: real := 55.0

  /** `Math.round` on an exact value: the nearest integer, halves going up. */
  function Round(x: real): (n: int)
    ensures n as real <= x + 0.5 < n as real + 1.0
    ensures x - 0.5 < n as real <= x + 0.5
  {
    (x + 0.5).Floor
  }

  /** The reading after the two guards `t < 20` and `t > 55`. */
  function Clamp(t: real): (c: real)
    ensures Coldest <= c <= Hottest
    ensures Coldest <= t <= Hottest ==> c == t
    ensures t <= Coldest ==> c == Coldest
    ensures t >= Hottest ==> c == Hottest
  {
    var low := if t < Coldest then Coldest else t;
    if low > Hottest then Hottest else low
  }

  /** Where a reading falls on the 0..255 red scale, before rounding. */
  function Scale(t: real): (x: real)
    ensures 0.0 <= x <= 255.0
  {
    (Clamp(t) - Coldest) * 255.0 / (Hottest - Coldest)
  }

  /** The colour of a tank reading; every reading, in range or not, gives a valid colour. */
  function ColourFromTemp(temp: real): (c: Rgb)
    ensures c.green == 0
    ensures 0 <= c.red <= 255 && 0 <= c.blue <= 255
  {
    var x := Scale(temp);
    Rgb(Round(x), 0, Round(255.0 - x))
  }

  /** True when `x` lies exactly halfway between two integers. */
  predicate OnHalf(x: real) {
    (x + 0.5).Floor as real == x + 0.5
  }

  /** Readings at or beyond either end of the range saturate to that end's colour. */
  lemma ClampSaturates(t: real)
    ensures t <= Coldest ==> ColourFromTemp(t) == ColourFromTemp(Coldest)
    ensures t >= Hottest ==> ColourFromTemp(t) == ColourFromTemp(Hottest)
  {
  }

  /** The coldest reading is pure blue and the hottest pure red. */
  lemma ScaleEnds()
    ensures ColourFromTemp(Coldest) == Rgb(0, 0, 255)
    ensures ColourFromTemp(Hottest) == Rgb(255, 0, 0)
  {
  }

  /** `Math.round` never reverses the order of two values. */
  lemma RoundMonotone(x: real, y: real)
    requires x <= y
    ensures Round(x) <= Round(y)
  {
  }

  /** A warmer reading is never less red and never more blue. */
  lemma ColourMonotone(t: real, u: real)
    requires t <= u
    ensures ColourFromTemp(t).red <= ColourFromTemp(u).red
    ensures ColourFromTemp(t).blue >= ColourFromTemp(u).blue
  {
    assert Clamp(t) <= Clamp(u);
    assert Scale(t) <= Scale(u) by {
      var d := Clamp(u) - Clamp(t);
      assert Scale(u) - Scale(t) == d * 255.0 / 35.0;
    }
    RoundMonotone(Scale(t), Scale(u));
    RoundMonotone(255.0 - Scale(u), 255.0 - Scale(t));
  }

  /**
   Rounding a value and its complement to 255 loses one unit between them,
   except when the value sits exactly on a half, where both round up.
   */
  lemma RoundComplement(x: real)
    ensures Round(x) + Round(255.0 - x) == if OnHalf(x) then 256 else 255
  {
    var a := Round(x);
    var b := Round(255.0 - x);
    if OnHalf(x) {
      assert a as real == x + 0.5;
      assert 255.5 - x == (256 - a) as real;
      assert b == 256 - a;
    } else {
      assert a as real < x + 0.5;
      assert (255 - a) as real <= 255.5 - x < (256 - a) as real;
      assert b == 255 - a;
    }
  }

  /**
   Red and blue add up to 255, or to 256 exactly when the scaled reading lies
   on a half (37.5 degrees is one such reading).
   */
  lemma ChannelSum(t: real)
    ensures ColourFromTemp(t).red + ColourFromTemp(t).blue == 255
         || ColourFromTemp(t).red + ColourFromTemp(t).blue == 256
    ensures ColourFromTemp(t).red + ColourFromTemp(t).blue == 256 <==> OnHalf(Scale(t))
  {
    RoundComplement(Scale(t));
  }

  /** A whole-degree reading never lands on a half, so its channels add up to 255. */
  lemma WholeDegreesComplement(t: int)
    ensures ColourFromTemp(t as real).red + ColourFromTemp(t as real).blue == 255
  {
    var k := Clamp(t as real) - Coldest;
    var n: int := if t < 20 then 0 else if t > 55 then 35 else t - 20;
    assert k == n as real;
    var x := Scale(t as real);
    assert x == n as real * 255.0 / 35.0;
    assert !OnHalf(x);
    RoundComplement(x);
  }

  /** The midpoint of the range rounds both channels up: purple with a sum of 256. */
  lemma Midpoint()
    ensures ColourFromTemp(37.5) == Rgb(128, 0, 128)
  {
    assert Scale(37.5) == 127.5;
  }
}
