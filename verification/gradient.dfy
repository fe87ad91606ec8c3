/**
 The tank picture: `setStops` colours the gradient's stops from one tank
 reading, and `loadhwdata` applies the reply of a `get/hwc` poll.
 */
module Gradient {
  import opened Wrappers
  import opened Colour
  import opened Panel

  /** The three tank sensors, `{top, mid, btm}`, in degrees. */
  datatype TankReading = TankReading(top: real, mid: real, btm: real)

  /** Writes stop `i` when the page has one; a missing stop is left alone. */
  function Paint(stops: seq<Rgb>, i: nat, c: Rgb): (r: seq<Rgb>)
    ensures |r| == |stops|
    ensures i < |stops| ==> r[i] == c
    ensures forall j :: 0 <= j < |r| && j != i ==> r[j] == stops[j]
  {
    if i < |stops| then stops[i := c] else stops
  }

  /**
   Stop 0 (the bottom of the tank) gets the bottom sensor's colour, stop 1 the
   middle one's and stop 2 the top one's; any further stop keeps its colour.
   */
  function SetStops(stops: seq<Rgb>, h: TankReading): (r: seq<Rgb>)
    ensures |r| == |stops|
    ensures |r| > 0 ==> r[0] == ColourFromTemp(h.btm)
    ensures |r| > 1 ==> r[1] == ColourFromTemp(h.mid)
    ensures |r| > 2 ==> r[2] == ColourFromTemp(h.top)
    ensures forall i :: 3 <= i < |r| ==> r[i] == stops[i]
  {
    var top := ColourFromTemp(h.top);
    var middle := ColourFromTemp(h.mid);
    var bottom := ColourFromTemp(h.btm);
    Paint(Paint(Paint(stops, 0, bottom), 1, middle), 2, top)
  }

  /**
   One completed tank poll: a reply recolours the stops, a failed request
   leaves the picture as it was; checkboxes and texts are never touched.
   */
  function LoadTank(v: View, reply: Option<TankReading>): (w: View)
    ensures reply.None? ==> w == v
    ensures forall b :: Checked(w, b) == Checked(v, b)
    ensures forall s :: OffText(w, s) == OffText(v, s)
    ensures |w.stops| == |v.stops|
    ensures reply.Some? && |v.stops| == 3 ==>
      w.stops == [ColourFromTemp(reply.value.btm), ColourFromTemp(reply.value.mid), ColourFromTemp(reply.value.top)]
  {
    match reply
    case None => v
    case Some(h) => v.(stops := SetStops(v.stops, h))
  }

  /**
   A tank that is warmer higher up is drawn redder higher up: from the bottom
   stop to the top one red never falls and blue never rises.
   */
  lemma WarmerAboveIsRedderAbove(stops: seq<Rgb>, h: TankReading)
    requires |stops| >= 3
    requires h.btm <= h.mid <= h.top
    ensures SetStops(stops, h)[0].red <= SetStops(stops, h)[1].red <= SetStops(stops, h)[2].red
    ensures SetStops(stops, h)[0].blue >= SetStops(stops, h)[1].blue >= SetStops(stops, h)[2].blue
  {
    ColourMonotone(h.btm, h.mid);
    ColourMonotone(h.mid, h.top);
  }

  /** A reading of 55, 40 and 20 degrees gives red at the top, purple between, blue at the bottom. */
  lemma HotTopColdBottom()
    ensures LoadTank(Initial, Some(TankReading(55.0, 40.0, 20.0))).stops
         == [Rgb(0, 0, 255), Rgb(146, 0, 109), Rgb(255, 0, 0)]
  {
    assert Scale(40.0) == 20.0 * 255.0 / 35.0;
    assert ColourFromTemp(40.0) == Rgb(146, 0, 109);
    ScaleEnds();
  }
}
