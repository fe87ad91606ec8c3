/**
 The part of the page the script reads and writes: three checkboxes, the two
 "Off:" texts under "More options", and the colour stops of the tank gradient.
 */
module Panel {
  import opened Colour

  /** The checkboxes `hwbut`, `chbut` and `mainpowerbut`. */
  datatype Box = HwBut | ChBut | MainPowerBut

  /** The spans `hwofftime` and `chofftime`. */
  datatype OffSpan = HwOffTime | ChOffTime

  datatype View = View(
    hwChecked: bool,
    chChecked: bool,
    powerChecked: bool,
    hwOffText: string,
    chOffText: string,
    stops: seq<Rgb>)

  /** Text an off-time span shows until a reply carries an off-time. */
  const Unknown: string := "Unknown"

  /**
   The page as loaded: no checkbox ticked, both off-times "Unknown", and the
   gradient's three stops blue, magenta and red from the bottom up.
   */
  const Initial: View :=
    View(false, false, false, Unknown, Unknown, [Rgb(0, 0, 255), Rgb(255, 0, 255), Rgb(255, 0, 0)])

  function Checked(v: View, b: Box): bool {
    match b
    case HwBut => v.hwChecked
    case ChBut => v.chChecked
    case MainPowerBut => v.powerChecked
  }

  function OffText(v: View, s: OffSpan): string {
    match s
    case HwOffTime => v.hwOffText
    case ChOffTime => v.chOffText
  }

  /** Ticks or clears one checkbox; nothing else on the page changes. */
  function WithChecked(v: View, b: Box, x: bool): (w: View)
    ensures Checked(w, b) == x
    ensures forall c :: c != b ==> Checked(w, c) == Checked(v, c)
    ensures forall s :: OffText(w, s) == OffText(v, s)
    ensures w.stops == v.stops
  {
    match b
    case HwBut => v.(hwChecked := x)
    case ChBut => v.(chChecked := x)
    case MainPowerBut => v.(powerChecked := x)
  }

  /** Replaces the text of one off-time span; nothing else on the page changes. */
  function WithOffText(v: View, s: OffSpan, t: string): (w: View)
    ensures OffText(w, s) == t
    ensures forall o :: o != s ==> OffText(w, o) == OffText(v, o)
    ensures forall b :: Checked(w, b) == Checked(v, b)
    ensures w.stops == v.stops
  {
    match s
    case HwOffTime => v.(hwOffText := t)
    case ChOffTime => v.(chOffText := t)
  }

  /** The loaded page: nothing ticked, both texts "Unknown", stops blue, magenta, red from the bottom. */
  lemma InitialPage()
    ensures forall b :: !Checked(Initial, b)
    ensures forall s :: OffText(Initial, s) == Unknown
    ensures |Initial.stops| == 3
    ensures Initial.stops[0] == Rgb(0, 0, 255)
    ensures Initial.stops[1] == Rgb(255, 0, 255)
    ensures Initial.stops[2] == Rgb(255, 0, 0)
  {
  }
}
