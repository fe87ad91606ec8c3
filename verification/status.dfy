/**
 The status projection of `updateStatus`: each of the three endpoints is polled
 with `get/<part>`, and each reply `{state, offtime?}` ticks or clears that
 endpoint's checkbox and, when it carries an off-time, rewrites its off-time
 span. Replies are applied in the order they complete; there is no sequence
 number, so the last reply to complete wins. How an off-time (epoch seconds)
 is turned into text is the host's date formatting and is a parameter here.
 */
module Status {
  import opened Wrappers
  import opened Panel

  /** One row of the endpoint table: URL part, checkbox, and off-time span if any. */
  datatype Endpoint = Endpoint(urlPart: string, button: Box, span: Option<OffSpan>)

  /** Hot water, central heating and power supply, in the order they are polled. */
  const Endpoints: seq<Endpoint> := [
    Endpoint("hw", HwBut, Some(HwOffTime)),
    Endpoint("ch", ChBut, Some(ChOffTime)),
    Endpoint("psu", MainPowerBut, None)
  ]

  function PollUrl(e: Endpoint): string {
    "get/" + e.urlPart
  }

  /** The poll requests of one `updateStatus` call, one per endpoint. */
  function PollUrls(): (us: seq<string>)
    ensures us == ["get/hw", "get/ch", "get/psu"]
  {
    var us := seq(|Endpoints|, i requires 0 <= i < |Endpoints| => PollUrl(Endpoints[i]));
    assert us[0] == "get/hw" && us[1] == "get/ch" && us[2] == "get/psu";
    us
  }

  predicate HasEndpoint(b: Box) {
    exists i :: 0 <= i < |Endpoints| && Endpoints[i].button == b
  }

  /**
   Each checkbox has exactly one endpoint, and each endpoint's URL names the
   checkbox and span it drives: hot water, heating, and power with no span.
   */
  lemma EndpointTable()
    ensures forall b: Box :: HasEndpoint(b)
    ensures forall i, j :: 0 <= i < j < |Endpoints| ==> Endpoints[i].button != Endpoints[j].button
    ensures forall i :: 0 <= i < |Endpoints| ==>
      (PollUrl(Endpoints[i]) == "get/hw" <==> Endpoints[i].button == HwBut && Endpoints[i].span == Some(HwOffTime))
    ensures forall i :: 0 <= i < |Endpoints| ==>
      (PollUrl(Endpoints[i]) == "get/ch" <==> Endpoints[i].button == ChBut && Endpoints[i].span == Some(ChOffTime))
    ensures forall i :: 0 <= i < |Endpoints| ==>
      (PollUrl(Endpoints[i]) == "get/psu" <==> Endpoints[i].button == MainPowerBut && Endpoints[i].span.None?)
  {
    var us := PollUrls();
    assert PollUrl(Endpoints[0]) == us[0] && PollUrl(Endpoints[1]) == us[1] && PollUrl(Endpoints[2]) == us[2];
    assert "get/hw" != "get/ch" && "get/hw" != "get/psu" && "get/ch" != "get/psu";
    forall b: Box ensures HasEndpoint(b) {
      var i := match b case HwBut => 0 case ChBut => 1 case MainPowerBut => 2;
      assert Endpoints[i].button == b;
    }
  }

  /** A successful status reply. */
  datatype Reply = Reply(state: bool, offtime: Option<int>)

  /**
   The success callback for endpoint `e`. The checkbox takes the reply's state;
   an off-time, when present, is rendered into the endpoint's span. The power
   endpoint has no span, so its off-time, if one came, changes nothing.
   */
  function ApplyReply(v: View, e: Endpoint, r: Reply, render: int -> string): (w: View)
    ensures Checked(w, e.button) == r.state
    ensures forall b :: b != e.button ==> Checked(w, b) == Checked(v, b)
    ensures forall s :: (OffText(w, s) ==
      if r.offtime.Some? && e.span == Some(s) then render(r.offtime.value) else OffText(v, s))
    ensures w.stops == v.stops
  {
    var ticked := WithChecked(v, e.button, r.state);
    if r.offtime.Some? && e.span.Some? then WithOffText(ticked, e.span.value, render(r.offtime.value))
    else ticked
  }

  /** One status request that has finished: a reply, or `None` when it failed. */
  datatype Completion = Completion(endpoint: Endpoint, reply: Option<Reply>)

  /** The page after the given requests completed, in this order; a failed one changes nothing. */
  function ApplyCompletions(v: View, cs: seq<Completion>, render: int -> string): (w: View)
    ensures w.stops == v.stops
    decreases |cs|
  {
    if |cs| == 0 then v
    else
      var before := ApplyCompletions(v, cs[..|cs| - 1], render);
      var last := cs[|cs| - 1];
      match last.reply
      case None => before
      case Some(r) => ApplyReply(before, last.endpoint, r, render)
  }

  /** The state in the latest successful reply for checkbox `b`, if there is one. */
  function LatestState(cs: seq<Completion>, b: Box): Option<bool>
    decreases |cs|
  {
    if |cs| == 0 then None
    else
      var last := cs[|cs| - 1];
      if last.endpoint.button == b && last.reply.Some? then Some(last.reply.value.state)
      else LatestState(cs[..|cs| - 1], b)
  }

  /** The off-time in the latest successful reply that carried one for span `s`, if any. */
  function LatestOfftime(cs: seq<Completion>, s: OffSpan): Option<int>
    decreases |cs|
  {
    if |cs| == 0 then None
    else
      var last := cs[|cs| - 1];
      if last.endpoint.span == Some(s) && last.reply.Some? && last.reply.value.offtime.Some? then
        last.reply.value.offtime
      else LatestOfftime(cs[..|cs| - 1], s)
  }

  /**
   Each checkbox shows the state of the latest reply for its endpoint, or what
   it showed before if none arrived; each off-time span shows the latest
   off-time received for it, or keeps its earlier text (initially "Unknown").
   */
  lemma {:induction false} LatestReplyWins(v: View, cs: seq<Completion>, render: int -> string)
    ensures forall b :: Checked(ApplyCompletions(v, cs, render), b) == LatestState(cs, b).GetOr(Checked(v, b))
    ensures forall s :: (OffText(ApplyCompletions(v, cs, render), s) ==
      match LatestOfftime(cs, s) case Some(t) => render(t) case None => OffText(v, s))
    decreases |cs|
  {
    if |cs| > 0 {
      LatestReplyWins(v, cs[..|cs| - 1], render);
    }
  }

  /** Before any reply with an off-time arrives, both spans still read "Unknown". */
  lemma UnknownUntilOfftime(cs: seq<Completion>, render: int -> string, s: OffSpan)
    requires LatestOfftime(cs, s).None?
    ensures OffText(ApplyCompletions(Initial, cs, render), s) == Unknown
  {
    LatestReplyWins(Initial, cs, render);
  }

  /**
   A heating reply `{state: true, offtime: T}` ticks the heating checkbox and
   shows T's rendering under "CH Off", leaving the other controls alone.
   */
  lemma HeatingReply(v: View, t: int, render: int -> string)
    ensures Checked(ApplyReply(v, Endpoints[1], Reply(true, Some(t)), render), ChBut)
    ensures OffText(ApplyReply(v, Endpoints[1], Reply(true, Some(t)), render), ChOffTime) == render(t)
    ensures OffText(ApplyReply(v, Endpoints[1], Reply(true, Some(t)), render), HwOffTime) == v.hwOffText
    ensures Checked(ApplyReply(v, Endpoints[1], Reply(true, Some(t)), render), HwBut) == v.hwChecked
  {
  }

  /**
   A hot-water reply `{state: s, offtime: T}` sets the hot-water checkbox to s
   and shows T's rendering under "HW Off", leaving the heating controls alone.
   */
  lemma HotWaterReply(v: View, s: bool, t: int, render: int -> string)
    ensures Checked(ApplyReply(v, Endpoints[0], Reply(s, Some(t)), render), HwBut) == s
    ensures OffText(ApplyReply(v, Endpoints[0], Reply(s, Some(t)), render), HwOffTime) == render(t)
    ensures OffText(ApplyReply(v, Endpoints[0], Reply(s, Some(t)), render), ChOffTime) == v.chOffText
    ensures Checked(ApplyReply(v, Endpoints[0], Reply(s, Some(t)), render), ChBut) == v.chChecked
  {
  }
}
