/**
 The command handlers `psu`, `hotwater` and `heating`: from the clicked
 control (or the word passed by a "turn on for N minutes" button), an optional
 duration and the `testing` flag, each decides which `set/...` URL to POST, if
 any. At most one request is issued per call, and nothing is compared with the
 state last polled, so repeating a call repeats the request.
 */
module Dispatch {
  import opened Wrappers

  datatype Subsystem = Power | Heating | HotWater

  /** The word a timed button passes in place of a checkbox. */
  type Keyword = w: string | w == "on" || w == "off" witness "on"

  /** A handler's first argument: the clicked checkbox, or a word. */
  datatype StateArg = Checkbox(checked: bool) | Word(text: Keyword)

  /** A state change for the controller; a duration is in minutes, as the select box gives it. */
  datatype Command = Command(target: Subsystem, on: bool, duration: Option<string>)

  /** The durations the "More options" select box offers. */
  const Durations: seq<string> := ["30", "90", "120", "180"]

  /** The path segment naming each subsystem in a `set/` URL. */
  function Part(s: Subsystem): string {
    match s
    case Power => "psu"
    case Heating => "ch"
    case HotWater => "hw"
  }

  /** The desired state read from the argument: `checked`, or the word itself. */
  predicate WantsOn(arg: StateArg) {
    arg == Checkbox(true) || arg == Word("on")
  }

  predicate WantsOff(arg: StateArg) {
    arg == Checkbox(false) || arg == Word("off")
  }

  /**
   The decision table, before the testing flag. Power reads `checked` only (a
   word has none, so nothing is sent) and takes no duration. Heating and hot
   water turn on with the duration when one is given, and turn off ignoring it.
   */
  function Decide(target: Subsystem, arg: StateArg, duration: Option<string>): (c: Option<Command>)
    ensures c.Some? ==> c.value.target == target
    ensures c.Some? <==> (target != Power || arg.Checkbox?)
    ensures c.Some? ==> (c.value.on <==> WantsOn(arg)) && (!c.value.on <==> WantsOff(arg))
    ensures c.Some? && c.value.on && target != Power ==> c.value.duration == duration
    ensures c.Some? && (!c.value.on || target == Power) ==> c.value.duration.None?
  {
    match target
    case Power =>
      if arg.Checkbox? then Some(Command(Power, arg.checked, None)) else None
    case _ =>
      if WantsOn(arg) then Some(Command(target, true, duration))
      else Some(Command(target, false, None))
  }

  /** The URL a command is POSTed to: `set/`, the subsystem, then `on`, `on/<duration>` or `off`. */
  function Url(c: Command): (u: string)
    ensures c.target == Power ==> |u| > 8 && u[..8] == "set/psu/" && u[8..] == Tail(c)
    ensures c.target == HotWater ==> |u| > 7 && u[..7] == "set/hw/" && u[7..] == Tail(c)
    ensures c.target == Heating ==> |u| > 7 && u[..7] == "set/ch/" && u[7..] == Tail(c)
  {
    var u := "set/" + (Part(c.target) + "/" + Tail(c));
    assert u == "set/" + Part(c.target) + "/" + Tail(c);
    u
  }

  /** The text after the subsystem's segment in a command's URL. */
  function Tail(c: Command): string {
    (if c.on then "on" else "off") + (match c.duration case Some(d) => "/" + d case None => "")
  }

  /**
   One call of a handler: the URL it POSTs to, or `None` when it sends nothing.
   With `testing` set no call sends anything; otherwise every heating or hot
   water call, and every power checkbox click, sends exactly one request.
   */
  function Handle(target: Subsystem, arg: StateArg, duration: Option<string>, testing: bool): (url: Option<string>)
    ensures testing ==> url.None?
    ensures url.Some? <==> !testing && (target != Power || arg.Checkbox?)
  {
    if testing then None
    else match Decide(target, arg, duration)
      case Some(c) => Some(Url(c))
      case None => None
  }

  /** Every URL a handler sends reads back as the command the table decided on. */
  lemma HandleReadsBack(target: Subsystem, arg: StateArg, duration: Option<string>)
    requires Handle(target, arg, duration, false).Some?
    ensures Parse(Handle(target, arg, duration, false).value) == Decide(target, arg, duration)
  {
    ParseUrl(Decide(target, arg, duration).value);
  }

  /** A command a handler can send: power carries no duration, and a duration goes only with "on". */
  predicate WellFormed(c: Command) {
    match c.duration
    case None => true
    case Some(d) => c.target != Power && c.on
  }

  /** Reads a `set/` URL back into the command it names, or `None` for any other string. */
  function Parse(u: string): Option<Command> {
    if |u| < 4 || u[..4] != "set/" then None else ParseRest(u[4..])
  }

  /** What follows `set/`: `psu/on`, `psu/off`, or `hw/` or `ch/` and a tail. */
  function ParseRest(rest: string): Option<Command> {
    if rest == "psu/on" then Some(Command(Power, true, None))
    else if rest == "psu/off" then Some(Command(Power, false, None))
    else if |rest| < 3 then None
    else match TargetOf(rest[..3])
      case None => None
      case Some(target) => ParseTail(target, rest[3..])
  }

  function TargetOf(prefix: string): Option<Subsystem> {
    if prefix == "hw/" then Some(HotWater)
    else if prefix == "ch/" then Some(Heating)
    else None
  }

  /** What follows `hw/` or `ch/`: `on`, `off`, or `on/` and a duration (everything after it). */
  function ParseTail(target: Subsystem, tail: string): Option<Command> {
    if tail == "on" then Some(Command(target, true, None))
    else if tail == "off" then Some(Command(target, false, None))
    else if |tail| >= 3 && tail[..3] == "on/" then Some(Command(target, true, Some(tail[3..])))
    else None
  }

  /** Every well-formed command's URL reads back as that command. */
  lemma ParseUrl(c: Command)
    requires WellFormed(c)
    ensures Parse(Url(c)) == Some(c)
  {
    var u := Url(c);
    var rest := Part(c.target) + "/" + Tail(c);
    assert u[..4] == "set/" && u[4..] == rest;
    if c.target == Power {
      assert Tail(c) == (if c.on then "on" else "off");
    } else {
      var p := Part(c.target) + "/";
      assert rest[0] != 'p';
      assert rest[..3] == p && rest[3..] == Tail(c);
      assert TargetOf(p) == Some(c.target) by {
        if c.target == Heating { assert p[0] == 'c'; }
      }
      TailReadsBack(c);
    }
  }

  lemma TailReadsBack(c: Command)
    requires WellFormed(c) && c.target != Power
    ensures ParseTail(c.target, Tail(c)) == Some(c)
  {
    var tail := Tail(c);
    if c.duration.Some? {
      assert tail == "on" + "/" + c.duration.value;
      assert |tail| >= 3 && tail[..3] == "on/" && tail[3..] == c.duration.value;
      assert tail != "off" by { assert tail[1] == 'n'; }
    }
  }

  /** Only URLs of commands are read back, and they are read back to the command they came from. */
  lemma ParseOnlyUrls(u: string)
    requires Parse(u).Some?
    ensures WellFormed(Parse(u).value)
    ensures Url(Parse(u).value) == u
  {
    var rest := u[4..];
    assert u == "set/" + rest;
    ParseRestOnly(rest);
  }

  lemma ParseRestOnly(rest: string)
    requires ParseRest(rest).Some?
    ensures WellFormed(ParseRest(rest).value)
    ensures Part(ParseRest(rest).value.target) + "/" + Tail(ParseRest(rest).value) == rest
  {
    if rest != "psu/on" && rest != "psu/off" {
      var target := TargetOf(rest[..3]).value;
      assert rest[..3] == Part(target) + "/";
      ParseTailOnly(target, rest[3..]);
      assert rest == rest[..3] + rest[3..];
    }
  }

  lemma ParseTailOnly(target: Subsystem, tail: string)
    requires target != Power
    requires ParseTail(target, tail).Some?
    ensures WellFormed(ParseTail(target, tail).value)
    ensures ParseTail(target, tail).value.target == target
    ensures Tail(ParseTail(target, tail).value) == tail
  {
    if tail != "on" && tail != "off" {
      assert tail == "on" + "/" + tail[3..];
    }
  }

  /** The handlers only ever produce well-formed commands, whatever the duration. */
  lemma DecideWellFormed(target: Subsystem, arg: StateArg, duration: Option<string>)
    requires Decide(target, arg, duration).Some?
    ensures WellFormed(Decide(target, arg, duration).value)
  {
  }

  /** The request table of the power handler, outside testing: a word carries no `checked`, so nothing is sent. */
  lemma PowerTable()
    ensures Handle(Power, Checkbox(true), None, false) == Some("set/psu/on")
    ensures Handle(Power, Checkbox(false), None, false) == Some("set/psu/off")
    ensures Handle(Power, Word("on"), None, false).None?
  {
    assert Url(Command(Power, true, None)) == "set/psu/on";
    assert Url(Command(Power, false, None)) == "set/psu/off";
  }

  /**
   The request table of the hot water handler, outside testing: on without a
   duration, on for a duration, and off whatever the duration.
   */
  lemma HotWaterTable(d: string)
    ensures Handle(HotWater, Checkbox(true), None, false) == Some("set/hw/on")
    ensures Handle(HotWater, Word("on"), None, false) == Some("set/hw/on")
    ensures Handle(HotWater, Word("on"), Some(d), false) == Some("set/hw/on/" + d)
    ensures Handle(HotWater, Checkbox(true), Some(d), false) == Some("set/hw/on/" + d)
    ensures Handle(HotWater, Checkbox(false), Some(d), false) == Some("set/hw/off")
    ensures Handle(HotWater, Word("off"), None, false) == Some("set/hw/off")
  {
    assert Url(Command(HotWater, true, None)) == "set/hw/on";
    assert Url(Command(HotWater, true, Some(d))) == "set/hw/" + ("on" + "/" + d);
    assert "set/hw/" + ("on" + "/" + d) == "set/hw/on/" + d;
    assert Url(Command(HotWater, false, None)) == "set/hw/off";
  }

  /** The same table for the heating handler, with `ch` in place of `hw`. */
  lemma HeatingTable(d: string)
    ensures Handle(Heating, Checkbox(true), None, false) == Some("set/ch/on")
    ensures Handle(Heating, Word("on"), None, false) == Some("set/ch/on")
    ensures Handle(Heating, Word("on"), Some(d), false) == Some("set/ch/on/" + d)
    ensures Handle(Heating, Checkbox(true), Some(d), false) == Some("set/ch/on/" + d)
    ensures Handle(Heating, Checkbox(false), Some(d), false) == Some("set/ch/off")
    ensures Handle(Heating, Word("off"), None, false) == Some("set/ch/off")
  {
    assert Url(Command(Heating, true, None)) == "set/ch/on";
    assert Url(Command(Heating, true, Some(d))) == "set/ch/" + ("on" + "/" + d);
    assert "set/ch/" + ("on" + "/" + d) == "set/ch/on/" + d;
    assert Url(Command(Heating, false, None)) == "set/ch/off";
  }

  /** Each timed button, with each duration offered, asks for that many minutes of heating or hot water. */
  lemma TimedButtons(i: nat, target: Subsystem)
    requires i < |Durations|
    requires target != Power
    ensures Handle(target, Word("on"), Some(Durations[i]), false).Some?
    ensures Parse(Handle(target, Word("on"), Some(Durations[i]), false).value)
         == Some(Command(target, true, Some(Durations[i])))
  {
    ParseUrl(Command(target, true, Some(Durations[i])));
  }

  /** One user action: the handler, its first argument and its duration. */
  datatype Call = Call(target: Subsystem, arg: StateArg, duration: Option<string>)

  /** True when the call's handler sends a request outside testing. */
  predicate Sends(c: Call) {
    c.target != Power || c.arg.Checkbox?
  }

  /** The URL a sending call's handler POSTs to outside testing. */
  function Sent(c: Call): string
    requires Sends(c)
  {
    Handle(c.target, c.arg, c.duration, false).value
  }

  /** The requests sent for a series of calls, in order. */
  function Requests(calls: seq<Call>, testing: bool): (us: seq<string>)
    ensures testing ==> us == []
    ensures |us| <= |calls|
    ensures !testing && (forall i :: 0 <= i < |calls| ==> Sends(calls[i])) ==>
      |us| == |calls| && forall i :: 0 <= i < |calls| ==> us[i] == Sent(calls[i])
    decreases |calls|
  {
    if |calls| == 0 then []
    else
      var c := calls[|calls| - 1];
      var earlier := Requests(calls[..|calls| - 1], testing);
      match Handle(c.target, c.arg, c.duration, testing)
      case Some(u) => earlier + [u]
      case None => earlier
  }

  /** One more call appends its handler's request, if it sends one, and nothing else. */
  lemma RequestsStep(calls: seq<Call>, c: Call, testing: bool)
    ensures Requests(calls + [c], testing) ==
      match Handle(c.target, c.arg, c.duration, testing)
      case Some(u) => Requests(calls, testing) + [u]
      case None => Requests(calls, testing)
  {
    assert (calls + [c])[..|calls|] == calls;
  }

  /** Nothing is deduplicated: the same call made twice sends the same request twice. */
  lemma {:induction false} RepeatedCallRepeatsRequest(calls: seq<Call>, c: Call)
    requires Handle(c.target, c.arg, c.duration, false).Some?
    ensures Requests(calls + [c, c], false)
         == Requests(calls, false) + [Handle(c.target, c.arg, c.duration, false).value, Handle(c.target, c.arg, c.duration, false).value]
  {
    var u := Handle(c.target, c.arg, c.duration, false).value;
    var once := calls + [c];
    assert (calls + [c, c])[..|calls| + 1] == once;
    assert once[..|calls|] == calls;
    assert Requests(once, false) == Requests(calls, false) + [u];
  }
}
