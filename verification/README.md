# Heating controller panel: script logic

A functional model of the script in the web page that the ESP8266 heating
controller serves (`html_blob.h`). The page has checkboxes for mains power
(`psu`), central heating (`ch`) and hot water (`hw`), two "Off:" texts, timed
"turn on" buttons, and a picture of the hot-water tank drawn as a three-stop
gradient. The model covers the four pieces of the script that hold logic:

- **Colour** — `colourFromTemp`. A tank reading is clamped to 20..55 degrees and
  mapped linearly to red (rising) and blue (falling), each rounded the way
  `Math.round` rounds. Green is always 0. Readings are exact reals.
- **Gradient** — `setStops` and the `get/hwc` tank poll in `loadhwdata`. The
  bottom, middle and top readings colour gradient stops 0, 1 and 2.
- **Status** — the projection in `updateStatus`. It uses the endpoint table
  (hw, ch, psu). Each reply `{state, offtime?}` sets its endpoint's checkbox.
  When the reply carries an off-time, it also rewrites that endpoint's
  off-time text. Replies apply in the order they complete.
- **Dispatch** — the request choice of `psu`, `hotwater` and `heating`. From
  the argument, an optional duration and the `testing` flag, the handler picks
  the `set/...` URL it POSTs to, or sends nothing. `Parse` is the independent
  reading of those URLs. The model proves that every command a handler can
  send (power without a duration, a duration only with "on") has a URL that
  reads back as that command, and that only such URLs read back.

`Panel` holds the page state the script touches: three checkboxes, two
off-time texts and the gradient stops. `Wrappers` holds `Option`.

The host's date formatting (`new Date(offtime*1000)` written into a span) is
the parameter `render: int -> string`. jQuery transport is abstracted: a
status or tank request that fails is a `None` reply, and it changes nothing.

Facts about the code worth stating up front:

- Status is polled at `get/<hw|ch|psu>`, commands are POSTed to `set/...`,
  and the tank is polled at `get/hwc`.
- There is no per-request sequence number, so for each control the last
  reply to *complete* wins (`Status.LatestReplyWins`).
- A reading of 37.5 gives `rgb(128,0,128)`: both channels sit exactly on a
  half and `Math.round` rounds halves up (`Colour.Midpoint`). In general red
  plus blue is 255, or 256 exactly on such halves (`Colour.ChannelSum`). It is
  always 255 for whole-degree readings (`Colour.WholeDegreesComplement`).

## Model

| member | source | states |
|---|---|---|
| Colour.Round | html_blob.h:358-359 | `Math.round` gives the integer n with n <= x + 0.5 < n + 1, so it is within one half of x |
| Colour.Clamp | html_blob.h:354-356 | the clamped reading lies in 20..55; it is the reading itself inside the range and the nearer end outside it |
| Colour.Scale | html_blob.h:357-359 | the shifted, rescaled reading always lies in 0..255 |
| Colour.ColourFromTemp | html_blob.h:353-362 | every reading, however far out of range, gives green 0 and red and blue in 0..255 |
| Colour.ClampSaturates | html_blob.h:355-356 | every reading at or below 20 has the colour of 20, and every reading at or above 55 has the colour of 55 |
| Colour.ScaleEnds | html_blob.h:355-361 | 20 degrees is rgb(0,0,255) and 55 degrees is rgb(255,0,0) |
| Colour.RoundMonotone | html_blob.h:358-359 | rounding preserves order |
| Colour.ColourMonotone | html_blob.h:354-359 | a warmer reading is never less red and never more blue |
| Colour.RoundComplement | html_blob.h:358-359 | rounding x and 255 - x adds up to 255, or to 256 exactly when x lies on a half |
| Colour.ChannelSum | html_blob.h:357-361 | red plus blue is 255 or 256 for every reading, and 256 exactly when the scaled reading lies on a half |
| Colour.WholeDegreesComplement | html_blob.h:353-361 | for every whole-degree reading, red plus blue is 255 |
| Colour.Midpoint | html_blob.h:357-361 | 37.5 degrees gives rgb(128,0,128): red and blue both round up from 127.5 |
| Panel.InitialPage | html_blob.h:146-201 | the page as loaded has every checkbox unticked, both off-time texts "Unknown", and stops blue, magenta and red from the bottom up |
| Panel.WithChecked | html_blob.h:245 | setting one checkbox changes only that checkbox |
| Panel.WithOffText | html_blob.h:248 | writing one off-time span changes only that span |
| Gradient.Paint | html_blob.h:341-345 | one stop write sets that stop if the page has it and leaves every other stop alone |
| Gradient.SetStops | html_blob.h:329-351 | stop 0 gets the bottom reading's colour, stop 1 the middle's and stop 2 the top's; no other stop changes |
| Gradient.LoadTank | html_blob.h:323-326 | a tank reply recolours the three stops bottom, middle, top; a failed poll changes nothing; checkboxes and texts are never touched |
| Gradient.WarmerAboveIsRedderAbove | html_blob.h:331-345 | when the tank is warmer higher up, red never falls and blue never rises from stop 0 to stop 2 |
| Gradient.HotTopColdBottom | html_blob.h:331-345 | a reading of top 55, middle 40, bottom 20 gives stops blue, rgb(146,0,109), red from the bottom up |
| Status.PollUrls | html_blob.h:238-244 | one poll cycle requests exactly `get/hw`, `get/ch` and `get/psu`, in that order |
| Status.EndpointTable | html_blob.h:238-244 | each checkbox has exactly one endpoint; `get/hw` drives `hwbut` and `hwofftime`, `get/ch` drives `chbut` and `chofftime`, `get/psu` drives `mainpowerbut` and no span |
| Status.HotWaterReply | html_blob.h:239-248 | a hot-water reply `{state: s, offtime: T}` sets the hot-water checkbox to s and shows T under "HW Off", and leaves the heating checkbox and "CH Off" as they were |
| Status.ApplyReply | html_blob.h:244-250 | a reply sets its endpoint's checkbox to its state and renders its off-time into the endpoint's span when present; every other checkbox, span and stop is unchanged |
| Status.ApplyCompletions | html_blob.h:243-251 | applying any sequence of completed status requests leaves the tank gradient unchanged |
| Status.LatestReplyWins | html_blob.h:243-250 | after any sequence of completions, each checkbox shows the latest reply's state for its endpoint, or its earlier state if none came; each span shows the latest off-time received for it, or keeps its earlier text |
| Status.UnknownUntilOfftime | html_blob.h:168-169 | from the loaded page, a span reads "Unknown" until a reply carrying an off-time for it arrives |
| Status.HeatingReply | html_blob.h:240-248 | a heating reply `{state: true, offtime: T}` ticks the heating checkbox and shows T under "CH Off", and leaves the hot-water controls as they were |
| Dispatch.Decide | html_blob.h:254-300 | power decides only on a checkbox; heating and hot water decide on every argument; "on" keeps the duration given, "off" and power carry none |
| Dispatch.Handle | html_blob.h:254-300 | with `testing` set nothing is sent; otherwise exactly one request is sent for every heating or hot-water call and every power checkbox click, and none for anything else |
| Dispatch.HandleReadsBack | html_blob.h:257-298 | every URL a handler sends, whatever the duration, reads back as the command the decision table chose |
| Dispatch.ParseUrl | html_blob.h:258-298 | the URL of every command a handler can send (power without a duration, a duration only with "on") reads back as that command |
| Dispatch.ParseOnlyUrls | html_blob.h:258-298 | only command URLs read back, and the command read back renders to the same URL |
| Dispatch.DecideWellFormed | html_blob.h:274-298 | the handlers only produce commands whose URLs can be read back, whatever the duration |
| Dispatch.PowerTable | html_blob.h:254-263 | a ticked box sends `set/psu/on`, a cleared one `set/psu/off`, and a word sends nothing |
| Dispatch.Url | html_blob.h:258-298 | a command's URL starts with `set/psu/`, `set/hw/` or `set/ch/` for power, hot water and heating, followed by `on` or `off` and, when the command carries a duration, `/` and the duration |
| Dispatch.HotWaterTable | html_blob.h:265-282 | `hotwater` sends `set/hw/on` when turned on without a duration, `set/hw/on/d` with duration d, and `set/hw/off` when turned off whatever the duration |
| Dispatch.HeatingTable | html_blob.h:284-300 | `heating` sends `set/ch/on` when turned on without a duration, `set/ch/on/d` with duration d, and `set/ch/off` when turned off whatever the duration |
| Dispatch.TimedButtons | html_blob.h:170-181 | each timed button with each offered duration (30, 90, 120, 180) asks for that many minutes of hot water or heating |
| Dispatch.Requests | html_blob.h:254-300 | a series of calls sends at most one request per call and none in testing mode; when every call has a valid state, the i-th request is exactly the URL the i-th call's handler sends |
| Dispatch.RequestsStep | html_blob.h:254-300 | one more call appends exactly its handler's URL, if it sends one, to the requests already sent, and nothing otherwise |
| Dispatch.RepeatedCallRepeatsRequest | html_blob.h:274-281 | the same call made twice sends its request twice; nothing is deduplicated |

## Left out

- Markup, CSS and SVG geometry (html_blob.h:1-221) are presentation. The only parts used are the checkboxes' initial (unticked) state, the "Unknown" texts, the duration options and the three gradient stops.
- The CSS text `rgb(r,0,b)` that `colourFromTemp` returns is modelled as the record `Rgb(r, 0, b)`. Number-to-text formatting is not modelled.
- IEEE-754 doubles: readings are exact reals, and `Math.round` is `floor(x + 0.5)` on them.
- Malformed replies (a missing `top`, a non-boolean `state`) would produce `NaN` colours or coerced booleans. Replies are typed here, so these cases cannot arise.
- The word argument of `hotwater` and `heating` is limited to "on" and "off". JavaScript's loose equality would treat other strings against booleans by numeric conversion (`true == "1"`). The page never passes such strings.
- The implicit global `state` that leaks when a handler gets an argument that is neither an object nor a string is left out, because such calls cannot be expressed here.
- Status.ApplyReply: on the power endpoint an off-time would make the script throw, since that endpoint has no span, after the checkbox is already set. The model keeps only the checkbox write.
- Gradient.SetStops: on a page with fewer than three stops the script throws at the first missing stop. The model writes the stops that exist, which is the same visible result.
- Timers (`setInterval` every 3 s, or 10 s when testing; the tank every 600 s) and the first `loadhwdata` call are event-loop plumbing. A poll cycle's completions are instead an explicit sequence.
- Date formatting of `offtime * 1000` is the host's `Date`. It is the parameter `render`.
- The `logger`/`debug` output and the `showhide` animation have no functional effect.
- The commented-out row parsing in `loadhwdata` is dead code.
