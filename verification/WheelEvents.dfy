/**
 Wheel events of the Wayland client (client/Wayland/wlf_input.c): a scroll amount becomes pointer events whose
 low nine bits are a rotation in two's complement (section 2.2.8.1.1.3.1.1.3 of MS-RDPBCGR).
*/
module WheelEvents {
  import opened Common

  const VERTICAL := 0
  const HORIZONTAL := 1

  const NEGATIVE := 0x100
  const WHEEL := 0x200
  const HWHEEL := 0x400

  /** The minimum has no absolute value. */
  type Amount = v: int | -0x8000_0000 < v < 0x8000_0000

  function Abs(v: int): nat { if v < 0 then -v else v }

  function WheelFlags(axis: nat, value: Amount): Option<nat> {
    if axis == VERTICAL then Some(WHEEL + if value > 0 then NEGATIVE else 0)
    else if axis == HORIZONTAL then Some(HWHEEL + if value < 0 then NEGATIVE else 0)
    else None
  }

  predicate IsNegative(flags: nat) { flags / NEGATIVE % 2 == 1 }

  /** One event; the flag bits and the rotation bits are disjoint, so that or-ing them adds them. */
  function EventFlags(flags: nat, cval: nat): nat
    requires 0 < cval <= 0xFF
  {
    if IsNegative(flags) then flags + (0x100 - cval) else flags + cval
  }

  /** The events for an amount, in the order they are sent. */
  function Plan(flags: nat, avalue: nat): seq<nat> {
    if avalue == 0 then [] else
    var cval := if avalue > 0xFF then 0xFF else avalue;
    [EventFlags(flags, cval)] + Plan(flags, avalue - cval)
  }

  function WheelPlan(axis: nat, value: Amount): seq<nat> {
    var flags := WheelFlags(axis, value);
    if flags.None? then [] else Plan(flags.value, Abs(value))
  }

  // ---- what a server reads in them

  /** The low nine bits as a signed number. */
  function Rotation(event: nat): int { if event % 0x200 >= 0x100 then event % 0x200 - 0x200 else event % 0x200 }

  function Signed(negative: bool, v: int): int { if negative then -v else v }

  predicate ScrollsVertically(event: nat) { event / 0x200 % 2 == 1 }
  predicate ScrollsHorizontally(event: nat) { event / 0x400 % 2 == 1 }

  function Vertical(events: seq<nat>): int {
    if events == [] then 0
    else (if ScrollsVertically(events[0]) then Rotation(events[0]) else 0) + Vertical(events[1..])
  }

  function Horizontal(events: seq<nat>): int {
    if events == [] then 0
    else (if ScrollsHorizontally(events[0]) then Rotation(events[0]) else 0) + Horizontal(events[1..])
  }

  predicate IsFlags(flags: nat) {
    flags == WHEEL || flags == WHEEL + NEGATIVE || flags == HWHEEL || flags == HWHEEL + NEGATIVE
  }

  lemma EventReads(flags: nat, cval: nat)
    requires IsFlags(flags) && 0 < cval <= 0xFF
    ensures Rotation(EventFlags(flags, cval)) == Signed(IsNegative(flags), cval)
    ensures ScrollsVertically(EventFlags(flags, cval)) <==> flags < HWHEEL
    ensures ScrollsHorizontally(EventFlags(flags, cval)) <==> flags >= HWHEEL
  {}

  lemma {:induction false} PlanConserves(flags: nat, avalue: nat)
    requires IsFlags(flags)
    ensures Vertical(Plan(flags, avalue)) == if flags < HWHEEL then Signed(IsNegative(flags), avalue) else 0
    ensures Horizontal(Plan(flags, avalue)) == if flags >= HWHEEL then Signed(IsNegative(flags), avalue) else 0
  {
    hide EventFlags, Rotation, ScrollsVertically, ScrollsHorizontally, IsNegative;
    if avalue > 0 {
      var cval := if avalue > 0xFF then 0xFF else avalue;
      EventReads(flags, cval);
      PlanConserves(flags, avalue - cval);
    }
  }

  lemma {:induction false} PlanSteps(flags: nat, avalue: nat)
    requires IsFlags(flags)
    ensures |Plan(flags, avalue)| == (avalue + 0xFE) / 0xFF
    ensures forall e :: e in Plan(flags, avalue) ==> 0 < Abs(Rotation(e)) <= 0xFF
  {
    hide EventFlags, Rotation, ScrollsVertically, ScrollsHorizontally, IsNegative;
    if avalue > 0 {
      var cval := if avalue > 0xFF then 0xFF else avalue;
      EventReads(flags, cval);
      PlanSteps(flags, avalue - cval);
    }
  }

  /** The rotations sent add up to minus the vertical amount, or to the horizontal amount. */
  lemma WheelConserves(axis: nat, value: Amount)
    ensures Vertical(WheelPlan(axis, value)) == if axis == VERTICAL then -value else 0
    ensures Horizontal(WheelPlan(axis, value)) == if axis == HORIZONTAL then value else 0
    ensures axis <= HORIZONTAL ==> |WheelPlan(axis, value)| == (Abs(value) + 0xFE) / 0xFF
    ensures forall e :: e in WheelPlan(axis, value) ==> 0 < Abs(Rotation(e)) <= 0xFF
  {
    var flags := WheelFlags(axis, value);
    if flags.Some? {
      PlanConserves(flags.value, Abs(value));
      PlanSteps(flags.value, Abs(value));
    }
  }

  // ---- a pointer frame

  datatype Source = Wheel | WheelTilt | Finger | Continuous | OtherSource

  /**
   Values are step counts for discrete events, and 1/256 units otherwise; steps fit after scaling by 120.
   "scales" says whether the event's coordinates can be scaled to the session's.
  */
  datatype PointerEvent =
    | SourceEvent(source: Source)
    | DiscreteEvent(axis: nat, steps: Steps, scales: bool)
    | AxisEvent(axis: nat, distance: Amount, scales: bool)
    | OtherEvent

  type Steps = v: int | -17_895_697 <= v <= 17_895_697

  /** The last source named in the frame. */
  function FrameSource(events: seq<PointerEvent>): Option<Source> {
    if events == [] then None
    else if events[|events| - 1].SourceEvent? then Some(events[|events| - 1].source)
    else FrameSource(events[..|events| - 1])
  }

  /** C's conversion of a double to an integer, for n / d. */
  function Truncated(n: int, d: nat): int
    requires d > 0
  {
    if n < 0 then -(-n / d) else n / d
  }

  /** What one event asks for. */
  datatype Turn = Turn(axis: nat, value: Amount, scales: bool)

  /** The axis and amount an event means under a source: 120 a step, or 12 per 256 units. */
  function Scroll(source: Source, ev: PointerEvent): Option<Turn> {
    if (source == Wheel || source == WheelTilt) && ev.DiscreteEvent? then Some(Turn(ev.axis, ev.steps * 120, ev.scales))
    else if (source == Finger || source == Continuous) && ev.AxisEvent? then
      Some(Turn(ev.axis, Truncated(ev.distance * 12, 256), ev.scales))
    else None
  }

  /** The scrolls of a frame. */
  function Scrolls(source: Source, events: seq<PointerEvent>): seq<Turn> {
    if events == [] then [] else
    var s := Scroll(source, events[0]);
    (if s.Some? then [s.value] else []) + Scrolls(source, events[1..])
  }

  function FrameScrolls(events: seq<PointerEvent>): seq<Turn> {
    var source := FrameSource(events);
    if source.None? then [] else Scrolls(source.value, events)
  }

  /** What has been sent, how often sending was tried, and whether all went well. */
  datatype Outcome = Outcome(sent: seq<nat>, calls: nat, ok: bool)

  /** Sends events until one fails; "works" says which calls to the server succeed. */
  function Deliver(plan: seq<nat>, works: nat -> bool, o: Outcome): Outcome
    decreases |plan|
  {
    if plan == [] then o
    else if !works(o.calls) then o.(calls := o.calls + 1, ok := false)
    else Deliver(plan[1..], works, o.(sent := o.sent + [plan[0]], calls := o.calls + 1))
  }

  function AfterWheel(turn: Turn, works: nat -> bool, o: Outcome): Outcome {
    if !turn.scales || turn.axis > HORIZONTAL then o.(ok := false) else Deliver(WheelPlan(turn.axis, turn.value), works, o)
  }

  function HandleAll(scrolls: seq<Turn>, works: nat -> bool, o: Outcome): Outcome
    decreases |scrolls|
  {
    if scrolls == [] then o else HandleAll(scrolls[1..], works, AfterWheel(scrolls[0], works, o))
  }

  /** The amounts on one axis of the scrolls whose coordinates can be scaled. */
  function Amounts(scrolls: seq<Turn>, axis: nat): int {
    if scrolls == [] then 0 else
    (if scrolls[0].scales && scrolls[0].axis == axis then scrolls[0].value else 0) + Amounts(scrolls[1..], axis)
  }

  lemma {:induction false} SumsAppend(x: seq<nat>, y: seq<nat>)
    ensures Vertical(x + y) == Vertical(x) + Vertical(y)
    ensures Horizontal(x + y) == Horizontal(x) + Horizontal(y)
  {
    if x == [] {
      assert x + y == y;
    } else {
      assert (x + y)[1..] == x[1..] + y;
      SumsAppend(x[1..], y);
    }
  }

  /** What is sent is what was sent before and a prefix of the plan, all of it when every call works. */
  lemma {:induction false} DeliverPrefix(plan: seq<nat>, works: nat -> bool, o: Outcome)
    ensures var d := Deliver(plan, works, o);
      && (exists k :: 0 <= k <= |plan| && d.sent == o.sent + plan[..k] && (d.ok == o.ok == true ==> k == |plan|))
      && ((forall k: nat :: works(k)) ==> d.sent == o.sent + plan && d.ok == o.ok)
    decreases |plan|
  {
    var d := Deliver(plan, works, o);
    if plan == [] {
      assert d.sent == o.sent + plan[..0];
    } else if !works(o.calls) {
      assert d.sent == o.sent + plan[..0];
    } else {
      var p := o.(sent := o.sent + [plan[0]], calls := o.calls + 1);
      DeliverPrefix(plan[1..], works, p);
      var k :| 0 <= k <= |plan[1..]| && d.sent == p.sent + plan[1..][..k] && (d.ok == p.ok == true ==> k == |plan| - 1);
      assert p.sent + plan[1..][..k] == o.sent + plan[..k + 1];
      assert p.sent + plan[1..] == o.sent + plan;
    }
  }

  /**
   Over a frame the rotations add up to the amounts of each axis; an unknown axis, or coordinates that cannot be
   scaled, only spoil the result.
  */
  lemma {:induction false} ScrollsConserved(scrolls: seq<Turn>, works: nat -> bool, o: Outcome)
    requires forall k: nat :: works(k)
    ensures var h := HandleAll(scrolls, works, o);
      && Vertical(h.sent) == Vertical(o.sent) - Amounts(scrolls, VERTICAL)
      && Horizontal(h.sent) == Horizontal(o.sent) + Amounts(scrolls, HORIZONTAL)
      && (h.ok <==> o.ok && forall s :: s in scrolls ==> s.scales && s.axis <= HORIZONTAL)
    decreases |scrolls|
  {
    hide WheelPlan, Vertical, Horizontal, Deliver;
    if scrolls != [] {
      var axis, value := scrolls[0].axis, scrolls[0].value;
      var p := AfterWheel(scrolls[0], works, o);
      ScrollsConserved(scrolls[1..], works, p);
      DeliverPrefix(WheelPlan(axis, value), works, o);
      SumsAppend(o.sent, WheelPlan(axis, value));
      WheelConserves(axis, value);
      assert scrolls == [scrolls[0]] + scrolls[1..];
    }
  }

  // ---- a frame, from its events

  /** What a frame sends. */
  function Frame(events: seq<PointerEvent>, works: nat -> bool, o: Outcome): Outcome {
    HandleAll(FrameScrolls(events), works, o)
  }

  /** The steps of the discrete events on an axis whose coordinates can be scaled. */
  function StepsOn(events: seq<PointerEvent>, axis: nat): int {
    if events == [] then 0 else
    var ev := events[0];
    (if ev.DiscreteEvent? && ev.axis == axis && ev.scales then ev.steps else 0) + StepsOn(events[1..], axis)
  }

  /** What remains of 12 per 256 units without its fraction, for each continuous event on an axis that can be scaled. */
  function DistanceOn(events: seq<PointerEvent>, axis: nat): int {
    if events == [] then 0 else
    var ev := events[0];
    (if ev.AxisEvent? && ev.axis == axis && ev.scales then
       if ev.distance < 0 then -(-ev.distance * 12 / 256) else ev.distance * 12 / 256
     else 0) + DistanceOn(events[1..], axis)
  }

  /** Event k is the last that names a source. */
  predicate LastSource(events: seq<PointerEvent>, k: nat, source: Source) {
    && k < |events| && events[k] == SourceEvent(source)
    && forall j :: k < j < |events| ==> !events[j].SourceEvent?
  }

  lemma {:induction false} LastSourceFound(events: seq<PointerEvent>, k: nat, source: Source)
    requires LastSource(events, k, source)
    ensures FrameSource(events) == Some(source)
  {
    var n := |events| - 1;
    if k < n {
      assert LastSource(events[..n], k, source);
      LastSourceFound(events[..n], k, source);
    }
  }

  lemma {:induction false} NoSource(events: seq<PointerEvent>)
    requires forall ev | ev in events :: !ev.SourceEvent?
    ensures FrameSource(events) == None
  {
    if events != [] {
      var n := |events| - 1;
      assert events[n] in events && forall ev | ev in events[..n] :: ev in events;
      NoSource(events[..n]);
    }
  }

  lemma AmountsCons(t: Turn, rest: seq<Turn>, axis: nat)
    ensures Amounts([t] + rest, axis) == (if t.scales && t.axis == axis then t.value else 0) + Amounts(rest, axis)
  {
    assert ([t] + rest)[1..] == rest;
  }

  /** An event counts under the source of the frame only, and spoils the result if it cannot be sent. */
  predicate Counts(source: Source, ev: PointerEvent) {
    match source
    case Wheel | WheelTilt => ev.DiscreteEvent?
    case Finger | Continuous => ev.AxisEvent?
    case OtherSource => false
  }

  predicate Spoils(source: Source, ev: PointerEvent) {
    Counts(source, ev) && (ev.DiscreteEvent? || ev.AxisEvent?) && (!ev.scales || ev.axis > HORIZONTAL)
  }

  /** The amount an event turns an axis by under a source. */
  function TurnsBy(source: Source, ev: PointerEvent, axis: nat): int {
    match source
    case Wheel | WheelTilt => 120 * StepsOn([ev], axis)
    case Finger | Continuous => DistanceOn([ev], axis)
    case OtherSource => 0
  }

  lemma ScrollIs(source: Source, ev: PointerEvent, axis: nat)
    ensures var s := Scroll(source, ev);
      && TurnsBy(source, ev, axis) == (if s.Some? && s.value.scales && s.value.axis == axis then s.value.value else 0)
      && (Spoils(source, ev) <==> s.Some? && !(s.value.scales && s.value.axis <= HORIZONTAL))
  {
    assert [ev][1..] == [];
    assert StepsOn([ev], axis) == if ev.DiscreteEvent? && ev.axis == axis && ev.scales then ev.steps else 0;
    if ev.AxisEvent? {
      assert -(ev.distance * 12) == -ev.distance * 12;
      assert Truncated(ev.distance * 12, 256) == if ev.distance < 0 then -(-ev.distance * 12 / 256) else ev.distance * 12 / 256;
    }
    assert DistanceOn([ev], axis)
        == if ev.AxisEvent? && ev.axis == axis && ev.scales then Truncated(ev.distance * 12, 256) else 0;
    hide StepsOn, DistanceOn, Truncated;
  }

  lemma SumsCons(ev: PointerEvent, rest: seq<PointerEvent>, axis: nat)
    ensures StepsOn([ev] + rest, axis) == StepsOn([ev], axis) + StepsOn(rest, axis)
    ensures DistanceOn([ev] + rest, axis) == DistanceOn([ev], axis) + DistanceOn(rest, axis)
  {
    assert ([ev] + rest)[1..] == rest && [ev][1..] == [];
  }

  lemma {:induction false} ScrollsAmount(source: Source, events: seq<PointerEvent>, axis: nat)
    ensures Amounts(Scrolls(source, events), axis)
         == match source
            case Wheel | WheelTilt => 120 * StepsOn(events, axis)
            case Finger | Continuous => DistanceOn(events, axis)
            case OtherSource => 0
  {
    if events != [] {
      var ev, s, rest := events[0], Scroll(source, events[0]), Scrolls(source, events[1..]);
      ScrollsAmount(source, events[1..], axis);
      assert events == [ev] + events[1..];
      SumsCons(ev, events[1..], axis);
      ScrollIs(source, ev, axis);
      if s.Some? { AmountsCons(s.value, rest, axis); }
      assert Scrolls(source, events) == if s.Some? then [s.value] + rest else rest;
      hide Scroll, Scrolls, Amounts, StepsOn, DistanceOn, Spoils;
    }
  }

  lemma {:induction false} ScrollsSpoil(source: Source, events: seq<PointerEvent>)
    ensures (forall t :: t in Scrolls(source, events) ==> t.scales && t.axis <= HORIZONTAL)
       <==> forall ev | ev in events :: !Spoils(source, ev)
  {
    if events != [] {
      var ev, s, rest := events[0], Scroll(source, events[0]), Scrolls(source, events[1..]);
      ScrollsSpoil(source, events[1..]);
      ScrollIs(source, ev, 0);
      assert Scrolls(source, events) == if s.Some? then [s.value] + rest else rest;
      hide Scroll, Scrolls, Spoils, TurnsBy;
      assert events == [ev] + events[1..];
      if s.Some? { assert s.value in [s.value] + rest; }
      assert forall t | t in rest :: t in Scrolls(source, events);
    }
  }

  /**
   A frame whose last source is a wheel turns it by 120 for each step of its discrete events, the other way
   round for the vertical axis; a finger or a continuous source turns it by its distances; any other source, or
   none, sends nothing. The frame fails if an event that counts has an unknown axis or cannot be scaled.
  */
  lemma FrameConserves(events: seq<PointerEvent>, works: nat -> bool, o: Outcome, k: nat, source: Source)
    requires LastSource(events, k, source) && forall n: nat :: works(n)
    ensures var h := Frame(events, works, o);
      && (source == Wheel || source == WheelTilt ==>
            && Vertical(h.sent) == Vertical(o.sent) - 120 * StepsOn(events, 0)
            && Horizontal(h.sent) == Horizontal(o.sent) + 120 * StepsOn(events, 1))
      && (source == Finger || source == Continuous ==>
            && Vertical(h.sent) == Vertical(o.sent) - DistanceOn(events, 0)
            && Horizontal(h.sent) == Horizontal(o.sent) + DistanceOn(events, 1))
      && (source == OtherSource ==> h == o)
      && (h.ok <==> o.ok && forall ev | ev in events :: !Spoils(source, ev))
  {
    LastSourceFound(events, k, source);
    ScrollsConserved(Scrolls(source, events), works, o);
    ScrollsAmount(source, events, 0);
    ScrollsAmount(source, events, 1);
    ScrollsSpoil(source, events);
    if source == OtherSource { NothingScrolls(events); }
    hide FrameSource, HandleAll, Scrolls, Vertical, Horizontal, Amounts, Spoils;
  }

  lemma {:induction false} NothingScrolls(events: seq<PointerEvent>)
    ensures Scrolls(OtherSource, events) == []
  {
    if events != [] { NothingScrolls(events[1..]); }
  }

  /** Without a source a frame sends nothing, whatever its events. */
  lemma SourcelessFrame(events: seq<PointerEvent>, works: nat -> bool, o: Outcome)
    requires forall ev | ev in events :: !ev.SourceEvent?
    ensures Frame(events, works, o) == o
  {
    NoSource(events);
  }

  /** A failure earlier in the frame changes nothing but the result. */
  lemma {:induction false} DeliverAfterFailure(plan: seq<nat>, works: nat -> bool, o: Outcome)
    ensures Deliver(plan, works, o.(ok := false)) == Deliver(plan, works, o).(ok := false)
    decreases |plan|
  {
    if plan != [] && works(o.calls) {
      DeliverAfterFailure(plan[1..], works, o.(sent := o.sent + [plan[0]], calls := o.calls + 1));
    }
  }

  lemma WheelAfterFailure(turn: Turn, works: nat -> bool, o: Outcome)
    ensures AfterWheel(turn, works, o.(ok := false)) == AfterWheel(turn, works, o).(ok := false)
  {
    DeliverAfterFailure(WheelPlan(turn.axis, turn.value), works, o);
  }

  lemma DeliverStep(flags: nat, avalue: nat, works: nat -> bool, o: Outcome)
    requires avalue > 0
    ensures var cval := if avalue > 0xFF then 0xFF else avalue;
      Deliver(Plan(flags, avalue), works, o) ==
        if !works(o.calls) then o.(calls := o.calls + 1, ok := false)
        else Deliver(Plan(flags, avalue - cval), works,
                     o.(sent := o.sent + [EventFlags(flags, cval)], calls := o.calls + 1))
  {}

  lemma DeliverNone(flags: nat, works: nat -> bool, o: Outcome)
    ensures Deliver(Plan(flags, 0), works, o) == o
  {}

  lemma FrameStep(source: Source, events: seq<PointerEvent>, works: nat -> bool, o: Outcome)
    requires events != []
    ensures HandleAll(Scrolls(source, events), works, o)
         == var s := Scroll(source, events[0]);
            HandleAll(Scrolls(source, events[1..]), works, if s.Some? then AfterWheel(s.value, works, o) else o)
  {
    var s, rest := Scroll(source, events[0]), Scrolls(source, events[1..]);
    hide AfterWheel, Scroll;
    if s.Some? {
      var all := [s.value] + rest;
      assert all[0] == s.value && all[1..] == rest;
    } else {
      assert [] + rest == rest;
    }
  }

  // ---- the handlers

  class PointerInput {
    var events: seq<PointerEvent>
    const works: nat -> bool
    ghost var sent: seq<nat>
    var calls: nat

    ghost function Log(ok: bool): Outcome
      reads this
    {
      Outcome(sent, calls, ok)
    }

    constructor (works: nat -> bool)
      ensures this.works == works && events == [] && Log(true) == Outcome([], 0, true)
    {
      events, this.works, sent, calls := [], works, [], 0;
    }

    method SendWheelEvent(flags: nat) returns (ok: bool)
      modifies this`sent, this`calls
      ensures ok == works(old(calls)) && calls == old(calls) + 1
      ensures sent == old(sent) + if ok then [flags] else []
    {
      ok := works(calls);
      if ok { sent := sent + [flags]; }
      calls := calls + 1;
    }

    method HandleWheel(axis: nat, value: Amount, scales: bool) returns (ok: bool)
      modifies this`sent, this`calls
      ensures Log(ok) == AfterWheel(Turn(axis, value, scales), works, old(Log(true)))
    {
      var flags := 0;
      if !scales {
        return false;
      }
      if axis == VERTICAL {
        flags := WHEEL;
        if value > 0 { flags := flags + NEGATIVE; }
      } else if axis == HORIZONTAL {
        flags := HWHEEL;
        if value < 0 { flags := flags + NEGATIVE; }
      } else {
        return false;
      }
      ok := SendRotations(flags, Abs(value));
    }

    /** The loop of the handler: at most 255 at a time until nothing remains, or until a call fails. */
    method SendRotations(flags: nat, amount: nat) returns (ok: bool)
      modifies this`sent, this`calls
      ensures Log(ok) == Deliver(Plan(flags, amount), works, old(Log(true)))
    {
      hide Deliver, Plan, IsNegative;
      var avalue := amount;
      while avalue > 0
        invariant Deliver(Plan(flags, avalue), works, Log(true)) == Deliver(Plan(flags, amount), works, old(Log(true)))
      {
        var cval := if avalue > 0xFF then 0xFF else avalue;
        var cflags := flags + cval;
        if IsNegative(flags) {
          cflags := flags + (0x100 - cval);
        }
        DeliverStep(flags, avalue, works, Log(true));
        var sentOk := SendWheelEvent(cflags);
        if !sentOk {
          return false;
        }
        avalue := avalue - cval;
      }
      DeliverNone(flags, works, Log(true));
      return true;
    }

    method HandlePointerFrame() returns (success: bool)
      modifies this`events, this`sent, this`calls
      ensures events == []
      ensures Log(success) == Frame(old(events), works, old(Log(true)))
    {
      success := true;
      var handle, source := false, Continuous;
      for x := 0 to |events|
        invariant FrameSource(events[..x]) == if handle then Some(source) else None
        invariant events == old(events) && sent == old(sent) && calls == old(calls)
      {
        assert events[..x + 1][..x] == events[..x];
        if events[x].SourceEvent? {
          handle := true;
          source := events[x].source;
        }
      }
      assert events[..|events|] == events;
      if handle {
        hide HandleAll, Scrolls, AfterWheel;
        ghost var all := HandleAll(FrameScrolls(events), works, old(Log(true)));
        assert events[0..] == events;
        for x := 0 to |events|
          invariant events == old(events)
          invariant HandleAll(Scrolls(source, events[x..]), works, Log(success)) == all
        {
          assert events[x..][0] == events[x] && events[x..][1..] == events[x + 1..];
          FrameStep(source, events[x..], works, Log(success));
          if source == Wheel || source == WheelTilt {
            if events[x].DiscreteEvent? {
              WheelAfterFailure(Turn(events[x].axis, events[x].steps * 120, events[x].scales), works, Log(true));
              var ok := HandleWheel(events[x].axis, events[x].steps * 120, events[x].scales);
              if !ok { success := false; }
            }
          } else if source == Finger || source == Continuous {
            if events[x].AxisEvent? {
              WheelAfterFailure(Turn(events[x].axis, Truncated(events[x].distance * 12, 256), events[x].scales), works, Log(true));
              var ok := HandleWheel(events[x].axis, Truncated(events[x].distance * 12, 256), events[x].scales);
              if !ok { success := false; }
            }
          }
        }
      }
      events := [];
    }
  }

}
