/**
 Display resize requests of the X11 client (client/X11/xf_disp.c) and the Wayland client
 (client/Wayland/wlf_disp.c). Events, the clock, and the results of sending and of registering a timer come
 from outside. Timers that the display code forgot stay registered, and later run the callback like any other.
*/
module ResizePacing {
  /** Half a second, in nanoseconds. */
  const DELAY := 500_000_000
  const WORD64 := 0x1_0000_0000_0000_0000

  type Interval = x: int | 0 < x witness 1

  datatype Backend = X11 | Wayland

  datatype Size = Size(width: nat, height: nat)
  datatype Look = Look(orientation: nat, desktopScale: nat, deviceScale: nat)

  /** "fullscreen" is the session setting, "window" the state of the client's window. */
  datatype Settings = Settings(look: Look, monitors: nat, fullscreen: bool, window: bool)

  datatype Message = Single(size: Size, look: Look) | PerMonitor(count: nat)

  /** A call to the channel: the clock when the delay was checked, the date noted for it, and its result. */
  datatype Attempt = Attempt(checked: nat, dated: nat, size: Size, message: Message, ok: bool)

  /** "base" is the date of the last attempt when the timer was registered. */
  datatype Timer = Timer(interval: Interval, due: nat, base: nat)

  /** What one step gets from outside: successive clock readings, and whether sending and registering work. */
  datatype Env = Env(t1: nat, t2: nat, t3: nat, sendOk: bool, addOk: bool)

  /** "failed" says that the last attempt to send or to register a timer failed; "clock" is the last reading. */
  datatype State = State(
    lastSent: Size, lastLook: Look, lastWindow: bool, lastSentDate: nat, target: Size, activated: bool, open: bool,
    settings: Settings, timerID: nat, timers: map<nat, Timer>, nextID: nat, sends: seq<Attempt>, failed: bool,
    clock: nat)

  datatype Event =
    | Configure(size: Size)
    | TimerFires(id: nat)
    | Activated(first: bool)
    | GraphicsReset
    | WindowStateChange
    | Capabilities
    | ChannelOpened
    | ChannelClosed
    | SettingsChanged(settings: Settings)

  // ---- one call to sendResize

  /** The difference of two 64-bit clock readings. */
  function Elapsed(now: nat, then_: nat): nat { (now - then_) % WORD64 }

  predicate Changed(s: State) {
    || s.lastSent != s.target
    || s.lastLook != s.settings.look
    || s.lastWindow != s.settings.window
  }

  function UpdateTimer(s: State, interval: Interval, e: Env): (State, bool) {
    var rest := if s.timerID != 0 then s.timers - {s.timerID} else s.timers;
    if e.addOk then
      (s.(timers := rest[s.nextID := Timer(interval, e.t3 + interval, s.lastSentDate)], timerID := s.nextID,
          nextID := s.nextID + 1, failed := false), true)
    else (s.(timers := rest, timerID := 0, nextID := s.nextID + 1, failed := true), false)
  }

  function MessageFor(b: Backend, s: State): Message {
    if (b == X11 && s.settings.monitors > 1) || (b == Wayland && s.settings.window && s.settings.monitors > 0)
    then PerMonitor(s.settings.monitors)
    else Single(s.target, s.settings.look)
  }

  function Attempted(b: Backend, s: State, e: Env): State {
    s.(sends := s.sends + [Attempt(e.t1, e.t2, s.target, MessageFor(b, s), e.sendOk)], failed := !e.sendOk)
  }

  function UpdateLastSent(s: State): State {
    s.(lastSent := s.target, lastLook := s.settings.look, lastWindow := s.settings.window)
  }

  /** The X11 client notes the date before it sends, and looks at its timer first. */
  function SendX11(s: State, fromTimer: bool, e: Env): (State, bool) {
    var diff := Elapsed(e.t1, s.lastSentDate);
    if s.timerID != 0 && !fromTimer then (s, true)
    else if !s.activated || !s.open then UpdateTimer(s, DELAY, e)
    else if diff < DELAY then UpdateTimer(s, DELAY - diff, e)
    else if !Changed(s) then (s, true)
    else
      var s1 := Attempted(X11, s.(lastSentDate := e.t2), e);
      if e.sendOk then (UpdateLastSent(s1), true) else (s1, false)
  }

  /** The Wayland client notes the date after a successful send, and always waits a whole delay. */
  function SendWayland(s: State, fromTimer: bool, e: Env): (State, bool) {
    if !s.activated || !s.open then UpdateTimer(s, DELAY, e)
    else if Elapsed(e.t1, s.lastSentDate) < DELAY then UpdateTimer(s, DELAY, e)
    else if !fromTimer && s.timerID != 0 then (s, true)
    else if !Changed(s) then (s, true)
    else
      var s1 := Attempted(Wayland, s, e);
      if e.sendOk then (UpdateLastSent(s1.(lastSentDate := e.t2)), true) else (s1, false)
  }

  function Send(b: Backend, s: State, fromTimer: bool, e: Env): (State, bool) {
    if b == X11 then SendX11(s, fromTimer, e) else SendWayland(s, fromTimer, e)
  }

  // ---- events

  /** The timer callback leaves its timer running. */
  predicate Waits(b: Backend, s: State) { !s.activated || (b == Wayland && s.settings.fullscreen) }

  function OnTimer(b: Backend, s: State, id: nat, e: Env): State
    requires id in s.timers
  {
    if Waits(b, s) then s.(timers := s.timers[id := s.timers[id].(due := e.t3 + s.timers[id].interval)])
    else
      var s1 := Send(b, s, true, e).0;
      s1.(timerID := 0, timers := s1.timers - {id})
  }

  function Handle(b: Backend, s: State, ev: Event, e: Env): State {
    match ev
    case Configure(size) =>
      if b == X11 && s.target == size then s else Send(b, s.(target := size), false, e).0
    case TimerFires(id) =>
      if id in s.timers && s.timers[id].due <= e.t1 then OnTimer(b, s, id, e) else s
    case Activated(first) =>
      var full := if b == X11 then s.settings.window else s.settings.fullscreen;
      if s.activated && !full && !first then Send(b, s, false, e).0 else s
    case GraphicsReset =>
      if s.activated && !s.settings.fullscreen then Send(b, s, false, e).0 else s
    case WindowStateChange =>
      if b == X11 && s.activated && s.settings.window then Send(b, s, false, e).0 else s
    case Capabilities => s.(activated := true)
    case ChannelOpened => s.(open := true)
    case ChannelClosed => s.(open := false)
    case SettingsChanged(settings) => s.(settings := settings)
  }

  function Step(b: Backend, s: State, ev: Event, e: Env): State { Handle(b, s, ev, e).(clock := e.t3) }

  function Initial(size: Size, settings: Settings): State {
    State(size, Look(0, 0, 0), false, 0, size, false, false, settings, 0, map[], 1, [], false, 0)
  }

  function Run(b: Backend, s: State, trace: seq<(Event, Env)>): State {
    if trace == [] then s else
    var n := |trace| - 1;
    Step(b, Run(b, s, trace[..n]), trace[n].0, trace[n].1)
  }

  /** Clock readings never go back, and fit 64 bits. */
  predicate Ordered(clock: nat, e: Env) { clock <= e.t1 <= e.t2 <= e.t3 < WORD64 }

  /** The last clock reading of a trace. */
  function Clock(clock: nat, trace: seq<(Event, Env)>): nat { if trace == [] then clock else trace[|trace| - 1].1.t3 }

  predicate Monotone(clock: nat, trace: seq<(Event, Env)>) {
    trace == [] ||
    var n := |trace| - 1;
    Monotone(clock, trace[..n]) && Ordered(Clock(clock, trace[..n]), trace[n].1)
  }

  // ---- what holds in every reachable state

  /** The timer that the code waits for is registered. */
  predicate TimersKnown(s: State) {
    && 0 < s.nextID && (s.timerID != 0 ==> s.timerID in s.timers)
    && (forall id :: id in s.timers ==> 0 < id < s.nextID)
  }

  /** A size that was not sent yet will be looked at again, unless the last attempt failed. */
  predicate NotLost(s: State) { s.lastSent != s.target ==> s.timers != map[] || s.failed }

  /** Whether the dates of an attempt bind the next one: every X11 attempt, every successful Wayland one. */
  predicate Counts(b: Backend, a: Attempt) { b == X11 || a.ok }

  predicate Paced(b: Backend, sends: seq<Attempt>) {
    forall i, j :: 0 <= i < j < |sends| && Counts(b, sends[i]) && Counts(b, sends[j]) ==>
      sends[i].dated + DELAY <= sends[j].checked
  }

  predicate Dated(b: Backend, s: State) {
    && s.lastSentDate <= s.clock < WORD64
    && (forall i :: 0 <= i < |s.sends| ==> s.sends[i].checked <= s.sends[i].dated)
    && (forall i :: 0 <= i < |s.sends| && Counts(b, s.sends[i]) ==> s.sends[i].dated <= s.lastSentDate)
  }

  /** A timer comes due no earlier than a delay after the attempt before it. */
  predicate TimersLate(s: State) {
    forall id :: id in s.timers ==>
      s.timers[id].base <= s.lastSentDate && s.timers[id].base + DELAY <= s.timers[id].due
  }

  /** The size a message names; a layout of monitors names none, and stands for the size wanted when it was sent. */
  function Told(a: Attempt): Size { if a.message.Single? then a.message.size else a.size }

  /** The size the server was told by the last successful attempt. */
  function Delivered(first: Size, sends: seq<Attempt>): Size {
    if sends == [] then first
    else if sends[|sends| - 1].ok then Told(sends[|sends| - 1])
    else Delivered(first, sends[..|sends| - 1])
  }

  /** What every call keeps, whether or not the size just changed. */
  predicate Ready(b: Backend, first: Size, s: State) {
    TimersKnown(s) && Dated(b, s) && Paced(b, s.sends) && TimersLate(s) && s.lastSent == Delivered(first, s.sends)
  }

  predicate Reachable(b: Backend, first: Size, s: State) { Ready(b, first, s) && NotLost(s) }

  /** The size was sent, sending or registering failed, or a timer not in "known" is registered. */
  predicate LookedAt(s: State, known: set<nat>) {
    s.lastSent == s.target || s.failed || exists id :: id in s.timers && id !in known
  }

  lemma RegisterKeeps(b: Backend, first: Size, s: State, interval: Interval, e: Env)
    requires Ready(b, first, s) && Ordered(s.clock, e) && s.lastSentDate + DELAY <= e.t3 + interval
    ensures Ready(b, first, UpdateTimer(s, interval, e).0.(clock := e.t3))
    ensures LookedAt(UpdateTimer(s, interval, e).0, s.timers.Keys)
  {}

  /** An attempt, with the date it leaves, and what is recorded when it succeeds. */
  function AfterAttempt(b: Backend, s: State, e: Env): State {
    var a := Attempt(e.t1, e.t2, s.target, MessageFor(b, s), e.sendOk);
    var s1 := s.(sends := s.sends + [a], failed := !a.ok, lastSentDate := if Counts(b, a) then a.dated else s.lastSentDate);
    if a.ok then s1.(lastSent := s.target, lastLook := s.settings.look, lastWindow := s.settings.window) else s1
  }

  /**
   The message is the layout of all monitors, in the X11 client when there are several and in the Wayland client
   when its window is in full screen and there are any; otherwise it is the target size and the settings' look.
  */
  predicate Tells(b: Backend, settings: Settings, target: Size, m: Message) {
    match b
    case X11 => m == if settings.monitors > 1 then PerMonitor(settings.monitors) else Single(target, settings.look)
    case Wayland =>
      if settings.window && settings.monitors > 0 then m == PerMonitor(settings.monitors) else m == Single(target, settings.look)
  }

  lemma MessageIs(b: Backend, s: State)
    ensures Tells(b, s.settings, s.target, MessageFor(b, s))
    ensures forall e: Env :: Told(Attempt(e.t1, e.t2, s.target, MessageFor(b, s), e.sendOk)) == s.target
  {}

  lemma AttemptDated(b: Backend, s: State, t: State, a: Attempt)
    requires Dated(b, s) && Paced(b, s.sends) && s.lastSentDate + DELAY <= a.checked <= a.dated
    requires t.sends == s.sends + [a] && a.dated <= t.clock < WORD64
    requires t.lastSentDate == if Counts(b, a) then a.dated else s.lastSentDate
    ensures Dated(b, t) && Paced(b, t.sends)
  {}

  lemma AttemptKeeps(b: Backend, first: Size, s: State, e: Env)
    requires Ready(b, first, s) && Ordered(s.clock, e) && Elapsed(e.t1, s.lastSentDate) >= DELAY
    ensures Ready(b, first, AfterAttempt(b, s, e).(clock := e.t3))
    ensures LookedAt(AfterAttempt(b, s, e), s.timers.Keys)
  {
    DateBound(b, first, s, e);
    var a, t := Attempt(e.t1, e.t2, s.target, MessageFor(b, s), e.sendOk), AfterAttempt(b, s, e).(clock := e.t3);
    AttemptDated(b, s, t, a);
    TimersStay(s, t);
    MessageIs(b, s);
    hide Dated, Paced, Delivered, MessageFor, TimersKnown, TimersLate;
  }

  lemma TimersStay(s: State, t: State)
    requires TimersKnown(s) && TimersLate(s) && s.lastSentDate <= t.lastSentDate
    requires t.timers == s.timers && t.timerID == s.timerID && t.nextID == s.nextID
    ensures TimersKnown(t) && TimersLate(t)
  {}

  lemma ClockKeeps(b: Backend, first: Size, s: State, clock: nat)
    requires Ready(b, first, s) && s.clock <= clock < WORD64
    ensures Ready(b, first, s.(clock := clock))
  {}

  /** When a call reaches the channel, and that this is all an attempt does. */
  predicate Attempts(b: Backend, s: State, fromTimer: bool, e: Env) {
    && s.activated && s.open && Elapsed(e.t1, s.lastSentDate) >= DELAY && (fromTimer || s.timerID == 0) && Changed(s)
  }

  lemma SendAttempts(b: Backend, s: State, fromTimer: bool, e: Env)
    requires Attempts(b, s, fromTimer, e)
    ensures Send(b, s, fromTimer, e).0 == AfterAttempt(b, s, e)
  {}

  lemma SendKeeps(b: Backend, first: Size, s: State, fromTimer: bool, e: Env)
    requires Ready(b, first, s) && Ordered(s.clock, e)
    ensures Ready(b, first, Send(b, s, fromTimer, e).0.(clock := e.t3))
    ensures LookedAt(Send(b, s, fromTimer, e).0, if fromTimer then s.timers.Keys else {})
  {
    hide Ready, UpdateTimer, AfterAttempt, Changed, Send;
    ClockKeeps(b, first, s, e.t3);
    DateBound(b, first, s, e);
    SendBranches(b, s, fromTimer, e);
    var diff := Elapsed(e.t1, s.lastSentDate);
    if Attempts(b, s, fromTimer, e) {
      AttemptKeeps(b, first, s, e);
    } else if b == X11 && s.timerID != 0 && !fromTimer {
    } else if !s.activated || !s.open {
      RegisterKeeps(b, first, s, DELAY, e);
    } else if diff < DELAY {
      RegisterKeeps(b, first, s, if b == X11 then DELAY - diff else DELAY, e);
    } else {
      Unchanged(s);
    }
  }

  /** What a call does: attempt, register a timer, or nothing. */
  lemma SendBranches(b: Backend, s: State, fromTimer: bool, e: Env)
    ensures var t, diff := Send(b, s, fromTimer, e).0, Elapsed(e.t1, s.lastSentDate);
      if Attempts(b, s, fromTimer, e) then t == AfterAttempt(b, s, e)
      else if b == X11 && s.timerID != 0 && !fromTimer then t == s
      else if !s.activated || !s.open then t == UpdateTimer(s, DELAY, e).0
      else if diff < DELAY then t == UpdateTimer(s, if b == X11 then DELAY - diff else DELAY, e).0
      else t == s && (!Changed(s) || (s.timerID != 0 && !fromTimer))
  {
    hide UpdateTimer, AfterAttempt, Changed;
    if Attempts(b, s, fromTimer, e) { SendAttempts(b, s, fromTimer, e); }
  }

  lemma Unchanged(s: State)
    ensures !Changed(s) ==> s.lastSent == s.target
  {}

  lemma DateBound(b: Backend, first: Size, s: State, e: Env)
    requires Ready(b, first, s) && Ordered(s.clock, e)
    ensures s.lastSentDate <= e.t1 && Elapsed(e.t1, s.lastSentDate) == e.t1 - s.lastSentDate
    ensures s.timerID != 0 ==> s.timerID in s.timers
  {}

  /** After a timer ran, it and the id it left behind are gone. */
  lemma TimerDoneKeeps(b: Backend, first: Size, s: State, id: nat)
    requires Ready(b, first, s)
    ensures Ready(b, first, s.(timerID := 0, timers := s.timers - {id}))
    ensures LookedAt(s, {id}) ==> NotLost(s.(timerID := 0, timers := s.timers - {id}))
  {
    if n :| n in s.timers && n != id {
      assert n in s.timers - {id};
    }
  }

  lemma RearmKeeps(b: Backend, first: Size, s: State, id: nat, e: Env)
    requires Reachable(b, first, s) && Ordered(s.clock, e) && id in s.timers && s.timers[id].due <= e.t1
    ensures Reachable(b, first, s.(timers := s.timers[id := s.timers[id].(due := e.t3 + s.timers[id].interval)]))
  {}

  /** Events that call sendResize outside the timer, whatever the target has become. */
  lemma CallKeeps(b: Backend, first: Size, s: State, e: Env)
    requires Ready(b, first, s) && Ordered(s.clock, e)
    ensures Reachable(b, first, Send(b, s, false, e).0.(clock := e.t3))
  {
    SendKeeps(b, first, s, false, e);
    hide Ready, Send;
  }

  lemma TimerKeeps(b: Backend, first: Size, s: State, id: nat, e: Env)
    requires Reachable(b, first, s) && Ordered(s.clock, e) && id in s.timers && s.timers[id].due <= e.t1
    ensures Reachable(b, first, OnTimer(b, s, id, e).(clock := e.t3))
  {
    hide Ready, Send, NotLost;
    RearmKeeps(b, first, s, id, e);
    var rearmed := s.(timers := s.timers[id := s.timers[id].(due := e.t3 + s.timers[id].interval)]);
    ClockKeeps(b, first, rearmed, e.t3);
    ClockKeepsLost(rearmed, e.t3);
    SendKeeps(b, first, s, true, e);
    var t := Send(b, s, true, e).0.(clock := e.t3);
    StillLookedAt(Send(b, s, true, e).0, s.timers.Keys, id, e.t3);
    TimerDoneKeeps(b, first, t, id);
  }

  lemma ClockKeepsLost(s: State, clock: nat)
    ensures NotLost(s.(clock := clock)) == NotLost(s)
  {}

  lemma StillLookedAt(s: State, known: set<nat>, id: nat, clock: nat)
    requires LookedAt(s, known) && id in known
    ensures LookedAt(s.(clock := clock), {id})
  {}

  lemma FieldsKeep(b: Backend, first: Size, s: State, activated: bool, open: bool, settings: Settings, target: Size)
    requires Ready(b, first, s)
    ensures Ready(b, first, s.(activated := activated, open := open, settings := settings, target := target))
  {}

  /** Events that only set a field. */
  lemma SwitchKeeps(b: Backend, first: Size, s: State, ev: Event, e: Env)
    requires Reachable(b, first, s) && Ordered(s.clock, e)
    requires ev.Capabilities? || ev.ChannelOpened? || ev.ChannelClosed? || ev.SettingsChanged?
    ensures Reachable(b, first, Step(b, s, ev, e))
  {
    hide Ready;
    var t := Handle(b, s, ev, e);
    FieldsKeep(b, first, s, t.activated, t.open, t.settings, s.target);
    ClockKeeps(b, first, t, e.t3);
  }

  lemma StepKeeps(b: Backend, first: Size, s: State, ev: Event, e: Env)
    requires Reachable(b, first, s) && Ordered(s.clock, e)
    ensures Reachable(b, first, Step(b, s, ev, e))
  {
    hide Ready, Send, OnTimer;
    ClockKeeps(b, first, s, e.t3);
    match ev
    case Configure(size) =>
      FieldsKeep(b, first, s, s.activated, s.open, s.settings, size);
      CallKeeps(b, first, s.(target := size), e);
    case TimerFires(id) => if id in s.timers && s.timers[id].due <= e.t1 { TimerKeeps(b, first, s, id, e); }
    case Activated(_) => CallKeeps(b, first, s, e);
    case GraphicsReset => CallKeeps(b, first, s, e);
    case WindowStateChange => CallKeeps(b, first, s, e);
    case _ => SwitchKeeps(b, first, s, ev, e);
  }

  /** Every state of every run under a clock that never goes back. */
  lemma {:induction false} RunKeeps(b: Backend, first: Size, s: State, trace: seq<(Event, Env)>)
    requires Reachable(b, first, s) && Monotone(s.clock, trace)
    ensures Reachable(b, first, Run(b, s, trace))
    ensures Run(b, s, trace).clock == Clock(s.clock, trace)
  {
    hide Reachable, Handle;
    if trace != [] {
      var n := |trace| - 1;
      RunKeeps(b, first, s, trace[..n]);
      StepKeeps(b, first, Run(b, s, trace[..n]), trace[n].0, trace[n].1);
    }
  }

  // ---- the promises

  /**
   Over every run the attempts that count are at least half a second apart; the size recorded as sent is the one
   of the last successful attempt; and a size not yet sent has a timer unless the last attempt failed.
   */
  lemma {:induction false} ResizesPacedAndKept(b: Backend, size: Size, settings: Settings, trace: seq<(Event, Env)>)
    requires Monotone(0, trace)
    ensures var s := Run(b, Initial(size, settings), trace);
      && Paced(b, s.sends) && NotLost(s) && s.lastSent == Delivered(size, s.sends)
      && (s.timerID != 0 ==> s.timerID in s.timers)
  {
    RunKeeps(b, size, Initial(size, settings), trace);
  }

  /** X11 attempts number i and j are (j - i) delays apart. */
  lemma {:induction false} AttemptsSpread(sends: seq<Attempt>, i: nat, j: nat)
    requires Paced(X11, sends) && i <= j < |sends|
    requires forall k :: 0 <= k < |sends| ==> sends[k].checked <= sends[k].dated
    ensures sends[i].dated + (j - i) * DELAY <= sends[j].dated
  {
    if i < j {
      AttemptsSpread(sends, i, j - 1);
      assert Counts(X11, sends[j - 1]) && Counts(X11, sends[j]);
      assert sends[j - 1].dated + DELAY <= sends[j].checked;
      assert (j - i) * DELAY == (j - 1 - i) * DELAY + DELAY;
    }
  }

  /**
   A timer that was registered after the last attempt, and that fires in time while the display channel is open
   and works, gets the size to the server.
   */
  lemma DueTimerSends(b: Backend, first: Size, s: State, id: nat, e: Env)
    requires Reachable(b, first, s) && Ordered(s.clock, e) && id in s.timers && s.timers[id].due <= e.t1
    requires s.activated && s.open && (b == Wayland ==> !s.settings.fullscreen)
    requires s.timers[id].base == s.lastSentDate && e.sendOk
    ensures var t := Step(b, s, TimerFires(id), e);
      && t.lastSent == t.target == s.target && id !in t.timers
      && if !Changed(s) then t.sends == s.sends
         else exists m :: Tells(b, s.settings, s.target, m) && t.sends == s.sends + [Attempt(e.t1, e.t2, s.target, m, true)]
  {
    MessageIs(b, s);
    DateBound(b, first, s, e);
    if Changed(s) {
      SendAttempts(b, s, true, e);
    }
  }
}
