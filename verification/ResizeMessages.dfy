/** What the server is told over a whole run. */
module ResizeMessages {
  import opened ResizePacing
  import opened ResizeRetries

  /** Attempt a is what this step sent: the target it leaves, as the settings at that step have it told. */
  predicate SentBy(b: Backend, s: State, ev: Event, e: Env, a: Attempt) {
    var t := Step(b, s, ev, e);
    && t.sends == s.sends + [a]
    && a.size == t.target && a.checked == e.t1 && a.dated == e.t2 && a.ok == e.sendOk
    && t.settings == s.settings && Tells(b, s.settings, t.target, a.message)
  }

  lemma StepSends(b: Backend, s: State, ev: Event, e: Env) returns (a: Attempt)
    ensures Step(b, s, ev, e).sends == s.sends || SentBy(b, s, ev, e, a)
  {
    a := Attempt(e.t1, e.t2, Called(s, ev).target, MessageFor(b, Called(s, ev)), e.sendOk);
    if Step(b, s, ev, e).sends != s.sends {
      AttemptStep(b, s, ev, e);
      MessageIs(b, Called(s, ev));
      hide Step, MessageFor, Tells;
    }
  }

  /** Every attempt of every run was sent by one step: the sizes and looks told are those wanted at that step. */
  lemma {:induction false} EverySend(b: Backend, s: State, trace: seq<(Event, Env)>, i: nat) returns (k: nat)
    requires |s.sends| <= i < |Run(b, s, trace).sends|
    ensures k < |trace| && |Run(b, s, trace[..k]).sends| == i
    ensures SentBy(b, Run(b, s, trace[..k]), trace[k].0, trace[k].1, Run(b, s, trace).sends[i])
  {
    var n := |trace| - 1;
    var before := Run(b, s, trace[..n]);
    var a := StepSends(b, before, trace[n].0, trace[n].1);
    hide Step, SentBy;
    if i < |before.sends| {
      k := EverySend(b, s, trace[..n], i);
      assert trace[..n][..k] == trace[..k];
      SendsGrow(b, before, trace[n].0, trace[n].1);
    } else {
      k := n;
      SendsGrow(b, before, trace[n].0, trace[n].1);
      SentLast(b, before, trace[n].0, trace[n].1, a);
    }
  }

  lemma SendsGrow(b: Backend, s: State, ev: Event, e: Env)
    ensures var t := Step(b, s, ev, e).sends; s.sends <= t && |t| <= |s.sends| + 1
  {
    var a := StepSends(b, s, ev, e);
    hide Step;
  }

  lemma SentLast(b: Backend, s: State, ev: Event, e: Env, a: Attempt)
    requires SentBy(b, s, ev, e, a)
    ensures Step(b, s, ev, e).sends[|s.sends|..] == [a]
  {
    hide Step;
  }

  /** Something the server was told is not so any more: the size, one part of the look, or the window's state. */
  predicate Differs(s: State, target: Size) {
    || s.lastSent.width != target.width || s.lastSent.height != target.height
    || s.lastLook.orientation != s.settings.look.orientation
    || s.lastLook.desktopScale != s.settings.look.desktopScale
    || s.lastLook.deviceScale != s.settings.look.deviceScale
    || s.lastWindow != s.settings.window
  }

  /** The events that reach the server, if there is something to tell and it is time. */
  predicate Calls(b: Backend, s: State, ev: Event, now: nat) {
    match ev
    case Configure(size) => s.timerID == 0 && (b == X11 ==> s.target != size)
    case TimerFires(id) => id in s.timers && s.timers[id].due <= now && (b == Wayland ==> !s.settings.fullscreen)
    case Activated(first) => s.timerID == 0 && !first && !(if b == X11 then s.settings.window else s.settings.fullscreen)
    case GraphicsReset => s.timerID == 0 && !s.settings.fullscreen
    case WindowStateChange => s.timerID == 0 && b == X11 && s.settings.window
    case _ => false
  }

  /**
   A step sends exactly when its event calls for it, the client is active and the channel open, half a second has
   passed since the date of the last attempt, and something the server was told is not so any more.
  */
  lemma StepSendsIff(b: Backend, first: Size, s: State, ev: Event, e: Env)
    requires Reachable(b, first, s) && Ordered(s.clock, e)
    ensures Step(b, s, ev, e).sends != s.sends
       <==> && Calls(b, s, ev, e.t1) && s.activated && s.open && e.t1 >= s.lastSentDate + 500_000_000
            && Differs(s, if ev.Configure? then ev.size else s.target)
  {
    DateBound(b, first, s, e);
    ChangedIs(Called(s, ev));
    SendGrows(b, Called(s, ev), ev.TimerFires?, e);
    HandleSends(b, s, ev, e);
    hide Handle, Send, Changed, Ready, NotLost, Differs;
  }

  /** The events that call sendResize, whether or not a timer is in use. */
  lemma HandleSends(b: Backend, s: State, ev: Event, e: Env)
    ensures Handle(b, s, ev, e).sends != s.sends
       <==> && Calls(b, s.(timerID := 0), ev, e.t1) && (ev.TimerFires? || ev.Configure? || s.activated)
            && (ev.TimerFires? ==> s.activated) && Send(b, Called(s, ev), ev.TimerFires?, e).0.sends != s.sends
  {
    hide Send;
  }

  lemma SendGrows(b: Backend, s: State, fromTimer: bool, e: Env)
    ensures Send(b, s, fromTimer, e).0.sends != s.sends <==> Attempts(b, s, fromTimer, e)
  {
    SendIs(b, s, fromTimer, e);
    AttemptGrows(b, s, e);
    hide Send, Attempts, AfterAttempt;
  }

  lemma ChangedIs(s: State)
    ensures Changed(s) <==> Differs(s, s.target)
  {}

  lemma AttemptGrows(b: Backend, s: State, e: Env)
    ensures AfterAttempt(b, s, e).sends != s.sends
  {
    hide MessageFor;
    assert |AfterAttempt(b, s, e).sends| == |s.sends| + 1;
  }

  /** After a successful send nothing is left to tell, and the date is one of the send. */
  lemma SuccessRecorded(b: Backend, s: State, ev: Event, e: Env)
    requires Step(b, s, ev, e).sends != s.sends && e.sendOk
    ensures var t := Step(b, s, ev, e); !Differs(t, t.target) && t.lastSentDate == e.t2
  {
    AttemptStep(b, s, ev, e);
    hide Step;
  }

  // ---- what a call leaves behind

  /** The state after a timer took the place of the one in use, or after registering it failed. */
  function Rescheduled(s: State, interval: Interval, e: Env): State {
    var others := map id | id in s.timers && (id != s.timerID || s.timerID == 0) :: s.timers[id];
    if e.addOk then
      s.(timers := others[s.nextID := Timer(interval, e.t3 + interval, s.lastSentDate)], timerID := s.nextID,
         nextID := s.nextID + 1, failed := false)
    else s.(timers := others, timerID := 0, nextID := s.nextID + 1, failed := true)
  }

  /**
   A call that is not ready, or comes too early, waits half a second; the X11 client what is left of it. A call with
   a timer in use changes nothing, in the Wayland client only if it is not too early. The result is whether
   registering or sending worked.
  */
  lemma CallExactly(b: Backend, first: Size, s: State, fromTimer: bool, e: Env)
    requires Reachable(b, first, s) && Ordered(s.clock, e)
    ensures var (t, ok) := Send(b, s, fromTimer, e);
      var early := e.t1 - s.lastSentDate < 500_000_000;
      var waits := s.timerID != 0 && !fromTimer;
      if b == X11 && waits then t == s && ok
      else if !s.activated || !s.open then t == Rescheduled(s, 500_000_000, e) && ok == e.addOk
      else if early then
        t == Rescheduled(s, if b == X11 then 500_000_000 - (e.t1 - s.lastSentDate) else 500_000_000, e) && ok == e.addOk
      else if waits || !Differs(s, s.target) then t == s && ok
      else t == AfterAttempt(b, s, e) && ok == e.sendOk
  {
    DateBound(b, first, s, e);
    ChangedIs(s);
    RescheduledIs(s, 500_000_000, e);
    if s.activated && s.open && e.t1 - s.lastSentDate < 500_000_000 {
      RescheduledIs(s, 500_000_000 - (e.t1 - s.lastSentDate), e);
    }
    SendBranches(b, s, fromTimer, e);
    hide Send, Rescheduled, UpdateTimer, AfterAttempt, Changed, Differs, Ready, NotLost;
  }

  lemma RescheduledIs(s: State, interval: Interval, e: Env)
    ensures UpdateTimer(s, interval, e) == (Rescheduled(s, interval, e), e.addOk)
  {
    var others := map id | id in s.timers && (id != s.timerID || s.timerID == 0) :: s.timers[id];
    assert others == if s.timerID != 0 then s.timers - {s.timerID} else s.timers;
  }

  /** A new context has sent nothing and waits for nothing. */
  lemma Start(size: Size, settings: Settings)
    ensures var i := Initial(size, settings);
      && i.lastSent == i.target == size && i.lastLook == Look(0, 0, 0) && !i.lastWindow && i.lastSentDate == 0
      && i.settings == settings && !i.activated && !i.open && i.timerID == 0 && i.timers == map[] && i.sends == []
  {}

  /** The events that send nothing set one field each. */
  lemma Switches(b: Backend, s: State, e: Env, settings: Settings)
    ensures Step(b, s, Capabilities, e) == s.(activated := true, clock := e.t3)
    ensures Step(b, s, ChannelOpened, e) == s.(open := true, clock := e.t3)
    ensures Step(b, s, ChannelClosed, e) == s.(open := false, clock := e.t3)
    ensures Step(b, s, SettingsChanged(settings), e) == s.(settings := settings, clock := e.t3)
  {
    hide Send, OnTimer;
  }

  /** The 64-bit difference of a clock that went back is large, so that a change is sent at once. */
  lemma BackwardsClockSends(b: Backend, s: State, e: Env)
    requires s.activated && s.open && s.timerID == 0 && Differs(s, s.target)
    requires e.t1 < s.lastSentDate < WORD64 && s.lastSentDate - e.t1 <= WORD64 - 500_000_000
    ensures Send(b, s, false, e).0 == AfterAttempt(b, s, e)
  {
    ChangedIs(s);
    assert (e.t1 - s.lastSentDate) % WORD64 == e.t1 - s.lastSentDate + WORD64;
    SendAttempts(b, s, false, e);
  }
}
