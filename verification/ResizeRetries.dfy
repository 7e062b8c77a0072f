/** What becomes of a display size that could not be sent, and of the timers the display code loses. */
module ResizeRetries {
  import opened ResizePacing

  // ---- timers

  /**
   Any timer that fires in time while the display channel is open and works either gets the size to the server
   or registers another that will: one registered after the last attempt.
  */
  lemma DueTimerSendsOrWaits(b: Backend, first: Size, s: State, id: nat, e: Env)
    requires Reachable(b, first, s) && Ordered(s.clock, e) && id in s.timers && s.timers[id].due <= e.t1
    requires s.activated && s.open && (b == Wayland ==> !s.settings.fullscreen) && e.sendOk && e.addOk
    ensures var t := Step(b, s, TimerFires(id), e);
      && t.target == s.target && id !in t.timers
      && if e.t1 - s.lastSentDate >= DELAY then t.lastSent == t.target
         else s.nextID in t.timers && t.timers[s.nextID].base == t.lastSentDate && t.timers[s.nextID].due <= e.t3 + DELAY
  {
    DateBound(b, first, s, e);
    if Attempts(b, s, true, e) { SendAttempts(b, s, true, e); } else { Unchanged(s); }
    hide Changed, Ready;
  }

  /** So after at most two of them the server has the size. */
  lemma TwoTimersSend(b: Backend, first: Size, s: State, id: nat, e: Env, later: Env)
    requires Reachable(b, first, s) && Ordered(s.clock, e) && id in s.timers && s.timers[id].due <= e.t1
    requires s.activated && s.open && (b == Wayland ==> !s.settings.fullscreen) && e.sendOk && e.addOk
    requires Ordered(e.t3, later) && e.t3 + DELAY <= later.t1 && later.sendOk
    ensures var t := Step(b, s, TimerFires(id), e);
      t.lastSent == s.target || Step(b, t, TimerFires(s.nextID), later).lastSent == s.target
  {
    DueTimerSendsOrWaits(b, first, s, id, e);
    StepKeeps(b, first, s, TimerFires(id), e);
    var t := Step(b, s, TimerFires(id), e);
    if e.t1 - s.lastSentDate < DELAY {
      TimerStepFields(b, s, id, e);
      hide Handle, Reachable;
      DueTimerSends(b, first, t, s.nextID, later);
    }
  }

  lemma TimerStepFields(b: Backend, s: State, id: nat, e: Env)
    ensures var t := Step(b, s, TimerFires(id), e);
      t.activated == s.activated && t.open == s.open && t.settings == s.settings && t.clock == e.t3
  {
    SendFields(b, s, e);
    hide Send;
  }

  lemma SendFields(b: Backend, s: State, e: Env)
    ensures var t := Send(b, s, true, e).0; t.activated == s.activated && t.open == s.open && t.settings == s.settings
  {
    hide Changed, MessageFor, Elapsed;
  }

  /**
   A callback that registers a timer forgets it at once: it stays registered while the code waits for none.
   That happens exactly when the channel is closed or the delay has not passed.
  */
  lemma ForgottenTimer(b: Backend, first: Size, s: State, id: nat, e: Env)
    requires Reachable(b, first, s) && Ordered(s.clock, e) && id in s.timers && s.timers[id].due <= e.t1 && !Waits(b, s)
    ensures var t := Step(b, s, TimerFires(id), e);
      t.timerID == 0 && (s.nextID in t.timers <==> e.addOk && (!s.open || e.t1 - s.lastSentDate < DELAY))
  {
    DateBound(b, first, s, e);
  }

  // ---- failed attempts

  /** The state an event's call to sendResize starts from. */
  function Called(s: State, ev: Event): State { if ev.Configure? then s.(target := ev.size) else s }

  /** An event that makes an attempt does nothing else, apart from the timer that ran. */
  lemma AttemptStep(b: Backend, s: State, ev: Event, e: Env)
    requires Step(b, s, ev, e).sends != s.sends
    ensures Attempts(b, Called(s, ev), ev.TimerFires?, e)
    ensures var t := AfterAttempt(b, Called(s, ev), e).(clock := e.t3);
      Step(b, s, ev, e) == if ev.TimerFires? then t.(timerID := 0, timers := s.timers - {ev.id}) else t
  {
    hide Handle, Send, Attempts, AfterAttempt;
    HandleIs(b, s, ev, e);
    SendIs(b, Called(s, ev), ev.TimerFires?, e);
  }

  /** Without an attempt, or one call to sendResize and the end of the timer that ran. */
  lemma HandleIs(b: Backend, s: State, ev: Event, e: Env)
    ensures var t, sent := Handle(b, s, ev, e), Send(b, Called(s, ev), ev.TimerFires?, e).0;
      t.sends == s.sends || t == if ev.TimerFires? then sent.(timerID := 0, timers := sent.timers - {ev.id}) else sent
  {
    hide Send;
  }

  lemma SendIs(b: Backend, s: State, fromTimer: bool, e: Env)
    ensures var t := Send(b, s, fromTimer, e).0;
      if Attempts(b, s, fromTimer, e) then t == AfterAttempt(b, s, e) && t.timers == s.timers else t.sends == s.sends
  {
    if Attempts(b, s, fromTimer, e) { SendAttempts(b, s, fromTimer, e); }
  }

  /** The last attempt of a step failed. */
  predicate Fails(b: Backend, s: State, ev: Event, e: Env) { Step(b, s, ev, e).sends != s.sends && !e.sendOk }

  /**
   After a failed attempt there is still something to send, and a timer that looks at it again exactly when
   another timer was registered before.
  */
  lemma FailedAttemptWatched(b: Backend, s: State, ev: Event, e: Env)
    requires Fails(b, s, ev, e)
    ensures var t := Step(b, s, ev, e);
      && Changed(t)
      && (t.timers != map[] <==> exists id :: id in s.timers && ev != TimerFires(id))
  {
    AttemptStep(b, s, ev, e);
    hide Step;
    var t := Step(b, s, ev, e);
    if id :| id in s.timers && ev != TimerFires(id) { assert id in t.timers; }
    if t.timers != map[] {
      var id :| id in t.timers;
      assert id in s.timers && ev != TimerFires(id);
    }
  }

  /** No other timer: a failed X11 attempt is not repeated by timers, nor by the same size again. */
  lemma {:induction false} FailedSendForgotten(s: State, trace: seq<(Event, Env)>)
    requires s.timers == map[]
    requires forall x | x in trace :: x.0.TimerFires? || x.0 == Configure(s.target)
    ensures Run(X11, s, trace) == s.(clock := Clock(s.clock, trace))
  {
    if trace != [] {
      var n := |trace| - 1;
      assert trace[n] in trace && forall x | x in trace[..n] :: x in trace;
      FailedSendForgotten(s, trace[..n]);
      hide Send, OnTimer;
    }
  }

  /** Another timer: when it is due, a delay after the failed attempt, the size is sent. */
  lemma {:induction false} FailedSendRetried(first: Size, s: State, ev: Event, e: Env, id: nat, later: Env)
    requires Reachable(X11, first, s) && Ordered(s.clock, e) && Fails(X11, s, ev, e)
    requires id in s.timers && ev != TimerFires(id)
    requires Ordered(e.t3, later) && e.t3 + DELAY <= later.t1 && s.timers[id].due <= later.t1 && later.sendOk
    ensures var t := Step(X11, Step(X11, s, ev, e), TimerFires(id), later);
      t.lastSent == t.target == Called(s, ev).target && |t.sends| == |s.sends| + 2
  {
    AttemptStep(X11, s, ev, e);
    StepKeeps(X11, first, s, ev, e);
    var t := Step(X11, s, ev, e);
    FailedAttemptWatched(X11, s, ev, e);
    DateBound(X11, first, t, later);
    hide Reachable, Changed, Step;
    assert Attempts(X11, t, true, later);
    SendAttempts(X11, t, true, later);
    RetryStep(X11, t, id, later);
  }

  lemma RetryStep(b: Backend, t: State, id: nat, later: Env)
    requires id in t.timers && t.timers[id].due <= later.t1 && !Waits(b, t) && Attempts(b, t, true, later)
    ensures Step(b, t, TimerFires(id), later)
         == AfterAttempt(b, t, later).(clock := later.t3, timerID := 0, timers := t.timers - {id})
  {
    SendAttempts(b, t, true, later);
  }

  /** Wayland tries again at once, without any distance, whenever the size is configured again. */
  lemma {:induction false} FailedSendRepeated(first: Size, s: State, ev: Event, e: Env, later: Env)
    requires Reachable(Wayland, first, s) && Ordered(s.clock, e) && Fails(Wayland, s, ev, e) && Ordered(e.t3, later)
    ensures var t := Step(Wayland, s, ev, e);
      Step(Wayland, t, Configure(t.target), later) == AfterAttempt(Wayland, t, later).(clock := later.t3)
  {
    AttemptStep(Wayland, s, ev, e);
    FailedAttemptWatched(Wayland, s, ev, e);
    DateBound(Wayland, first, s, e);
    hide Ready, Changed;
    var t := Step(Wayland, s, ev, e);
    assert Elapsed(later.t1, t.lastSentDate) == later.t1 - t.lastSentDate;
    SendAttempts(Wayland, t, false, later);
  }

  // ---- two runs

  const SIZE := Size(800, 600)
  const BIG := Size(1024, 768)
  const SETTINGS := Settings(Look(0, 100, 100), 1, false, false)
  const SECOND := 1_000_000_000

  function At(seconds: nat, sendOk: bool): Env { Env(seconds * SECOND, seconds * SECOND, seconds * SECOND, sendOk, true) }

  lemma RunSnoc(b: Backend, s: State, trace: seq<(Event, Env)>, ev: Event, e: Env)
    ensures Run(b, s, trace + [(ev, e)]) == Step(b, Run(b, s, trace), ev, e)
  {
    assert (trace + [(ev, e)])[..|trace|] == trace;
  }

  /** The channel opens, and the first resize fails to be sent. */
  const FAILED := [(Capabilities, At(1, true)), (ChannelOpened, At(1, true)), (Configure(BIG), At(1, false))]

  /** A timer registered by a callback while the channel was closed is still there when a resize fails. */
  const FAILED_WITH_TIMER := [
    (Capabilities, At(1, true)), (Configure(Size(640, 480)), At(1, true)), (TimerFires(1), At(2, true)),
    (ChannelOpened, At(2, true)), (Configure(BIG), At(3, false))]

  lemma FailedRun()
    ensures var s := Run(X11, Initial(SIZE, SETTINGS), FAILED);
      s.lastSent != s.target && s.timers == map[] && s.timerID == 0 && |s.sends| == 1
  {
    var s := Initial(SIZE, SETTINGS);
    RunSnoc(X11, s, [], FAILED[0].0, FAILED[0].1);
    RunSnoc(X11, s, [FAILED[0]], FAILED[1].0, FAILED[1].1);
    RunSnoc(X11, s, [FAILED[0], FAILED[1]], FAILED[2].0, FAILED[2].1);
    hide Run;
    assert FAILED == [FAILED[0], FAILED[1]] + [FAILED[2]] && [FAILED[0], FAILED[1]] == [FAILED[0]] + [FAILED[1]];
    assert [] + [FAILED[0]] == [FAILED[0]];
  }

  lemma ForgottenTimerRun()
    ensures var s := Run(X11, Initial(SIZE, SETTINGS), FAILED_WITH_TIMER[..3]);
      && s.timers == map[2 := Timer(DELAY, 2 * SECOND + DELAY, 0)] && s.timerID == 0 && s.lastSentDate == 0
      && s.activated && s.settings == SETTINGS && s.sends == [] && s.lastSent == SIZE && s.target != BIG
  {
    var s, f := Initial(SIZE, SETTINGS), FAILED_WITH_TIMER;
    RunSnoc(X11, s, [], f[0].0, f[0].1);
    RunSnoc(X11, s, [f[0]], f[1].0, f[1].1);
    RunSnoc(X11, s, [f[0], f[1]], f[2].0, f[2].1);
    hide Run;
    assert f[..3] == [f[0], f[1]] + [f[2]] && [f[0], f[1]] == [f[0]] + [f[1]] && [] + [f[0]] == [f[0]];
  }

  lemma FailedWithTimerRun()
    ensures var s := Run(X11, Initial(SIZE, SETTINGS), FAILED_WITH_TIMER);
      && s.lastSent != s.target == BIG && s.timers == map[2 := Timer(DELAY, 2 * SECOND + DELAY, 0)] && s.timerID == 0
      && |s.sends| == 1 && s.lastSentDate == 3 * SECOND && s.activated && s.open
  {
    var s, f := Initial(SIZE, SETTINGS), FAILED_WITH_TIMER;
    ForgottenTimerRun();
    RunSnoc(X11, s, f[..3], f[3].0, f[3].1);
    RunSnoc(X11, s, f[..4], f[4].0, f[4].1);
    assert f == f[..4] + [f[4]] && f[..4] == f[..3] + [f[3]];
    var s4 := Run(X11, s, f[..4]);
    assert s4 == Run(X11, s, f[..3]).(open := true, clock := 2 * SECOND) by { hide Run; }
    hide Run, Step;
    ConfigureAttempts(s4, BIG, At(3, false));
  }

  lemma ConfigureAttempts(s: State, size: Size, e: Env)
    requires s.target != size && Attempts(X11, s.(target := size), false, e)
    ensures Step(X11, s, Configure(size), e) == AfterAttempt(X11, s.(target := size), e).(clock := e.t3)
  {
    SendAttempts(X11, s.(target := size), false, e);
  }

  lemma {:induction false} ForgottenTimerRetries()
    ensures var s := Run(X11, Initial(SIZE, SETTINGS), FAILED_WITH_TIMER + [(TimerFires(2), At(4, true))]);
      s.lastSent == s.target == BIG && |s.sends| == 2
  {
    var s := Run(X11, Initial(SIZE, SETTINGS), FAILED_WITH_TIMER);
    FailedWithTimerRun();
    RunSnoc(X11, Initial(SIZE, SETTINGS), FAILED_WITH_TIMER, TimerFires(2), At(4, true));
    hide Run;
    RetryStep(X11, s, 2, At(4, true));
  }

  /** Two Wayland attempts at the same instant, both failing. */
  lemma {:induction false} RepeatedRun()
    ensures var s := Run(Wayland, Initial(SIZE, SETTINGS), FAILED + [(Configure(BIG), At(1, false))]);
      |s.sends| == 2 && s.sends[0] == s.sends[1] && s.sends[0].checked == SECOND && !s.sends[0].ok
  {
    var s := Initial(SIZE, SETTINGS);
    RunSnoc(Wayland, s, FAILED, Configure(BIG), At(1, false));
    RunSnoc(Wayland, s, [], FAILED[0].0, FAILED[0].1);
    RunSnoc(Wayland, s, [FAILED[0]], FAILED[1].0, FAILED[1].1);
    RunSnoc(Wayland, s, [FAILED[0], FAILED[1]], FAILED[2].0, FAILED[2].1);
    hide Run;
    assert FAILED == [FAILED[0], FAILED[1]] + [FAILED[2]] && [FAILED[0], FAILED[1]] == [FAILED[0]] + [FAILED[1]];
    assert [] + [FAILED[0]] == [FAILED[0]];
  }
}
