/** The display contexts of the two clients, each method proved to be the step of the model it stands for. */
module DisplayControl {
  import opened ResizePacing

  /** The display context of either client, with the timer list it registers in. */
  class Display {
    const backend: Backend
    var lastSent: Size
    var lastLook: Look
    var lastWindow: bool
    var lastSentDate: nat
    var target: Size
    var activated: bool
    var open: bool
    var settings: Settings
    var timerID: nat
    var timers: map<nat, Timer>
    var nextID: nat
    ghost var sends: seq<Attempt>
    ghost var failed: bool
    ghost var clock: nat

    ghost function View(): State
      reads this
    {
      State(lastSent, lastLook, lastWindow, lastSentDate, target, activated, open, settings, timerID, timers, nextID,
            sends, failed, clock)
    }

    constructor (backend: Backend, size: Size, settings: Settings)
      ensures this.backend == backend && View() == Initial(size, settings)
    {
      this.backend := backend;
      lastSent, target, lastLook, lastWindow, lastSentDate := size, size, Look(0, 0, 0), false, 0;
      activated, open, this.settings, timerID, timers, nextID := false, false, settings, 0, map[], 1;
      sends, failed, clock := [], false, 0;
    }

    method SettingsChanged() returns (changed: bool)
      ensures changed == Changed(View())
    {
      changed := lastSent.width != target.width || lastSent.height != target.height
              || lastLook.orientation != settings.look.orientation
              || lastLook.desktopScale != settings.look.desktopScale
              || lastLook.deviceScale != settings.look.deviceScale
              || lastWindow != settings.window;
    }

    /** The Wayland client notes the date here, the X11 client before it sends. */
    method UpdateLastSent(now: nat)
      modifies this
      ensures var s := old(View());
        View() == ResizePacing.UpdateLastSent(if backend == X11 then s else s.(lastSentDate := now))
    {
      if backend == Wayland {
        lastSentDate := now;
      }
      lastSent, lastLook, lastWindow := target, settings.look, settings.window;
    }

    method UpdateTimer(interval: Interval, e: Env) returns (ok: bool)
      modifies this
      ensures (View(), ok) == ResizePacing.UpdateTimer(old(View()), interval, e)
    {
      if timerID != 0 {
        timers := timers - {timerID};
      }
      timerID := if e.addOk then nextID else 0;
      if e.addOk {
        timers := timers[nextID := Timer(interval, e.t3 + interval, lastSentDate)];
      }
      nextID := nextID + 1;
      failed := !e.addOk;
      return e.addOk;
    }

    method SendResizeX11(fromTimer: bool, e: Env) returns (ok: bool)
      requires backend == X11
      modifies this
      ensures (View(), ok) == SendX11(old(View()), fromTimer, e)
    {
      var diff := Elapsed(e.t1, lastSentDate);
      if timerID != 0 && !fromTimer {
        return true;
      }
      if !activated || !open {
        ok := UpdateTimer(DELAY, e);
        return;
      }
      if diff < DELAY {
        ok := UpdateTimer(DELAY - diff, e);
        return;
      }
      var changed := SettingsChanged();
      if !changed {
        return true;
      }
      lastSentDate := e.t2;
      failed := !e.sendOk;
      if settings.monitors > 1 {
        sends := sends + [Attempt(e.t1, e.t2, target, PerMonitor(settings.monitors), e.sendOk)];
      } else {
        sends := sends + [Attempt(e.t1, e.t2, target, Single(target, settings.look), e.sendOk)];
      }
      if !e.sendOk {
        return false;
      }
      UpdateLastSent(e.t2);
      return true;
    }

    method SendResizeWayland(fromTimer: bool, e: Env) returns (ok: bool)
      requires backend == Wayland
      modifies this
      ensures (View(), ok) == SendWayland(old(View()), fromTimer, e)
    {
      if !activated || !open {
        ok := UpdateTimer(DELAY, e);
        return;
      }
      if Elapsed(e.t1, lastSentDate) < DELAY {
        ok := UpdateTimer(DELAY, e);
        return;
      }
      if !fromTimer && timerID != 0 {
        return true;
      }
      var changed := SettingsChanged();
      if !changed {
        return true;
      }
      failed := !e.sendOk;
      if settings.window && settings.monitors > 0 {
        sends := sends + [Attempt(e.t1, e.t2, target, PerMonitor(settings.monitors), e.sendOk)];
      } else {
        sends := sends + [Attempt(e.t1, e.t2, target, Single(target, settings.look), e.sendOk)];
      }
      if !e.sendOk {
        return false;
      }
      UpdateLastSent(e.t2);
      return true;
    }

    method SendResize(fromTimer: bool, e: Env) returns (ok: bool)
      modifies this
      ensures (View(), ok) == Send(backend, old(View()), fromTimer, e)
    {
      if backend == X11 {
        ok := SendResizeX11(fromTimer, e);
      } else {
        ok := SendResizeWayland(fromTimer, e);
      }
    }

    /** xf_disp_queueResize ignores the size it has, wlf_disp_handle_configure takes every size. */
    method Configure(size: Size, e: Env) returns (ok: bool)
      modifies this
      ensures View() == Handle(backend, old(View()), ResizePacing.Configure(size), e)
      ensures backend == X11 && old(target) == size ==> ok
    {
      if backend == X11 && target == size {
        return true;
      }
      target := size;
      ok := SendResize(false, e);
    }

    /** The timer callback; it returns the next interval, or zero to end the timer. */
    method OnTimer(e: Env, interval: Interval) returns (next: nat)
      modifies this
      ensures Waits(backend, old(View())) ==> View() == old(View()) && next == interval
      ensures !Waits(backend, old(View())) ==> View() == Send(backend, old(View()), true, e).0.(timerID := 0) && next == 0
    {
      if !activated || (backend == Wayland && settings.fullscreen) {
        return interval;
      }
      var _ := SendResize(true, e);
      timerID := 0;
      return 0;
    }

    /** The timer list runs the callback of a due timer, then reschedules or removes it. */
    method RunTimer(id: nat, e: Env)
      modifies this
      ensures View() == Handle(backend, old(View()), TimerFires(id), e)
    {
      if id !in timers || timers[id].due > e.t1 {
        return;
      }
      var timer := timers[id];
      var next := OnTimer(e, timer.interval);
      if next == 0 {
        timers := timers - {id};
      } else {
        timers := timers[id := timer.(due := e.t3 + next)];
      }
    }

    method OnActivated(first: bool, e: Env)
      modifies this
      ensures View() == Handle(backend, old(View()), Activated(first), e)
    {
      var full := if backend == X11 then settings.window else settings.fullscreen;
      if activated && !full {
        if first {
          return;
        }
        var _ := SendResize(false, e);
      }
    }

    method OnGraphicsReset(e: Env)
      modifies this
      ensures View() == Handle(backend, old(View()), GraphicsReset, e)
    {
      if activated && !settings.fullscreen {
        var _ := SendResize(false, e);
      }
    }

    /** Only the X11 client listens to this. */
    method OnWindowStateChange(e: Env)
      requires backend == X11
      modifies this
      ensures View() == Handle(X11, old(View()), WindowStateChange, e)
    {
      if activated && settings.window {
        var _ := SendResize(false, e);
      }
    }
  }
}
