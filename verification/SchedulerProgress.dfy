/** Bounded waiting: how many server responses a queued selection request waits for. */
module SchedulerProgress {
  import opened Common
  import opened ClipboardFormats
  import opened SelectionScheduler
  import opened SchedulerInvariants

  function Formats(es: seq<Entry>): set<uint32> { set e | e in es :: e.format }

  /** The entries queued before the first one of format f. */
  function Ahead(es: seq<Entry>, f: uint32): seq<Entry> {
    if es == [] || es[0].format == f then [] else [es[0]] + Ahead(es[1..], f)
  }

  /** The position of an entry's format group in the queue: 1 for the head format. */
  function Rank(before: seq<Entry>, e: Entry): nat { |Formats(Ahead(before, e.format))| + 1 }

  function Responses(evs: seq<Event>): nat {
    if evs == [] then 0 else (if evs[0].DataResponse? then 1 else 0) + Responses(evs[1..])
  }

  /** No server format list arrives and the entry's own append succeeds. */
  predicate Undisturbed(evs: seq<Event>, id: nat) {
    forall ev | ev in evs :: !ev.ServerFormatList? && (ev.DataResponse? ==> id !in ev.lost)
  }

  ghost predicate IsNotified(log: seq<Item>, id: nat) { exists p :: Notified(id, p) in log }

  lemma AnswerOneNotifies(env: Env, a: Answering, e: Entry, data: Bytes)
    ensures a.log <= AnswerOne(env, a, e, data).log
    ensures IsNotified(AnswerOne(env, a, e, data).log, e.id)
  {
    hide AnswerOne;
    var b := AnswerOne(env, a, e, data);
    AnswerOneLog(env, a, e, data);
    var items := Appended(a.log, b.log);
    assert b.log[|b.log| - 1] == items[|items| - 1];
    assert Notified(e.id, items[|items| - 1].property) in b.log;
  }

  lemma {:induction false} AnswerAllNotifies(env: Env, a: Answering, es: seq<Entry>, data: Bytes, e: Entry)
    ensures a.log <= AnswerAll(env, a, es, data).log
    ensures e in es ==> IsNotified(AnswerAll(env, a, es, data).log, e.id)
    decreases |es|
  {
    if es != [] {
      hide AnswerOne;
      var b := AnswerOne(env, a, es[0], data);
      AnswerOneNotifies(env, a, es[0], data);
      AnswerAllNotifies(env, b, es[1..], data, e);
      if e == es[0] {
        var p :| Notified(e.id, p) in b.log;
        assert Notified(e.id, p) in AnswerAll(env, b, es[1..], data).log;
      }
    }
  }

  lemma AnswerNotifies(env: Env, s: State, ok: bool, data: Bytes, e: Entry)
    ensures s.log <= Answer(env, s, ok, data).log
    ensures e in s.pending ==> IsNotified(Answer(env, s, ok, data).log, e.id)
  {
    if ok {
      AnswerAllNotifies(env, Answering(s.cachedData, s.cachedRawData, s.system, false, false, s.log), s.pending, data, e);
    } else if e in s.pending {
      var i :| 0 <= i < |s.pending| && s.pending[i] == e;
      assert Refusals(s.pending)[i] == Notified(e.id, NO_ATOM);
      assert Notified(e.id, NO_ATOM) in s.log + Refusals(s.pending);
    }
  }

  /** A request waiting in the group in flight is notified by the next response, whatever it says. */
  lemma ResponseNotifies(env: Env, s: State, ev: Event, e: Entry)
    requires ev.DataResponse?
    ensures s.log <= Step(env, s, ev).log
    ensures e in s.pending ==> IsNotified(Step(env, s, ev).log, e.id)
  {
    hide Answer;
    AnswerNotifies(env, Say(s, [Received(ev.ok, ev.data)]), ev.ok, ev.data, e);
    var s2 := Answer(env, Say(s, [Received(ev.ok, ev.data)]), ev.ok, ev.data);
    assert s2.log <= Promote(s2, ev.lost).log;
    if e in s.pending {
      var p :| Notified(e.id, p) in s2.log;
      assert Notified(e.id, p) in Promote(s2, ev.lost).log;
    }
  }

  /** Between responses a list only grows, at its end. */
  lemma OtherStep(env: Env, s: State, ev: Event)
    requires !ev.DataResponse? && !ev.ServerFormatList?
    ensures s.log <= Step(env, s, ev).log
    ensures s.queued <= Step(env, s, ev).queued
    ensures s.pending <= Step(env, s, ev).pending
  {
    hide Respond;
    if ev.SelectionRequest? && ev.ours {
      var s1 := Say(s.(nextId := s.nextId + 1), [Asked(s.nextId, ev.target, ev.rawFormat)]);
      var delayed, items, e := RespondEffect(env, s1, s.nextId, ev);
    }
  }

  lemma LogGrows(env: Env, s: State, ev: Event)
    ensures s.log <= Step(env, s, ev).log
  {
    if ev.DataResponse? {
      ResponseNotifies(env, s, ev, Entry(0, 0, 0, 0, 0, None, false));
    } else if !ev.ServerFormatList? {
      OtherStep(env, s, ev);
    }
  }

  lemma {:induction false} OnceNotified(env: Env, s: State, evs: seq<Event>, id: nat)
    requires IsNotified(s.log, id)
    ensures IsNotified(Run(env, s, evs).log, id)
    decreases |evs|
  {
    if evs != [] {
      hide Step;
      var t := Step(env, s, evs[0]);
      LogGrows(env, s, evs[0]);
      var p :| Notified(id, p) in s.log;
      assert Notified(id, p) in t.log;
      OnceNotified(env, t, evs[1..], id);
    }
  }

  lemma WithoutStep(es: seq<Entry>, f: uint32)
    requires es != []
    ensures WithoutFormat(es, f) == (if es[0].format != f then [es[0]] else []) + WithoutFormat(es[1..], f)
  {}

  lemma WithoutNone(f: uint32, es: seq<Entry>)
    ensures WithoutFormat([], f) + es == es
  {}

  lemma {:induction false} WithoutAppend(a: seq<Entry>, b: seq<Entry>, f: uint32)
    ensures WithoutFormat(a + b, f) == WithoutFormat(a, f) + WithoutFormat(b, f)
  {
    hide WithoutFormat;
    if a == [] {
      assert a + b == b;
      WithoutNone(f, WithoutFormat(b, f));
    } else {
      WithoutAppend(a[1..], b, f);
      WithoutStep(a, f);
      WithoutStep(a + b, f);
      assert (a + b)[1..] == a[1..] + b;
      var keep := if a[0].format != f then [a[0]] else [];
      var x, y := WithoutFormat(a[1..], f), WithoutFormat(b, f);
      assert keep + (x + y) == keep + x + y;
    }
  }

  lemma {:induction false} PartitionMembers(es: seq<Entry>, f: uint32, lost: set<nat>, e: Entry)
    ensures e in WithoutFormat(es, f) <==> e in es && e.format != f
    ensures e in WithFormat(es, f) <==> e in es && e.format == f
    ensures e in Surviving(es, lost) <==> e in es && e.id !in lost
  {
    if es != [] { PartitionMembers(es[1..], f, lost, e); }
  }

  lemma {:induction false} AheadMembers(es: seq<Entry>, f: uint32)
    ensures forall x | x in Ahead(es, f) :: x in es && x.format != f
  {
    if es != [] { AheadMembers(es[1..], f); }
  }

  /** The position is at most the number of distinct formats up to and including the entry. */
  lemma RankBound(before: seq<Entry>, e: Entry)
    ensures Rank(before, e) <= |Formats(before + [e])|
  {
    var ahead := Formats(Ahead(before, e.format));
    AheadMembers(before, e.format);
    assert e in before + [e];
    assert ahead + {e.format} <= Formats(before + [e]);
    SubsetSize(ahead + {e.format}, Formats(before + [e]));
  }

  lemma {:induction false} SubsetSize<T>(a: set<T>, b: set<T>)
    requires a <= b
    ensures |a| <= |b|
  {
    assert |b| == |a| + |b - a| by { assert b == a + (b - a); }
  }

  lemma {:induction false} AheadCommutes(es: seq<Entry>, f: uint32, g: uint32)
    requires f != g
    ensures Ahead(WithoutFormat(es, f), g) == WithoutFormat(Ahead(es, g), f)
  {
    if es != [] {
      AheadCommutes(es[1..], f, g);
      assert [] + WithoutFormat(es[1..], f) == WithoutFormat(es[1..], f);
      assert ([es[0]] + WithoutFormat(es[1..], f))[1..] == WithoutFormat(es[1..], f);
      assert ([es[0]] + Ahead(es[1..], g))[1..] == Ahead(es[1..], g);
      assert [] + WithoutFormat(Ahead(es[1..], g), f) == WithoutFormat(Ahead(es[1..], g), f);
    }
  }

  /** Leaving the head format's group behind lowers the position by exactly one. */
  lemma RankFalls(before: seq<Entry>, e: Entry, f: uint32)
    requires before != [] && before[0].format == f && e.format != f
    ensures Rank(before, e) == Rank(WithoutFormat(before, f), e) + 1
  {
    var ahead := Ahead(before, e.format);
    var rest := WithoutFormat(ahead, f);
    AheadCommutes(before, f, e.format);
    assert ahead[0] == before[0];
    forall x ensures x in Formats(rest) <==> x in Formats(ahead) && x != f {
      if x in Formats(ahead) && x != f {
        var y :| y in ahead && y.format == x;
        PartitionMembers(ahead, f, {}, y);
      }
      if x in Formats(rest) {
        var y :| y in rest && y.format == x;
        PartitionMembers(ahead, f, {}, y);
      }
    }
    assert ahead[0] in ahead && f in Formats(ahead);
    assert Formats(ahead) == Formats(rest) + {f} && f !in Formats(rest);
  }

  lemma RankOne(before: seq<Entry>, e: Entry)
    ensures Rank(before, e) == 1 <==> (before + [e])[0].format == e.format
  {
    if before != [] && before[0].format != e.format {
      assert before[0] in Ahead(before, e.format);
      assert before[0].format in Formats(Ahead(before, e.format));
    }
  }

  /** A response moves the head format's group, and only that, in order. */
  lemma ResponseMoves(env: Env, s: State, ev: Event)
    requires ev.DataResponse? && s.queued != []
    ensures var f, t := s.queued[0].format, Step(env, s, ev);
      t.queued == WithoutFormat(s.queued, f) && t.pending == Surviving(WithFormat(s.queued, f), ev.lost)
  {}

  lemma EntryMoves(queue: seq<Entry>, lost: set<nat>, before: seq<Entry>, e: Entry, after: seq<Entry>, f: uint32)
    requires queue == before + [e] + after
    ensures e.format == f && e.id !in lost ==> e in Surviving(WithFormat(queue, f), lost)
    ensures e.format != f ==> WithoutFormat(queue, f) == WithoutFormat(before, f) + [e] + WithoutFormat(after, f)
  {
    WithoutAppend(before + [e], after, f);
    WithoutAppend(before, [e], f);
    assert WithoutFormat([e], f) == if e.format != f then [e] else [];
    hide WithFormat, WithoutFormat, Surviving;
    assert e in queue;
    PartitionMembers(queue, f, lost, e);
    PartitionMembers(WithFormat(queue, f), f, lost, e);
  }

  lemma {:induction false} PendingProgress(env: Env, s: State, evs: seq<Event>, e: Entry)
    requires e in s.pending && Undisturbed(evs, e.id)
    ensures Responses(evs) == 0 ==> e in Run(env, s, evs).pending
    ensures Responses(evs) > 0 ==> IsNotified(Run(env, s, evs).log, e.id)
    decreases |evs|
  {
    if evs != [] {
      hide Step;
      var t := Step(env, s, evs[0]);
      if evs[0].DataResponse? {
        ResponseNotifies(env, s, evs[0], e);
        OnceNotified(env, t, evs[1..], e.id);
      } else {
        OtherStep(env, s, evs[0]);
        PendingProgress(env, t, evs[1..], e);
      }
    }
  }

  /**
   With d the position of e's format group, whatever else arrives meanwhile: e is still queued after
   fewer than d responses, is in the group in flight after exactly d, and has been notified after more.
  */
  lemma {:induction false} BoundedWaiting(env: Env, s: State, evs: seq<Event>, before: seq<Entry>, e: Entry, after: seq<Entry>)
    requires s.queued == before + [e] + after && Undisturbed(evs, e.id)
    ensures var d, r, t := Rank(before, e), Responses(evs), Run(env, s, evs);
      && (r < d ==> e in t.queued)
      && (r == d ==> e in t.pending)
      && (r > d ==> IsNotified(t.log, e.id))
    decreases |evs|
  {
    RankOne(before, e);
    if evs != [] {
      hide Step;
      var t := Step(env, s, evs[0]);
      if !evs[0].DataResponse? {
        OtherStep(env, s, evs[0]);
        assert t.queued == before + [e] + (after + t.queued[|s.queued|..]);
        BoundedWaiting(env, t, evs[1..], before, e, after + t.queued[|s.queued|..]);
      } else {
        var f := s.queued[0].format;
        assert (before + [e])[0] == s.queued[0];
        ResponseMoves(env, s, evs[0]);
        EntryMoves(s.queued, evs[0].lost, before, e, after, f);
        if e.format == f {
          PendingProgress(env, t, evs[1..], e);
        } else {
          RankFalls(before, e, f);
          BoundedWaiting(env, t, evs[1..], WithoutFormat(before, f), e, WithoutFormat(after, f));
        }
      }
    }
  }
}
