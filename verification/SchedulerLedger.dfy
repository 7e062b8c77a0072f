/** Every selection request is settled exactly once: notified, dropped, or still waiting. */
module SchedulerLedger {
  import opened Common
  import opened ClipboardFormats
  import opened SelectionScheduler
  import opened SchedulerInvariants

  datatype Kind = Ask | Notice | Discard

  /** Whom a count is about: one request, or all of them. */
  type Whom = Option<nat>

  function One(id: nat, whom: Whom): nat { if whom.None? || whom.value == id then 1 else 0 }

  function Weight(i: Item, k: Kind, whom: Whom): nat {
    if (k.Ask? && i.Asked?) || (k.Notice? && i.Notified?) || (k.Discard? && i.Dropped?) then One(i.id, whom) else 0
  }

  /** How many history lines of one kind are about "whom". */
  function Count(log: seq<Item>, k: Kind, whom: Whom): nat {
    if log == [] then 0 else Count(log[..|log| - 1], k, whom) + Weight(log[|log| - 1], k, whom)
  }

  /** How many entries of a list are about "whom". */
  function Held(es: seq<Entry>, whom: Whom): nat {
    if es == [] then 0 else One(es[0].id, whom) + Held(es[1..], whom)
  }

  function OnlyIf(c: bool, n: nat): nat { if c then n else 0 }

  lemma {:induction false} CountAppend(a: seq<Item>, b: seq<Item>, k: Kind, whom: Whom)
    ensures Count(a + b, k, whom) == Count(a, k, whom) + Count(b, k, whom)
  {
    if b == [] {
      assert a + b == a;
    } else {
      var n := |b| - 1;
      assert (a + b)[..|a + b| - 1] == a + b[..n];
      CountAppend(a, b[..n], k, whom);
    }
  }

  lemma CountOne(i: Item, k: Kind, whom: Whom)
    ensures Count([i], k, whom) == Weight(i, k, whom)
  {}

  lemma {:induction false} HeldAppend(a: seq<Entry>, b: seq<Entry>, whom: Whom)
    ensures Held(a + b, whom) == Held(a, whom) + Held(b, whom)
  {
    if a == [] {
      assert a + b == b;
    } else {
      assert (a + b)[1..] == a[1..] + b;
      HeldAppend(a[1..], b, whom);
    }
  }

  lemma HeldCons(e: Entry, es: seq<Entry>, whom: Whom)
    ensures Held([e] + es, whom) == One(e.id, whom) + Held(es, whom)
    ensures [] + es == es
  {}

  lemma {:induction false} RefusalCount(es: seq<Entry>, k: Kind, whom: Whom)
    ensures Count(Refusals(es), k, whom) == OnlyIf(k.Notice?, Held(es, whom))
    ensures Count(Drops(es), k, whom) == OnlyIf(k.Discard?, Held(es, whom))
  {
    if es != [] {
      RefusalCount(es[1..], k, whom);
      var refusal, drop := Notified(es[0].id, NO_ATOM), Dropped(es[0].id);
      assert Refusals(es) == [refusal] + Refusals(es[1..]);
      assert Drops(es) == [drop] + Drops(es[1..]);
      CountAppend([refusal], Refusals(es[1..]), k, whom);
      CountAppend([drop], Drops(es[1..]), k, whom);
      CountOne(refusal, k, whom);
      CountOne(drop, k, whom);
    }
  }

  lemma {:induction false} PartitionCount(es: seq<Entry>, f: uint32, whom: Whom)
    ensures Held(WithFormat(es, f), whom) + Held(WithoutFormat(es, f), whom) == Held(es, whom)
  {
    if es != [] {
      PartitionCount(es[1..], f, whom);
      HeldCons(es[0], WithFormat(es[1..], f), whom);
      HeldCons(es[0], WithoutFormat(es[1..], f), whom);
    }
  }

  lemma LossStep(es: seq<Entry>, lost: set<nat>)
    requires es != []
    ensures var losses, rest := Losses(es[1..], lost), Surviving(es[1..], lost);
      if es[0].id in lost then Losses(es, lost) == [Dropped(es[0].id)] + losses && Surviving(es, lost) == rest
      else Losses(es, lost) == losses && Surviving(es, lost) == [es[0]] + rest
  {}

  lemma LossNone(lost: set<nat>, k: Kind, whom: Whom)
    ensures Count(Losses([], lost), k, whom) == 0 && Held(Surviving([], lost), whom) == 0 && Held([], whom) == 0
  {}

  lemma {:induction false} LossCount(es: seq<Entry>, lost: set<nat>, k: Kind, whom: Whom)
    ensures Count(Losses(es, lost), k, whom) + OnlyIf(k.Discard?, Held(Surviving(es, lost), whom))
         == OnlyIf(k.Discard?, Held(es, whom))
  {
    hide Held, Count, Losses, Surviving;
    if es == [] {
      LossNone(lost, k, whom);
    } else {
      LossCount(es[1..], lost, k, whom);
      LossStep(es, lost);
      HeldFirst(es, whom);
      HeldCons(es[0], Surviving(es[1..], lost), whom);
      CountAppend([Dropped(es[0].id)], Losses(es[1..], lost), k, whom);
      CountOne(Dropped(es[0].id), k, whom);
    }
  }

  lemma HeldFirst(es: seq<Entry>, whom: Whom)
    requires es != []
    ensures Held(es, whom) == One(es[0].id, whom) + Held(es[1..], whom)
  {}

  /** One or two lines: the count is the sum of their weights. */
  lemma CountPair(items: seq<Item>, k: Kind, whom: Whom)
    requires 1 <= |items| <= 2
    ensures Count(items, k, whom)
         == Weight(items[|items| - 1], k, whom) + if |items| == 2 then Weight(items[0], k, whom) else 0
  {}

  lemma AnswerOneCount(env: Env, a: Answering, e: Entry, data: Bytes, k: Kind, whom: Whom)
    ensures Count(AnswerOne(env, a, e, data).log, k, whom)
         == Count(a.log, k, whom) + OnlyIf(k.Notice?, One(e.id, whom))
  {
    hide AnswerOne, Count;
    var b := AnswerOne(env, a, e, data);
    AnswerOneLog(env, a, e, data);
    var items := Appended(a.log, b.log);
    assert a.log + items == b.log;
    CountAppend(a.log, items, k, whom);
    CountPair(items, k, whom);
  }

  lemma {:induction false} AnswerAllCount(env: Env, a: Answering, es: seq<Entry>, data: Bytes, k: Kind, whom: Whom)
    ensures Count(AnswerAll(env, a, es, data).log, k, whom)
         == Count(a.log, k, whom) + OnlyIf(k.Notice?, Held(es, whom))
    decreases |es|
  {
    if es != [] {
      hide AnswerOne, Count;
      AnswerOneCount(env, a, es[0], data, k, whom);
      AnswerAllCount(env, AnswerOne(env, a, es[0], data), es[1..], data, k, whom);
    }
  }

  // ---- the ledger

  function Waiting(s: State, whom: Whom): nat { Held(s.pending, whom) + Held(s.queued, whom) }

  /** Requests that were notified, dropped or still wait. */
  function Settled(s: State, whom: Whom): nat {
    Count(s.log, Notice, whom) + Count(s.log, Discard, whom) + Waiting(s, whom)
  }

  lemma PromoteCount(s: State, lost: set<nat>, k: Kind, whom: Whom)
    requires s.pending == []
    ensures Count(Promote(s, lost).log, k, whom) + OnlyIf(k.Discard?, Waiting(Promote(s, lost), whom))
         == Count(s.log, k, whom) + OnlyIf(k.Discard?, Waiting(s, whom))
  {
    if s.queued != [] {
      var f := s.queued[0].format;
      var group := WithFormat(s.queued, f);
      var losses := Losses(group, lost);
      assert s.log + (losses + [Requested(f)]) == s.log + losses + [Requested(f)];
      assert s.pending + Surviving(group, lost) == Surviving(group, lost);
      CountAppend(s.log, losses, k, whom);
      CountAppend(s.log + losses, [Requested(f)], k, whom);
      CountOne(Requested(f), k, whom);
      PartitionCount(s.queued, f, whom);
      LossCount(group, lost, k, whom);
    }
  }

  lemma AnswerCount(env: Env, s: State, ok: bool, data: Bytes, k: Kind, whom: Whom)
    ensures Count(Answer(env, s, ok, data).log, k, whom)
         == Count(s.log, k, whom) + OnlyIf(k.Notice?, Held(s.pending, whom))
  {
    if ok {
      AnswerAllCount(env, Answering(s.cachedData, s.cachedRawData, s.system, false, false, s.log),
                     s.pending, data, k, whom);
    } else {
      CountAppend(s.log, Refusals(s.pending), k, whom);
      RefusalCount(s.pending, k, whom);
    }
  }

  lemma ResponseCount(env: Env, s: State, ok: bool, data: Bytes, lost: set<nat>, whom: Whom)
    ensures var t := OnDataResponse(env, s, ok, data, lost);
      t.nextId == s.nextId && Count(t.log, Ask, whom) == Count(s.log, Ask, whom) && Settled(t, whom) == Settled(s, whom)
  {
    hide AnswerAll;
    var s1 := Say(s, [Received(ok, data)]);
    var s2 := Answer(env, s1, ok, data);
    assert s2.pending == [] && s2.queued == s.queued && s2.nextId == s.nextId;
    CountReceived(s, ok, data, Ask, whom);
    CountReceived(s, ok, data, Notice, whom);
    CountReceived(s, ok, data, Discard, whom);
    AnswerCount(env, s1, ok, data, Ask, whom);
    AnswerCount(env, s1, ok, data, Notice, whom);
    AnswerCount(env, s1, ok, data, Discard, whom);
    hide Answer;
    PromoteCount(s2, lost, Ask, whom);
    PromoteCount(s2, lost, Notice, whom);
    PromoteCount(s2, lost, Discard, whom);
  }

  lemma CountReceived(s: State, ok: bool, data: Bytes, k: Kind, whom: Whom)
    ensures Count(s.log + [Received(ok, data)], k, whom) == Count(s.log, k, whom)
    ensures Count(s.log + [Cleared], k, whom) == Count(s.log, k, whom)
  {}

  lemma ResetCount(s: State, formats: seq<ServerFormat>, k: Kind, whom: Whom)
    ensures Count(OnServerFormatList(s, formats).log, k, whom)
         == Count(s.log, k, whom) + OnlyIf(k.Discard?, Waiting(s, whom))
  {
    var drops := Drops(s.pending) + Drops(s.queued);
    assert OnServerFormatList(s, formats).log == s.log + ([Reset] + drops) + [Cleared];
    CountAppend(s.log + ([Reset] + drops), [Cleared], k, whom);
    CountAppend(s.log, [Reset] + drops, k, whom);
    CountAppend([Reset], drops, k, whom);
    CountAppend(Drops(s.pending), Drops(s.queued), k, whom);
    RefusalCount(s.pending, k, whom);
    RefusalCount(s.queued, k, whom);
    CountOne(Reset, k, whom);
    CountOne(Cleared, k, whom);
  }

  lemma OutcomeCount(s: State, t: State, id: nat, ev: Event, delayed: bool, items: seq<Item>, e: Entry, k: Kind, whom: Whom)
    requires ev.SelectionRequest? && Outcome(s, t, id, ev, delayed, items, e)
    ensures Count(t.log, k, whom) == Count(s.log, k, whom) + OnlyIf(k.Notice? && !delayed, One(id, whom))
    ensures Waiting(t, whom) == Waiting(s, whom) + OnlyIf(delayed, One(id, whom))
  {
    hide Count, Joins;
    if delayed {
      JoinCount(s, t, e, k, whom);
    } else {
      CountAppend(s.log, items, k, whom);
      CountPair(items, k, whom);
    }
  }

  lemma JoinCount(s: State, t: State, e: Entry, k: Kind, whom: Whom)
    requires Joins(s, t, e)
    ensures Count(t.log, k, whom) == Count(s.log, k, whom)
    ensures Waiting(t, whom) == Waiting(s, whom) + One(e.id, whom)
  {
    hide Count, Held;
    CountAppend(s.log, [Requested(e.format)], k, whom);
    CountOne(Requested(e.format), k, whom);
    assert Held([], whom) == 0 by { HeldNone(whom); }
    HeldAppend(s.pending, [e], whom);
    HeldAppend(s.queued, [e], whom);
    HeldCons(e, [], whom);
    assert [e] + [] == [e];
  }

  lemma HeldNone(whom: Whom)
    ensures Held([], whom) == 0
  {}

  lemma RequestCount(env: Env, s: State, ev: Event, whom: Whom)
    requires ev.SelectionRequest? && ev.ours
    ensures var t := Step(env, s, ev);
      && t.nextId == s.nextId + 1
      && Count(t.log, Ask, whom) == Count(s.log, Ask, whom) + One(s.nextId, whom)
      && Settled(t, whom) == Settled(s, whom) + One(s.nextId, whom)
  {
    hide Respond;
    var id := s.nextId;
    var s1 := Say(s.(nextId := id + 1), [Asked(id, ev.target, ev.rawFormat)]);
    var delayed, items, e := RespondEffect(env, s1, id, ev);
    var t := Respond(env, s1, id, ev);
    CountAsked(s, ev.target, ev.rawFormat, Ask, whom);
    CountAsked(s, ev.target, ev.rawFormat, Notice, whom);
    CountAsked(s, ev.target, ev.rawFormat, Discard, whom);
    OutcomeCount(s1, t, id, ev, delayed, items, e, Ask, whom);
    OutcomeCount(s1, t, id, ev, delayed, items, e, Notice, whom);
    OutcomeCount(s1, t, id, ev, delayed, items, e, Discard, whom);
  }

  lemma CountAsked(s: State, target: Atom, raw: Option<uint32>, k: Kind, whom: Whom)
    ensures Count(s.log + [Asked(s.nextId, target, raw)], k, whom) == Count(s.log, k, whom) + OnlyIf(k.Ask?, One(s.nextId, whom))
  {}

  /** Ids below the counter were asked once each, and everything asked is settled. */
  predicate Balanced(s: State, whom: Whom) {
    && Count(s.log, Ask, whom) == (if whom.None? then s.nextId else if whom.value < s.nextId then 1 else 0)
    && Settled(s, whom) == Count(s.log, Ask, whom)
  }

  lemma ClearCount(s: State, whom: Whom)
    ensures var t := ClearCaches(s);
      Count(t.log, Ask, whom) == Count(s.log, Ask, whom) && Settled(t, whom) == Settled(s, whom)
  {
    ClearedCount(s.log, Ask, whom);
    ClearedCount(s.log, Notice, whom);
    ClearedCount(s.log, Discard, whom);
    hide Count, Held;
  }

  lemma ClearedCount(log: seq<Item>, k: Kind, whom: Whom)
    ensures Count(log + [Cleared], k, whom) == Count(log, k, whom)
  {
    CountAppend(log, [Cleared], k, whom);
    CountOne(Cleared, k, whom);
  }

  lemma ResetSettles(s: State, formats: seq<ServerFormat>, whom: Whom)
    ensures var t := OnServerFormatList(s, formats);
      && t.nextId == s.nextId
      && Count(t.log, Ask, whom) == Count(s.log, Ask, whom) && Settled(t, whom) == Settled(s, whom)
  {
    ResetCount(s, formats, Ask, whom);
    ResetCount(s, formats, Notice, whom);
    ResetCount(s, formats, Discard, whom);
  }

  lemma StepBalances(env: Env, s: State, ev: Event, whom: Whom)
    requires Balanced(s, whom)
    ensures Balanced(Step(env, s, ev), whom)
  {
    hide Respond, OnDataResponse, OnServerFormatList, Count;
    match ev
    case SelectionRequest(_, _, _, _, _, _) => if ev.ours { RequestCount(env, s, ev, whom); }
    case DataResponse(ok, data, lost) => ResponseCount(env, s, ok, data, lost, whom);
    case ServerFormatList(formats) => ResetSettles(s, formats, whom);
    case ClientFormatList => ClearCount(s, whom);
    case LocalData(_, _) =>
  }

  lemma {:induction false} RunBalances(env: Env, s: State, evs: seq<Event>, whom: Whom)
    requires Balanced(s, whom)
    ensures Balanced(Run(env, s, evs), whom)
    decreases |evs|
  {
    if evs != [] {
      StepBalances(env, s, evs[0], whom);
      RunBalances(env, Step(env, s, evs[0]), evs[1..], whom);
    }
  }

  lemma {:induction false} HeldAll(es: seq<Entry>)
    ensures Held(es, None) == |es|
  {
    if es != [] { HeldAll(es[1..]); }
  }

  lemma InitiallyBalanced(whom: Whom)
    ensures Balanced(INITIAL, whom)
  {}

  /**
   Exactly-once answers over every run, append failures included: requests = notifies + dropped +
   waiting, and each single request is notified once, dropped once or waits once, never two of these.
  */
  lemma ExactlyOnce(env: Env, evs: seq<Event>, id: nat)
    ensures var t := Run(env, INITIAL, evs);
      && t.nextId == Count(t.log, Notice, None) + Count(t.log, Discard, None) + |t.pending| + |t.queued|
      && Count(t.log, Notice, Some(id)) + Count(t.log, Discard, Some(id)) + Waiting(t, Some(id))
      == if id < t.nextId then 1 else 0
  {
    hide Run, Count, Held;
    InitiallyBalanced(None);
    InitiallyBalanced(Some(id));
    var t := Run(env, INITIAL, evs);
    RunBalances(env, INITIAL, evs, None);
    RunBalances(env, INITIAL, evs, Some(id));
    HeldAll(t.pending);
    HeldAll(t.queued);
  }
}
