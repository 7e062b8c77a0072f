/**
 Whose request a payload answers: every waiting request was asked for, and whatever is handed out goes to
 a request that was asked for, in the local format of that request's target.
*/
module ClipboardAddressing {
  import opened Common
  import opened ClipboardFormats
  import opened SelectionScheduler
  import opened SchedulerInvariants

  ghost predicate AskedFor(env: Env, log: seq<Item>, i: Item)
    requires i.Provided?
  {
    exists target, raw :: Asked(i.id, target, raw) in log && Wanted(env, target, raw, i.format)
  }

  /** Every payload answers an earlier request, in a format that request can be served in. */
  ghost predicate AllAskedFor(env: Env, log: seq<Item>) {
    forall i: nat :: i < |log| && log[i].Provided? ==> AskedFor(env, log[..i], log[i])
  }

  /** The entry's request was asked, with its raw format if it is raw. */
  ghost predicate Asks(log: seq<Item>, e: Entry) {
    exists raw :: Asked(e.id, e.target, raw) in log && (e.raw ==> raw == Some(e.format))
  }

  ghost predicate Waits(env: Env, es: seq<Entry>, log: seq<Item>) {
    forall e | e in es :: Made(env, e) && Asks(log, e)
  }

  ghost predicate Addressed(env: Env, s: State) {
    Waits(env, s.pending, s.log) && Waits(env, s.queued, s.log) && AllAskedFor(env, s.log)
  }

  lemma AskedAppend(env: Env, log: seq<Item>, items: seq<Item>)
    requires AllAskedFor(env, log)
    requires forall i | i in items :: i.Provided? ==> AskedFor(env, log, i)
    ensures AllAskedFor(env, log + items)
  {
    var all := log + items;
    forall i: nat | i < |all| && all[i].Provided? ensures AskedFor(env, all[..i], all[i]) {
      if i < |log| {
        assert all[..i] == log[..i];
      } else {
        assert all[i] in items;
        assert all[..i] == log + items[..i - |log|];
        var target, raw :| Asked(all[i].id, target, raw) in log && Wanted(env, target, raw, all[i].format);
        assert Asked(all[i].id, target, raw) in all[..i];
      }
    }
  }

  lemma WaitsAppend(env: Env, es: seq<Entry>, log: seq<Item>, items: seq<Item>)
    requires Waits(env, es, log)
    ensures Waits(env, es, log + items)
  {}

  lemma WaitsLater(env: Env, es: seq<Entry>, log: seq<Item>, later: seq<Item>)
    requires Waits(env, es, log) && log <= later
    ensures Waits(env, es, later)
  {}

  lemma AnswerOneAddressed(env: Env, a: Answering, e: Entry, data: Bytes)
    requires AllAskedFor(env, a.log) && Made(env, e) && Asks(a.log, e)
    ensures AllAskedFor(env, AnswerOne(env, a, e, data).log)
    ensures a.log <= AnswerOne(env, a, e, data).log
  {
    hide AnswerOne, Made, Wanted, AllAskedFor, Reply;
    AnswerOneLog(env, a, e, data);
    AnswerOneReplies(env, a, e, data);
    MadeWanted(env, e);
    var items := Reply(env, a, e, data);
    AskedAppend(env, a.log, items);
  }

  lemma {:induction false} AnswerAllAddressed(env: Env, a: Answering, es: seq<Entry>, data: Bytes)
    requires AllAskedFor(env, a.log) && Waits(env, es, a.log)
    ensures AllAskedFor(env, AnswerAll(env, a, es, data).log)
    ensures a.log <= AnswerAll(env, a, es, data).log
    decreases |es|
  {
    if es != [] {
      hide AnswerOne, Waits, AllAskedFor;
      AnswerHead(env, a, es, data);
      var b := AnswerOne(env, a, es[0], data);
      AnswerAllAddressed(env, b, es[1..], data);
    }
  }

  lemma AnswerHead(env: Env, a: Answering, es: seq<Entry>, data: Bytes)
    requires es != [] && AllAskedFor(env, a.log) && Waits(env, es, a.log)
    ensures var b := AnswerOne(env, a, es[0], data);
      AllAskedFor(env, b.log) && Waits(env, es[1..], b.log) && a.log <= b.log
  {
    hide AnswerOne, AllAskedFor, Made;
    assert es[0] in es;
    AnswerOneAddressed(env, a, es[0], data);
    WaitsLater(env, es, a.log, AnswerOne(env, a, es[0], data).log);
  }

  lemma AnswerAddressed(env: Env, s: State, ok: bool, data: Bytes)
    requires Addressed(env, s)
    ensures Addressed(env, Answer(env, s, ok, data)) && Answer(env, s, ok, data).pending == []
  {
    hide Made, AllAskedFor;
    if ok {
      var a := Answering(s.cachedData, s.cachedRawData, s.system, false, false, s.log);
      AnswerAllAddressed(env, a, s.pending, data);
      WaitsLater(env, s.queued, s.log, AnswerAll(env, a, s.pending, data).log);
    } else {
      AskedAppend(env, s.log, Refusals(s.pending));
      WaitsAppend(env, s.queued, s.log, Refusals(s.pending));
    }
  }

  lemma PromoteAddressed(env: Env, s: State, lost: set<nat>)
    requires Addressed(env, s) && s.pending == []
    ensures Addressed(env, Promote(s, lost))
  {
    hide Made, AllAskedFor;
    if s.queued != [] {
      var f := s.queued[0].format;
      var items := Losses(WithFormat(s.queued, f), lost) + [Requested(f)];
      GroupFormats(s.queued, f, lost);
      LossesQuiet(WithFormat(s.queued, f), lost);
      AskedAppend(env, s.log, items);
      WaitsAppend(env, s.queued, s.log, items);
      hide WithFormat, WithoutFormat, Surviving, Losses;
      assert Promote(s, lost).pending == Surviving(WithFormat(s.queued, f), lost);
    }
  }

  lemma OutcomeAddressed(env: Env, s: State, t: State, id: nat, ev: Event, delayed: bool, items: seq<Item>, e: Entry)
    requires ev.SelectionRequest? && Addressed(env, s) && Asked(id, ev.target, ev.rawFormat) in s.log
    requires Outcome(s, t, id, ev, delayed, items, e) && (delayed ==> Made(env, e) && (e.raw ==> ev.rawFormat == Some(e.format)))
    requires forall i | i in items :: i.Provided? ==> Wanted(env, ev.target, ev.rawFormat, i.format)
    ensures Addressed(env, t)
  {
    hide Made, Wanted, AllAskedFor;
    if delayed {
      AskedAppend(env, s.log, [Requested(e.format)]);
      WaitsAppend(env, s.pending, s.log, [Requested(e.format)]);
      WaitsAppend(env, s.queued, s.log, [Requested(e.format)]);
      assert forall p | p in t.pending :: p in s.pending || p == e;
      assert forall p | p in t.queued :: p in s.queued || p == e;
    } else {
      AskedAppend(env, s.log, items);
      WaitsAppend(env, s.pending, s.log, items);
      WaitsAppend(env, s.queued, s.log, items);
    }
  }

  lemma RequestAddressed(env: Env, s: State, ev: Event)
    requires ev.SelectionRequest? && Addressed(env, s)
    ensures Addressed(env, Step(env, s, ev))
  {
    hide Respond, Outcome, Made, Wanted, AllAskedFor;
    if ev.ours {
      var id, asked := s.nextId, [Asked(s.nextId, ev.target, ev.rawFormat)];
      var s1 := Say(s.(nextId := id + 1), asked);
      AskedAppend(env, s.log, asked);
      WaitsAppend(env, s.pending, s.log, asked);
      WaitsAppend(env, s.queued, s.log, asked);
      assert s1.log[|s.log|] == asked[0];
      var delayed, items, e := RespondEffect(env, s1, id, ev);
      OutcomeAddressed(env, s1, Respond(env, s1, id, ev), id, ev, delayed, items, e);
    }
  }

  lemma StepAddressed(env: Env, s: State, ev: Event)
    requires Addressed(env, s)
    ensures Addressed(env, Step(env, s, ev))
  {
    hide AllAskedFor, Made;
    match ev
    case SelectionRequest(_, _, _, _, _, _) => RequestAddressed(env, s, ev);
    case DataResponse(ok, data, lost) =>
      var items := [Received(ok, data)];
      AskedAppend(env, s.log, items);
      AnswerAddressed(env, Say(s, items), ok, data);
      PromoteAddressed(env, Answer(env, Say(s, items), ok, data), lost);
    case ServerFormatList(_) =>
      var items := [Reset] + Drops(s.pending) + Drops(s.queued);
      AskedAppend(env, s.log, items);
      AskedAppend(env, s.log + items, [Cleared]);
    case ClientFormatList => AskedAppend(env, s.log, [Cleared]);
    case LocalData(_, _) =>
  }

  lemma {:induction false} RunAddressed(env: Env, s: State, evs: seq<Event>)
    requires Addressed(env, s)
    ensures Addressed(env, Run(env, s, evs))
    decreases |evs|
  {
    if evs != [] {
      hide Step, Addressed;
      StepAddressed(env, s, evs[0]);
      RunAddressed(env, Step(env, s, evs[0]), evs[1..]);
    }
  }
}
