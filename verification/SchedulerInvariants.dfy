/**
 Scheduling and accounting guarantees of the clipboard request scheduler: one group in flight,
 and every request settled exactly once. Both are read off the history of a session.
*/
module SchedulerInvariants {
  import opened Common
  import opened ClipboardFormats
  import opened SelectionScheduler

  // ---- what a step appends to the history

  predicate Quiet(i: Item) { !i.Requested? && !i.Received? && !i.Reset? }

  /** What answering one entry appends: at most one payload, then the one notify. */
  predicate IsReply(items: seq<Item>, e: Entry) {
    && 1 <= |items| <= 2
    && items[|items| - 1].Notified? && items[|items| - 1].id == e.id
    && (|items| == 2 ==> items[0].Provided? && items[0].id == e.id)
  }

  function Appended(before: seq<Item>, after: seq<Item>): seq<Item> {
    if before <= after then after[|before|..] else []
  }

  /**
   What one entry is sent when its turn comes: nothing but its notify for a response that is empty or was
   never loaded, a refusal when there is no conversion, and otherwise a conversion to its own format.
  */
  function Reply(env: Env, a: Answering, e: Entry, data: Bytes): seq<Item> {
    var (src, dst, nul) := ReplyFormats(env, e);
    if data == [] || !(a.loaded || env.accepts(src, data)) then [Notified(e.id, e.property)] else
    var hit := if e.raw then Get(CacheRaw(env, a, e, data).cachedRawData, Slot(src)) else Get(a.cachedData, Slot(dst));
    var full := if hit.Some? then hit else Converted(env, if a.loaded then a.system else Some((src, data)), dst);
    if full.None? then [Notified(e.id, NO_ATOM)] else Provision(e.id, e.property, dst, Cut(nul, full.value))
  }

  lemma AnswerOneReplies(env: Env, a: Answering, e: Entry, data: Bytes)
    ensures AnswerOne(env, a, e, data).log == a.log + Reply(env, a, e, data)
  {
    hide Insert, Get, Slot, ReplyFormats, Cut, Converted, Provision;
  }

  lemma AnswerOneLog(env: Env, a: Answering, e: Entry, data: Bytes)
    ensures a.log <= AnswerOne(env, a, e, data).log
    ensures Appended(a.log, AnswerOne(env, a, e, data).log) == Reply(env, a, e, data)
    ensures IsReply(Reply(env, a, e, data), e)
    ensures forall i | i in Reply(env, a, e, data) :: i.Provided? ==> i.format == ReplyFormats(env, e).1
  {
    AnswerOneReplies(env, a, e, data);
    hide AnswerOne, ReplyFormats, CacheRaw, Get, Slot, Cut, Converted;
  }

  /** A target that a server's raw format can stand for: a row of it has a name or asks for raw data. */
  predicate RawTarget(env: Env, target: Atom) {
    exists c :: c in env.clients && c.atom == target && (c.name.Some? || c.formatToRequest == CF_RAW)
  }

  /** A waiting request is raw, or carries the name and the local format of the first table row with its target. */
  predicate Made(env: Env, e: Entry) {
    if e.raw then RawTarget(env, e.target) else
    var c := ClientFormatByAtom(env.clients, e.target);
    c.Some? && e.name == c.value.name && e.localFormat == DstFormat(env, c.value)
  }

  /** The local formats a request can be served in: that of its target's row, or raw data when it asked for raw data. */
  predicate Wanted(env: Env, target: Atom, raw: Option<uint32>, format: uint32) {
    || (raw.Some? && format == CF_RAW && RawTarget(env, target))
    || var c := ClientFormatByAtom(env.clients, target);
       c.Some? && format == DstFormat(env, c.value)
  }

  lemma RawFound(env: Env, servers: seq<ServerFormat>, target: Atom)
    requires ServerFormatByAtom(env.clients, servers, target).Some?
    requires ServerFormatByAtom(env.clients, servers, target).value.id == CF_RAW
    ensures RawTarget(env, target)
  {
    var f := ServerFormatByAtom(env.clients, servers, target).value;
    var c :| c in env.clients && c.atom == target && FormatsEqual(f, c);
  }

  lemma MadeWanted(env: Env, e: Entry)
    requires Made(env, e)
    ensures Wanted(env, e.target, if e.raw then Some(e.format) else None, ReplyFormats(env, e).1)
    ensures forall raw :: !e.raw ==> Wanted(env, e.target, raw, ReplyFormats(env, e).1)
  {}

  // ---- data requests in flight

  function Advance(flight: seq<uint32>, i: Item): seq<uint32> {
    if i.Requested? then flight + [i.format]
    else if i.Received? && flight != [] then flight[1..]
    else flight
  }

  /** The data requests the server has not answered yet, oldest first. */
  function InFlight(log: seq<Item>): seq<uint32> {
    if log == [] then [] else Advance(InFlight(log[..|log| - 1]), log[|log| - 1])
  }

  /** Nothing was in flight when the last server format list arrived. */
  predicate Clean(log: seq<Item>) {
    log == [] ||
    if log[|log| - 1].Reset? then InFlight(log[..|log| - 1]) == [] else Clean(log[..|log| - 1])
  }

  lemma {:induction false} QuietItems(log: seq<Item>, items: seq<Item>)
    requires forall i | i in items :: Quiet(i)
    ensures InFlight(log + items) == InFlight(log) && Clean(log + items) == Clean(log)
  {
    if items == [] {
      assert log + items == log;
    } else {
      var n := |items| - 1;
      assert (log + items)[..|log + items| - 1] == log + items[..n];
      assert items[n] in items;
      QuietItems(log, items[..n]);
    }
  }

  lemma OneItem(log: seq<Item>, i: Item)
    ensures InFlight(log + [i]) == Advance(InFlight(log), i)
    ensures Clean(log + [i]) == if i.Reset? then InFlight(log) == [] else Clean(log)
  {}

  lemma AnswerOneFlight(env: Env, a: Answering, e: Entry, data: Bytes)
    ensures InFlight(AnswerOne(env, a, e, data).log) == InFlight(a.log)
    ensures Clean(AnswerOne(env, a, e, data).log) == Clean(a.log)
  {
    hide AnswerOne, InFlight, Clean;
    var b := AnswerOne(env, a, e, data);
    AnswerOneLog(env, a, e, data);
    assert a.log + Appended(a.log, b.log) == b.log;
    QuietItems(a.log, Appended(a.log, b.log));
  }

  lemma {:induction false} AnswerAllFlight(env: Env, a: Answering, es: seq<Entry>, data: Bytes)
    ensures InFlight(AnswerAll(env, a, es, data).log) == InFlight(a.log)
    ensures Clean(AnswerAll(env, a, es, data).log) == Clean(a.log)
    decreases |es|
  {
    if es != [] {
      hide AnswerOne, InFlight, Clean;
      AnswerOneFlight(env, a, es[0], data);
      AnswerAllFlight(env, AnswerOne(env, a, es[0], data), es[1..], data);
    }
  }

  // ---- the scheduler invariant

  ghost predicate OneGroup(s: State) {
    && (forall p, q | p in s.pending && q in s.pending :: p.format == q.format)
    && (forall p, q | p in s.pending && q in s.queued :: p.format != q.format)
    && (s.queued != [] ==> s.pending != [])
  }

  ghost predicate SingleFlight(s: State) {
    Clean(s.log) ==> InFlight(s.log) == if s.pending == [] then [] else [s.pending[0].format]
  }

  ghost predicate Scheduled(s: State) { OneGroup(s) && SingleFlight(s) }

  /** Some member of the promoted group is appended successfully. */
  predicate Survives(s: State, ev: Event) {
    ev.DataResponse? && s.queued != [] ==> Surviving(WithFormat(s.queued, s.queued[0].format), ev.lost) != []
  }

  lemma {:induction false} GroupFormats(es: seq<Entry>, f: uint32, lost: set<nat>)
    ensures forall e | e in WithFormat(es, f) :: e in es && e.format == f
    ensures forall e | e in WithoutFormat(es, f) :: e in es && e.format != f
    ensures forall e | e in Surviving(WithFormat(es, f), lost) :: e in es && e.format == f && e.id !in lost
  {
    if es != [] {
      GroupFormats(es[1..], f, lost);
      PromoteStep(es, f, lost);
    }
  }

  lemma {:induction false} LossesQuiet(es: seq<Entry>, lost: set<nat>)
    ensures forall i | i in Losses(es, lost) :: i.Dropped?
  {
    if es != [] { LossesQuiet(es[1..], lost); }
  }

  lemma PromoteSchedules(s: State, lost: set<nat>)
    requires s.pending == [] && (Clean(s.log) ==> InFlight(s.log) == [])
    ensures OneGroup(Promote(s, lost)) <==> Promote(s, lost).queued == [] || Promote(s, lost).pending != []
    ensures s.queued != [] && Promote(s, lost).pending != [] ==> Promote(s, lost).pending[0].format == s.queued[0].format
  {
    if s.queued != [] {
      GroupFormats(s.queued, s.queued[0].format, lost);
    }
  }

  lemma PromoteFlight(s: State, lost: set<nat>)
    requires s.queued != []
    ensures InFlight(Promote(s, lost).log) == InFlight(s.log) + [s.queued[0].format]
    ensures Clean(Promote(s, lost).log) == Clean(s.log)
  {
    var f := s.queued[0].format;
    var losses := Losses(WithFormat(s.queued, f), lost);
    LossesQuiet(WithFormat(s.queued, f), lost);
    QuietItems(s.log, losses);
    assert s.log + (losses + [Requested(f)]) == s.log + losses + [Requested(f)];
    OneItem(s.log + losses, Requested(f));
  }

  lemma AnswerFlight(env: Env, s: State, ok: bool, data: Bytes)
    ensures InFlight(Answer(env, s, ok, data).log) == InFlight(s.log)
    ensures Clean(Answer(env, s, ok, data).log) == Clean(s.log)
  {
    if ok {
      AnswerAllFlight(env, Answering(s.cachedData, s.cachedRawData, s.system, false, false, s.log), s.pending, data);
    } else {
      QuietItems(s.log, Refusals(s.pending));
    }
  }

  lemma ResponseSchedules(env: Env, s: State, ev: Event)
    requires ev.DataResponse? && Scheduled(s)
    ensures Survives(s, ev) ==> Scheduled(Step(env, s, ev))
    ensures Clean(s.log) && Scheduled(Step(env, s, ev)) ==> Survives(s, ev)
  {
    var s1 := Say(s, [Received(ev.ok, ev.data)]);
    OneItem(s.log, Received(ev.ok, ev.data));
    AnswerFlight(env, s1, ev.ok, ev.data);
    var s2 := Answer(env, s1, ev.ok, ev.data);
    PromoteSchedules(s2, ev.lost);
    if s2.queued != [] { PromoteFlight(s2, ev.lost); }
  }

  lemma LookupKeepsLists(env: Env, s: State, c: ClientFormat, format: uint32, raw: bool)
    ensures var t := Lookup(env, s, c, format, raw).0;
      t.pending == s.pending && t.queued == s.queued && t.log == s.log && t.nextId == s.nextId && t.servers == s.servers
  {}

  /** What a request settled at once appends: at most one property write, then its notify. */
  predicate IsSettlement(items: seq<Item>, id: nat) {
    && 1 <= |items| <= 2
    && items[|items| - 1].Notified? && items[|items| - 1].id == id
    && (|items| == 2 ==> (items[0].Described? || items[0].Provided?) && items[0].id == id)
  }

  /** The entry starts a data request, joins the group in flight, or queues behind it. */
  ghost predicate Joins(s: State, t: State, e: Entry) {
    if s.pending == [] then
      t.pending == [e] && t.queued == s.queued && t.log == s.log + [Requested(e.format)]
    else if forall p | p in s.pending :: p.format == e.format then
      t.pending == s.pending + [e] && t.queued == s.queued && t.log == s.log
    else
      t.pending == s.pending && t.queued == s.queued + [e] && t.log == s.log
  }

  /** Request "id" is settled at once by "items", or waits as "e". */
  ghost predicate Outcome(s: State, t: State, id: nat, ev: Event, delayed: bool, items: seq<Item>, e: Entry)
    requires ev.SelectionRequest?
  {
    && t.nextId == s.nextId
    && t.servers == s.servers
    && (!delayed ==> IsSettlement(items, id) && t.log == s.log + items && t.pending == s.pending && t.queued == s.queued)
    && (delayed ==> e.id == id && e.target == ev.target && e.property == ev.property && Joins(s, t, e))
  }

  /** The entry a request is queued as. */
  function AskEntry(env: Env, id: nat, f: ServerFormat, c: ClientFormat, ev: Event): Entry
    requires ev.SelectionRequest?
  {
    var raw := f.id == CF_RAW && ev.rawFormat.Some?;
    Entry(id, ev.target, ev.property, if raw then ev.rawFormat.value else f.id, DstFormat(env, c), c.name, raw)
  }

  lemma AskMade(env: Env, s: State, id: nat, f: ServerFormat, c: ClientFormat, ev: Event)
    requires ev.SelectionRequest? && ClientFormatByAtom(env.clients, ev.target) == Some(c)
    requires ServerFormatByAtom(env.clients, s.servers, ev.target) == Some(f)
    ensures var e := AskEntry(env, id, f, c, ev);
      && Made(env, e) && (e.raw ==> ev.rawFormat == Some(e.format))
      && Wanted(env, ev.target, ev.rawFormat, if e.raw then CF_RAW else e.localFormat)
  {
    if f.id == CF_RAW && ev.rawFormat.Some? { RawFound(env, s.servers, ev.target); }
    hide RawTarget, ServerFormatByAtom, ClientFormatByAtom, DstFormat;
  }

  lemma AskEffect(env: Env, s: State, id: nat, f: ServerFormat, c: ClientFormat, ev: Event)
    returns (delayed: bool, items: seq<Item>, e: Entry)
    requires ev.SelectionRequest? && ClientFormatByAtom(env.clients, ev.target) == Some(c)
    requires ServerFormatByAtom(env.clients, s.servers, ev.target) == Some(f)
    ensures Outcome(s, AskFor(env, s, id, f, c, ev), id, ev, delayed, items, e)
    ensures delayed ==> Made(env, e) && (e.raw ==> ev.rawFormat == Some(e.format))
    ensures forall i | i in items :: i.Provided? ==> Wanted(env, ev.target, ev.rawFormat, i.format)
  {
    AskMade(env, s, id, f, c, ev);
    hide Made, Wanted, Lookup, ServerFormatByAtom, ClientFormatByAtom, DstFormat, Enqueue, AskFor, Provision, Joins;
    e := AskEntry(env, id, f, c, ev);
    LookupKeepsLists(env, s, c, e.format, e.raw);
    var (s1, hit) := Lookup(env, s, c, e.format, e.raw);
    AskUnfolds(env, s, id, f, c, ev);
    JoinsLists(s, s1, Enqueue(s1, e, true), e);
    delayed := hit.None? && ev.appendOk;
    items := if hit.Some? then Provision(id, ev.property, if e.raw then CF_RAW else e.localFormat, hit.value)
             else [Notified(id, NO_ATOM)];
    if hit.Some? { ProvisionSettles(id, ev.property, if e.raw then CF_RAW else e.localFormat, hit.value); }
  }

  lemma AskUnfolds(env: Env, s: State, id: nat, f: ServerFormat, c: ClientFormat, ev: Event)
    requires ev.SelectionRequest?
    ensures var e := AskEntry(env, id, f, c, ev);
      var (s1, hit) := Lookup(env, s, c, e.format, e.raw);
      AskFor(env, s, id, f, c, ev)
      == if hit.Some? then Say(s1, Provision(id, ev.property, if e.raw then CF_RAW else e.localFormat, hit.value))
         else Enqueue(s1, e, ev.appendOk)
  {
    hide Lookup, Enqueue, Provision, DstFormat;
  }

  lemma ProvisionSettles(id: nat, property: Atom, format: uint32, data: Bytes)
    ensures IsSettlement(Provision(id, property, format, data), id)
    ensures forall i | i in Provision(id, property, format, data) :: i.Provided? ==> i.format == format
  {}

  lemma JoinsLists(s: State, s1: State, t: State, e: Entry)
    requires Joins(s1, t, e) && s1.pending == s.pending && s1.queued == s.queued && s1.log == s.log
    ensures Joins(s, t, e)
  {}

  lemma RespondEffect(env: Env, s: State, id: nat, ev: Event)
    returns (delayed: bool, items: seq<Item>, e: Entry)
    requires ev.SelectionRequest?
    ensures Outcome(s, Respond(env, s, id, ev), id, ev, delayed, items, e)
    ensures delayed ==> Made(env, e) && (e.raw ==> ev.rawFormat == Some(e.format))
    ensures forall i | i in items :: i.Provided? ==> Wanted(env, ev.target, ev.rawFormat, i.format)
  {
    hide AskFor;
    var f, c := ServerFormatByAtom(env.clients, s.servers, ev.target), ClientFormatByAtom(env.clients, ev.target);
    delayed, e := false, Entry(id, ev.target, ev.property, 0, 0, None, false);
    if ev.target == env.timestampAtom || ev.target == env.targetsAtom {
      items := (if ev.property != NO_ATOM then [Described(id)] else []) + [Notified(id, ev.property)];
    } else if f.Some? && c.Some? && !ev.fromSelf {
      delayed, items, e := AskEffect(env, s, id, f.value, c.value, ev);
    } else {
      items := [Notified(id, NO_ATOM)];
    }
  }

  lemma OutcomeSchedules(s: State, t: State, id: nat, ev: Event, delayed: bool, items: seq<Item>, e: Entry)
    requires ev.SelectionRequest? && Scheduled(s) && Outcome(s, t, id, ev, delayed, items, e)
    ensures Scheduled(t)
  {
    if delayed {
      OneItem(s.log, Requested(e.format));
      assert s.pending != [] ==> s.pending[0] in s.pending;
      assert forall p | p in t.pending :: p in s.pending || p == e;
      assert forall p | p in t.queued :: p in s.queued || p == e;
    } else {
      QuietItems(s.log, items);
    }
  }

  lemma RequestSchedules(env: Env, s: State, ev: Event)
    requires ev.SelectionRequest? && Scheduled(s)
    ensures Scheduled(Step(env, s, ev))
  {
    hide Respond, Outcome;
    if ev.ours {
      var s1 := Say(s.(nextId := s.nextId + 1), [Asked(s.nextId, ev.target, ev.rawFormat)]);
      OneItem(s.log, Asked(s.nextId, ev.target, ev.rawFormat));
      var delayed, items, e := RespondEffect(env, s1, s.nextId, ev);
      OutcomeSchedules(s1, Respond(env, s1, s.nextId, ev), s.nextId, ev, delayed, items, e);
    }
  }

  lemma ResetSchedules(env: Env, s: State, ev: Event)
    requires ev.ServerFormatList? && Scheduled(s)
    ensures Scheduled(Step(env, s, ev))
  {
    hide InFlight, Clean;
    var rest := Drops(s.pending) + Drops(s.queued) + [Cleared];
    OneItem(s.log, Reset);
    QuietItems(s.log + [Reset], rest);
    assert Step(env, s, ev).log == s.log + [Reset] + rest;
  }

  /**
   The scheduler invariant is kept by every event, except that a response may lose it: it keeps
   it exactly when some member of the promoted group is appended.
  */
  lemma StepSchedules(env: Env, s: State, ev: Event)
    requires Scheduled(s)
    ensures Survives(s, ev) ==> Scheduled(Step(env, s, ev))
    ensures Clean(s.log) ==> (Scheduled(Step(env, s, ev)) <==> Survives(s, ev))
  {
    match ev
    case SelectionRequest(_, _, _, _, _, _) => RequestSchedules(env, s, ev);
    case DataResponse(_, _, _) => ResponseSchedules(env, s, ev);
    case ServerFormatList(_) => ResetSchedules(env, s, ev);
    case ClientFormatList => OneItem(s.log, Cleared);
    case LocalData(_, _) =>
  }

  ghost predicate AllSurvive(env: Env, s: State, evs: seq<Event>)
    decreases |evs|
  {
    evs == [] || (Survives(s, evs[0]) && AllSurvive(env, Step(env, s, evs[0]), evs[1..]))
  }

  /** Single flight over every run. */
  lemma {:induction false} RunSchedules(env: Env, s: State, evs: seq<Event>)
    requires Scheduled(s) && AllSurvive(env, s, evs)
    ensures Scheduled(Run(env, s, evs))
    decreases |evs|
  {
    if evs != [] {
      StepSchedules(env, s, evs[0]);
      RunSchedules(env, Step(env, s, evs[0]), evs[1..]);
    }
  }

  // ---- whose request is the newest

  /** The pending entries share a format, and the request for it is the newest in flight. */
  ghost predicate Newest(s: State) {
    && (forall p, q | p in s.pending && q in s.pending :: p.format == q.format)
    && (s.pending != [] ==>
          var flight := InFlight(s.log);
          flight != [] && flight[|flight| - 1] == s.pending[0].format)
  }

  lemma OutcomeNewest(s: State, t: State, id: nat, ev: Event, delayed: bool, items: seq<Item>, e: Entry)
    requires ev.SelectionRequest? && Newest(s) && Outcome(s, t, id, ev, delayed, items, e)
    ensures Newest(t)
  {
    if delayed {
      OneItem(s.log, Requested(e.format));
      assert s.pending != [] ==> s.pending[0] in s.pending;
      assert forall p | p in t.pending :: p in s.pending || p == e;
    } else {
      QuietItems(s.log, items);
    }
  }

  lemma {:induction false} RequestNewest(env: Env, s: State, ev: Event)
    requires ev.SelectionRequest? && Newest(s)
    ensures Newest(Step(env, s, ev))
  {
    hide Respond, Outcome;
    if ev.ours {
      var s1 := Say(s.(nextId := s.nextId + 1), [Asked(s.nextId, ev.target, ev.rawFormat)]);
      OneItem(s.log, Asked(s.nextId, ev.target, ev.rawFormat));
      var delayed, items, e := RespondEffect(env, s1, s.nextId, ev);
      OutcomeNewest(s1, Respond(env, s1, s.nextId, ev), s.nextId, ev, delayed, items, e);
    }
  }

  lemma PromoteNewest(s: State, lost: set<nat>)
    requires s.pending == []
    ensures Newest(Promote(s, lost))
  {
    if s.queued != [] {
      var f := s.queued[0].format;
      PromoteFlight(s, lost);
      GroupFormats(s.queued, f, lost);
      hide InFlight, WithFormat, WithoutFormat, Surviving, Losses;
      var t := Promote(s, lost);
      assert t.pending == Surviving(WithFormat(s.queued, f), lost);
      assert t.pending != [] ==> t.pending[0] in t.pending;
    }
  }

  lemma ResponseNewest(env: Env, s: State, ev: Event)
    requires ev.DataResponse?
    ensures Newest(Step(env, s, ev))
  {
    hide Promote, Newest;
    PromoteNewest(Answer(env, Say(s, [Received(ev.ok, ev.data)]), ev.ok, ev.data), ev.lost);
  }

  lemma StepNewest(env: Env, s: State, ev: Event)
    requires Newest(s)
    ensures Newest(Step(env, s, ev))
  {
    match ev
    case SelectionRequest(_, _, _, _, _, _) => RequestNewest(env, s, ev);
    case DataResponse(_, _, _) => ResponseNewest(env, s, ev);
    case ServerFormatList(_) =>
    case ClientFormatList => OneItem(s.log, Cleared);
    case LocalData(_, _) =>
  }

  /** In every state of every run, lost groups and late responses included. */
  lemma {:induction false} RunNewest(env: Env, s: State, evs: seq<Event>)
    requires Newest(s)
    ensures Newest(Run(env, s, evs))
    decreases |evs|
  {
    if evs != [] {
      StepNewest(env, s, evs[0]);
      RunNewest(env, Step(env, s, evs[0]), evs[1..]);
    }
  }
}
