/**
 No stale clipboard: whatever a requestor is given was derived from a server response that arrived
 after the caches were last cleared.
*/
module ClipboardFreshness {
  import opened Common
  import opened ClipboardAddressing
  import opened ClipboardFormats
  import opened SelectionScheduler
  import opened SchedulerInvariants

  /** The payload is a conversion of the response, possibly cut at its first NUL. */
  ghost predicate Derives(env: Env, response: Bytes, src: uint32, dst: uint32, payload: Bytes) {
    var full := env.convert(src, response, dst);
    full.Some? && (payload == full.value || payload == UntilNul(full.value))
  }

  /** The newest data request in flight is the one this request waits for. */
  ghost predicate WaitsNewest(env: Env, log: seq<Item>, e: Entry) {
    var flight := InFlight(log);
    Made(env, e) && Asks(log, e) && flight != [] && flight[|flight| - 1] == e.format
  }

  /** When line j came, a request with this source format was waiting for the newest data request. */
  ghost predicate AwaitedFrom(env: Env, log: seq<Item>, j: nat, src: uint32)
    requires j <= |log|
  {
    exists e :: WaitsNewest(env, log[..j], e) && ReplyFormats(env, e).0 == src
  }

  /** Line j is a successful response and the caches have not been cleared since. */
  predicate Live(log: seq<Item>, j: nat) {
    && j < |log| && log[j].Received? && log[j].ok
    && forall k :: j < k < |log| ==> !log[k].Cleared?
  }

  /** Line j is a live response to a request that waited for data in this source format. */
  ghost predicate Sourced(env: Env, log: seq<Item>, j: nat, src: uint32) {
    Live(log, j) && AwaitedFrom(env, log, j, src)
  }

  ghost predicate FreshData(env: Env, log: seq<Item>, src: uint32, data: Bytes) {
    exists j: nat :: Sourced(env, log, j, src) && log[j].data == data
  }

  ghost predicate FreshPayload(env: Env, log: seq<Item>, dst: uint32, payload: Bytes) {
    exists j: nat, src :: Sourced(env, log, j, src) && Derives(env, log[j].data, src, dst, payload)
  }

  /** Every payload in the history was fresh when it was provided. */
  ghost predicate NothingStale(env: Env, log: seq<Item>) {
    forall i: nat :: i < |log| && log[i].Provided? ==> FreshPayload(env, log[..i], log[i].format, log[i].data)
  }

  /** Each cache slot holds a fresh conversion to the slot's own format, and raw data under its source. */
  ghost predicate FreshCaches(env: Env, cachedData: map<nat, Bytes>, cachedRawData: map<nat, Bytes>, log: seq<Item>) {
    && (forall k | k in cachedData ::
          0 <= k - Slot(0) < 0x1_0000_0000 && FreshPayload(env, log, k - Slot(0), cachedData[k]))
    && (forall k | k in cachedRawData :: k < Slot(0) && FreshData(env, log, k, cachedRawData[k]))
  }

  ghost predicate Fresh(env: Env, s: State) {
    FreshCaches(env, s.cachedData, s.cachedRawData, s.log) && NothingStale(env, s.log)
  }

  lemma FreshCut(env: Env, log: seq<Item>, dst: uint32, payload: Bytes, nul: bool)
    requires FreshPayload(env, log, dst, payload)
    ensures FreshPayload(env, log, dst, Cut(nul, payload))
  {}

  lemma ConvertedFresh(env: Env, log: seq<Item>, src: uint32, data: Bytes, dst: uint32, nul: bool)
    requires FreshData(env, log, src, data) && env.convert(src, data, dst).Some?
    ensures FreshPayload(env, log, dst, Cut(nul, env.convert(src, data, dst).value))
  {
    var j: nat :| Sourced(env, log, j, src) && log[j].data == data;
    assert Derives(env, data, src, dst, Cut(nul, env.convert(src, data, dst).value));
  }

  /** Freshness survives anything but a clear. */
  lemma StaysFresh(env: Env, log: seq<Item>, items: seq<Item>)
    requires forall i | i in items :: !i.Cleared?
    ensures forall src, d :: FreshData(env, log, src, d) ==> FreshData(env, log + items, src, d)
    ensures forall d, p :: FreshPayload(env, log, d, p) ==> FreshPayload(env, log + items, d, p)
  {
    forall j: nat, src | Sourced(env, log, j, src)
      ensures Sourced(env, log + items, j, src) && (log + items)[j] == log[j]
    {
      assert (log + items)[..j] == log[..j];
      hide WaitsNewest;
      forall k | j < k < |log + items| ensures !(log + items)[k].Cleared? {
        if k >= |log| { assert (log + items)[k] == items[k - |log|]; }
      }
    }
  }

  lemma NothingStaleAppend(env: Env, log: seq<Item>, items: seq<Item>)
    requires NothingStale(env, log)
    requires forall i | i in items :: !i.Cleared? && (i.Provided? ==> FreshPayload(env, log, i.format, i.data))
    ensures NothingStale(env, log + items)
  {
    var all := log + items;
    forall i: nat | i < |all| && all[i].Provided?
      ensures FreshPayload(env, all[..i], all[i].format, all[i].data)
    {
      if i < |log| {
        assert all[..i] == log[..i];
      } else {
        assert all[i] in items;
        assert all[..i] == log + items[..i - |log|];
        StaysFresh(env, log, items[..i - |log|]);
      }
    }
  }

  /** Appending history lines that hand out only fresh payloads. */
  lemma {:induction false} SayFresh(env: Env, cachedData: map<nat, Bytes>, cachedRawData: map<nat, Bytes>, log: seq<Item>, items: seq<Item>)
    requires FreshCaches(env, cachedData, cachedRawData, log) && NothingStale(env, log)
    requires forall i | i in items :: !i.Cleared? && (i.Provided? ==> FreshPayload(env, log, i.format, i.data))
    ensures FreshCaches(env, cachedData, cachedRawData, log + items) && NothingStale(env, log + items)
  {
    StaysFresh(env, log, items);
    NothingStaleAppend(env, log, items);
  }

  // ---- requests

  lemma InsertFresh(env: Env, cachedData: map<nat, Bytes>, cachedRawData: map<nat, Bytes>, log: seq<Item>,
                    dst: uint32, payload: Bytes)
    requires FreshCaches(env, cachedData, cachedRawData, log) && FreshPayload(env, log, dst, payload)
    ensures FreshCaches(env, Insert(cachedData, Slot(dst), payload), cachedRawData, log)
  {
    hide FreshPayload, FreshData;
  }

  lemma HitFresh(env: Env, cachedData: map<nat, Bytes>, cachedRawData: map<nat, Bytes>, log: seq<Item>, f: uint32)
    requires FreshCaches(env, cachedData, cachedRawData, log)
    ensures var hit := Get(cachedData, Slot(f)); hit.Some? ==> FreshPayload(env, log, f, hit.value)
    ensures var hit := Get(cachedRawData, f); hit.Some? ==> FreshData(env, log, f, hit.value)
    ensures Get(cachedRawData, Slot(f)) == None
  {
    hide FreshPayload, FreshData;
  }

  lemma LookupFresh(env: Env, s: State, c: ClientFormat, format: uint32, raw: bool)
    requires Fresh(env, s)
    ensures var (t, hit) := Lookup(env, s, c, format, raw);
      && Fresh(env, t) && t.log == s.log
      && (hit.Some? ==> !raw && FreshPayload(env, s.log, DstFormat(env, c), hit.value))
  {
    hide FreshCaches, NothingStale, FreshPayload, FreshData, DstFormat, SrcFormat, Get, Insert, Slot, Cut;
    var dst := DstFormat(env, c);
    var (src, nul) := SrcFormat(env, c);
    var rawData := Get(s.cachedRawData, src);
    HitFresh(env, s.cachedData, s.cachedRawData, s.log, dst);
    HitFresh(env, s.cachedData, s.cachedRawData, s.log, src);
    HitFresh(env, s.cachedData, s.cachedRawData, s.log, format);
    if rawData.Some? && env.convert(src, rawData.value, dst).Some? {
      ConvertedFresh(env, s.log, src, rawData.value, dst, nul);
      InsertFresh(env, s.cachedData, s.cachedRawData, s.log, dst, Cut(nul, env.convert(src, rawData.value, dst).value));
    }
  }

  lemma {:induction false} RequestFresh(env: Env, s: State, ev: Event)
    requires ev.SelectionRequest? && Fresh(env, s)
    ensures Fresh(env, Step(env, s, ev))
  {
    hide Respond, FreshCaches, NothingStale;
    if ev.ours {
      var id := s.nextId;
      var s1 := Say(s.(nextId := id + 1), [Asked(id, ev.target, ev.rawFormat)]);
      SayFresh(env, s.cachedData, s.cachedRawData, s.log, [Asked(id, ev.target, ev.rawFormat)]);
      RespondFresh(env, s1, id, ev);
    }
  }

  lemma {:induction false} RespondFresh(env: Env, s: State, id: nat, ev: Event)
    requires ev.SelectionRequest? && Fresh(env, s)
    ensures Fresh(env, Respond(env, s, id, ev))
  {
    hide AskFor, FreshCaches, NothingStale;
    var f, c := ServerFormatByAtom(env.clients, s.servers, ev.target), ClientFormatByAtom(env.clients, ev.target);
    if ev.target == env.timestampAtom || ev.target == env.targetsAtom {
      SayFresh(env, s.cachedData, s.cachedRawData, s.log,
               (if ev.property != NO_ATOM then [Described(id)] else []) + [Notified(id, ev.property)]);
    } else if f.Some? && c.Some? && !ev.fromSelf {
      AskFresh(env, s, id, f.value, c.value, ev);
    } else {
      SayFresh(env, s.cachedData, s.cachedRawData, s.log, [Notified(id, NO_ATOM)]);
    }
  }

  lemma {:induction false} AskFresh(env: Env, s: State, id: nat, f: ServerFormat, c: ClientFormat, ev: Event)
    requires ev.SelectionRequest? && Fresh(env, s)
    ensures Fresh(env, AskFor(env, s, id, f, c, ev))
  {
    hide Lookup, FreshCaches, NothingStale;
    var raw := f.id == CF_RAW && ev.rawFormat.Some?;
    var format := if raw then ev.rawFormat.value else f.id;
    LookupFresh(env, s, c, format, raw);
    var (s1, hit) := Lookup(env, s, c, format, raw);
    if hit.Some? {
      SayFresh(env, s1.cachedData, s1.cachedRawData, s1.log, Provision(id, ev.property, DstFormat(env, c), hit.value));
    } else {
      SayFresh(env, s1.cachedData, s1.cachedRawData, s1.log, [Notified(id, NO_ATOM)]);
      SayFresh(env, s1.cachedData, s1.cachedRawData, s1.log, [Requested(format)]);
    }
  }

  // ---- responses

  ghost predicate FreshAnswering(env: Env, a: Answering, data: Bytes) {
    && FreshCaches(env, a.cachedData, a.cachedRawData, a.log)
    && NothingStale(env, a.log)
    && (a.loaded ==> a.system.Some? && a.system.value.1 == data && FreshData(env, a.log, a.system.value.0, data))
  }

  /** The data is fresh for the source format of each of these requests. */
  ghost predicate FreshFor(env: Env, log: seq<Item>, es: seq<Entry>, data: Bytes) {
    forall e | e in es :: FreshData(env, log, ReplyFormats(env, e).0, data)
  }

  lemma {:induction false} DeliverFresh(env: Env, a: Answering, e: Entry, data: Bytes)
    requires FreshAnswering(env, a, data) && a.loaded
    ensures FreshAnswering(env, Deliver(env, a, e), data)
  {
    hide NothingStale, FreshPayload, FreshData, ReplyFormats;
    var (src, dst, nul) := ReplyFormats(env, e);
    var hit := if e.raw then Get(a.cachedRawData, Slot(src)) else Get(a.cachedData, Slot(dst));
    var full := if hit.Some? then hit else Converted(env, a.system, dst);
    if full.Some? {
      if hit.Some? {
        FreshCut(env, a.log, dst, hit.value, nul);
      } else {
        ConvertedFresh(env, a.log, a.system.value.0, data, dst, nul);
      }
      ProvisionFresh(env, a, e, dst, Cut(nul, full.value), data);
    } else {
      SayFresh(env, a.cachedData, a.cachedRawData, a.log, [Notified(e.id, NO_ATOM)]);
      StaysFresh(env, a.log, [Notified(e.id, NO_ATOM)]);
    }
  }

  lemma {:induction false} ProvisionFresh(env: Env, a: Answering, e: Entry, dst: uint32, payload: Bytes, data: Bytes)
    requires FreshAnswering(env, a, data) && FreshPayload(env, a.log, dst, payload)
    ensures var log := a.log + Provision(e.id, e.property, dst, payload);
      FreshAnswering(env, a.(log := log), data) && FreshPayload(env, log, dst, payload)
  {
    var items := Provision(e.id, e.property, dst, payload);
    SayFresh(env, a.cachedData, a.cachedRawData, a.log, items);
    StaysFresh(env, a.log, items);
  }

  lemma CacheRawFresh(env: Env, a: Answering, e: Entry, data: Bytes)
    requires FreshAnswering(env, a, data) && FreshData(env, a.log, ReplyFormats(env, e).0, data)
    ensures FreshAnswering(env, CacheRaw(env, a, e, data), data)
  {
    hide FreshData, FreshPayload, NothingStale, ReplyFormats;
  }

  lemma LoadFresh(env: Env, a: Answering, e: Entry, data: Bytes)
    requires FreshAnswering(env, a, data) && FreshData(env, a.log, ReplyFormats(env, e).0, data)
    ensures FreshAnswering(env, Load(env, a, e, data), data)
  {
    hide FreshData, FreshPayload, NothingStale, FreshCaches, ReplyFormats;
  }

  lemma NotifyFresh(env: Env, a: Answering, data: Bytes, i: Item)
    requires FreshAnswering(env, a, data) && i.Notified?
    ensures FreshAnswering(env, a.(log := a.log + [i]), data)
  {
    SayFresh(env, a.cachedData, a.cachedRawData, a.log, [i]);
    StaysFresh(env, a.log, [i]);
    hide FreshCaches, NothingStale, FreshData;
  }

  lemma AnswerOneFresh(env: Env, a: Answering, e: Entry, data: Bytes)
    requires FreshAnswering(env, a, data) && FreshData(env, a.log, ReplyFormats(env, e).0, data)
    ensures FreshAnswering(env, AnswerOne(env, a, e, data), data)
  {
    hide Deliver, CacheRaw, Load, FreshAnswering, FreshData, ReplyFormats;
    var a1 := CacheRaw(env, a, e, data);
    CacheRawFresh(env, a, e, data);
    var a2 := if data == [] then a1 else Load(env, a1, e, data);
    LogsStay(env, a, e, data);
    LoadFresh(env, a1, e, data);
    if data == [] || !a2.loaded {
      NotifyFresh(env, a2, data, Notified(e.id, e.property));
    } else {
      DeliverFresh(env, a2, e, data);
    }
  }

  lemma LogsStay(env: Env, a: Answering, e: Entry, data: Bytes)
    ensures CacheRaw(env, a, e, data).log == a.log && Load(env, a, e, data).log == a.log
  {}

  lemma {:induction false} AnswerAllFresh(env: Env, a: Answering, es: seq<Entry>, data: Bytes)
    requires FreshAnswering(env, a, data) && FreshFor(env, a.log, es, data)
    ensures FreshAnswering(env, AnswerAll(env, a, es, data), data)
    decreases |es|
  {
    if es != [] {
      assert es[0] in es;
      AnswerOneFresh(env, a, es[0], data);
      FreshForLater(env, a, es, data);
      hide AnswerOne, FreshAnswering, FreshFor;
      AnswerAllFresh(env, AnswerOne(env, a, es[0], data), es[1..], data);
    }
  }

  lemma FreshForLater(env: Env, a: Answering, es: seq<Entry>, data: Bytes)
    requires es != [] && FreshFor(env, a.log, es, data)
    ensures FreshFor(env, AnswerOne(env, a, es[0], data).log, es[1..], data)
  {
    hide AnswerOne, FreshData, ReplyFormats, Reply;
    AnswerOneLog(env, a, es[0], data);
    AnswerOneReplies(env, a, es[0], data);
    StaysFresh(env, a.log, Reply(env, a, es[0], data));
    assert forall e | e in es[1..] :: e in es;
  }

  /** Those who wait for the newest data request have fresh data once its response is noted. */
  lemma ResponseFor(env: Env, s: State, data: Bytes)
    requires Newest(s) && Waits(env, s.pending, s.log)
    ensures FreshFor(env, s.log + [Received(true, data)], s.pending, data)
  {
    var log, j := s.log + [Received(true, data)], |s.log|;
    assert log[..j] == s.log && Live(log, j);
    forall e | e in s.pending ensures FreshData(env, log, ReplyFormats(env, e).0, data) {
      assert s.pending[0] in s.pending;
      hide InFlight, Made, Asks, ReplyFormats;
      assert WaitsNewest(env, s.log, e);
      assert Sourced(env, log, j, ReplyFormats(env, e).0);
    }
  }

  lemma {:induction false} AnswerFresh(env: Env, s: State, ok: bool, data: Bytes)
    requires Fresh(env, s) && Newest(s) && Waits(env, s.pending, s.log)
    ensures Fresh(env, Answer(env, Say(s, [Received(ok, data)]), ok, data))
  {
    var s1 := Say(s, [Received(ok, data)]);
    SayFresh(env, s.cachedData, s.cachedRawData, s.log, [Received(ok, data)]);
    if ok {
      ResponseFor(env, s, data);
      AnswerAllFresh(env, Answering(s.cachedData, s.cachedRawData, s.system, false, false, s1.log), s.pending, data);
    } else {
      SayFresh(env, s.cachedData, s.cachedRawData, s1.log, Refusals(s.pending));
    }
    hide FreshCaches, NothingStale, Newest, Waits;
  }

  lemma {:induction false} ResponseFresh(env: Env, s: State, ok: bool, data: Bytes, lost: set<nat>)
    requires Fresh(env, s) && Newest(s) && Waits(env, s.pending, s.log)
    ensures Fresh(env, OnDataResponse(env, s, ok, data, lost))
  {
    hide Answer, FreshCaches, NothingStale, Newest, Waits;
    AnswerFresh(env, s, ok, data);
    var s2 := Answer(env, Say(s, [Received(ok, data)]), ok, data);
    if s2.queued != [] {
      var group := WithFormat(s2.queued, s2.queued[0].format);
      LossesQuiet(group, lost);
      SayFresh(env, s2.cachedData, s2.cachedRawData, s2.log, Losses(group, lost) + [Requested(s2.queued[0].format)]);
    }
  }

  lemma ClearFresh(env: Env, s: State)
    requires NothingStale(env, s.log)
    ensures Fresh(env, ClearCaches(s))
  {
    var log := s.log + [Cleared];
    forall i: nat | i < |log| && log[i].Provided? ensures FreshPayload(env, log[..i], log[i].format, log[i].data) {
      assert log[..i] == s.log[..i];
    }
  }

  lemma {:induction false} StepFresh(env: Env, s: State, ev: Event)
    requires Fresh(env, s) && Newest(s) && Addressed(env, s)
    ensures Fresh(env, Step(env, s, ev))
  {
    hide OnSelectionRequest, OnDataResponse, FreshCaches, Newest, Waits, AllAskedFor;
    match ev
    case SelectionRequest(_, _, _, _, _, _) => RequestFresh(env, s, ev);
    case DataResponse(ok, data, lost) => ResponseFresh(env, s, ok, data, lost);
    case ServerFormatList(formats) =>
      NothingStaleAppend(env, s.log, [Reset] + Drops(s.pending) + Drops(s.queued));
      ClearFresh(env, Say(s, [Reset] + Drops(s.pending) + Drops(s.queued)));
    case ClientFormatList => ClearFresh(env, s);
    case LocalData(_, _) =>
  }

  lemma {:induction false} RunFresh(env: Env, s: State, evs: seq<Event>)
    requires Fresh(env, s) && Newest(s) && Addressed(env, s)
    ensures Fresh(env, Run(env, s, evs))
    decreases |evs|
  {
    if evs != [] {
      hide Step, Fresh, Newest, Addressed;
      StepFresh(env, s, evs[0]);
      StepNewest(env, s, evs[0]);
      StepAddressed(env, s, evs[0]);
      RunFresh(env, Step(env, s, evs[0]), evs[1..]);
    }
  }

  /** What a payload comes from: line j is the response, and it was converted from this source format. */
  ghost predicate ComesFrom(env: Env, log: seq<Item>, i: nat, j: nat, src: uint32)
    requires i < |log| && log[i].Provided?
  {
    && j < i && log[j].Received? && log[j].ok && Derives(env, log[j].data, src, log[i].format, log[i].data)
    && AwaitedFrom(env, log, j, src)
    && forall k :: j < k < i ==> !log[k].Cleared?
  }

  /**
   No stale clipboard, over every run: each payload answers a request that was asked for earlier, in the
   local format of that request's target (or raw data if it asked for that). It is a conversion of a
   successful response that came before with no clear of the caches in between, and from the source format
   of a request that waited for the newest data request when that response came.
  */
  lemma {:induction false} NoStaleClipboard(env: Env, evs: seq<Event>, i: nat)
    requires i < |Run(env, INITIAL, evs).log| && Run(env, INITIAL, evs).log[i].Provided?
    ensures var log := Run(env, INITIAL, evs).log;
      && (exists target, raw :: Asked(log[i].id, target, raw) in log[..i] && Wanted(env, target, raw, log[i].format))
      && exists j: nat, src :: ComesFrom(env, log, i, j, src)
  {
    RunFresh(env, INITIAL, evs);
    RunAddressed(env, INITIAL, evs);
    hide Run, FreshCaches, Waits, FreshPayload;
    var log := Run(env, INITIAL, evs).log;
    assert AskedFor(env, log[..i], log[i]);
    var j, src := FreshComesFrom(env, log, i);
  }

  lemma FreshComesFrom(env: Env, log: seq<Item>, i: nat) returns (j: nat, src: uint32)
    requires i < |log| && log[i].Provided? && FreshPayload(env, log[..i], log[i].format, log[i].data)
    ensures ComesFrom(env, log, i, j, src)
  {
    hide Derives, WaitsNewest;
    j, src :| Sourced(env, log[..i], j, src) && Derives(env, log[..i][j].data, src, log[i].format, log[i].data);
    assert forall k :: j < k < i ==> log[k] == log[..i][k];
    assert log[..i][..j] == log[..j];
  }
}
