/**
 First in, first out: while groups survive and server format lists find nothing in flight, what a requestor is
 given was received for a data request of the right format; and when that request was the requestor's own.
*/
module ClipboardSources {
  import opened Common
  import opened ClipboardAddressing
  import opened ClipboardAnswers
  import opened ClipboardFormats
  import opened ClipboardFreshness
  import opened SchedulerInvariants
  import opened SelectionScheduler

  // ---- one data request in flight at every response

  /** Each response found at most one data request in flight. */
  predicate RespondsAlone(log: seq<Item>) {
    forall j :: 0 <= j < |log| && log[j].Received? ==> |InFlight(log[..j])| <= 1
  }

  /** Each server format list found no data request in flight. */
  predicate ListsClean(log: seq<Item>) {
    forall j :: 0 <= j < |log| && log[j].Reset? ==> InFlight(log[..j]) == []
  }

  /** What was added holds no response. */
  predicate Adds(before: seq<Item>, after: seq<Item>) {
    before <= after && forall k :: |before| <= k < |after| ==> !after[k].Received?
  }

  lemma AddsItems(log: seq<Item>, items: seq<Item>)
    requires forall i | i in items :: !i.Received?
    ensures Adds(log, log + items)
  {
    var all := log + items;
    forall k | |log| <= k < |all| ensures !all[k].Received? { assert all[k] in items; }
  }

  lemma {:induction false} AnswerAllAdds(env: Env, a: Answering, es: seq<Entry>, data: Bytes)
    ensures Adds(a.log, AnswerAll(env, a, es, data).log)
    decreases |es|
  {
    if es != [] {
      hide AnswerOne, Reply;
      var b := AnswerOne(env, a, es[0], data);
      AnswerOneLog(env, a, es[0], data);
      AnswerOneReplies(env, a, es[0], data);
      AddsItems(a.log, Reply(env, a, es[0], data));
      AnswerAllAdds(env, b, es[1..], data);
    }
  }

  lemma AnswerAdds(env: Env, s: State, ok: bool, data: Bytes)
    ensures Adds(s.log, Answer(env, s, ok, data).log)
  {
    if ok {
      AnswerAllAdds(env, Answering(s.cachedData, s.cachedRawData, s.system, false, false, s.log), s.pending, data);
    } else {
      AddsItems(s.log, Refusals(s.pending));
    }
  }

  lemma PromoteAdds(s: State, lost: set<nat>)
    ensures Adds(s.log, Promote(s, lost).log)
  {
    if s.queued != [] {
      var f := s.queued[0].format;
      LossesQuiet(WithFormat(s.queued, f), lost);
      AddsItems(s.log, Losses(WithFormat(s.queued, f), lost) + [Requested(f)]);
      hide WithFormat, WithoutFormat, Surviving, Losses;
    }
  }

  lemma {:induction false} RequestAdds(env: Env, s: State, ev: Event)
    requires ev.SelectionRequest?
    ensures Adds(s.log, Step(env, s, ev).log)
  {
    hide Respond;
    if ev.ours {
      var s1 := Say(s.(nextId := s.nextId + 1), [Asked(s.nextId, ev.target, ev.rawFormat)]);
      var delayed, items, e := RespondEffect(env, s1, s.nextId, ev);
      AddsItems(s1.log, if delayed then [Requested(e.format)] else items);
    }
  }

  /** A step adds at most one response, as its first line. */
  lemma StepAdds(env: Env, s: State, ev: Event)
    ensures Adds(if ev.DataResponse? then s.log + [Received(ev.ok, ev.data)] else s.log, Step(env, s, ev).log)
  {
    hide Adds, Answer, Promote, OnSelectionRequest;
    match ev
    case SelectionRequest(_, _, _, _, _, _) => RequestAdds(env, s, ev);
    case DataResponse(ok, data, lost) =>
      var s1 := Say(s, [Received(ok, data)]);
      var s2 := Answer(env, s1, ok, data);
      AnswerAdds(env, s1, ok, data);
      PromoteAdds(s2, lost);
      AddsTrans(s1.log, s2.log, Promote(s2, lost).log);
    case ServerFormatList(_) =>
      var items := [Reset] + Drops(s.pending) + Drops(s.queued);
      AddsItems(s.log, items + [Cleared]);
      assert s.log + items + [Cleared] == s.log + (items + [Cleared]);
    case ClientFormatList => AddsItems(s.log, [Cleared]);
    case LocalData(_, _) =>
      AddsItems(s.log, []);
      assert s.log + [] == s.log;
  }

  lemma AddsTrans(a: seq<Item>, b: seq<Item>, c: seq<Item>)
    requires Adds(a, b) && Adds(b, c)
    ensures Adds(a, c)
  {}

  lemma {:induction false} RunGrows(env: Env, s: State, evs: seq<Event>)
    ensures s.log <= Run(env, s, evs).log
    decreases |evs|
  {
    if evs != [] {
      hide Step;
      StepAdds(env, s, evs[0]);
      RunGrows(env, Step(env, s, evs[0]), evs[1..]);
    }
  }

  lemma {:induction false} ListsCleanNow(log: seq<Item>, later: seq<Item>)
    requires ListsClean(later) && log <= later
    ensures Clean(log)
  {
    if log != [] {
      var n := |log| - 1;
      ListsCleanNow(log[..n], later);
      assert log[..n] == later[..n] && log[n] == later[n];
    }
  }

  lemma StepAlone(env: Env, s: State, ev: Event)
    requires RespondsAlone(s.log) && |InFlight(s.log)| <= 1
    ensures RespondsAlone(Step(env, s, ev).log)
  {
    StepAdds(env, s, ev);
    hide Step;
    var t := Step(env, s, ev).log;
    var mid := if ev.DataResponse? then s.log + [Received(ev.ok, ev.data)] else s.log;
    assert s.log <= mid <= t;
    forall j | 0 <= j < |t| && t[j].Received? ensures |InFlight(t[..j])| <= 1 {
      assert j < |mid| && t[j] == mid[j];
      if j < |s.log| { assert t[..j] == s.log[..j] && s.log[j] == t[j]; } else { assert t[..j] == s.log; }
    }
  }

  lemma {:induction false} RunAlone(env: Env, s: State, evs: seq<Event>)
    requires Scheduled(s) && RespondsAlone(s.log)
    requires AllSurvive(env, s, evs) && ListsClean(Run(env, s, evs).log)
    ensures RespondsAlone(Run(env, s, evs).log)
    decreases |evs|
  {
    if evs != [] {
      RunGrows(env, s, evs);
      ListsCleanNow(s.log, Run(env, s, evs).log);
      StepSchedules(env, s, evs[0]);
      StepAlone(env, s, evs[0]);
      hide Step, OneGroup, InFlight, RespondsAlone;
      RunAlone(env, Step(env, s, evs[0]), evs[1..]);
    }
  }

  /**
   Single flight reaches every payload: while groups survive and no server format list finds anything in
   flight, each payload is a conversion of a response whose only data request in flight was for a request
   asked before, and is converted from that request's source format.
  */
  lemma PayloadsOfLoneRequests(env: Env, evs: seq<Event>, i: nat)
    requires AllSurvive(env, INITIAL, evs) && ListsClean(Run(env, INITIAL, evs).log)
    requires i < |Run(env, INITIAL, evs).log| && Run(env, INITIAL, evs).log[i].Provided?
    ensures var log := Run(env, INITIAL, evs).log;
      exists j: nat, e :: j < i && ComesFrom(env, log, i, j, ReplyFormats(env, e).0)
        && Made(env, e) && Asks(log[..j], e) && InFlight(log[..j]) == [e.format]
  {
    NoStaleClipboard(env, evs, i);
    RunAlone(env, INITIAL, evs);
    hide Run;
    var log := Run(env, INITIAL, evs).log;
    var j: nat, src :| ComesFrom(env, log, i, j, src);
    var e :| WaitsNewest(env, log[..j], e) && ReplyFormats(env, e).0 == src;
    var flight := InFlight(log[..j]);
    assert |flight| == 1 && flight == [flight[0]];
  }

  // ---- whether it was the requestor's own

  lemma {:induction false} SourceOfMember(env: Env, es: seq<Entry>, data: Bytes)
    ensures var src := Source(env, es, data);
      src.Some? ==> exists e :: e in es && ReplyFormats(env, e).0 == src.value
    decreases |es|
  {
    if es != [] {
      var n := |es| - 1;
      SourceOfMember(env, es[..n], data);
      hide ReplyFormats;
      assert forall e | e in es[..n] :: e in es;
      assert es[n] in es;
    }
  }

  /** The payload converts this response from the source format of one of these requests. */
  ghost predicate FromGroup(env: Env, es: seq<Entry>, data: Bytes, dst: uint32, payload: Bytes) {
    exists e :: e in es && Derives(env, data, ReplyFormats(env, e).0, dst, payload)
  }

  lemma FromGroupMore(env: Env, es: seq<Entry>, fs: seq<Entry>, data: Bytes, dst: uint32, payload: Bytes)
    requires FromGroup(env, es, data, dst, payload) && es <= fs
    ensures FromGroup(env, fs, data, dst, payload)
  {
    hide Derives, ReplyFormats;
    var e :| e in es && Derives(env, data, ReplyFormats(env, e).0, dst, payload);
    assert e in fs;
  }

  lemma CutDerives(env: Env, data: Bytes, src: uint32, dst: uint32, payload: Bytes, nul: bool)
    requires Derives(env, data, src, dst, payload)
    ensures Derives(env, data, src, dst, Cut(nul, payload))
  {}

  /** What answering one request does to a slot. */
  lemma SlotAfterOne(env: Env, a: Answering, e: Entry, data: Bytes, dst: uint32)
    requires RawKeys(a.cachedRawData)
    ensures var b := AnswerOne(env, a, e, data);
      var before, after := Get(a.cachedData, Slot(dst)), Get(b.cachedData, Slot(dst));
      && (before.Some? && dst != CF_RAW ==> after == before)
      && (after != before ==> b.loaded && b.system.Some? && after.Some? && Derives(env, b.system.value.1, b.system.value.0, dst, after.value))
  {
    hide Derives, ReplyFormats, CacheRaw, Load, Deliver;
    var a1 := CacheRaw(env, a, e, data);
    var a2 := if data == [] then a1 else Load(env, a1, e, data);
    NoRawHit(env, a, e, data);
    CachesStay(env, a, e, data);
    CachesStay(env, a1, e, data);
    if data != [] && a2.loaded { SlotAfterDeliver(env, a2, e, dst); }
    hide Get, Slot;
  }

  lemma CachesStay(env: Env, a: Answering, e: Entry, data: Bytes)
    ensures CacheRaw(env, a, e, data).cachedData == a.cachedData
    ensures Load(env, a, e, data).cachedData == a.cachedData && Load(env, a, e, data).cachedRawData == a.cachedRawData
  {
    hide ReplyFormats;
  }

  lemma SlotAfterDeliver(env: Env, a: Answering, e: Entry, dst: uint32)
    requires Get(a.cachedRawData, Slot(ReplyFormats(env, e).0)) == None
    ensures var b := Deliver(env, a, e);
      var before, after := Get(a.cachedData, Slot(dst)), Get(b.cachedData, Slot(dst));
      && b.loaded == a.loaded && b.system == a.system
      && (before.Some? && dst != CF_RAW ==> after == before)
      && (after != before ==> b.system.Some? && after.Some? && Derives(env, b.system.value.1, b.system.value.0, dst, after.value))
  {
    RawMeansRaw(env, e);
    hide ReplyFormats, UntilNul, Provision;
  }

  lemma RawMeansRaw(env: Env, e: Entry)
    ensures e.raw ==> ReplyFormats(env, e).1 == CF_RAW
  {}

  /** After some requests of a group a slot holds what it held before, or a conversion of this response. */
  lemma {:induction false} SlotAfter(env: Env, a: Answering, es: seq<Entry>, data: Bytes, dst: uint32)
    requires !a.loaded && data != [] && RawKeys(a.cachedRawData)
    ensures var before, after := Get(a.cachedData, Slot(dst)), Get(AnswerAll(env, a, es, data).cachedData, Slot(dst));
      && (before.Some? && dst != CF_RAW ==> after == before)
      && (after != before ==> after.Some? && FromGroup(env, es, data, dst, after.value))
    decreases |es|
  {
    if es != [] {
      var n := |es| - 1;
      var b := AnswerAll(env, a, es[..n], data);
      SlotAfter(env, a, es[..n], data, dst);
      AnswerSnoc(env, a, es[..n], es[n], data);
      assert es == es[..n] + [es[n]];
      LoadedFrom(env, a, es[..n], data);
      LoadedFrom(env, a, es, data);
      SlotAfterOne(env, b, es[n], data, dst);
      SourceOfMember(env, es, data);
      hide AnswerAll, AnswerOne, Derives, ReplyFormats, Get, Slot, Source;
      var before, middle := Get(a.cachedData, Slot(dst)), Get(b.cachedData, Slot(dst));
      if middle != before { FromGroupMore(env, es[..n], es, data, dst, middle.value); }
    }
  }

  /** Where answering the pending requests starts. */
  function Start(s: State, data: Bytes): Answering {
    Answering(s.cachedData, s.cachedRawData, s.system, false, false, s.log + [Received(true, data)])
  }

  /** What the pending request number i is sent by a response. */
  function SentTo(env: Env, s: State, data: Bytes, i: nat): seq<Item>
    requires i < |s.pending|
  {
    GroupReply(env, AnswerAll(env, Start(s, data), s.pending[..i], data).cachedData,
               Source(env, s.pending[..i + 1], data), s.pending[i], data)
  }

  /**
   A response that comes while groups survive and the last server format list found nothing in flight is for
   the pending requests' own format. Each is then given a conversion of this response, from the source of one
   of its own group, unless a conversion to its local format was cached before: that is what it is given then.
  */
  lemma {:induction false} OwnUnlessCached(env: Env, evs: seq<Event>, i: nat, data: Bytes)
    requires AllSurvive(env, INITIAL, evs) && Clean(Run(env, INITIAL, evs).log) && i < |Run(env, INITIAL, evs).pending|
    ensures var s := Run(env, INITIAL, evs);
      var e, cached := s.pending[i], Get(s.cachedData, Slot(ReplyFormats(env, s.pending[i]).1));
      && InFlight(s.log) == [e.format] && (forall p | p in s.pending :: p.format == e.format)
      && AnswerAll(env, Start(s, data), s.pending[..i + 1], data).log
         == AnswerAll(env, Start(s, data), s.pending[..i], data).log + SentTo(env, s, data, i)
      && forall p | p in SentTo(env, s, data, i) && p.Provided? ::
           && (e.raw || cached.None? ==> FromGroup(env, s.pending[..i + 1], data, p.format, p.data))
           && (!e.raw && cached.Some? && p.format != CF_RAW ==> p.data == Cut(ReplyFormats(env, e).2, cached.value))
  {
    var s := Run(env, INITIAL, evs);
    RunSchedules(env, INITIAL, evs);
    RunKeys(env, evs);
    assert s.pending[0] in s.pending && s.pending[i] in s.pending;
    EachEntryGets(env, Start(s, data), s.pending, data, i);
    SentFrom(env, s, data, i);
    hide Run, AnswerAll, SentTo, FromGroup, RawKeys, Get, Slot, ReplyFormats, Cut;
  }

  lemma RunKeys(env: Env, evs: seq<Event>)
    ensures RawKeys(Run(env, INITIAL, evs).cachedRawData)
  {
    RunFresh(env, INITIAL, evs);
    hide Run;
  }

  lemma {:induction false} SentFrom(env: Env, s: State, data: Bytes, i: nat)
    requires RawKeys(s.cachedRawData) && i < |s.pending|
    ensures var e, cached := s.pending[i], Get(s.cachedData, Slot(ReplyFormats(env, s.pending[i]).1));
      forall p | p in SentTo(env, s, data, i) && p.Provided? ::
        && (e.raw || cached.None? ==> FromGroup(env, s.pending[..i + 1], data, p.format, p.data))
        && (!e.raw && cached.Some? && p.format != CF_RAW ==> p.data == Cut(ReplyFormats(env, e).2, cached.value))
  {
    hide AnswerAll, ReplyFormats, Source, Get, Slot, UntilNul, RawKeys, FromGroup;
    var e, es := s.pending[i], s.pending[..i + 1];
    var (own, dst, nul) := ReplyFormats(env, e);
    var b, src := AnswerAll(env, Start(s, data), s.pending[..i], data), Source(env, es, data);
    if data != [] && src.Some? {
      SlotAfter(env, Start(s, data), s.pending[..i], data, dst);
      SourceOfMember(env, es, data);
      assert s.pending[..i] <= es;
      var hit := if e.raw then None else Get(b.cachedData, Slot(dst));
      var full := if hit.Some? then hit else env.convert(src.value, data, dst);
      if full.Some? && (e.raw || Get(s.cachedData, Slot(dst)).None?) {
        if hit.Some? {
          FromGroupMore(env, s.pending[..i], es, data, dst, hit.value);
        } else {
          GroupConverts(env, es, data, src.value, dst, full.value);
        }
        FromGroupCut(env, es, data, dst, full.value, nul);
      }
    }
  }

  lemma GroupConverts(env: Env, es: seq<Entry>, data: Bytes, src: uint32, dst: uint32, payload: Bytes)
    requires env.convert(src, data, dst) == Some(payload) && exists e :: e in es && ReplyFormats(env, e).0 == src
    ensures FromGroup(env, es, data, dst, payload)
  {
    hide ReplyFormats;
    var e :| e in es && ReplyFormats(env, e).0 == src;
    assert Derives(env, data, ReplyFormats(env, e).0, dst, payload);
  }

  lemma FromGroupCut(env: Env, es: seq<Entry>, data: Bytes, dst: uint32, payload: Bytes, nul: bool)
    requires FromGroup(env, es, data, dst, payload)
    ensures FromGroup(env, es, data, dst, Cut(nul, payload))
  {
    hide Derives, ReplyFormats, Cut;
    var e :| e in es && Derives(env, data, ReplyFormats(env, e).0, dst, payload);
    CutDerives(env, data, ReplyFormats(env, e).0, dst, payload, nul);
  }

  // ---- two runs

  const UNICODE_ROW := ClientFormat(10, CF_UNICODETEXT, 100, None, false)
  const ANSI_ROW := ClientFormat(12, CF_TEXT, 100, None, false)

  /** Two targets with one local format, as UTF8_STRING and STRING are, and a converter that copies. */
  const TEXTS := Env([UNICODE_ROW, ANSI_ROW], 1, 2, 200, 201, 202, 203,
                     (f, d) => true, (f: uint32, d: Bytes, g: uint32) => Some(d))

  const TEXT_SERVERS := [ServerFormat(CF_UNICODETEXT, None), ServerFormat(CF_TEXT, None)]

  const TWO_ASKED := [ServerFormatList(TEXT_SERVERS), Ask(10), Ask(12)]

  const FIRST := Entry(0, 10, 5, CF_UNICODETEXT, 100, None, false)
  const SECOND := Entry(1, 12, 5, CF_TEXT, 100, None, false)

  lemma TextsFound(servers: seq<ServerFormat>)
    requires servers == TEXT_SERVERS + [ServerFormat(CF_RAW, None)]
    ensures ServerFormatByAtom(TEXTS.clients, servers, 10) == Some(servers[0])
    ensures ServerFormatByAtom(TEXTS.clients, servers, 12) == Some(servers[1])
    ensures ClientFormatByAtom(TEXTS.clients, 12) == Some(ANSI_ROW)
  {
    assert FirstEqual(servers, UNICODE_ROW) == Some(servers[0]);
    assert servers[1..][0] == servers[1];
    assert FirstEqual(servers, ANSI_ROW) == FirstEqual(servers[1..], ANSI_ROW) == Some(servers[1]);
    assert TEXTS.clients[1..][0] == ANSI_ROW;
    assert ServerFormatByAtom(TEXTS.clients[1..], servers, 12) == Some(servers[1]);
  }

  lemma ThreeSteps(env: Env, s: State, a: Event, b: Event, c: Event)
    ensures Run(env, s, [a, b, c]) == Step(env, Step(env, Step(env, s, a), b), c)
  {
    hide Step;
    RunCons(env, s, a, [b, c]);
    RunCons(env, Step(env, s, a), b, [c]);
    RunCons(env, Step(env, Step(env, s, a), b), c, []);
    assert [a] + [b, c] == [a, b, c] && [b] + [c] == [b, c] && [c] + [] == [c];
  }

  /** Both have asked: the first is pending, and the second, for another format, is queued. */
  lemma {:induction false} TwoAsked()
    ensures var s := Run(TEXTS, INITIAL, TWO_ASKED);
      && s.pending == [FIRST] && s.queued == [SECOND] && s.cachedData == map[] && s.cachedRawData == map[]
      && s.log == [Reset, Cleared, Asked(0, 10, None), Requested(CF_UNICODETEXT), Asked(1, 12, None)]
  {
    hide Run, OnSelectionRequest;
    ThreeSteps(TEXTS, INITIAL, TWO_ASKED[0], TWO_ASKED[1], TWO_ASKED[2]);
    var s1 := OnServerFormatList(INITIAL, TEXT_SERVERS);
    assert s1.log == [Reset, Cleared];
    TextsFound(s1.servers);
    FirstAsks(s1);
    SecondAsks(Step(TEXTS, s1, Ask(10)));
  }

  lemma FirstAsks(s: State)
    requires s.servers == TEXT_SERVERS + [ServerFormat(CF_RAW, None)] && s.nextId == 0 && s.pending == []
    requires s.cachedData == map[] == s.cachedRawData
    ensures Step(TEXTS, s, Ask(10))
         == s.(nextId := 1, pending := [FIRST], log := s.log + [Asked(0, 10, None), Requested(CF_UNICODETEXT)])
  {
    TextsFound(s.servers);
    hide ServerFormatByAtom, FirstEqual, Provision;
    assert s.log + [Asked(0, 10, None)] + [Requested(CF_UNICODETEXT)] == s.log + [Asked(0, 10, None), Requested(CF_UNICODETEXT)];
  }

  lemma SecondMisses(s: State)
    requires s.cachedData == map[] == s.cachedRawData
    ensures Lookup(TEXTS, s, ANSI_ROW, CF_TEXT, false) == (s, None)
  {}

  lemma SecondAsks(s: State)
    requires s.servers == TEXT_SERVERS + [ServerFormat(CF_RAW, None)] && s.nextId == 1 && s.pending == [FIRST]
    requires s.cachedData == map[] == s.cachedRawData
    ensures Step(TEXTS, s, Ask(12)) == s.(nextId := 2, queued := s.queued + [SECOND], log := s.log + [Asked(1, 12, None)])
  {
    TextsFound(s.servers);
    SecondMisses(s);
    hide ServerFormatByAtom, ClientFormatByAtom, FirstEqual, Provision, Lookup;
    assert FIRST in s.pending && FIRST.format != SECOND.format;
  }

  /**
   The only member of the promoted group is lost: its data request is in flight and nobody waits for it, and
   the next request for another format starts a second one.
  */
  lemma {:induction false} LostGroup()
    ensures var s := Run(TEXTS, INITIAL, TWO_ASKED);
      var t := Step(TEXTS, s, DataResponse(false, [], {1}));
      && Scheduled(s) && !Survives(s, DataResponse(false, [], {1})) && !Scheduled(t)
      && t.pending == [] == t.queued && InFlight(t.log) == [CF_TEXT]
  {
    TwoAsked();
    var s := Run(TEXTS, INITIAL, TWO_ASKED);
    NoResponses(TEXTS, INITIAL, TWO_ASKED);
    RunSchedules(TEXTS, INITIAL, TWO_ASKED);
    TwoAskedFlight();
    hide Run, Scheduled, InFlight, Clean;
    Lost(s);
    StepSchedules(TEXTS, s, DataResponse(false, [], {1}));
    ResponseFlight(TEXTS, s, DataResponse(false, [], {1}));
    hide Step;
  }

  lemma Lost(s: State)
    requires s.pending == [FIRST] && s.queued == [SECOND]
    ensures !Survives(s, DataResponse(false, [], {1}))
    ensures var t := Step(TEXTS, s, DataResponse(false, [], {1})); t.pending == [] == t.queued
  {
    GroupOfSecond(s.queued);
    hide WithFormat, WithoutFormat, Surviving, Losses;
  }

  lemma GroupOfSecond(queued: seq<Entry>)
    requires queued == [SECOND]
    ensures WithFormat(queued, CF_TEXT) == [SECOND] && WithoutFormat(queued, CF_TEXT) == []
    ensures Surviving([SECOND], {1}) == [] && Surviving([SECOND], {}) == [SECOND] && Losses([SECOND], {}) == []
  {
    assert queued[1..] == [];
  }

  lemma {:induction false} NoResponses(env: Env, s: State, evs: seq<Event>)
    requires forall ev | ev in evs :: !ev.DataResponse?
    ensures AllSurvive(env, s, evs)
    decreases |evs|
  {
    if evs != [] {
      assert evs[0] in evs && forall ev | ev in evs[1..] :: ev in evs;
      NoResponses(env, Step(env, s, evs[0]), evs[1..]);
    }
  }

  lemma TwoAskedFlight()
    ensures var log := [Reset, Cleared, Asked(0, 10, None), Requested(CF_UNICODETEXT), Asked(1, 12, None)];
      InFlight(log) == [CF_UNICODETEXT] && Clean(log)
  {
    var start := [Reset, Cleared, Asked(0, 10, None)];
    QuietItems([Reset], [Cleared, Asked(0, 10, None)]);
    OneItem([], Reset);
    assert [] + [Reset] == [Reset] && [Reset] + [Cleared, Asked(0, 10, None)] == start;
    OneItem(start, Requested(CF_UNICODETEXT));
    OneItem(start + [Requested(CF_UNICODETEXT)], Asked(1, 12, None));
    assert start + [Requested(CF_UNICODETEXT)] + [Asked(1, 12, None)]
        == [Reset, Cleared, Asked(0, 10, None), Requested(CF_UNICODETEXT), Asked(1, 12, None)];
  }

  /** A response takes its own request out of flight and brings in that of the promoted group. */
  lemma ResponseFlight(env: Env, s: State, ev: Event)
    requires ev.DataResponse? && s.queued != []
    ensures InFlight(Step(env, s, ev).log)
         == (if InFlight(s.log) != [] then InFlight(s.log)[1..] else []) + [s.queued[0].format]
  {
    hide InFlight, Answer, Promote;
    var s1 := Say(s, [Received(ev.ok, ev.data)]);
    OneItem(s.log, Received(ev.ok, ev.data));
    AnswerFlight(env, s1, ev.ok, ev.data);
    AnswerKeepsQueue(env, s1, ev.ok, ev.data);
    PromoteFlight(Answer(env, s1, ev.ok, ev.data), ev.lost);
  }

  lemma AnswerKeepsQueue(env: Env, s: State, ok: bool, data: Bytes)
    ensures Answer(env, s, ok, data).queued == s.queued
  {}

  lemma {:induction false} FirstAnswered(s: State)
    requires s.pending == [FIRST] && s.queued == [SECOND] && s.cachedData == map[] == s.cachedRawData
    ensures var t := Step(TEXTS, s, DataResponse(true, [65], {}));
      && t.pending == [SECOND] && t.queued == [] && Get(t.cachedData, Slot(100)) == Some([65]) && RawKeys(t.cachedRawData)
      && t.log == s.log + [Received(true, [65]), Provided(0, 100, [65]), Notified(0, 5), Requested(CF_TEXT)]
  {
    var a := Start(s, [65]);
    var b := AnswerOne(TEXTS, a, FIRST, [65]);
    assert UntilNul([65]) == [65];
    assert b.log == a.log + [Provided(0, 100, [65]), Notified(0, 5)] && Get(b.cachedData, Slot(100)) == Some([65]);
    assert s.pending[1..] == [];
    assert AnswerAll(TEXTS, a, s.pending, [65]) == AnswerAll(TEXTS, b, [], [65]) == b;
    GroupOfSecond(s.queued);
    hide AnswerOne, AnswerAll, Get, WithFormat, WithoutFormat, Surviving, Losses;
  }

  lemma SecondAnswered(s: State)
    requires s.pending == [SECOND] && s.queued == [] && Get(s.cachedData, Slot(100)) == Some([65]) && RawKeys(s.cachedRawData)
    ensures Step(TEXTS, s, DataResponse(true, [66], {})).log
         == s.log + [Received(true, [66]), Provided(1, 100, [65]), Notified(1, 5)]
  {
    var a := Start(s, [66]);
    NoRawHit(TEXTS, a, SECOND, [66]);
    AnswerOneReplies(TEXTS, a, SECOND, [66]);
    assert UntilNul([65]) == [65];
    assert Reply(TEXTS, a, SECOND, [66]) == [Provided(1, 100, [65]), Notified(1, 5)];
    hide AnswerOne, Reply;
    assert s.pending[1..] == [];
    assert AnswerAll(TEXTS, a, s.pending, [66]) == AnswerAll(TEXTS, AnswerOne(TEXTS, a, SECOND, [66]), [], [66]);
  }

  /** The second is given what was cached for the first, though its own request was answered with other data. */
  lemma CachedInstead()
    ensures var s := Run(TEXTS, INITIAL, TWO_ASKED);
      var t := Step(TEXTS, Step(TEXTS, s, DataResponse(true, [65], {})), DataResponse(true, [66], {}));
      t.log == s.log + [Received(true, [65]), Provided(0, 100, [65]), Notified(0, 5), Requested(CF_TEXT),
                        Received(true, [66]), Provided(1, 100, [65]), Notified(1, 5)]
  {
    TwoAsked();
    var s := Run(TEXTS, INITIAL, TWO_ASKED);
    hide Run;
    FirstAnswered(s);
    SecondAnswered(Step(TEXTS, s, DataResponse(true, [65], {})));
    hide Step;
  }
}
