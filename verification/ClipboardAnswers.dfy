/**
 What a server response means for the requests that wait for it: whose request it answers, what each
 waiting request is sent, and what the caches hold for the next one.
*/
module ClipboardAnswers {
  import opened ClipboardAddressing
  import opened ClipboardFormats
  import opened ClipboardFreshness
  import opened Common
  import opened SchedulerInvariants
  import opened SelectionScheduler

  // ---- whose response it is

  /**
   In every run the pending group's own data request is the newest in flight, and the server answers the
   oldest first: the next response is the group's own exactly when one request is outstanding. That is so
   whenever no group was lost and nothing was in flight at the last server format list.
  */
  lemma ResponseMatchesGroup(env: Env, evs: seq<Event>, e: Entry)
    requires e in Run(env, INITIAL, evs).pending
    ensures var flight := InFlight(Run(env, INITIAL, evs).log);
      && flight != [] && flight[|flight| - 1] == e.format
      && (flight == [e.format] <==> |flight| == 1)
      && (AllSurvive(env, INITIAL, evs) && Clean(Run(env, INITIAL, evs).log) ==> |flight| == 1)
  {
    RunNewest(env, INITIAL, evs);
    var s := Run(env, INITIAL, evs);
    assert s.pending[0] in s.pending;
    if AllSurvive(env, INITIAL, evs) { RunSchedules(env, INITIAL, evs); }
  }

  // ---- the two choices of formats

  /** An entry as a non-raw request makes it, c being the first table row with its target. */
  predicate EntryFor(env: Env, e: Entry, c: ClientFormat) {
    && !e.raw && e.name == c.name && e.localFormat == DstFormat(env, c)
    && ClientFormatByAtom(env.clients, e.target) == Some(c)
  }

  /** Every non-raw request that waits is made so, in every run. */
  lemma WaitingEntries(env: Env, evs: seq<Event>, e: Entry)
    requires e in Run(env, INITIAL, evs).pending || e in Run(env, INITIAL, evs).queued
    ensures !e.raw ==> exists c :: EntryFor(env, e, c)
  {
    RunAddressed(env, INITIAL, evs);
    hide Run;
    assert Made(env, e);
    if !e.raw { assert EntryFor(env, e, ClientFormatByAtom(env.clients, e.target).value); }
  }

  /**
   The request and the response to it choose the same destination, and the same source exactly when the
   row has a name or the server format is the one the row asks for.
  */
  lemma FormatsAgreeIff(env: Env, e: Entry, c: ClientFormat)
    requires EntryFor(env, e, c)
    ensures ReplyFormats(env, e).1 == DstFormat(env, c)
    ensures (ReplyFormats(env, e).0, ReplyFormats(env, e).2) == SrcFormat(env, c)
       <==> c.name.Some? || e.format == c.formatToRequest
  {}

  /** That is decided by the server's list: the first row's own format is requested exactly if it is announced. */
  lemma FirstRowRequested(env: Env, s: State, target: Atom)
    requires ServerFormatByAtom(env.clients, s.servers, target).Some? && ClientFormatByAtom(env.clients, target).Some?
    requires ClientFormatByAtom(env.clients, target).value.name.None?
    ensures var f := ServerFormatByAtom(env.clients, s.servers, target).value;
      var c := ClientFormatByAtom(env.clients, target).value;
      f.name.None? && f.id == c.formatToRequest <==> FirstEqual(s.servers, c).Some?
  {
    FirstRow(env.clients, s.servers, target);
  }

  lemma {:induction false} FirstRow(clients: seq<ClientFormat>, servers: seq<ServerFormat>, target: Atom)
    requires ClientFormatByAtom(clients, target).Some?
    ensures var c := ClientFormatByAtom(clients, target).value;
      FirstEqual(servers, c).Some? ==> ServerFormatByAtom(clients, servers, target) == FirstEqual(servers, c)
  {
    if clients[0].atom != target { FirstRow(clients[1..], servers, target); }
  }

  const TIFF_ROW := ClientFormat(11, CF_TIFF, CF_TIFF, None, false)

  /** Two rows for image/tiff, as the table has them. */
  const TWO_TIFF_ROWS := Env([TIFF_ROW, ClientFormat(11, CF_DIB, 300, None, true)], 1, 2, 200, 201, 202, 203,
                             (f, d) => true, (f: uint32, d: Bytes, g: uint32) => Some(d))

  /**
   The two sides disagree about image/tiff with a server that announces CF_DIB alone: the response is
   converted from CF_DIB, and a later request looks for cached CF_TIFF.
  */
  lemma TiffSourcesDiffer()
    ensures var s := Run(TWO_TIFF_ROWS, INITIAL, [ServerFormatList([ServerFormat(CF_DIB, None)]), Ask(11)]);
      && s.pending == [Entry(0, 11, 5, CF_DIB, CF_TIFF, None, false)]
      && EntryFor(TWO_TIFF_ROWS, s.pending[0], TIFF_ROW)
      && ReplyFormats(TWO_TIFF_ROWS, s.pending[0]).0 == CF_DIB && SrcFormat(TWO_TIFF_ROWS, TIFF_ROW).0 == CF_TIFF
  {
    var s1 := OnServerFormatList(INITIAL, [ServerFormat(CF_DIB, None)]);
    assert s1.servers == [ServerFormat(CF_DIB, None), ServerFormat(CF_RAW, None)];
    assert FirstEqual(s1.servers, TIFF_ROW) == FirstEqual(s1.servers[1..], TIFF_ROW) == FirstEqual(s1.servers[1..][1..], TIFF_ROW) == None;
    assert FirstEqual(s1.servers, TWO_TIFF_ROWS.clients[1]) == Some(s1.servers[0]);
    assert TWO_TIFF_ROWS.clients[1..][0] == TWO_TIFF_ROWS.clients[1];
    assert ServerFormatByAtom(TWO_TIFF_ROWS.clients, s1.servers, 11) == Some(s1.servers[0]);
    RunCons(TWO_TIFF_ROWS, INITIAL, ServerFormatList([ServerFormat(CF_DIB, None)]), [Ask(11)]);
    RunCons(TWO_TIFF_ROWS, s1, Ask(11), []);
    assert [ServerFormatList([ServerFormat(CF_DIB, None)])] + [Ask(11)] == [ServerFormatList([ServerFormat(CF_DIB, None)]), Ask(11)];
    assert [Ask(11)] + [] == [Ask(11)];
  }

  // ---- what each request is sent

  lemma {:induction false} AnswerSnoc(env: Env, a: Answering, es: seq<Entry>, e: Entry, data: Bytes)
    ensures AnswerAll(env, a, es + [e], data) == AnswerOne(env, AnswerAll(env, a, es, data), e, data)
    decreases |es|
  {
    hide AnswerOne;
    if es == [] {
      assert [] + [e] == [e] && [e][1..] == [];
      assert AnswerAll(env, a, [e], data) == AnswerAll(env, AnswerOne(env, a, e, data), [], data);
    } else {
      assert (es + [e])[1..] == es[1..] + [e];
      AnswerSnoc(env, AnswerOne(env, a, es[0], data), es[1..], e, data);
    }
  }

  /** The source a response is loaded under: that of the first request whose source the converter accepts. */
  function Source(env: Env, es: seq<Entry>, data: Bytes): Option<uint32> {
    if es == [] then None else
    var n := |es| - 1;
    var before, own := Source(env, es[..n], data), ReplyFormats(env, es[n]).0;
    if before.Some? then before else if env.accepts(own, data) then Some(own) else None
  }

  /** Raw data is cached under formats, never under slots. */
  predicate RawKeys(table: map<nat, Bytes>) { forall k | k in table :: k < Slot(0) }

  lemma {:induction false} LoadedFrom(env: Env, a: Answering, es: seq<Entry>, data: Bytes)
    requires !a.loaded && data != [] && RawKeys(a.cachedRawData)
    ensures var b, src := AnswerAll(env, a, es, data), Source(env, es, data);
      && (b.loaded <==> src.Some?) && (b.loaded ==> b.system == Some((src.value, data)))
      && RawKeys(b.cachedRawData)
    decreases |es|
  {
    if es != [] {
      var n := |es| - 1;
      LoadedFrom(env, a, es[..n], data);
      AnswerSnoc(env, a, es[..n], es[n], data);
      assert es == es[..n] + [es[n]];
      OneLoads(env, AnswerAll(env, a, es[..n], data), es[n], data);
      hide AnswerAll, AnswerOne, ReplyFormats, RawKeys;
    }
  }

  lemma OneLoads(env: Env, a: Answering, e: Entry, data: Bytes)
    requires data != [] && RawKeys(a.cachedRawData)
    ensures var b, own := AnswerOne(env, a, e, data), ReplyFormats(env, e).0;
      && (b.loaded <==> a.loaded || env.accepts(own, data))
      && b.system == (if !a.loaded && env.accepts(own, data) then Some((own, data)) else a.system)
      && RawKeys(b.cachedRawData)
  {
    hide ReplyFormats, Converted, Provision, Cut;
  }

  /** What a request of a group is sent, given the group's source and the conversions cached so far. */
  function GroupReply(env: Env, cachedData: map<nat, Bytes>, src: Option<uint32>, e: Entry, data: Bytes): seq<Item> {
    var (own, dst, nul) := ReplyFormats(env, e);
    if data == [] || src.None? then [Notified(e.id, e.property)] else
    var hit := if e.raw then None else Get(cachedData, Slot(dst));
    var full := if hit.Some? then hit else env.convert(src.value, data, dst);
    if full.None? then [Notified(e.id, NO_ATOM)] else Provision(e.id, e.property, dst, Cut(nul, full.value))
  }

  /**
   Every request of a group, the first and the later ones: all are converted from the source of the first
   one that was accepted, also a request whose own source is another.
  */
  lemma EachEntryGets(env: Env, a: Answering, es: seq<Entry>, data: Bytes, i: nat)
    requires !a.loaded && RawKeys(a.cachedRawData) && i < |es|
    ensures var b := AnswerAll(env, a, es[..i], data);
      AnswerAll(env, a, es[..i + 1], data).log
      == b.log + GroupReply(env, b.cachedData, Source(env, es[..i + 1], data), es[i], data)
  {
    var b := AnswerAll(env, a, es[..i], data);
    assert es[..i + 1] == es[..i] + [es[i]];
    AnswerSnoc(env, a, es[..i], es[i], data);
    AnswerOneReplies(env, b, es[i], data);
    if data != [] {
      LoadedFrom(env, a, es[..i], data);
      NoRawHit(env, b, es[i], data);
      hide AnswerAll, AnswerOne, ReplyFormats, CacheRaw, Get, Slot, Cut, Provision;
      assert es[..i + 1][..i] == es[..i];
    }
  }

  lemma NoRawHit(env: Env, a: Answering, e: Entry, data: Bytes)
    requires RawKeys(a.cachedRawData)
    ensures Get(CacheRaw(env, a, e, data).cachedRawData, Slot(ReplyFormats(env, e).0)) == None
  {
    hide ReplyFormats;
  }

  lemma {:induction false} SourceNoneIff(env: Env, es: seq<Entry>, data: Bytes)
    ensures Source(env, es, data).None? <==> forall e | e in es :: !env.accepts(ReplyFormats(env, e).0, data)
    decreases |es|
  {
    if es != [] {
      var n := |es| - 1;
      SourceNoneIff(env, es[..n], data);
      SourceLast(env, es, data);
      hide ReplyFormats, Source;
      assert es == es[..n] + [es[n]];
      assert forall e | e in es :: e in es[..n] || e == es[n];
    }
  }

  lemma SourceLast(env: Env, es: seq<Entry>, data: Bytes)
    requires es != []
    ensures var n := |es| - 1;
      Source(env, es, data).None?
      <==> Source(env, es[..n], data).None? && !env.accepts(ReplyFormats(env, es[n]).0, data)
  {
    hide ReplyFormats;
  }

  /**
   Notified with its own property although nothing was written there: exactly the requests in a successful
   response that is empty, or that the converter refuses for them and for all before them in the group.
  */
  lemma EmptySuccess(env: Env, a: Answering, es: seq<Entry>, data: Bytes, i: nat)
    requires !a.loaded && RawKeys(a.cachedRawData) && i < |es| && es[i].property != NO_ATOM
    ensures AnswerAll(env, a, es[..i + 1], data).log
            == AnswerAll(env, a, es[..i], data).log + [Notified(es[i].id, es[i].property)]
       <==> data == [] || forall e | e in es[..i + 1] :: !env.accepts(ReplyFormats(env, e).0, data)
  {
    EachEntryGets(env, a, es, data, i);
    SourceNoneIff(env, es[..i + 1], data);
    var b := AnswerAll(env, a, es[..i], data);
    var reply := GroupReply(env, b.cachedData, Source(env, es[..i + 1], data), es[i], data);
    assert reply == [Notified(es[i].id, es[i].property)] <==> data == [] || Source(env, es[..i + 1], data).None? by {
      hide AnswerAll, ReplyFormats, Cut, Get;
    }
    hide AnswerAll, Source, ReplyFormats, GroupReply;
    SameTail(b.log, reply, [Notified(es[i].id, es[i].property)]);
  }

  lemma SameTail(log: seq<Item>, x: seq<Item>, y: seq<Item>)
    ensures log + x == log + y <==> x == y
  {
    if log + x == log + y {
      assert x == (log + x)[|log|..] && y == (log + y)[|log|..];
    }
  }

  // ---- what the caches hold afterwards

  /** The raw cache is never hit by a raw transfer: it is filled and searched under different keys. */
  lemma RawTransfersAlwaysAsk(env: Env, evs: seq<Event>, format: uint32)
    ensures Get(Run(env, INITIAL, evs).cachedRawData, Slot(format)) == None
  {
    RunFresh(env, INITIAL, evs);
  }

  /** Whatever a response gave one requestor, the next requestor of that target finds in the cache. */
  lemma AnsweredThenCached(env: Env, a: Answering, e: Entry, c: ClientFormat, data: Bytes, s: State, format: uint32)
    requires EntryFor(env, e, c) && |Reply(env, a, e, data)| == 2
    requires s.cachedData == AnswerOne(env, a, e, data).cachedData
    ensures var hit := Lookup(env, s, c, format, false).1;
      hit.Some?
      && Reply(env, a, e, data) == Provision(e.id, e.property, DstFormat(env, c), Cut(ReplyFormats(env, e).2, hit.value))
  {
    FormatsAgreeIff(env, e, c);
    var (src, dst, nul) := ReplyFormats(env, e);
    hide ReplyFormats, DstFormat, SrcFormat;
    var full := if Get(a.cachedData, Slot(dst)).Some? then Get(a.cachedData, Slot(dst))
                else Converted(env, if a.loaded then a.system else Some((src, data)), dst);
    assert full.Some?;
    UntilNulIdempotent(UntilNul(full.value));
  }

  /** A later request is sent, or refused, what the response itself would have sent the entry. */
  predicate SameAnswer(env: Env, s: State, a: Answering, e: Entry, c: ClientFormat, data: Bytes) {
    var hit := Lookup(env, s, c, 0, false).1;
    Reply(env, a, e, data)
    == if hit.Some? then Provision(e.id, e.property, DstFormat(env, c), hit.value) else [Notified(e.id, NO_ATOM)]
  }

  /** The source an entry's answer is converted from. */
  function From(env: Env, a: Answering, e: Entry): uint32 {
    if a.loaded && a.system.Some? then a.system.value.0 else ReplyFormats(env, e).0
  }

  /**
   Converting cached raw data for a later request gives what the response gave the entry, whatever the
   converter does, exactly when the entry was converted from its row's own source and cut the same way.
  */
  lemma RawCacheAgreesIff(env: Env, s: State, a: Answering, e: Entry, c: ClientFormat, data: Bytes)
    requires EntryFor(env, e, c) && e.property != NO_ATOM && data != []
    requires Get(s.cachedData, Slot(DstFormat(env, c))) == None == Get(a.cachedData, Slot(DstFormat(env, c)))
    requires Get(s.cachedRawData, SrcFormat(env, c).0) == Some(data) && env.accepts(SrcFormat(env, c).0, data)
    requires if a.loaded then a.system.Some? && a.system.value.1 == data else env.accepts(ReplyFormats(env, e).0, data)
    ensures (forall f :: SameAnswer(env.(convert := f), s, a, e, c, data))
       <==> (From(env, a, e), ReplyFormats(env, e).2) == SrcFormat(env, c)
  {
    var tell := (x: uint32, d: Bytes, y: uint32) => Some(if x == From(env, a, e) then [1, 0, 1] else [2]);
    AnswersAre(env, tell, s, a, e, c, data);
    assert UntilNul([1, 0, 1]) == [1] && UntilNul([2]) == [2];
    forall f ensures (From(env, a, e), ReplyFormats(env, e).2) == SrcFormat(env, c)
      ==> SameAnswer(env.(convert := f), s, a, e, c, data)
    {
      AnswersAre(env, f, s, a, e, c, data);
    }
    hide SameAnswer, From, ReplyFormats, SrcFormat, DstFormat;
    if forall f :: SameAnswer(env.(convert := f), s, a, e, c, data) {
      assert SameAnswer(env.(convert := tell), s, a, e, c, data);
    }
  }

  lemma AnswersAre(env: Env, f: (uint32, Bytes, uint32) -> Option<Bytes>, s: State, a: Answering, e: Entry,
                   c: ClientFormat, data: Bytes)
    requires EntryFor(env, e, c) && e.property != NO_ATOM && data != []
    requires Get(s.cachedData, Slot(DstFormat(env, c))) == None == Get(a.cachedData, Slot(DstFormat(env, c)))
    requires Get(s.cachedRawData, SrcFormat(env, c).0) == Some(data) && env.accepts(SrcFormat(env, c).0, data)
    requires if a.loaded then a.system.Some? && a.system.value.1 == data else env.accepts(ReplyFormats(env, e).0, data)
    ensures var dst, (src, nul) := DstFormat(env, c), SrcFormat(env, c);
      var later, now := f(src, data, dst), f(From(env, a, e), data, dst);
      SameAnswer(env.(convert := f), s, a, e, c, data) <==>
        later.Some? == now.Some? && (now.Some? ==> Cut(nul, later.value) == Cut(ReplyFormats(env, e).2, now.value))
  {
    FormatsAgreeIff(env, e, c);
    var other := env.(convert := f);
    var dst := DstFormat(env, c);
    var (src, nul) := SrcFormat(env, c);
    var later, now := f(src, data, dst), f(From(env, a, e), data, dst);
    assert ReplyFormats(other, e) == ReplyFormats(env, e) && DstFormat(other, c) == dst && SrcFormat(other, c) == (src, nul);
    var hit := Lookup(other, s, c, 0, false).1;
    assert hit == if later.None? then None else Some(Cut(nul, later.value));
    var reply := Reply(other, a, e, data);
    assert reply == if now.None? then [Notified(e.id, NO_ATOM)]
                    else Provision(e.id, e.property, dst, Cut(ReplyFormats(env, e).2, now.value)) by {
      hide Cut, Provision, Lookup, SrcFormat, DstFormat;
    }
    hide Lookup, Reply, ReplyFormats, SrcFormat, DstFormat, Cut, From;
    ProvisionsDiffer(e, dst, hit, if now.None? then None else Some(Cut(ReplyFormats(env, e).2, now.value)));
  }

  lemma ProvisionsDiffer(e: Entry, dst: uint32, x: Option<Bytes>, y: Option<Bytes>)
    requires e.property != NO_ATOM
    ensures (if y.Some? then Provision(e.id, e.property, dst, y.value) else [Notified(e.id, NO_ATOM)])
         == (if x.Some? then Provision(e.id, e.property, dst, x.value) else [Notified(e.id, NO_ATOM)])
       <==> x == y
  {
    if x.Some? && y.Some? {
      assert Provision(e.id, e.property, dst, x.value)[0] == Provided(e.id, dst, x.value);
      assert Provision(e.id, e.property, dst, y.value)[0] == Provided(e.id, dst, y.value);
    }
  }

  const TEXT_ROW := ClientFormat(10, CF_UNICODETEXT, 100, None, false)

  /** Two formats, and a converter that copies. */
  const COPYING := Env([TEXT_ROW, TIFF_ROW], 1, 2, 200, 201, 202, 203,
                       (f, d) => true, (f: uint32, d: Bytes, g: uint32) => Some(d))

  const BOTH := [ServerFormat(CF_UNICODETEXT, None), ServerFormat(CF_TIFF, None)]

  function Ask(target: Atom): Event { SelectionRequest(true, false, target, 5, None, true) }

  lemma AskStep(s: State, row: ClientFormat)
    requires row == TEXT_ROW || row == TIFF_ROW
    requires s.servers == BOTH + [ServerFormat(CF_RAW, None)] && s.pending == [] && s.cachedData == map[] && s.cachedRawData == map[]
    ensures var t := Step(COPYING, s, Ask(row.atom));
      && t.pending == [Entry(s.nextId, row.atom, 5, row.formatToRequest, row.localFormat, None, false)]
      && t == s.(pending := t.pending, nextId := s.nextId + 1, log := s.log + [Asked(s.nextId, row.atom, None), Requested(row.formatToRequest)])
  {
    assert FirstEqual(s.servers, TEXT_ROW) == Some(s.servers[0]);
    assert s.servers[1..][0] == s.servers[1];
    assert FirstEqual(s.servers, TIFF_ROW) == FirstEqual(s.servers[1..], TIFF_ROW) == Some(s.servers[1]);
    assert COPYING.clients[1..][0] == TIFF_ROW;
    assert ServerFormatByAtom(COPYING.clients[1..], s.servers, 11) == Some(s.servers[1]);
    assert s.log + [Asked(s.nextId, row.atom, None)] + [Requested(row.formatToRequest)] == s.log + [Asked(s.nextId, row.atom, None), Requested(row.formatToRequest)];
  }

  lemma RunCons(env: Env, s: State, e: Event, es: seq<Event>)
    ensures Run(env, s, [e] + es) == Run(env, Step(env, s, e), es)
  {}

  lemma FourSteps(env: Env, s: State, a: Event, b: Event, c: Event, d: Event)
    ensures Run(env, s, [a, b, c, d]) == Step(env, Step(env, Step(env, Step(env, s, a), b), c), d)
  {
    hide Step;
    var s1 := Step(env, s, a);
    var s2 := Step(env, s1, b);
    RunCons(env, s, a, [b, c, d]);
    RunCons(env, s1, b, [c, d]);
    RunCons(env, s2, c, [d]);
    RunCons(env, Step(env, s2, c), d, []);
    assert [a] + [b, c, d] == [a, b, c, d] && [b] + [c, d] == [b, c, d] && [c] + [d] == [c, d] && [d] + [] == [d];
  }

  const RACE := [ServerFormatList(BOTH), Ask(10), ServerFormatList(BOTH), Ask(11)]

  lemma RaceStart()
    ensures var t := Step(COPYING, OnServerFormatList(INITIAL, BOTH), Ask(10));
      && t.pending == [Entry(0, 10, 5, CF_UNICODETEXT, 100, None, false)] && t.queued == [] && t.nextId == 1
      && t.log == [Reset, Cleared, Asked(0, 10, None), Requested(CF_UNICODETEXT)]
  {}

  lemma RaceState()
    ensures var s := Run(COPYING, INITIAL, RACE);
      && s.pending == [Entry(1, 11, 5, CF_TIFF, CF_TIFF, None, false)] && s.queued == []
      && s.cachedData == map[] && s.cachedRawData == map[]
      && s.log == [Reset, Cleared, Asked(0, 10, None), Requested(CF_UNICODETEXT), Reset, Dropped(0), Cleared, Asked(1, 11, None), Requested(CF_TIFF)]
  {
    hide OnSelectionRequest, Run;
    FourSteps(COPYING, INITIAL, RACE[0], RACE[1], RACE[2], RACE[3]);
    RaceStart();
    var s2 := Step(COPYING, OnServerFormatList(INITIAL, BOTH), Ask(10));
    var s3 := OnServerFormatList(s2, BOTH);
    assert Drops(s2.pending) == [Dropped(0)] && Drops(s2.queued) == [];
    assert s3.log == [Reset, Cleared, Asked(0, 10, None), Requested(CF_UNICODETEXT), Reset, Dropped(0), Cleared];
    AskStep(s3, TIFF_ROW);
  }

  lemma RaceFlight()
    ensures var log := [Reset, Cleared, Asked(0, 10, None), Requested(CF_UNICODETEXT), Reset, Dropped(0), Cleared, Asked(1, 11, None), Requested(CF_TIFF)];
      InFlight(log) == [CF_UNICODETEXT, CF_TIFF] && !Clean(log)
  {
    var start := [Reset, Cleared, Asked(0, 10, None)];
    QuietItems([Reset], [Cleared, Asked(0, 10, None)]);
    OneItem([], Reset);
    assert [] + [Reset] == [Reset] && [Reset] + [Cleared, Asked(0, 10, None)] == start;
    OneItem(start, Requested(CF_UNICODETEXT));
    var first := start + [Requested(CF_UNICODETEXT)];
    OneItem(first, Reset);
    var rest := [Dropped(0), Cleared, Asked(1, 11, None)];
    QuietItems(first + [Reset], rest);
    OneItem(first + [Reset] + rest, Requested(CF_TIFF));
    assert first + [Reset] + rest + [Requested(CF_TIFF)]
        == [Reset, Cleared, Asked(0, 10, None), Requested(CF_UNICODETEXT), Reset, Dropped(0), Cleared, Asked(1, 11, None), Requested(CF_TIFF)];
  }

  /**
   With a request in flight at a server format list, the late response is handed to the requestor of
   another format: the old request was for text, the new requestor asked for TIFF and gets the text.
  */
  lemma LateResponseMisdelivered()
    ensures var s := Run(COPYING, INITIAL, RACE);
      var t := Step(COPYING, s, DataResponse(true, [65], {}));
      && InFlight(s.log) == [CF_UNICODETEXT, CF_TIFF] && !Clean(s.log)
      && |s.pending| == 1 && s.pending[0].format == CF_TIFF
      && Provided(s.pending[0].id, CF_TIFF, [65]) in t.log
  {
    RaceState();
    RaceFlight();
    hide Run;
    var s := Run(COPYING, INITIAL, RACE);
    var a := Answering(s.cachedData, s.cachedRawData, s.system, false, false, s.log + [Received(true, [65])]);
    var b := AnswerOne(COPYING, a, s.pending[0], [65]);
    assert b.log == a.log + [Provided(1, CF_TIFF, [65]), Notified(1, 5)];
    assert b.log[|a.log|] == Provided(1, CF_TIFF, [65]);
    assert s.pending[1..] == [];
    assert AnswerAll(COPYING, a, s.pending, [65]) == AnswerAll(COPYING, b, [], [65]) == b;
  }
}
