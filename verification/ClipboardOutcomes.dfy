/**
 What one selection request and one response do, said in terms of the request, the two tables, the caches and the
 converter alone.
*/
module ClipboardOutcomes {
  import opened Common
  import opened ClipboardAnswers
  import opened ClipboardFormats
  import opened SchedulerInvariants
  import opened SelectionScheduler

  /** The bytes before the first NUL, or all of them. */
  predicate EndsAtNul(payload: Bytes, full: Bytes) {
    0 !in payload && payload <= full && (payload == full || full[|payload|] == 0)
  }

  /** Text is given up to its first NUL, anything else whole. */
  predicate Trimmed(text: bool, payload: Bytes, full: Bytes) {
    if text then EndsAtNul(payload, full) else payload == full
  }

  lemma CutTrims(nul: bool, full: Bytes)
    ensures Trimmed(nul, Cut(nul, full), full)
  {}

  /** The line that writes the property, which property None is without, and then the notify. */
  function Given(id: nat, property: Atom, format: uint32, payload: Bytes): seq<Item> {
    if property == 0 then [Notified(id, 0)] else [Provided(id, format, payload), Notified(id, property)]
  }

  // ---- responses

  /** Where a waiting request's data comes from and goes to, and whether it is text, for each kind of request. */
  predicate RoutedAs(env: Env, e: Entry, src: uint32, dst: uint32, text: bool) {
    && (e.raw ==> src == 0 && dst == 0 && !text)
    && (!e.raw && e.name.None? ==>
          src == e.format && dst == e.localFormat && (text <==> e.format == 1 || e.format == 7 || e.format == 13))
    && (!e.raw && e.name == Some("HTML Format") ==> src == env.htmlFormat && dst == env.htmlMime && text)
    && (!e.raw && e.name == Some("FileGroupDescriptorW") ==>
          && src == env.fileGroup && text
          && ((forall c | c in env.clients :: c.atom != e.target) ==> dst == env.uriList)
          && (forall k: nat | k < |env.clients| && FirstRowAt(env.clients, e.target, k) :: dst == env.clients[k].localFormat))
    && (!e.raw && e.name.Some? && e.name.value != "HTML Format" && e.name.value != "FileGroupDescriptorW" ==>
          src == 0 && dst == e.localFormat && !text)
  }

  /** Row k is the first with this target. */
  predicate FirstRowAt(clients: seq<ClientFormat>, target: Atom, k: nat) {
    k < |clients| && clients[k].atom == target && forall m :: 0 <= m < k ==> clients[m].atom != target
  }

  lemma {:induction false} FirstRowFound(clients: seq<ClientFormat>, target: Atom, k: nat)
    requires FirstRowAt(clients, target, k)
    ensures ClientFormatByAtom(clients, target) == Some(clients[k])
  {
    if k > 0 {
      assert clients[0].atom != target;
      assert FirstRowAt(clients[1..], target, k - 1);
      FirstRowFound(clients[1..], target, k - 1);
    }
  }

  lemma {:induction false} FirstRowExists(clients: seq<ClientFormat>, target: Atom) returns (k: nat)
    requires exists c :: c in clients && c.atom == target
    ensures FirstRowAt(clients, target, k)
  {
    k := 0;
    if clients[0].atom != target {
      assert forall c | c in clients :: c == clients[0] || c in clients[1..];
      k := FirstRowExists(clients[1..], target);
      k := k + 1;
      assert forall m :: 0 < m < k ==> clients[m] == clients[1..][m - 1];
    }
  }

  lemma RouteIs(env: Env, e: Entry, src: uint32, dst: uint32, text: bool)
    ensures RoutedAs(env, e, src, dst, text) <==> ReplyFormats(env, e) == (src, dst, text)
  {
    if exists c :: c in env.clients && c.atom == e.target {
      var k := FirstRowExists(env.clients, e.target);
      FirstRowFound(env.clients, e.target, k);
      forall m | FirstRowAt(env.clients, e.target, m) ensures m == k { FirstRowFound(env.clients, e.target, m); }
    } else {
      assert ClientFormatByAtom(env.clients, e.target).None?;
    }
    hide ClientFormatByAtom;
  }

  /** A cached conversion to a format, under a key of its own. */
  function CachedIn(cachedData: map<nat, Bytes>, format: uint32): Option<Bytes> {
    if 0x1_0000_0000 + format in cachedData then Some(cachedData[0x1_0000_0000 + format]) else None
  }

  /** What the data of a response is converted from: what an earlier request of the group loaded, or this one's own. */
  function LoadedAs(env: Env, a: Answering, src: uint32, data: Bytes): Option<(uint32, Bytes)> {
    if a.loaded then a.system else if env.accepts(src, data) then Some((src, data)) else None
  }

  /**
   A response and one of the requests that wait for it. Empty data, or data that was accepted for no request yet,
   is notified as it is; a conversion that fails is refused; and otherwise the request is given the cached
   conversion to its own format, or a new one that is then cached, up to the first NUL if it is text.
  */
  lemma {:induction false} AnswerOneExactly(env: Env, a: Answering, e: Entry, data: Bytes, src: uint32, dst: uint32, text: bool)
    requires RoutedAs(env, e, src, dst, text) && RawKeys(a.cachedRawData) && (a.loaded ==> a.system.Some?)
    ensures var b, loaded := AnswerOne(env, a, e, data), LoadedAs(env, a, src, data);
      var hit := if e.raw then None else CachedIn(a.cachedData, dst);
      var full := if hit.Some? then hit else if loaded.None? then None else env.convert(loaded.value.0, loaded.value.1, dst);
      if data == [] || loaded.None? then
        b.log == a.log + [Notified(e.id, e.property)] && b.cachedData == a.cachedData
      else if full.None? then
        b.log == a.log + [Notified(e.id, 0)] && b.cachedData == a.cachedData
      else
        exists payload :: Trimmed(text, payload, full.value)
          && b.log == a.log + Given(e.id, e.property, dst, payload)
          && b.cachedData == if hit.Some? then a.cachedData else a.cachedData[0x1_0000_0000 + dst := payload]
  {
    RouteIs(env, e, src, dst, text);
    NoRawHit(env, a, e, data);
    BeforeDelivery(env, a, e, data, src);
    hide ReplyFormats, RoutedAs, UntilNul, CacheRaw, Load;
    var b, loaded := AnswerOne(env, a, e, data), LoadedAs(env, a, src, data);
    var hit := if e.raw then None else CachedIn(a.cachedData, dst);
    var full := if hit.Some? then hit else if loaded.None? then None else env.convert(loaded.value.0, loaded.value.1, dst);
    if data != [] && loaded.Some? && full.Some? {
      CutTrims(text, full.value);
      var payload := Cut(text, full.value);
      hide Cut, Trimmed;
      assert Provision(e.id, e.property, dst, payload) == Given(e.id, e.property, dst, payload);
    }
  }

  lemma BeforeDelivery(env: Env, a: Answering, e: Entry, data: Bytes, src: uint32)
    requires ReplyFormats(env, e).0 == src && (a.loaded ==> a.system.Some?)
    ensures var b, loaded := Load(env, CacheRaw(env, a, e, data), e, data), LoadedAs(env, a, src, data);
      && (b.loaded <==> loaded.Some?) && (b.loaded ==> b.system == loaded)
      && b.cachedData == a.cachedData && b.log == a.log && b.cachedRawData == CacheRaw(env, a, e, data).cachedRawData
    ensures CacheRaw(env, a, e, data).cachedData == a.cachedData && CacheRaw(env, a, e, data).log == a.log
  {
    hide ReplyFormats;
  }

  /** The raw data is kept for the first request of the group that has a source, and the converter is loaded once. */
  lemma AnswerOneCached(env: Env, a: Answering, e: Entry, data: Bytes, src: uint32, dst: uint32, text: bool)
    requires RoutedAs(env, e, src, dst, text) && (a.loaded ==> a.system.Some?)
    ensures var b := AnswerOne(env, a, e, data);
      && b.rawCached == (a.rawCached || (data != [] && src != 0))
      && b.cachedRawData == (if data != [] && !a.rawCached && src != 0 then a.cachedRawData[src := data] else a.cachedRawData)
      && b.loaded == (a.loaded || (data != [] && env.accepts(src, data)))
      && b.system == (if data != [] && b.loaded then LoadedAs(env, a, src, data) else a.system)
  {
    RouteIs(env, e, src, dst, text);
    hide ReplyFormats, RoutedAs, Cut, Provision, Converted, Get;
  }

  /** A request for text: one of three formats, or one of two names. */
  predicate AsksForText(e: Entry) {
    && !e.raw
    && if e.name.None? then e.format == 1 || e.format == 7 || e.format == 13
       else e.name.value == "HTML Format" || e.name.value == "FileGroupDescriptorW"
  }

  /** A line that gives one of these requests a payload, without a NUL if it asked for text. */
  predicate GivesClean(es: seq<Entry>, i: Item) {
    i.Provided? ==> exists e :: e in es && e.id == i.id && (AsksForText(e) ==> 0 !in i.data)
  }

  lemma {:induction false} OneGivesClean(env: Env, a: Answering, e: Entry, data: Bytes)
    ensures a.log <= AnswerOne(env, a, e, data).log
    ensures forall i | i in AnswerOne(env, a, e, data).log[|a.log|..] :: GivesClean([e], i)
  {
    var (src, dst, text) := ReplyFormats(env, e);
    RouteIs(env, e, src, dst, text);
    assert AsksForText(e) ==> text;
    AnswerOneReplies(env, a, e, data);
    var reply := Reply(env, a, e, data);
    assert AnswerOne(env, a, e, data).log[|a.log|..] == reply;
    hide ReplyFormats, RoutedAs, AnswerOne, CacheRaw;
    forall i | i in reply ensures GivesClean([e], i) {
      if i.Provided? { assert e in [e] && (text ==> 0 !in i.data); }
    }
  }

  lemma {:induction false} AllGiveClean(env: Env, a: Answering, es: seq<Entry>, data: Bytes)
    ensures a.log <= AnswerAll(env, a, es, data).log
    ensures forall i | i in AnswerAll(env, a, es, data).log[|a.log|..] :: GivesClean(es, i)
    decreases |es|
  {
    if es != [] {
      var b := AnswerOne(env, a, es[0], data);
      OneGivesClean(env, a, es[0], data);
      AllGiveClean(env, b, es[1..], data);
      hide AnswerOne, AsksForText;
      var all := AnswerAll(env, a, es, data).log;
      forall i | i in all[|a.log|..] ensures GivesClean(es, i) {
        assert all[|a.log|..] == b.log[|a.log|..] + all[|b.log|..];
        if i in b.log[|a.log|..] {
          assert GivesClean([es[0]], i) && es[0] in es;
        } else {
          assert GivesClean(es[1..], i) && forall e | e in es[1..] :: e in es;
        }
      }
    } else {
      assert AnswerAll(env, a, es, data).log[|a.log|..] == [];
    }
  }

  /** Whatever a response gives to a request for text holds no NUL. */
  lemma {:induction false} TextEndsAtNul(env: Env, s: State, data: Bytes, lost: set<nat>)
    ensures var t := Step(env, s, DataResponse(true, data, lost));
      s.log <= t.log && forall i | i in t.log[|s.log|..] :: GivesClean(s.pending, i)
  {
    var s1 := Say(s, [Received(true, data)]);
    var a := Answering(s.cachedData, s.cachedRawData, s.system, false, false, s1.log);
    AllGiveClean(env, a, s.pending, data);
    var s2 := Answer(env, s1, true, data);
    hide AnswerAll, GivesClean;
    assert s2.log == AnswerAll(env, a, s.pending, data).log;
    var t := Promote(s2, lost);
    var more := if s2.queued == [] then [] else
      Losses(WithFormat(s2.queued, s2.queued[0].format), lost) + [Requested(s2.queued[0].format)];
    if s2.queued != [] { LossesQuiet(WithFormat(s2.queued, s2.queued[0].format), lost); }
    assert t.log == s2.log + more;
    AfterReceived(s.log, Received(true, data), s2.log, more);
    forall i | i in t.log[|s.log|..] && !i.Provided? ensures GivesClean(s.pending, i) { NotGiven(s.pending, i); }
  }

  lemma AfterReceived(log: seq<Item>, i: Item, answered: seq<Item>, more: seq<Item>)
    requires log + [i] <= answered
    ensures log <= answered + more && (answered + more)[|log|..] == [i] + answered[|log + [i]|..] + more
  {
    assert answered == log + [i] + answered[|log| + 1..];
  }

  lemma NotGiven(es: seq<Entry>, i: Item)
    ensures !i.Provided? ==> GivesClean(es, i)
  {}

  /** The whole of a response to a request that waits alone. */
  lemma {:induction false} LoneResponse(env: Env, s: State, e: Entry, data: Bytes, src: uint32, dst: uint32, text: bool)
    requires s.pending == [e] && s.queued == [] && RawKeys(s.cachedRawData) && RoutedAs(env, e, src, dst, text)
    ensures var t := Step(env, s, DataResponse(true, data, {}));
      var hit := if e.raw then None else CachedIn(s.cachedData, dst);
      var full := if hit.Some? then hit else env.convert(src, data, dst);
      && t.cachedRawData == (if data != [] && src != 0 then s.cachedRawData[src := data] else s.cachedRawData)
      && t.system == (if data != [] && env.accepts(src, data) then Some((src, data)) else s.system)
      && t.pending == [] && t.queued == [] && t.servers == s.servers
      && if data == [] || !env.accepts(src, data) then t.log == s.log + [Received(true, data), Notified(e.id, e.property)]
         else if full.None? then t.log == s.log + [Received(true, data), Notified(e.id, 0)]
         else exists payload ::
           && Trimmed(text, payload, full.value)
           && t.log == s.log + [Received(true, data)] + Given(e.id, e.property, dst, payload)
           && t.cachedData == if hit.Some? then s.cachedData else s.cachedData[0x1_0000_0000 + dst := payload]
  {
    var a := Answering(s.cachedData, s.cachedRawData, s.system, false, false, s.log + [Received(true, data)]);
    AnswerOneExactly(env, a, e, data, src, dst, text);
    AnswerOneCached(env, a, e, data, src, dst, text);
    hide AnswerOne, RoutedAs, Trimmed, Given;
    var b := AnswerOne(env, a, e, data);
    assert s.pending[1..] == [];
    assert AnswerAll(env, a, [e], data) == AnswerAll(env, b, [], data) == b;
  }

  /** A failing response refuses every pending request, in their order. */
  lemma FailedResponse(env: Env, s: State, data: Bytes)
    requires s.queued == []
    ensures var t := Step(env, s, DataResponse(false, data, {}));
      && t == s.(pending := [], log := t.log) && |t.log| == |s.log| + 1 + |s.pending|
      && t.log[..|s.log| + 1] == s.log + [Received(false, data)]
      && forall k :: 0 <= k < |s.pending| ==> t.log[|s.log| + 1 + k] == Notified(s.pending[k].id, 0)
  {}

  // ---- format lists and local data

  /** A server format list drops every waiting request and empties both caches and the converter. */
  lemma ServerListExactly(env: Env, s: State, formats: seq<ServerFormat>)
    ensures var t := Step(env, s, ServerFormatList(formats));
      && t == State(formats + [ServerFormat(0, None)], [], [], map[], map[], None, s.nextId, t.log)
      && |t.log| == |s.log| + |s.pending| + |s.queued| + 2 && t.log[..|s.log| + 1] == s.log + [Reset]
      && (forall k :: 0 <= k < |s.pending| ==> t.log[|s.log| + 1 + k] == Dropped(s.pending[k].id))
      && (forall k :: 0 <= k < |s.queued| ==> t.log[|s.log| + 1 + |s.pending| + k] == Dropped(s.queued[k].id))
      && t.log[|t.log| - 1] == Cleared
  {
    var t := Step(env, s, ServerFormatList(formats));
    DropsLog(s.log, s.pending, s.queued);
    hide Drops;
  }

  lemma DropsLog(log: seq<Item>, pending: seq<Entry>, queued: seq<Entry>)
    ensures var all, n := log + ([Reset] + Drops(pending) + Drops(queued)) + [Cleared], |log| + 1;
      && |all| == n + |pending| + |queued| + 1 && all[..n] == log + [Reset] && all[|all| - 1] == Cleared
      && (forall k :: 0 <= k < |pending| ==> all[n + k] == Dropped(pending[k].id))
      && (forall k :: 0 <= k < |queued| ==> all[n + |pending| + k] == Dropped(queued[k].id))
  {
    var all := log + ([Reset] + Drops(pending) + Drops(queued)) + [Cleared];
    assert all == (log + [Reset]) + Drops(pending) + Drops(queued) + [Cleared];
    forall k | 0 <= k < |pending| ensures all[|log| + 1 + k] == Dropped(pending[k].id) {
      assert all[|log| + 1 + k] == Drops(pending)[k];
    }
    forall k | 0 <= k < |queued| ensures all[|log| + 1 + |pending| + k] == Dropped(queued[k].id) {
      assert all[|log| + 1 + |pending| + k] == Drops(queued)[k];
    }
  }

  /** Our own format list empties the caches and the converter; local data replaces what the converter holds. */
  lemma LocalChanges(env: Env, s: State, format: uint32, data: Bytes)
    ensures Step(env, s, ClientFormatList) == s.(cachedData := map[], cachedRawData := map[], system := None, log := s.log + [Cleared])
    ensures Step(env, s, LocalData(format, data)) == s.(system := if env.accepts(format, data) then Some((format, data)) else s.system)
  {}

  // ---- requests

  /** A server format matches a row: by the start of a name, or by the format when neither has a name. */
  predicate Matches(f: ServerFormat, c: ClientFormat) {
    if f.name.Some? && c.name.Some? then
      |f.name.value| <= |c.name.value| && c.name.value[..|f.name.value|] == f.name.value
    else f.name.None? && c.name.None? && f.id == c.formatToRequest
  }

  /** Row i is the first with this target that matches a server format, and format j the first that matches it. */
  predicate FirstPairAt(clients: seq<ClientFormat>, servers: seq<ServerFormat>, target: Atom, i: nat, j: nat) {
    && i < |clients| && j < |servers| && clients[i].atom == target && Matches(servers[j], clients[i])
    && (forall m, n :: 0 <= m < i && 0 <= n < |servers| && clients[m].atom == target ==> !Matches(servers[n], clients[m]))
    && (forall n :: 0 <= n < j ==> !Matches(servers[n], clients[i]))
  }

  lemma MatchesIs(f: ServerFormat, c: ClientFormat)
    ensures Matches(f, c) <==> FormatsEqual(f, c)
  {}

  lemma {:induction false} FirstEqualAt(servers: seq<ServerFormat>, c: ClientFormat, j: nat)
    requires j < |servers| && Matches(servers[j], c) && forall n :: 0 <= n < j ==> !Matches(servers[n], c)
    ensures FirstEqual(servers, c) == Some(servers[j])
  {
    MatchesIs(servers[0], c);
    hide Matches, FormatsEqual;
    if j > 0 { FirstEqualAt(servers[1..], c, j - 1); }
  }

  lemma NoneEqual(servers: seq<ServerFormat>, c: ClientFormat)
    requires forall n :: 0 <= n < |servers| ==> !Matches(servers[n], c)
    ensures FirstEqual(servers, c) == None
  {
    forall f | f in servers ensures !FormatsEqual(f, c) { MatchesIs(f, c); }
  }

  lemma {:induction false} FirstPairFound(clients: seq<ClientFormat>, servers: seq<ServerFormat>, target: Atom, i: nat, j: nat)
    requires FirstPairAt(clients, servers, target, i, j)
    ensures ServerFormatByAtom(clients, servers, target) == Some(servers[j])
  {
    hide Matches, FirstEqual;
    if i == 0 {
      FirstEqualAt(servers, clients[0], j);
    } else {
      if clients[0].atom == target { NoneEqual(servers, clients[0]); }
      assert forall m :: 0 <= m < i - 1 ==> clients[1..][m] == clients[m + 1];
      FirstPairFound(clients[1..], servers, target, i - 1, j);
    }
  }

  /** Some row with this target matches some server format. */
  predicate Announces(clients: seq<ClientFormat>, servers: seq<ServerFormat>, target: Atom) {
    exists c, f :: c in clients && f in servers && c.atom == target && Matches(f, c)
  }

  lemma AnnouncesIff(clients: seq<ClientFormat>, servers: seq<ServerFormat>, target: Atom)
    ensures Announces(clients, servers, target) <==> ServerFormatByAtom(clients, servers, target).Some?
    ensures Announces(clients, servers, target) ==> ClientFormatByAtom(clients, target).Some?
  {
    forall c, f ensures Matches(f, c) <==> FormatsEqual(f, c) { MatchesIs(f, c); }
    hide Matches, FormatsEqual;
  }

  /** TIMESTAMP and TARGETS are answered at once, also for our own requests, and anything not announced is refused. */
  lemma AnsweredOrRefused(env: Env, s: State, ev: Event)
    requires ev.SelectionRequest? && ev.ours
    ensures var id, t := s.nextId, Step(env, s, ev);
      var said := s.log + [Asked(id, ev.target, ev.rawFormat)];
      && (ev.target == env.timestampAtom || ev.target == env.targetsAtom ==>
            t == s.(nextId := id + 1,
                    log := said + if ev.property == 0 then [Notified(id, 0)] else [Described(id), Notified(id, ev.property)]))
      && (ev.target != env.timestampAtom && ev.target != env.targetsAtom
          && (ev.fromSelf || !Announces(env.clients, s.servers, ev.target)) ==>
            t == s.(nextId := id + 1, log := said + [Notified(id, 0)]))
  {
    AnnouncesIff(env.clients, s.servers, ev.target);
    hide AskFor, Announces, ServerFormatByAtom, ClientFormatByAtom;
  }

  /** Where cached raw data is converted from and to for a row, and whether it is text. */
  predicate RowRoutedAs(env: Env, c: ClientFormat, src: uint32, dst: uint32, text: bool) {
    && (c.name.None? ==> src == c.formatToRequest && dst == c.localFormat && (text <==> src == 1 || src == 7 || src == 13))
    && (c.name == Some("HTML Format") ==> src == env.htmlFormat && dst == env.htmlMime && text)
    && (c.name == Some("FileGroupDescriptorW") ==> src == env.fileGroup && dst == c.localFormat && text)
    && (c.name.Some? && c.name.value != "HTML Format" && c.name.value != "FileGroupDescriptorW" ==>
          src == 0 && dst == 0 && !text)
  }

  lemma RowRouteIs(env: Env, c: ClientFormat, src: uint32, dst: uint32, text: bool)
    ensures RowRoutedAs(env, c, src, dst, text) <==> SrcFormat(env, c) == (src, text) && DstFormat(env, c) == dst
  {}

  /** A conversion of raw data that an earlier response left in the cache. */
  function FromRaw(env: Env, s: State, src: uint32, dst: uint32): Option<Bytes> {
    if src == 0 || src !in s.cachedRawData || s.cachedRawData[src] == [] || !env.accepts(src, s.cachedRawData[src]) then None
    else env.convert(src, s.cachedRawData[src], dst)
  }

  /** The converter holds the raw data whose conversion was tried, even if that failed. */
  function HeldAfter(env: Env, s: State, src: uint32): Option<(uint32, Bytes)> {
    if src == 0 || src !in s.cachedRawData || s.cachedRawData[src] == [] || !env.accepts(src, s.cachedRawData[src]) then s.system
    else Some((src, s.cachedRawData[src]))
  }

  /** The request waits: it starts a data request, joins the group that waits for its format, or is queued. */
  predicate StartsToWait(s: State, t: State, e: Entry) {
    if s.pending == [] then
      t.pending == [e] && t.queued == s.queued && t.log == s.log + [Requested(e.format)]
    else if forall p | p in s.pending :: p.format == e.format then
      t.pending == s.pending + [e] && t.queued == s.queued && t.log == s.log
    else
      t.pending == s.pending && t.queued == s.queued + [e] && t.log == s.log
  }

  /**
   Request e is given the cached conversion, or a new one of cached raw data up to the first NUL if that is text;
   and else it waits, or is refused exactly when it cannot be appended.
  */
  predicate HandledAs(env: Env, s: State, t: State, e: Entry, appendOk: bool, src: uint32, dst: uint32, text: bool) {
    var hit := if e.raw then None else CachedIn(s.cachedData, dst);
    var full := if e.raw then None else FromRaw(env, s, src, dst);
    && t.system == (if e.raw || hit.Some? then s.system else HeldAfter(env, s, src))
    && if hit.Some? then
      t == s.(log := s.log + Given(e.id, e.property, dst, hit.value))
    else if full.Some? then
      var payload := if 0x1_0000_0000 + dst in t.cachedData then t.cachedData[0x1_0000_0000 + dst] else [];
      && Trimmed(text, payload, full.value)
      && t.cachedData == s.cachedData[0x1_0000_0000 + dst := payload]
      && t.pending == s.pending && t.queued == s.queued && t.log == s.log + Given(e.id, e.property, dst, payload)
    else
      && t.cachedData == s.cachedData
      && if appendOk then StartsToWait(s, t, e)
         else t.pending == s.pending && t.queued == s.queued && t.log == s.log + [Notified(e.id, 0)]
  }

  /**
   Any other request is handled by the first row of its target and the first match among the announced formats;
   it is for raw data, and waits for the raw format it names, exactly if that match is the raw one.
  */
  lemma {:induction false} AnnouncedRequest(env: Env, s: State, ev: Event, i: nat, j: nat, k: nat, src: uint32, dst: uint32, text: bool)
    requires ev.SelectionRequest? && ev.ours && !ev.fromSelf && RawKeys(s.cachedRawData)
    requires ev.target != env.timestampAtom && ev.target != env.targetsAtom
    requires FirstPairAt(env.clients, s.servers, ev.target, i, j) && FirstRowAt(env.clients, ev.target, k)
    requires RowRoutedAs(env, env.clients[k], src, dst, text)
    ensures var id, t, raw := s.nextId, Step(env, s, ev), s.servers[j].id == 0 && ev.rawFormat.Some?;
      var said := s.(nextId := id + 1, log := s.log + [Asked(id, ev.target, ev.rawFormat)]);
      var e := Entry(id, ev.target, ev.property, if raw then ev.rawFormat.value else s.servers[j].id, dst,
                     env.clients[k].name, raw);
      && t.nextId == id + 1 && t.servers == s.servers && t.cachedRawData == s.cachedRawData
      && HandledAs(env, said, t, e, ev.appendOk, src, dst, text)
  {
    FirstPairFound(env.clients, s.servers, ev.target, i, j);
    FirstRowFound(env.clients, ev.target, k);
    RowRouteIs(env, env.clients[k], src, dst, text);
    StepAsks(env, s, ev, s.servers[j], env.clients[k]);
    hide Step, AskFor, HandledAs, DstFormat, SrcFormat, FirstPairAt, FirstRowAt, ServerFormatByAtom, ClientFormatByAtom;
    var said := s.(nextId := s.nextId + 1, log := s.log + [Asked(s.nextId, ev.target, ev.rawFormat)]);
    AskExactly(env, said, s.nextId, s.servers[j], env.clients[k], ev, src, dst, text);
  }

  lemma StepAsks(env: Env, s: State, ev: Event, f: ServerFormat, c: ClientFormat)
    requires ev.SelectionRequest? && ev.ours && !ev.fromSelf
    requires ev.target != env.timestampAtom && ev.target != env.targetsAtom
    requires ServerFormatByAtom(env.clients, s.servers, ev.target) == Some(f) && ClientFormatByAtom(env.clients, ev.target) == Some(c)
    ensures Step(env, s, ev)
         == AskFor(env, s.(nextId := s.nextId + 1, log := s.log + [Asked(s.nextId, ev.target, ev.rawFormat)]), s.nextId, f, c, ev)
  {
    hide AskFor, ServerFormatByAtom, ClientFormatByAtom;
  }

  lemma {:induction false} AskExactly(env: Env, s: State, id: nat, f: ServerFormat, c: ClientFormat, ev: Event, src: uint32, dst: uint32, text: bool)
    requires ev.SelectionRequest? && RawKeys(s.cachedRawData) && RowRoutedAs(env, c, src, dst, text)
    ensures var t, e := AskFor(env, s, id, f, c, ev), AskEntry(env, id, f, c, ev);
      && t.nextId == s.nextId && t.servers == s.servers && t.cachedRawData == s.cachedRawData
      && HandledAs(env, s, t, e, ev.appendOk, src, dst, text)
  {
    RowRouteIs(env, c, src, dst, text);
    var e := AskEntry(env, id, f, c, ev);
    LookupExactly(env, s, c, e.format, e.raw, src, dst, text);
    AskUnfolds(env, s, id, f, c, ev);
    var (s1, found) := Lookup(env, s, c, e.format, e.raw);
    if found.None? { EnqueueWaits(s, s1, e, ev.appendOk); }
    hide AskFor, Lookup, Enqueue, StartsToWait, RowRoutedAs, SrcFormat, Trimmed, CachedIn, FromRaw, Provision, Given, RawKeys;
  }

  lemma EnqueueWaits(s: State, s1: State, e: Entry, appendOk: bool)
    requires s1.pending == s.pending && s1.queued == s.queued && s1.log == s.log
    ensures var t := Enqueue(s1, e, appendOk);
      && t == s1.(pending := t.pending, queued := t.queued, log := t.log)
      && if appendOk then StartsToWait(s, t, e)
         else t.pending == s.pending && t.queued == s.queued && t.log == s.log + [Notified(e.id, 0)]
  {}

  lemma LookupExactly(env: Env, s: State, c: ClientFormat, format: uint32, raw: bool, src: uint32, dst: uint32, text: bool)
    requires RawKeys(s.cachedRawData) && RowRoutedAs(env, c, src, dst, text)
    ensures var (t, found) := Lookup(env, s, c, format, raw);
      var hit := if raw then None else CachedIn(s.cachedData, dst);
      var full := if raw then None else FromRaw(env, s, src, dst);
      && t == s.(system := if raw || hit.Some? then s.system else HeldAfter(env, s, src), cachedData := t.cachedData)
      && if hit.Some? then found == hit && t == s
         else if full.Some? then
           && found.Some? && Trimmed(text, found.value, full.value)
           && t.cachedData == s.cachedData[0x1_0000_0000 + dst := found.value]
         else found == None && t.cachedData == s.cachedData
  {
    RowRouteIs(env, c, src, dst, text);
    var full := FromRaw(env, s, src, dst);
    if full.Some? { CutTrims(text, full.value); }
    hide SrcFormat, DstFormat, Cut, UntilNul, RowRoutedAs;
  }
}
