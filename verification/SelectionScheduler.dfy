/**
 Local clipboard requests turned into server requests (client/X11/xf_cliprdr.c).

 A selection request is answered from a cache, or joins the group waiting for the one data
 request that is in flight, or queues behind it. The state functions below say what each event
 does; class XfClipboard is the handlers that the events run, and is proved against them.
*/
module SelectionScheduler {
  import opened Common
  import opened ClipboardFormats

  /** What the session fixes: the local format table, the format registry, the converter. */
  datatype Env = Env(
    clients: seq<ClientFormat>,
    timestampAtom: Atom,
    targetsAtom: Atom,
    htmlFormat: uint32,
    htmlMime: uint32,
    fileGroup: uint32,
    uriList: uint32,
    accepts: (uint32, Bytes) -> bool,
    convert: (uint32, Bytes, uint32) -> Option<Bytes>
  )

  /** A selection request that waits for the server. */
  datatype Entry = Entry(id: nat, target: Atom, property: Atom, format: uint32, localFormat: uint32,
                         name: Option<string>, raw: bool)

  /** One line of the history of a session. */
  datatype Item =
    | Asked(id: nat, target: Atom, raw: Option<uint32>)  // a selection request to us, with its raw format
    | Described(id: nat)                      // a TIMESTAMP or TARGETS property was written
    | Provided(id: nat, format: uint32, data: Bytes)  // contents in a local format were written to the requestor
    | Notified(id: nat, property: Atom)       // the SelectionNotify that answers a request
    | Requested(format: uint32)               // data request sent to the server
    | Received(ok: bool, data: Bytes)         // data response from the server
    | Dropped(id: nat)                        // a waiting request discarded without an answer
    | Reset                                   // a server format list arrived
    | Cleared                                 // both caches were emptied

  datatype State = State(
    servers: seq<ServerFormat>,
    pending: seq<Entry>,
    queued: seq<Entry>,
    cachedData: map<nat, Bytes>,
    cachedRawData: map<nat, Bytes>,
    system: Option<(uint32, Bytes)>,
    nextId: nat,
    log: seq<Item>
  )

  const INITIAL := State([], [], [], map[], map[], None, 0, [])

  datatype Event =
    | SelectionRequest(ours: bool, fromSelf: bool, target: Atom, property: Atom,
                       rawFormat: Option<uint32>, appendOk: bool)
    | DataResponse(ok: bool, data: Bytes, lost: set<nat>)
    | ServerFormatList(formats: seq<ServerFormat>)
    | ClientFormatList
    | LocalData(format: uint32, data: Bytes)

  // ---- hash tables: keys are pointers, and a null key is refused

  function Slot(format: uint32): nat { 0x1_0000_0000 + format }

  function Get(table: map<nat, Bytes>, key: nat): Option<Bytes> {
    if key != 0 && key in table then Some(table[key]) else None
  }

  function Insert(table: map<nat, Bytes>, key: nat, value: Bytes): map<nat, Bytes> {
    if key != 0 then table[key := value] else table
  }

  // ---- format choices

  predicate IsText(format: uint32) { format == CF_TEXT || format == CF_OEMTEXT || format == CF_UNICODETEXT }

  /** get_dst_format_id_for_local_request */
  function DstFormat(env: Env, c: ClientFormat): uint32 {
    if c.name.None? then c.localFormat
    else if c.name.value == HTML_FORMAT then env.htmlMime
    else if c.name.value == FILE_GROUP then c.localFormat
    else 0
  }

  /** get_src_format_info_for_local_request: source format and whether the data is NUL-terminated */
  function SrcFormat(env: Env, c: ClientFormat): (uint32, bool) {
    if c.name.None? then (c.formatToRequest, IsText(c.formatToRequest))
    else if c.name.value == HTML_FORMAT then (env.htmlFormat, true)
    else if c.name.value == FILE_GROUP then (env.fileGroup, true)
    else (0, false)
  }

  /** The conversion used when a response arrives: source, destination, NUL-terminated. */
  function ReplyFormats(env: Env, e: Entry): (uint32, uint32, bool) {
    if e.raw then (CF_RAW, CF_RAW, false)
    else if e.name.None? then (e.format, e.localFormat, IsText(e.format))
    else if e.name.value == HTML_FORMAT then (env.htmlFormat, env.htmlMime, true)
    else if e.name.value == FILE_GROUP then
      var c := ClientFormatByAtom(env.clients, e.target);
      (env.fileGroup, if c.None? then env.uriList else c.value.localFormat, true)
    else (0, e.localFormat, false)
  }

  function Cut(nul: bool, data: Bytes): Bytes { if nul then UntilNul(data) else data }

  // ---- selection requests

  function Say(s: State, items: seq<Item>): State { s.(log := s.log + items) }

  /** Writing to property None is skipped; the notify is sent either way. */
  function Provision(id: nat, property: Atom, format: uint32, data: Bytes): seq<Item> {
    (if property != NO_ATOM then [Provided(id, format, data)] else []) + [Notified(id, property)]
  }

  /** A cached entry for the request, converting cached raw data when that is all there is. */
  function Lookup(env: Env, s: State, c: ClientFormat, format: uint32, raw: bool): (State, Option<Bytes>) {
    var dst := DstFormat(env, c);
    if raw then (s, Get(s.cachedRawData, Slot(format)))
    else if Get(s.cachedData, Slot(dst)).Some? then (s, Get(s.cachedData, Slot(dst)))
    else
      var (src, nul) := SrcFormat(env, c);
      var rawData := Get(s.cachedRawData, src);
      if rawData.None? || rawData.value == [] || !env.accepts(src, rawData.value) then (s, None)
      else
        var s1 := s.(system := Some((src, rawData.value)));
        match env.convert(src, rawData.value, dst)
        case None => (s1, None)
        case Some(full) =>
          (s1.(cachedData := Insert(s.cachedData, Slot(dst), Cut(nul, full))), Some(Cut(nul, full)))
  }

  /** Join the group in flight, queue behind it, or start a new data request. */
  function Enqueue(s: State, e: Entry, appendOk: bool): State {
    if !appendOk then Say(s, [Notified(e.id, NO_ATOM)])
    else if s.pending == [] then Say(s.(pending := [e]), [Requested(e.format)])
    else if exists p :: p in s.pending && p.format != e.format then s.(queued := s.queued + [e])
    else s.(pending := s.pending + [e])
  }

  function AskFor(env: Env, s: State, id: nat, f: ServerFormat, c: ClientFormat, ev: Event): State
    requires ev.SelectionRequest?
  {
    var raw := f.id == CF_RAW && ev.rawFormat.Some?;
    var format := if raw then ev.rawFormat.value else f.id;
    var (s1, hit) := Lookup(env, s, c, format, raw);
    if hit.Some? then Say(s1, Provision(id, ev.property, if raw then CF_RAW else DstFormat(env, c), hit.value))
    else Enqueue(s1, Entry(id, ev.target, ev.property, format, DstFormat(env, c), c.name, raw), ev.appendOk)
  }

  function Respond(env: Env, s: State, id: nat, ev: Event): State
    requires ev.SelectionRequest?
  {
    if ev.target == env.timestampAtom || ev.target == env.targetsAtom then
      Say(s, (if ev.property != NO_ATOM then [Described(id)] else []) + [Notified(id, ev.property)])
    else
      var f := ServerFormatByAtom(env.clients, s.servers, ev.target);
      var c := ClientFormatByAtom(env.clients, ev.target);
      if f.Some? && c.Some? && !ev.fromSelf then AskFor(env, s, id, f.value, c.value, ev)
      else Say(s, [Notified(id, NO_ATOM)])
  }

  function OnSelectionRequest(env: Env, s: State, ev: Event): State
    requires ev.SelectionRequest?
  {
    if !ev.ours then s
    else Respond(env, Say(s.(nextId := s.nextId + 1), [Asked(s.nextId, ev.target, ev.rawFormat)]), s.nextId, ev)
  }

  // ---- data responses

  /** The part of the state that answering one entry after another carries along. */
  datatype Answering = Answering(cachedData: map<nat, Bytes>, cachedRawData: map<nat, Bytes>,
                                 system: Option<(uint32, Bytes)>, loaded: bool, rawCached: bool, log: seq<Item>)

  function CacheRaw(env: Env, a: Answering, e: Entry, data: Bytes): Answering {
    var src := ReplyFormats(env, e).0;
    if data == [] || a.rawCached then a
    else a.(cachedRawData := Insert(a.cachedRawData, src, data), rawCached := src != 0)
  }

  function Load(env: Env, a: Answering, e: Entry, data: Bytes): Answering {
    var src := ReplyFormats(env, e).0;
    if a.loaded || !env.accepts(src, data) then a else a.(system := Some((src, data)), loaded := true)
  }

  function Converted(env: Env, system: Option<(uint32, Bytes)>, dst: uint32): Option<Bytes> {
    if system.None? then None else env.convert(system.value.0, system.value.1, dst)
  }

  /** Hands the loaded data, or a cached conversion of it, to one requestor. */
  function Deliver(env: Env, a: Answering, e: Entry): Answering {
    var (src, dst, nul) := ReplyFormats(env, e);
    var hit := if e.raw then Get(a.cachedRawData, Slot(src)) else Get(a.cachedData, Slot(dst));
    var full := if hit.Some? then hit else Converted(env, a.system, dst);
    if full.None? then a.(log := a.log + [Notified(e.id, NO_ATOM)]) else
    var payload := Cut(nul, full.value);
    a.(log := a.log + Provision(e.id, e.property, dst, payload),
       cachedData := if hit.Some? then a.cachedData else Insert(a.cachedData, Slot(dst), payload))
  }

  function AnswerOne(env: Env, a: Answering, e: Entry, data: Bytes): Answering {
    var a1 := CacheRaw(env, a, e, data);
    var a2 := if data == [] then a1 else Load(env, a1, e, data);
    if data == [] || !a2.loaded then a2.(log := a2.log + [Notified(e.id, e.property)]) else Deliver(env, a2, e)
  }

  function AnswerAll(env: Env, a: Answering, es: seq<Entry>, data: Bytes): Answering
    decreases |es|
  {
    if es == [] then a else AnswerAll(env, AnswerOne(env, a, es[0], data), es[1..], data)
  }

  function Refusals(es: seq<Entry>): seq<Item> {
    seq(|es|, i requires 0 <= i < |es| => Notified(es[i].id, NO_ATOM))
  }

  function Answer(env: Env, s: State, ok: bool, data: Bytes): State {
    if !ok then Say(s.(pending := []), Refusals(s.pending)) else
    var a := AnswerAll(env, Answering(s.cachedData, s.cachedRawData, s.system, false, false, s.log), s.pending, data);
    s.(pending := [], cachedData := a.cachedData, cachedRawData := a.cachedRawData, system := a.system, log := a.log)
  }

  function WithFormat(es: seq<Entry>, f: uint32): seq<Entry> {
    if es == [] then []
    else (if es[0].format == f then [es[0]] else []) + WithFormat(es[1..], f)
  }

  function WithoutFormat(es: seq<Entry>, f: uint32): seq<Entry> {
    if es == [] then []
    else (if es[0].format != f then [es[0]] else []) + WithoutFormat(es[1..], f)
  }

  function Surviving(es: seq<Entry>, lost: set<nat>): seq<Entry> {
    if es == [] then []
    else (if es[0].id !in lost then [es[0]] else []) + Surviving(es[1..], lost)
  }

  function Drops(es: seq<Entry>): seq<Item> {
    seq(|es|, i requires 0 <= i < |es| => Dropped(es[i].id))
  }

  function Losses(es: seq<Entry>, lost: set<nat>): seq<Item> {
    if es == [] then []
    else (if es[0].id in lost then [Dropped(es[0].id)] else []) + Losses(es[1..], lost)
  }

  /** The next format group leaves the queue; "lost" are the entries whose append fails. */
  function Promote(s: State, lost: set<nat>): State {
    if s.queued == [] then s else
    var f := s.queued[0].format;
    var group := WithFormat(s.queued, f);
    Say(s.(pending := s.pending + Surviving(group, lost), queued := WithoutFormat(s.queued, f)),
        Losses(group, lost) + [Requested(f)])
  }

  function OnDataResponse(env: Env, s: State, ok: bool, data: Bytes, lost: set<nat>): State {
    Promote(Answer(env, Say(s, [Received(ok, data)]), ok, data), lost)
  }

  lemma PromoteStep(es: seq<Entry>, f: uint32, lost: set<nat>)
    requires es != []
    ensures var e, rest := es[0], es[1..];
      && WithoutFormat(es, f) == (if e.format != f then [e] else []) + WithoutFormat(rest, f)
      && Surviving(WithFormat(es, f), lost)
      == (if e.format == f && e.id !in lost then [e] else []) + Surviving(WithFormat(rest, f), lost)
      && Losses(WithFormat(es, f), lost)
      == (if e.format == f && e.id in lost then [Dropped(e.id)] else []) + Losses(WithFormat(rest, f), lost)
  {
    var group := WithFormat(es[1..], f);
    assert ([es[0]] + group)[1..] == group;
    assert [] + group == group;
  }

  lemma PromoteNone(f: uint32, lost: set<nat>)
    ensures WithoutFormat([], f) == [] && Surviving(WithFormat([], f), lost) == [] && Losses(WithFormat([], f), lost) == []
  {}

  // ---- format lists

  function ClearCaches(s: State): State {
    Say(s.(cachedData := map[], cachedRawData := map[], system := None), [Cleared])
  }

  function OnServerFormatList(s: State, formats: seq<ServerFormat>): State {
    ClearCaches(Say(s.(pending := [], queued := [], servers := formats + [ServerFormat(CF_RAW, None)]),
                    [Reset] + Drops(s.pending) + Drops(s.queued)))
  }

  function Step(env: Env, s: State, ev: Event): State {
    match ev
    case SelectionRequest(_, _, _, _, _, _) => OnSelectionRequest(env, s, ev)
    case DataResponse(ok, data, lost) => OnDataResponse(env, s, ok, data, lost)
    case ServerFormatList(formats) => OnServerFormatList(s, formats)
    case ClientFormatList => ClearCaches(s)
    case LocalData(format, data) => if env.accepts(format, data) then s.(system := Some((format, data))) else s
  }

  function Run(env: Env, s: State, evs: seq<Event>): State
    decreases |evs|
  {
    if evs == [] then s else Run(env, Step(env, s, evs[0]), evs[1..])
  }

  // ---- the handlers

  class XfClipboard {
    const env: Env
    var serverFormats: seq<ServerFormat>
    var pendingResponses: seq<Entry>
    var queuedResponses: seq<Entry>
    var cachedData: map<nat, Bytes>
    var cachedRawData: map<nat, Bytes>
    var system: Option<(uint32, Bytes)>
    var nextId: nat                  // the identity of the next selection request
    ghost var log: seq<Item>

    ghost function View(): State
      reads this
    {
      State(serverFormats, pendingResponses, queuedResponses, cachedData, cachedRawData, system, nextId, log)
    }

    constructor (env: Env)
      ensures this.env == env && View() == INITIAL
    {
      this.env := env;
      serverFormats, pendingResponses, queuedResponses := [], [], [];
      cachedData, cachedRawData, system := map[], map[], None;
      nextId, log := 0, [];
    }

    method SetSystem(format: uint32, data: Bytes) returns (ok: bool)
      modifies this`system
      ensures ok == env.accepts(format, data)
      ensures system == if ok then Some((format, data)) else old(system)
    {
      ok := env.accepts(format, data);
      if ok { system := Some((format, data)); }
    }

    /** "format" is the local format of the contents. */
    method ProvideData(id: nat, property: Atom, ghost format: uint32, data: Bytes)
      modifies this`log
      ensures log == old(log) + if property != NO_ATOM then [Provided(id, format, data)] else []
    {
      if property != NO_ATOM { log := log + [Provided(id, format, data)]; }
    }

    method LookupCache(c: ClientFormat, format: uint32, raw: bool) returns (hit: Option<Bytes>)
      modifies this
      ensures (View(), hit) == Lookup(env, old(View()), c, format, raw)
    {
      var dst := DstFormat(env, c);
      hit := if raw then Get(cachedRawData, Slot(format)) else Get(cachedData, Slot(dst));
      if hit.None? && !raw {
        var (src, nul) := SrcFormat(env, c);
        var rawData := Get(cachedRawData, src);
        if rawData.Some? && rawData.value != [] {
          var ok := SetSystem(src, rawData.value);
          if ok {
            var full := env.convert(src, rawData.value, dst);
            if full.Some? {
              var data := if nul then UntilNul(full.value) else full.value;
              cachedData := Insert(cachedData, Slot(dst), data);
              hit := Some(data);
            }
          }
        }
      }
    }

    /** Returns whether the answer is delayed until the server has answered. */
    method QueueRequest(e: Entry, appendOk: bool) returns (delayed: bool)
      modifies this`pendingResponses, this`queuedResponses, this`log
      ensures delayed == appendOk
      ensures if delayed then View() == Enqueue(old(View()), e, appendOk) else View() == old(View())
    {
      if !appendOk { return false; }
      if |pendingResponses| > 0 {
        var shouldQueue := false;
        for i := 0 to |pendingResponses|
          invariant shouldQueue <==> exists k :: 0 <= k < i && pendingResponses[k].format != e.format
        {
          if pendingResponses[i].format != e.format { shouldQueue := true; }
        }
        if shouldQueue {
          queuedResponses := queuedResponses + [e];
        } else {
          pendingResponses := pendingResponses + [e];
        }
      } else {
        pendingResponses := [e];
        log := log + [Requested(e.format)];
      }
      return true;
    }

    /** The branch for a target that stands for a server format. */
    method ProcessFormatRequest(id: nat, f: ServerFormat, c: ClientFormat, ev: Event)
      returns (delayed: bool, property: Atom)
      requires ev.SelectionRequest?
      modifies this
      ensures (if delayed then View() else Say(View(), [Notified(id, property)])) == AskFor(env, old(View()), id, f, c, ev)
    {
      var raw := f.id == CF_RAW && ev.rawFormat.Some?;
      var format := if raw then ev.rawFormat.value else f.id;
      var hit := LookupCache(c, format, raw);
      delayed, property := false, NO_ATOM;
      if hit.Some? {
        ghost var before := log;
        property := ev.property;
        ghost var dst := if raw then CF_RAW else DstFormat(env, c);
        ProvideData(id, property, dst, hit.value);
        assert log + [Notified(id, property)] == before + Provision(id, property, dst, hit.value);
      } else {
        var e := Entry(id, ev.target, ev.property, format, DstFormat(env, c), c.name, raw);
        delayed := QueueRequest(e, ev.appendOk);
      }
    }

    method RespondTo(id: nat, ev: Event) returns (delayed: bool, property: Atom)
      requires ev.SelectionRequest?
      modifies this
      ensures (if delayed then View() else Say(View(), [Notified(id, property)])) == Respond(env, old(View()), id, ev)
    {
      delayed, property := false, NO_ATOM;
      if ev.target == env.timestampAtom || ev.target == env.targetsAtom {
        property := ev.property;
        if property != NO_ATOM { log := log + [Described(id)]; }
        assert log + [Notified(id, property)]
            == old(log) + ((if ev.property != NO_ATOM then [Described(id)] else []) + [Notified(id, ev.property)]);
      } else {
        var f := FindServerFormat(env.clients, serverFormats, ev.target);
        var c := FindClientFormat(env.clients, ev.target);
        if f.Some? && c.Some? && !ev.fromSelf {
          delayed, property := ProcessFormatRequest(id, f.value, c.value, ev);
        }
      }
    }

    method ProcessSelectionRequest(ev: Event) returns (handled: bool)
      requires ev.SelectionRequest?
      modifies this
      ensures handled == ev.ours
      ensures View() == OnSelectionRequest(env, old(View()), ev)
    {
      hide Respond;
      if !ev.ours { return false; }
      var id := nextId;
      nextId, log := nextId + 1, log + [Asked(id, ev.target, ev.rawFormat)];
      var delayed, property := RespondTo(id, ev);
      if !delayed { log := log + [Notified(id, property)]; }
      return true;
    }

    method RefuseAll()
      modifies this`pendingResponses, this`log
      ensures View() == Say(old(View()).(pending := []), Refusals(old(pendingResponses)))
    {
      ghost var n := 0;
      while |pendingResponses| > 0
        invariant n <= |old(pendingResponses)|
        invariant pendingResponses == old(pendingResponses)[n..]
        invariant log == old(log) + Refusals(old(pendingResponses)[..n])
        decreases |pendingResponses|
      {
        var e := pendingResponses[0];
        log := log + [Notified(e.id, NO_ATOM)];
        pendingResponses := pendingResponses[1..];
        n := n + 1;
      }
      assert old(pendingResponses)[..n] == old(pendingResponses);
    }

    ghost function Carried(loaded: bool, rawCached: bool): Answering
      reads this
    {
      Answering(cachedData, cachedRawData, system, loaded, rawCached, log)
    }

    method DeliverTo(e: Entry, ghost loaded: bool, ghost rawCached: bool) returns (property: Atom)
      modifies this`cachedData, this`log
      ensures Carried(loaded, rawCached).(log := log + [Notified(e.id, property)])
           == Deliver(env, old(Carried(loaded, rawCached)), e)
    {
      var (src, dst, nul) := ReplyFormats(env, e);
      var hit := if e.raw then Get(cachedRawData, Slot(src)) else Get(cachedData, Slot(dst));
      var full := if hit.Some? then hit else Converted(env, system, dst);
      if full.None? { return NO_ATOM; }
      var payload := if nul then UntilNul(full.value) else full.value;
      ProvideData(e.id, e.property, dst, payload);
      assert log + [Notified(e.id, e.property)] == old(log) + Provision(e.id, e.property, dst, payload);
      if hit.None? { cachedData := Insert(cachedData, Slot(dst), payload); }
      return e.property;
    }

    method AnswerEntry(e: Entry, data: Bytes, loaded0: bool, rawCached0: bool)
      returns (loaded: bool, rawCached: bool)
      modifies this`cachedData, this`cachedRawData, this`system, this`log
      ensures Carried(loaded, rawCached) == AnswerOne(env, old(Carried(loaded0, rawCached0)), e, data)
    {
      hide Deliver;
      loaded, rawCached := loaded0, rawCached0;
      var property := e.property;
      if data != [] {
        var src := ReplyFormats(env, e).0;
        if !rawCached {
          cachedRawData := Insert(cachedRawData, src, data);
          rawCached := src != 0;
        }
        if !loaded { loaded := SetSystem(src, data); }
        if loaded { property := DeliverTo(e, loaded, rawCached); }
      }
      log := log + [Notified(e.id, property)];
    }

    method AnswerPending(data: Bytes)
      modifies this
      ensures View() == Answer(env, old(View()), true, data)
    {
      var loaded, rawCached := false, false;
      ghost var a0 := Carried(false, false);
      while |pendingResponses| > 0
        invariant AnswerAll(env, a0, old(pendingResponses), data)
               == AnswerAll(env, Carried(loaded, rawCached), pendingResponses, data)
        invariant serverFormats == old(serverFormats) && queuedResponses == old(queuedResponses) && nextId == old(nextId)
        decreases |pendingResponses|
      {
        loaded, rawCached := AnswerEntry(pendingResponses[0], data, loaded, rawCached);
        pendingResponses := pendingResponses[1..];
      }
    }

    /** One append to the pending list; a failed one loses the entry. */
    method MoveToPending(e: Entry, lost: set<nat>)
      modifies this`pendingResponses, this`log
      ensures pendingResponses == old(pendingResponses) + if e.id !in lost then [e] else []
      ensures log == old(log) + if e.id in lost then [Dropped(e.id)] else []
    {
      if e.id in lost {
        log := log + [Dropped(e.id)];
      } else {
        pendingResponses := pendingResponses + [e];
      }
    }

    /** Moves a format's group to the pending list, editing the queue in place. */
    method MoveGroup(f: uint32, lost: set<nat>)
      modifies this`pendingResponses, this`queuedResponses, this`log
      ensures queuedResponses == old(WithoutFormat(queuedResponses, f))
      ensures pendingResponses == old(pendingResponses + Surviving(WithFormat(queuedResponses, f), lost))
      ensures log == old(log + Losses(WithFormat(queuedResponses, f), lost))
    {
      hide WithFormat, WithoutFormat, Surviving, Losses;
      var index := 0;
      ghost var todo, kept := queuedResponses, [];
      while index < |queuedResponses|
        invariant 0 <= index <= |queuedResponses| && index == |kept|
        invariant queuedResponses == kept + todo
        invariant old(WithoutFormat(queuedResponses, f)) == kept + WithoutFormat(todo, f)
        invariant old(pendingResponses + Surviving(WithFormat(queuedResponses, f), lost))
               == pendingResponses + Surviving(WithFormat(todo, f), lost)
        invariant old(log + Losses(WithFormat(queuedResponses, f), lost)) == log + Losses(WithFormat(todo, f), lost)
        decreases |todo|
      {
        var next := queuedResponses[index];
        assert next == todo[0];
        PromoteStep(todo, f, lost);
        if next.format == f {
          queuedResponses := queuedResponses[..index] + queuedResponses[index + 1..];
          MoveToPending(next, lost);
        } else {
          kept := kept + [next];
          index := index + 1;
        }
        todo := todo[1..];
      }
      assert todo == [];
      PromoteNone(f, lost);
    }

    method PromoteNext(lost: set<nat>)
      modifies this`pendingResponses, this`queuedResponses, this`log
      ensures View() == Promote(old(View()), lost)
    {
      if |queuedResponses| == 0 { return; }
      var f := queuedResponses[0].format;
      ghost var losses := Losses(WithFormat(queuedResponses, f), lost);
      MoveGroup(f, lost);
      assert old(log) + (losses + [Requested(f)]) == log + [Requested(f)];
      log := log + [Requested(f)];
    }

    method ServerFormatDataResponse(ok: bool, data: Bytes, lost: set<nat>)
      modifies this
      ensures View() == OnDataResponse(env, old(View()), ok, data, lost)
    {
      log := log + [Received(ok, data)];
      if ok {
        AnswerPending(data);
      } else {
        RefuseAll();
      }
      PromoteNext(lost);
    }

    method ClearCachedData()
      modifies this`cachedData, this`cachedRawData, this`system, this`log
      ensures View() == ClearCaches(old(View()))
    {
      cachedData, cachedRawData, system := map[], map[], None;
      log := log + [Cleared];
    }

    method ServerFormatListReceived(formats: seq<ServerFormat>)
      modifies this
      ensures View() == OnServerFormatList(old(View()), formats)
    {
      log := log + ([Reset] + Drops(pendingResponses) + Drops(queuedResponses));
      pendingResponses, queuedResponses := [], [];
      ClearCachedData();
      serverFormats := formats + [ServerFormat(CF_RAW, None)];
    }
  }
}
