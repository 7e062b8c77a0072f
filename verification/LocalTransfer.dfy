/**
 Server requests for the local clipboard (client/X11/xf_cliprdr.c): one request is outstanding at a
 time, its data comes from another X11 client at once or in INCR batches, and is converted and sent.
*/
module LocalTransfer {
  import opened Common
  import opened ClipboardFormats

  const NO_REQUEST: uint32 := 0xFFFF_FFFF

  datatype Env = Env(
    clients: seq<ClientFormat>,
    htmlFormat: uint32,
    fileGroup: uint32,
    accepts: (uint32, Bytes) -> bool,
    convert: (uint32, Bytes, uint32) -> Option<Bytes>,
    serializeFiles: Bytes -> Option<Bytes>
  )

  datatype Item =
    | Asked(format: uint32)                            // data request from the server
    | Handed(src: uint32, data: Bytes, dst: uint32)    // local data given to the converter
    | Answered(ok: bool, data: Bytes)                  // data response to the server
    | Announced                                        // client format list sent to the server

  /** "buffer" is incr_data up to incr_data_length, and None while it was never allocated. */
  datatype State = State(requested: uint32, incrStarts: bool, buffer: Option<Bytes>,
                         atoms: seq<Atom>, isImage: bool, log: seq<Item>)

  const INITIAL := State(NO_REQUEST, false, None, [], false, [])

  /** What the X server reports about the transfer property. */
  datatype Probe = Probe(ok: bool, total: nat, incr: bool, read: Option<Bytes>)

  datatype Event =
    | DataRequest(format: uint32, raw: bool)
    | DataNotify(target: Atom, probe: Probe)
    | PropertyNotify(probe: Probe)
    | FormatListChange(atoms: seq<Atom>, isImage: Option<bool>, fileOk: bool)
    | ServerFormatList

  /** The first available row for a format; any available image row stands in for HTML. */
  function AvailableIn(clients: seq<ClientFormat>, atoms: seq<Atom>, fetchImage: bool, format: uint32)
    : (r: Option<ClientFormat>)
    ensures r.Some? ==> r.value in clients && r.value.atom in atoms
    ensures r.Some? ==> r.value.formatToRequest == format || (fetchImage && r.value.isImage)
    ensures r.None? ==> forall c | c in clients :: c.atom in atoms ==> c.formatToRequest != format
  {
    if clients == [] then None
    else if clients[0].atom in atoms && ((fetchImage && clients[0].isImage) || clients[0].formatToRequest == format)
      then Some(clients[0])
    else AvailableIn(clients[1..], atoms, fetchImage, format)
  }

  function Available(env: Env, s: State, format: uint32): Option<ClientFormat> {
    AvailableIn(env.clients, s.atoms, s.isImage && format == env.htmlFormat, format)
  }

  function ResetLength(s: State): State { if s.buffer.None? then s else s.(buffer := Some([])) }

  function StopIncr(s: State): State { ResetLength(s).(incrStarts := false) }

  function Contents(s: State): Bytes { if s.buffer.None? then [] else s.buffer.value }

  /** No response is sent when nothing is outstanding. */
  function Respond(s: State, data: Option<Bytes>): State {
    if s.requested == NO_REQUEST then s
    else s.(requested := NO_REQUEST, log := s.log + [Answered(data.Some?, if data.Some? then data.value else [])])
  }

  function SourceFormat(f: ClientFormat): uint32 {
    if f.formatToRequest == CF_RAW then CF_RAW else f.localFormat
  }

  /** The converted data to send, if the conversion succeeds; file lists are serialized once more. */
  function Conversion(env: Env, f: ClientFormat, data: Bytes, dst: uint32): Option<Bytes> {
    var src := SourceFormat(f);
    var out := if env.accepts(src, data) then env.convert(src, data, dst) else None;
    if out.Some? && f.formatToRequest != 0 && f.formatToRequest == env.fileGroup
      then env.serializeFiles(out.value) else out
  }

  /** xf_cliprdr_process_requested_data; "data" is None for a null buffer */
  function Process(env: Env, s: State, hasData: bool, data: Option<Bytes>): State {
    if s.incrStarts && hasData then s else
    var s1 := ResetLength(s);
    var f := Available(env, s1, s1.requested);
    if !hasData || data.None? || f.None? then Respond(s1, None)
    else Respond(s1.(log := s1.log + [Handed(SourceFormat(f.value), data.value, s1.requested)]),
                 Conversion(env, f.value, data.value, s1.requested))
  }

  /** xf_cliprdr_get_requested_data */
  function GetData(env: Env, s: State, target: Atom, p: Probe): State {
    var f := Available(env, s, s.requested);
    if f.None? || f.value.atom != target || !p.ok then Respond(s, None)
    else if p.total == 0 && !s.incrStarts then Process(env, StopIncr(s), false, s.buffer)
    else if p.incr then Process(env, StopIncr(s).(incrStarts := true), true, s.buffer)
    else if p.total == 0 then Process(env, StopIncr(s), true, s.buffer)
    else if p.read.None? then Process(env, s, false, s.buffer)
    else
      var all := Contents(s) + p.read.value;
      Process(env, s.(buffer := Some(all)), true, Some(all))
  }

  function OnDataRequest(env: Env, s: State, format: uint32, raw: bool): State {
    var format' := if raw then CF_RAW else format;
    var s1 := s.(requested := format', log := s.log + [Asked(format')]);
    if Available(env, s, format').None? then Respond(s1, None) else s1
  }

  function OnFormatListChange(s: State, atoms: seq<Atom>, isImage: Option<bool>, fileOk: bool): State {
    var s1 := Respond(s.(isImage := if isImage.Some? then isImage.value else s.isImage), None);
    var s2 := StopIncr(s1).(atoms := atoms);
    if fileOk then s2.(log := s2.log + [Announced]) else s2
  }

  function Step(env: Env, s: State, ev: Event): State {
    match ev
    case DataRequest(format, raw) => OnDataRequest(env, s, format, raw)
    case DataNotify(target, p) => GetData(env, s, target, p)
    case PropertyNotify(p) =>
      var f := Available(env, s, s.requested);
      if s.incrStarts && f.Some? then GetData(env, s, f.value.atom, p) else s
    case FormatListChange(atoms, isImage, fileOk) => OnFormatListChange(s, atoms, isImage, fileOk)
    case ServerFormatList => StopIncr(s).(atoms := [])
  }

  function Run(env: Env, s: State, evs: seq<Event>): State
    decreases |evs|
  {
    if evs == [] then s else Run(env, Step(env, s, evs[0]), evs[1..])
  }

  // ---- the handlers

  class XfClipboard {
    const env: Env
    var requestedFormatId: uint32
    var incrStarts: bool
    var incrData: array?<byte>
    var incrDataLength: nat
    var clientAvailableFormatAtoms: seq<Atom>
    var isImageContent: bool
    ghost var log: seq<Item>

    ghost predicate Valid()
      reads this
    {
      if incrData == null then incrDataLength == 0 else incrDataLength <= incrData.Length
    }

    ghost function View(): State
      reads this, incrData
      requires Valid()
    {
      State(requestedFormatId, incrStarts, if incrData == null then None else Some(incrData[..incrDataLength]),
            clientAvailableFormatAtoms, isImageContent, log)
    }

    constructor (env: Env)
      ensures Valid() && this.env == env && View() == INITIAL
    {
      this.env := env;
      requestedFormatId, incrStarts, incrData, incrDataLength := NO_REQUEST, false, null, 0;
      clientAvailableFormatAtoms, isImageContent, log := [], false, [];
    }

    method FindAvailable(format: uint32) returns (r: Option<ClientFormat>)
      requires Valid()
      ensures r == Available(env, View(), format)
    {
      var fetchImage := isImageContent && format == env.htmlFormat;
      for i := 0 to |env.clients|
        invariant AvailableIn(env.clients, clientAvailableFormatAtoms, fetchImage, format)
               == AvailableIn(env.clients[i..], clientAvailableFormatAtoms, fetchImage, format)
      {
        var c := env.clients[i];
        if c.atom in clientAvailableFormatAtoms {
          if fetchImage && c.isImage { return Some(c); }
          if c.formatToRequest == format { return Some(c); }
        }
      }
      return None;
    }

    method SendDataResponse(data: Option<Bytes>)
      requires Valid()
      modifies this`requestedFormatId, this`log
      ensures Valid() && View() == Respond(old(View()), data)
    {
      if requestedFormatId == NO_REQUEST { return; }
      requestedFormatId := NO_REQUEST;
      log := log + [Answered(data.Some?, if data.Some? then data.value else [])];
    }

    /** Grows the buffer by one batch and keeps two zero bytes behind it. */
    method Append(data: Bytes)
      requires Valid()
      modifies this`incrData, this`incrDataLength
      ensures Valid() && incrData != null && fresh(incrData)
      ensures View() == old(View()).(buffer := Some(Contents(old(View())) + data))
      ensures incrData.Length == incrDataLength + 2
      ensures incrData[incrDataLength] == incrData[incrDataLength + 1] == 0
    {
      var n := incrDataLength;
      var grown := new byte[|data| + n + 2](i => 0);
      if incrData != null {
        forall i | 0 <= i < n { grown[i] := incrData[i]; }
      }
      forall i | 0 <= i < |data| { grown[n + i] := data[i]; }
      assert grown[..n + |data|] == Contents(old(View())) + data;
      incrData, incrDataLength := grown, n + |data|;
    }

    method StopIncrement()
      requires Valid()
      modifies this`incrStarts, this`incrDataLength
      ensures Valid() && View() == StopIncr(old(View()))
    {
      incrStarts, incrDataLength := false, 0;
    }

    method ProcessRequestedData(hasData: bool, data: Option<Bytes>)
      requires Valid()
      modifies this
      ensures Valid() && incrData == old(incrData) && View() == Process(env, old(View()), hasData, data)
    {
      if incrStarts && hasData { return; }
      incrDataLength := 0;
      var f := FindAvailable(requestedFormatId);
      if !hasData || data.None? || f.None? {
        SendDataResponse(None);
        return;
      }
      var src := if f.value.formatToRequest == CF_RAW then CF_RAW else f.value.localFormat;
      log := log + [Handed(src, data.value, requestedFormatId)];
      var out: Option<Bytes> := None;
      if env.accepts(src, data.value) { out := env.convert(src, data.value, requestedFormatId); }
      if out.Some? && f.value.formatToRequest != 0 && f.value.formatToRequest == env.fileGroup {
        out := env.serializeFiles(out.value);
      }
      SendDataResponse(out);
    }

    method GetRequestedData(target: Atom, p: Probe) returns (done: bool)
      requires Valid()
      modifies this
      ensures Valid() && View() == GetData(env, old(View()), target, p)
    {
      var f := FindAvailable(requestedFormatId);
      if f.None? || f.value.atom != target || !p.ok {
        SendDataResponse(None);
        return false;
      }
      hide Process;
      var hasData := false;
      var data := if incrData == null then None else Some(incrData[..incrDataLength]);
      if p.total == 0 && !incrStarts {
        StopIncrement();
      } else if p.incr {
        StopIncrement();
        incrStarts, hasData := true, true;
      } else if p.total == 0 {
        StopIncrement();
        hasData := true;
      } else if p.read.Some? {
        Append(p.read.value);
        hasData, data := true, Some(incrData[..incrDataLength]);
      }
      ProcessRequestedData(hasData, data);
      return true;
    }

    method ServerFormatDataRequest(format: uint32, raw: bool)
      requires Valid()
      modifies this
      ensures Valid() && View() == OnDataRequest(env, old(View()), format, raw)
    {
      var f := FindAvailable(if raw then CF_RAW else format);
      requestedFormatId := if raw then CF_RAW else format;
      log := log + [Asked(requestedFormatId)];
      if f.None? { SendDataResponse(None); }
    }

    method ProcessPropertyNotify(p: Probe)
      requires Valid()
      modifies this
      ensures Valid() && View() == Step(env, old(View()), PropertyNotify(p))
    {
      hide GetData;
      if incrStarts {
        var f := FindAvailable(requestedFormatId);
        if f.Some? { var _ := GetRequestedData(f.value.atom, p); }
      }
    }

    method ClearCachedData()
      requires Valid()
      modifies this`incrStarts, this`incrDataLength, this`clientAvailableFormatAtoms
      ensures Valid() && View() == Step(env, old(View()), ServerFormatList)
    {
      clientAvailableFormatAtoms := [];
      StopIncrement();
    }

    method SendFormatList(atoms: seq<Atom>, isImage: Option<bool>, fileOk: bool)
      requires Valid()
      modifies this
      ensures Valid() && View() == OnFormatListChange(old(View()), atoms, isImage, fileOk)
    {
      if isImage.Some? { isImageContent := isImage.value; }
      SendDataResponse(None);
      ClearCachedData();
      clientAvailableFormatAtoms := atoms;
      if fileOk { log := log + [Announced]; }
    }
  }

  // ---- transfers

  /** Between transfers the buffer holds nothing. */
  predicate Idle(s: State) { !s.incrStarts ==> Contents(s) == [] }

  lemma StepIdle(env: Env, s: State, ev: Event)
    requires Idle(s)
    ensures Idle(Step(env, s, ev))
  {}

  lemma {:induction false} RunIdle(env: Env, s: State, evs: seq<Event>)
    requires Idle(s)
    ensures Idle(Run(env, s, evs))
    decreases |evs|
  {
    if evs != [] {
      hide Step, Idle;
      StepIdle(env, s, evs[0]);
      RunIdle(env, Step(env, s, evs[0]), evs[1..]);
    }
  }

  /** A request is outstanding for a format that the clipboard owner offers as table row f. */
  predicate Ready(env: Env, s: State, f: ClientFormat) {
    s.requested != NO_REQUEST && Available(env, s, s.requested) == Some(f)
  }

  function Flatten(batches: seq<Bytes>): Bytes {
    if batches == [] then [] else batches[0] + Flatten(batches[1..])
  }

  function Batch(data: Bytes): Event { PropertyNotify(Probe(true, |data|, false, Some(data))) }

  /** The batches, each announced by a property change, and the empty property that ends them. */
  function BatchEvents(batches: seq<Bytes>): seq<Event> {
    if batches == [] then [PropertyNotify(Probe(true, 0, false, None))]
    else [Batch(batches[0])] + BatchEvents(batches[1..])
  }

  /** An INCR transfer: the owner answers with type INCR and a lower bound on the size. */
  function IncrEvents(f: ClientFormat, bound: nat, batches: seq<Bytes>): seq<Event> {
    [DataNotify(f.atom, Probe(true, bound, true, None))] + BatchEvents(batches)
  }

  /** The data goes to the converter once, is answered once, and nothing is left behind. */
  predicate Transferred(env: Env, s: State, t: State, f: ClientFormat, data: Bytes) {
    var out := Conversion(env, f, data, s.requested);
    && t.log == s.log + [Handed(SourceFormat(f), data, s.requested),
                         Answered(out.Some?, if out.Some? then out.value else [])]
    && t.requested == NO_REQUEST && !t.incrStarts && Contents(t) == []
    && t.atoms == s.atoms && t.isImage == s.isImage
  }

  lemma {:induction false} BatchesCollect(env: Env, s: State, f: ClientFormat, batches: seq<Bytes>)
    requires Ready(env, s, f) && s.incrStarts && s.buffer.Some?
    requires forall b | b in batches :: b != []
    ensures Transferred(env, s, Run(env, s, BatchEvents(batches)), f, s.buffer.value + Flatten(batches))
    decreases |batches|
  {
    var evs := BatchEvents(batches);
    var t := Step(env, s, evs[0]);
    if batches == [] {
      assert evs[1..] == [];
      assert s.buffer.value + Flatten(batches) == s.buffer.value;
      LastBatch(env, s, f);
    } else {
      assert batches[0] in batches;
      OneBatch(env, s, f, batches[0]);
      assert forall b | b in batches[1..] :: b in batches;
      BatchesCollect(env, t, f, batches[1..]);
      assert evs[1..] == BatchEvents(batches[1..]);
      assert s.buffer.value + batches[0] + Flatten(batches[1..]) == s.buffer.value + Flatten(batches);
    }
  }

  lemma OneBatch(env: Env, s: State, f: ClientFormat, data: Bytes)
    requires Ready(env, s, f) && s.incrStarts && data != []
    ensures Step(env, s, Batch(data)) == s.(buffer := Some(Contents(s) + data))
  {}

  lemma LastBatch(env: Env, s: State, f: ClientFormat)
    requires Ready(env, s, f) && s.incrStarts && s.buffer.Some?
    ensures Transferred(env, s, Step(env, s, PropertyNotify(Probe(true, 0, false, None))), f, s.buffer.value)
  {}

  /**
   An INCR transfer of any number of non-empty batches, from a state that is not inside one, hands the
   converter exactly their concatenation, once, and leaves no bytes for the next transfer.
  */
  lemma IncrTransfer(env: Env, s: State, f: ClientFormat, bound: nat, batches: seq<Bytes>)
    requires Ready(env, s, f) && !s.incrStarts && bound > 0
    requires batches != [] && forall b | b in batches :: b != []
    ensures Transferred(env, s, Run(env, s, IncrEvents(f, bound, batches)), f, Flatten(batches))
  {
    var evs := IncrEvents(f, bound, batches);
    var s1 := Step(env, s, evs[0]);
    assert s1 == StopIncr(s).(incrStarts := true);
    assert evs[1..] == BatchEvents(batches);
    assert batches[0] in batches;
    OneBatch(env, s1, f, batches[0]);
    var s2 := Step(env, s1, Batch(batches[0]));
    assert forall b | b in batches[1..] :: b in batches;
    BatchesCollect(env, s2, f, batches[1..]);
    assert BatchEvents(batches)[1..] == BatchEvents(batches[1..]);
    assert [] + batches[0] == batches[0];
  }

  /** With no batch at all the converter gets nothing, or nothing is handed over for want of a buffer. */
  lemma EmptyIncrTransfer(env: Env, s: State, f: ClientFormat, bound: nat)
    requires Ready(env, s, f) && !s.incrStarts && bound > 0
    ensures var t := Run(env, s, IncrEvents(f, bound, []));
      if s.buffer.Some? then Transferred(env, s, t, f, [])
      else t.log == s.log + [Answered(false, [])] && t.requested == NO_REQUEST && !t.incrStarts && Contents(t) == []
  {
    var evs := IncrEvents(f, bound, []);
    var s1 := Step(env, s, evs[0]);
    assert s1 == StopIncr(s).(incrStarts := true);
    assert evs[1..] == BatchEvents([]) && BatchEvents([])[1..] == [];
    if s.buffer.Some? { LastBatch(env, s1, f); }
  }

  function Plain(f: ClientFormat, data: Bytes): Event { DataNotify(f.atom, Probe(true, |data|, false, Some(data))) }

  /** A plain transfer is answered exactly when no INCR transfer is open; then it is the data itself. */
  lemma PlainTransfer(env: Env, s: State, f: ClientFormat, data: Bytes)
    requires Ready(env, s, f) && data != [] && Idle(s)
    ensures !s.incrStarts <==> Step(env, s, Plain(f, data)).requested == NO_REQUEST
    ensures !s.incrStarts <==> Transferred(env, s, Step(env, s, Plain(f, data)), f, data)
  {
    assert [] + data == data;
  }

  /** Splitting a transfer into INCR batches makes no difference to the server. */
  lemma IncrEqualsPlain(env: Env, s: State, f: ClientFormat, bound: nat, batches: seq<Bytes>)
    requires Ready(env, s, f) && !s.incrStarts && Idle(s) && bound > 0
    requires batches != [] && forall b | b in batches :: b != []
    ensures Run(env, s, IncrEvents(f, bound, batches)).log == Step(env, s, Plain(f, Flatten(batches))).log
  {
    IncrTransfer(env, s, f, bound, batches);
    assert batches[0] in batches;
    PlainTransfer(env, s, f, Flatten(batches));
  }

  // ---- what the server is answered

  /**
   The converter is given the data under the row's own format (raw data under 0), and what comes out is sent,
   serialized once more exactly for the file list; if any of that fails the answer is a failure.
  */
  predicate AnswersWith(env: Env, s: State, t: State, f: ClientFormat, data: Bytes) {
    var src := if f.formatToRequest == 0 then 0 else f.localFormat;
    var works := env.accepts(src, data) && env.convert(src, data, s.requested).Some?;
    var files := f.formatToRequest != 0 && f.formatToRequest == env.fileGroup;
    var handed := s.log + [Handed(src, data, s.requested)];
    && (works && !files ==> t.log == handed + [Answered(true, env.convert(src, data, s.requested).value)])
    && (works && files ==>
          var list := env.serializeFiles(env.convert(src, data, s.requested).value);
          t.log == handed + [Answered(list.Some?, if list.Some? then list.value else [])])
    && (!works ==> t.log == handed + [Answered(false, [])])
  }

  lemma TransferAnswers(env: Env, s: State, t: State, f: ClientFormat, data: Bytes)
    requires Transferred(env, s, t, f, data)
    ensures AnswersWith(env, s, t, f, data)
  {}

  /** A plain transfer, and one in any number of batches, of the row that is first for the requested format. */
  lemma ServerGets(env: Env, s: State, k: nat, bound: nat, batches: seq<Bytes>)
    requires s.requested != NO_REQUEST && FirstAvailableAt(env, s, s.requested, k) && !s.incrStarts && Idle(s)
    requires bound > 0 && batches != [] && forall b | b in batches :: b != []
    ensures AnswersWith(env, s, Step(env, s, Plain(env.clients[k], Flatten(batches))), env.clients[k], Flatten(batches))
    ensures AnswersWith(env, s, Run(env, s, IncrEvents(env.clients[k], bound, batches)), env.clients[k], Flatten(batches))
  {
    var f, data := env.clients[k], Flatten(batches);
    FirstAvailableFound(env, s, s.requested, k);
    assert batches[0] in batches;
    PlainTransfer(env, s, f, data);
    IncrTransfer(env, s, f, bound, batches);
    TransferAnswers(env, s, Step(env, s, Plain(f, data)), f, data);
    TransferAnswers(env, s, Run(env, s, IncrEvents(f, bound, batches)), f, data);
  }

  /** The property cannot be used: no row or another is offered, it cannot be read, or it has nothing to read. */
  predicate Useless(env: Env, s: State, target: Atom, p: Probe) {
    || Available(env, s, s.requested).None? || Available(env, s, s.requested).value.atom != target
    || !p.ok || (p.total > 0 && !p.incr && p.read.None?)
  }

  /** Outside a transfer: the data is refused, opens an INCR transfer, or is the answer. */
  lemma NotifyOutside(env: Env, s: State, target: Atom, p: Probe)
    requires s.requested != NO_REQUEST && !s.incrStarts && Contents(s) == []
    ensures var t := Step(env, s, DataNotify(target, p));
      if Useless(env, s, target, p) || p.total == 0 then
        t.log == s.log + [Answered(false, [])] && t.requested == NO_REQUEST && !t.incrStarts
      else if p.incr then
        t.log == s.log && t.requested == s.requested && t.incrStarts && Contents(t) == []
      else
        && AnswersWith(env, s, t, Available(env, s, s.requested).value, p.read.value)
        && t.requested == NO_REQUEST && !t.incrStarts
    ensures Step(env, s, PropertyNotify(p)) == s
  {
    if !Useless(env, s, target, p) && p.total > 0 && !p.incr {
      assert [] + p.read.value == p.read.value;
      TransferAnswers(env, s, Step(env, s, DataNotify(target, p)), Available(env, s, s.requested).value, p.read.value);
      hide AnswersWith;
    }
  }

  /** Inside one: it is refused, starts it again, is one more batch, or ends it and what was collected is the answer. */
  lemma NotifyInside(env: Env, s: State, target: Atom, p: Probe)
    requires s.requested != NO_REQUEST && s.incrStarts
    ensures var t := Step(env, s, DataNotify(target, p));
      if Useless(env, s, target, p) then
        t.log == s.log + [Answered(false, [])] && t.requested == NO_REQUEST && t.incrStarts
      else if p.incr then
        t.log == s.log && t.requested == s.requested && t.incrStarts && Contents(t) == []
      else if p.total > 0 then
        t == s.(buffer := Some(Contents(s) + p.read.value))
      else if s.buffer.None? then
        t.log == s.log + [Answered(false, [])] && t.requested == NO_REQUEST && !t.incrStarts
      else
        AnswersWith(env, s, t, Available(env, s, s.requested).value, s.buffer.value) && !t.incrStarts
    ensures Available(env, s, s.requested).Some? && Available(env, s, s.requested).value.atom == target ==>
      Step(env, s, PropertyNotify(p)) == Step(env, s, DataNotify(target, p))
    ensures Available(env, s, s.requested).None? ==> Step(env, s, PropertyNotify(p)) == s
  {
    if !Useless(env, s, target, p) && p.total == 0 && !p.incr && s.buffer.Some? {
      TransferAnswers(env, s, Step(env, s, DataNotify(target, p)), Available(env, s, s.requested).value, s.buffer.value);
      hide AnswersWith;
    }
  }

  /**
   A format list of ours refuses the outstanding request, ends a transfer, offers the new atoms, and is announced
   if the files were; a server format list ends a transfer and offers nothing.
  */
  lemma ListsExactly(env: Env, s: State, atoms: seq<Atom>, isImage: Option<bool>, fileOk: bool)
    ensures var t := Step(env, s, FormatListChange(atoms, isImage, fileOk));
      && t.requested == NO_REQUEST && !t.incrStarts && Contents(t) == [] && t.atoms == atoms
      && t.isImage == (if isImage.Some? then isImage.value else s.isImage)
      && t.log == s.log + (if s.requested == NO_REQUEST then [] else [Answered(false, [])]) + (if fileOk then [Announced] else [])
    ensures var t := Step(env, s, ServerFormatList);
      t == s.(incrStarts := false, atoms := [], buffer := t.buffer) && Contents(t) == []
  {
    assert s.log + [] == s.log;
  }

  /** A request is kept if a row is offered for it, and else refused at once; the last id is no request at all. */
  lemma RequestExactly(env: Env, s: State, format: uint32, raw: bool)
    ensures var id, t := if raw then 0 else format, Step(env, s, DataRequest(format, raw));
      t == if id != 0xFFFF_FFFF && Available(env, s, id).None?
           then s.(requested := 0xFFFF_FFFF, log := s.log + [Asked(id), Answered(false, [])])
           else s.(requested := id, log := s.log + [Asked(id)])
  {
    var id := if raw then 0 else format;
    hide Available;
    assert s.log + [Asked(id)] + [Answered(false, [])] == s.log + [Asked(id), Answered(false, [])];
  }

  /** A row that the clipboard owner offers for a format, where an image serves for HTML. */
  predicate Offers(env: Env, s: State, format: uint32, c: ClientFormat) {
    c.atom in s.atoms && (c.formatToRequest == format || (s.isImage && format == env.htmlFormat && c.isImage))
  }

  /** Row k is the first that is offered for the format. */
  predicate FirstAvailableAt(env: Env, s: State, format: uint32, k: nat) {
    k < |env.clients| && Offers(env, s, format, env.clients[k])
    && forall m :: 0 <= m < k ==> !Offers(env, s, format, env.clients[m])
  }

  lemma FirstAvailableFound(env: Env, s: State, format: uint32, k: nat)
    requires FirstAvailableAt(env, s, format, k)
    ensures Available(env, s, format) == Some(env.clients[k])
  {
    FirstIn(env.clients, s.atoms, s.isImage && format == env.htmlFormat, format, k);
  }

  lemma {:induction false} FirstIn(clients: seq<ClientFormat>, atoms: seq<Atom>, fetchImage: bool, format: uint32, k: nat)
    requires k < |clients| && clients[k].atom in atoms && (clients[k].formatToRequest == format || (fetchImage && clients[k].isImage))
    requires forall m :: 0 <= m < k ==>
      clients[m].atom !in atoms || (clients[m].formatToRequest != format && !(fetchImage && clients[m].isImage))
    ensures AvailableIn(clients, atoms, fetchImage, format) == Some(clients[k])
  {
    if k > 0 {
      assert forall m :: 0 <= m < k - 1 ==> clients[1..][m] == clients[m + 1];
      FirstIn(clients[1..], atoms, fetchImage, format, k - 1);
    }
  }

  /** A read of the property that fails, though there is data to read. */
  predicate Unreadable(p: Probe) { !p.ok || (p.total > 0 && !p.incr && p.read.None?) }

  /** The events that settle the outstanding request inside an INCR transfer without ending the transfer. */
  predicate LeavesOpen(env: Env, s: State, ev: Event) {
    var f := Available(env, s, s.requested);
    match ev
    case DataRequest(format, raw) =>
      var id := if raw then CF_RAW else format;
      id == NO_REQUEST || Available(env, s, id).None?
    case DataNotify(target, p) => f.None? || f.value.atom != target || Unreadable(p)
    case PropertyNotify(p) => f.Some? && Unreadable(p)
    case _ => false
  }

  /**
   An INCR transfer is left open without a request exactly by a request that no row serves, and by data
   that no row or another row is for or that cannot be read.
  */
  lemma LeftOpenIff(env: Env, s: State, ev: Event)
    requires s.requested != NO_REQUEST && s.incrStarts
    ensures var t := Step(env, s, ev); t.incrStarts && t.requested == NO_REQUEST <==> LeavesOpen(env, s, ev)
  {}

  /**
   A request that arrives inside an open transfer joins it: the plain data for it is taken for one more
   batch, and at the end the request is answered with the bytes of both.
  */
  lemma RequestJoinsOpen(env: Env, s: State, format: uint32, f: ClientFormat, data: Bytes)
    requires s.incrStarts && format != NO_REQUEST && Available(env, s, format) == Some(f) && data != []
    ensures var s3 := Run(env, s, [DataRequest(format, false), Plain(f, data)]);
      && s3.requested == format && s3.incrStarts && s3.log == s.log + [Asked(format)]
      && s3.buffer == Some(Contents(s) + data)
      && Transferred(env, s3, Step(env, s3, PropertyNotify(Probe(true, 0, false, None))), f, Contents(s) + data)
  {
    var evs := [DataRequest(format, false), Plain(f, data)];
    var s2 := Step(env, s, evs[0]);
    assert evs[1..] == [evs[1]] && evs[1..][1..] == [];
    assert Run(env, s2, evs[1..]) == Step(env, s2, evs[1]);
    LastBatch(env, Step(env, s2, evs[1]), f);
  }

  /**
   A batch that cannot be read answers the request but leaves the INCR transfer open: the next request's
   plain transfer is then taken for another batch and not answered.
  */
  lemma FailedBatchSwallowsNext(env: Env, s: State, f: ClientFormat, data: Bytes)
    requires Ready(env, s, f) && s.incrStarts && data != []
    ensures var s1 := Step(env, s, PropertyNotify(Probe(true, 1, false, None)));
      var s2 := Step(env, s1, DataRequest(s.requested, false));
      var s3 := Step(env, s2, Plain(f, data));
      && s1.log == s.log + [Answered(false, [])]
      && s3.requested == s.requested && s3.log == s1.log + [Asked(s.requested)]
  {}

  // ---- requests and responses

  /** The server's last request has not been answered. */
  predicate Owed(log: seq<Item>) {
    log != [] &&
    match log[|log| - 1]
    case Asked(f) => f != NO_REQUEST
    case Answered(_, _) => false
    case _ => Owed(log[..|log| - 1])
  }

  /** Responses answer a request that is owed one; format lists are announced only when none is. */
  ghost predicate Orderly(log: seq<Item>) {
    forall i: nat :: i < |log| ==>
      (log[i].Answered? ==> Owed(log[..i])) && (log[i].Announced? ==> !Owed(log[..i]))
  }

  ghost predicate Accounted(s: State) {
    Orderly(s.log) && (Owed(s.log) <==> s.requested != NO_REQUEST)
  }

  lemma OrderlyAppend(log: seq<Item>, i: Item)
    requires Orderly(log)
    requires (i.Answered? ==> Owed(log)) && (i.Announced? ==> !Owed(log))
    ensures Orderly(log + [i])
    ensures Owed(log + [i]) == if i.Asked? then i.format != NO_REQUEST else if i.Answered? then false else Owed(log)
  {
    var all := log + [i];
    assert all[..|log|] == log;
    forall k: nat | k < |all| ensures (all[k].Answered? ==> Owed(all[..k])) && (all[k].Announced? ==> !Owed(all[..k])) {
      assert k < |log| ==> all[..k] == log[..k];
    }
  }

  lemma RespondAccounted(s: State, data: Option<Bytes>)
    requires Accounted(s)
    ensures Accounted(Respond(s, data)) && Respond(s, data).requested == NO_REQUEST
  {
    if s.requested != NO_REQUEST {
      OrderlyAppend(s.log, Answered(data.Some?, if data.Some? then data.value else []));
    }
  }

  lemma ProcessAccounted(env: Env, s: State, hasData: bool, data: Option<Bytes>)
    requires Accounted(s)
    ensures Accounted(Process(env, s, hasData, data))
  {
    hide Respond, Orderly, Owed;
    var s1 := ResetLength(s);
    var f := Available(env, s1, s1.requested);
    RespondAccounted(s1, None);
    if hasData && data.Some? && f.Some? {
      var i := Handed(SourceFormat(f.value), data.value, s1.requested);
      OrderlyAppend(s1.log, i);
      RespondAccounted(s1.(log := s1.log + [i]), Conversion(env, f.value, data.value, s1.requested));
    }
  }

  lemma GetDataAccounted(env: Env, s: State, target: Atom, p: Probe)
    requires Accounted(s)
    ensures Accounted(GetData(env, s, target, p))
  {
    hide Process, Respond, Orderly, Owed;
    RespondAccounted(s, None);
    var all := Contents(s) + if p.read.Some? then p.read.value else [];
    ProcessAccounted(env, StopIncr(s), false, s.buffer);
    ProcessAccounted(env, StopIncr(s).(incrStarts := true), true, s.buffer);
    ProcessAccounted(env, StopIncr(s), true, s.buffer);
    ProcessAccounted(env, s, false, s.buffer);
    ProcessAccounted(env, s.(buffer := Some(all)), true, Some(all));
  }

  lemma StepAccounted(env: Env, s: State, ev: Event)
    requires Accounted(s)
    ensures Accounted(Step(env, s, ev))
  {
    hide GetData, Orderly, Owed;
    match ev
    case DataRequest(format, raw) =>
      var i := Asked(if raw then CF_RAW else format);
      OrderlyAppend(s.log, i);
      RespondAccounted(s.(requested := i.format, log := s.log + [i]), None);
    case DataNotify(target, p) => GetDataAccounted(env, s, target, p);
    case PropertyNotify(p) =>
      var f := Available(env, s, s.requested);
      if s.incrStarts && f.Some? { GetDataAccounted(env, s, f.value.atom, p); }
    case FormatListChange(atoms, isImage, _) =>
      var s0 := s.(isImage := if isImage.Some? then isImage.value else s.isImage);
      RespondAccounted(s0, None);
      OrderlyAppend(Respond(s0, None).log, Announced);
    case ServerFormatList =>
  }

  lemma {:induction false} RunAccounted(env: Env, s: State, evs: seq<Event>)
    requires Accounted(s)
    ensures Accounted(Run(env, s, evs))
    decreases |evs|
  {
    if evs != [] {
      hide Step, Accounted;
      StepAccounted(env, s, evs[0]);
      RunAccounted(env, Step(env, s, evs[0]), evs[1..]);
    }
  }

  /** If something is owed, the last request or response is a request. */
  lemma {:induction false} OwedWitness(log: seq<Item>) returns (k: nat)
    requires Owed(log)
    ensures k < |log| && log[k].Asked? && log[k].format != NO_REQUEST
    ensures forall j :: k < j < |log| ==> !log[j].Asked? && !log[j].Answered?
  {
    var n := |log| - 1;
    if log[n].Asked? {
      k := n;
    } else {
      k := OwedWitness(log[..n]);
    }
  }

  /** Between two responses there is a request, in every run. */
  lemma RequestBetweenResponses(env: Env, evs: seq<Event>, i: nat, j: nat)
    requires var log := Run(env, INITIAL, evs).log; i < j < |log| && log[i].Answered? && log[j].Answered?
    ensures var log := Run(env, INITIAL, evs).log; exists k :: i < k < j && log[k].Asked?
  {
    RunAccounted(env, INITIAL, evs);
    hide Run;
    var log := Run(env, INITIAL, evs).log;
    var k := OwedWitness(log[..j]);
    assert log[k].Asked? && log[..j][i] == log[i];
  }

  function CountAsked(log: seq<Item>): nat {
    if log == [] then 0 else CountAsked(log[..|log| - 1]) + if log[|log| - 1].Asked? then 1 else 0
  }

  function CountAnswered(log: seq<Item>): nat {
    if log == [] then 0 else CountAnswered(log[..|log| - 1]) + if log[|log| - 1].Answered? then 1 else 0
  }

  lemma {:induction false} OrderlyCounts(log: seq<Item>)
    requires Orderly(log)
    ensures CountAnswered(log) + (if Owed(log) then 1 else 0) <= CountAsked(log)
  {
    if log != [] {
      var n := |log| - 1;
      assert forall i: nat :: i < n ==> log[..n][..i] == log[..i];
      OrderlyCounts(log[..n]);
    }
  }

  /** Responses never exceed requests, in every run. */
  lemma ResponsesNeverExceedRequests(env: Env, evs: seq<Event>)
    ensures CountAnswered(Run(env, INITIAL, evs).log) <= CountAsked(Run(env, INITIAL, evs).log)
  {
    RunAccounted(env, INITIAL, evs);
    hide Run;
    OrderlyCounts(Run(env, INITIAL, evs).log);
  }

  /** Before a format list is announced, the last server request has been answered, in every run. */
  lemma AnsweredBeforeAnnounce(env: Env, evs: seq<Event>, k: nat, j: nat)
    requires var log := Run(env, INITIAL, evs).log;
      k < j < |log| && log[j].Announced? && log[k].Asked? && log[k].format != NO_REQUEST
    requires var log := Run(env, INITIAL, evs).log; forall m :: k < m < j ==> !log[m].Asked?
    ensures var log := Run(env, INITIAL, evs).log; exists m :: k < m < j && log[m].Answered?
  {
    RunAccounted(env, INITIAL, evs);
    hide Run;
    var log := Run(env, INITIAL, evs).log;
    if forall m :: k < m < j ==> !log[m].Answered? {
      UnansweredIsOwed(log[..j], k);
    }
  }

  lemma {:induction false} UnansweredIsOwed(log: seq<Item>, k: nat)
    requires k < |log| && log[k].Asked? && log[k].format != NO_REQUEST
    requires forall m :: k < m < |log| ==> !log[m].Asked? && !log[m].Answered?
    ensures Owed(log)
  {
    if k < |log| - 1 { UnansweredIsOwed(log[..|log| - 1], k); }
  }
}
