/** Static virtual channel reassembly (channels/client/addin.c): chunks become PDUs. */
module ChannelDelivery {
  import opened Common

  /** "paused" is the suspend or resume flag; "memOk" says whether the stream can hold the chunk. */
  datatype Chunk = Chunk(data: Bytes, total: uint32, first: bool, last: bool, paused: bool, memOk: bool)

  datatype Assembly = Assembly(dataIn: Option<Bytes>, firstFlagReceived: bool)

  const EMPTY := Assembly(None, false)

  /** One chunk: the new assembly, and the PDU it completes, if any. */
  function Feed(a: Assembly, c: Chunk): (Assembly, seq<Bytes>) {
    if c.paused then (a, []) else
    var a1 := if c.first then Assembly(if c.memOk then Some([]) else None, true) else a;
    if a1.dataIn.None? then (a1.(firstFlagReceived := false), []) else
    var data := a1.dataIn.value + c.data;
    if !c.memOk || (c.total > 0 && |data| > c.total) then (EMPTY, [])
    else if !c.last then (a1.(dataIn := Some(data)), [])
    else if !a1.firstFlagReceived || (c.total > 0 && |data| != c.total) then (EMPTY, [])
    else (EMPTY, [data])
  }

  function FeedAll(a: Assembly, cs: seq<Chunk>): (Assembly, seq<Bytes>) {
    if cs == [] then (a, []) else
    var (b, out) := FeedAll(a, cs[..|cs| - 1]);
    var (c, pdu) := Feed(b, cs[|cs| - 1]);
    (c, out + pdu)
  }

  /** The PDUs a chunk sequence delivers. */
  function Delivered(cs: seq<Chunk>): seq<Bytes> { FeedAll(EMPTY, cs).1 }

  // ---- the trace specification: which PDUs a sequence of chunks contains

  function Payload(run: seq<Chunk>): Bytes {
    if run == [] then [] else Payload(run[..|run| - 1]) + run[|run| - 1].data
  }

  /** The bytes so far do not exceed the total that the newest chunk names. */
  predicate Fits(run: seq<Chunk>)
    requires run != []
  {
    var c := run[|run| - 1];
    c.memOk && (c.total == 0 || |Payload(run)| <= c.total)
  }

  predicate AllFit(run: seq<Chunk>) { forall k :: 0 < k <= |run| ==> Fits(run[..k]) }

  /** The length so far is what the newest chunk announces, if it announces one. */
  predicate HasAnnouncedLength(run: seq<Chunk>)
    requires run != []
  {
    run[|run| - 1].total == 0 || |Payload(run)| == run[|run| - 1].total
  }

  /** FIRST on the first chunk and on no other. */
  predicate StartsOnce(run: seq<Chunk>) {
    run != [] && run[0].first && forall k :: 0 < k < |run| ==> !run[k].first
  }

  predicate Unfinished(run: seq<Chunk>) {
    StartsOnce(run) && AllFit(run) && forall k :: 0 <= k < |run| ==> !run[k].last
  }

  /** A run of chunks that is a PDU: FIRST to LAST, never too long, and of the announced length. */
  predicate Complete(run: seq<Chunk>) {
    && StartsOnce(run) && AllFit(run)
    && var n := |run| - 1;
    run[n].last && (forall k :: 0 <= k < n ==> !run[k].last) && HasAnnouncedLength(run)
  }

  ghost predicate EndsPdu(live: seq<Chunk>) { exists i :: 0 <= i < |live| && Complete(live[i..]) }

  /** The payloads of all complete runs, in order of their last chunks. */
  ghost function Pdus(live: seq<Chunk>): seq<Bytes> {
    if live == [] then [] else
    Pdus(live[..|live| - 1]) +
    if EndsPdu(live) then var i :| 0 <= i < |live| && Complete(live[i..]); [Payload(live[i..])] else []
  }

  function Live(cs: seq<Chunk>): seq<Chunk> {
    if cs == [] then [] else
    Live(cs[..|cs| - 1]) + if cs[|cs| - 1].paused then [] else [cs[|cs| - 1]]
  }

  // ---- reassembly refines the trace specification

  lemma PayloadSnoc(run: seq<Chunk>, c: Chunk)
    ensures Payload(run + [c]) == Payload(run) + c.data
  {}

  lemma AllFitSnoc(run: seq<Chunk>, c: Chunk)
    ensures AllFit(run + [c]) <==> AllFit(run) && Fits(run + [c])
  {
    var all := run + [c];
    assert all[..|all|] == all;
    assert forall k :: 0 < k <= |run| ==> all[..k] == run[..k];
  }

  /** Extending a run by a chunk that is not FIRST. */
  lemma RunSnoc(run: seq<Chunk>, c: Chunk)
    requires !c.first && run != []
    ensures Unfinished(run + [c]) <==> Unfinished(run) && Fits(run + [c]) && !c.last
    ensures Complete(run + [c]) <==> Unfinished(run) && Fits(run + [c]) && c.last && HasAnnouncedLength(run + [c])
  {
    AllFitSnoc(run, c);
    var all := run + [c];
    assert all[|run|] == c;
    assert forall k :: 0 <= k < |run| ==> all[k] == run[k];
  }

  lemma SingleChunk(c: Chunk)
    ensures Unfinished([c]) <==> c.first && Fits([c]) && !c.last
    ensures Complete([c]) <==> c.first && Fits([c]) && c.last && HasAnnouncedLength([c])
    ensures Payload([c]) == c.data
  {
    assert [c][..1] == [c] && [c][..0] == [];
    assert Payload([]) == [];
  }

  /** At most one run is open, or ends, at any point: the one from the last FIRST chunk. */
  lemma OneStart(live: seq<Chunk>, i: nat, j: nat)
    requires i < |live| && j < |live| && StartsOnce(live[i..]) && StartsOnce(live[j..])
    ensures i == j
  {}

  /** The assembly holds exactly the payload of the open run, and knows a FIRST chunk started it. */
  ghost predicate Tracks(a: Assembly, live: seq<Chunk>) {
    && (a.firstFlagReceived <==> a.dataIn.Some?)
    && (a.dataIn.Some? ==> exists i :: 0 <= i < |live| && Unfinished(live[i..]) && Payload(live[i..]) == a.dataIn.value)
    && (a.dataIn.None? ==> forall i :: 0 <= i < |live| ==> !Unfinished(live[i..]))
  }

  /** A FIRST chunk abandons whatever was open. */
  lemma FirstChunk(live: seq<Chunk>, c: Chunk)
    requires c.first
    ensures forall i :: 0 <= i < |live| ==> !StartsOnce((live + [c])[i..])
    ensures (live + [c])[|live|..] == [c]
  {
    forall i | 0 <= i < |live| ensures !StartsOnce((live + [c])[i..]) {
      assert (live + [c])[i..][|live| - i] == c;
    }
  }

  lemma FeedFirst(a: Assembly, live: seq<Chunk>, c: Chunk)
    requires c.first && !c.paused
    ensures var (b, out) := Feed(a, c);
      && Tracks(b, live + [c])
      && (out == [] <==> !EndsPdu(live + [c]))
      && (EndsPdu(live + [c]) ==> Complete([c]) && out == [Payload([c])])
  {
    var all := live + [c];
    FirstChunk(live, c);
    SingleChunk(c);
    assert [] + c.data == c.data;
    if Complete([c]) { assert Complete(all[|live|..]); }
    if Unfinished([c]) { assert Unfinished(all[|live|..]); }
  }

  /** What a chunk that is not FIRST does to every run that could be open. */
  lemma SuffixRuns(live: seq<Chunk>, c: Chunk, i: nat)
    requires !c.first && i <= |live|
    ensures (live + [c])[i..] == live[i..] + [c]
    ensures i < |live| ==> (Unfinished((live + [c])[i..]) <==> Unfinished(live[i..]) && Fits(live[i..] + [c]) && !c.last)
    ensures i < |live| ==> (Complete((live + [c])[i..]) <==>
      Unfinished(live[i..]) && Fits(live[i..] + [c]) && c.last && HasAnnouncedLength(live[i..] + [c]))
    ensures i == |live| ==> !Unfinished((live + [c])[i..]) && !Complete((live + [c])[i..])
  {
    if i < |live| {
      RunSnoc(live[i..], c);
    } else {
      assert live[i..] + [c] == [c];
      SingleChunk(c);
    }
  }

  lemma FeedNext(a: Assembly, live: seq<Chunk>, c: Chunk)
    requires !c.first && !c.paused && Tracks(a, live)
    ensures var (b, out) := Feed(a, c);
      && Tracks(b, live + [c])
      && (out == [] <==> !EndsPdu(live + [c]))
      && forall i :: 0 <= i < |live + [c]| && Complete((live + [c])[i..]) ==> out == [Payload((live + [c])[i..])]
  {
    hide Unfinished, Complete, Fits, HasAnnouncedLength, Payload, Feed;
    forall i: nat | i <= |live|
      ensures (live + [c])[i..] == live[i..] + [c]
      ensures i < |live| ==> (Unfinished((live + [c])[i..]) <==> Unfinished(live[i..]) && Fits(live[i..] + [c]) && !c.last)
      ensures i < |live| ==> (Complete((live + [c])[i..]) <==>
        Unfinished(live[i..]) && Fits(live[i..] + [c]) && c.last && HasAnnouncedLength(live[i..] + [c]))
      ensures i == |live| ==> !Unfinished((live + [c])[i..]) && !Complete((live + [c])[i..])
    {
      SuffixRuns(live, c, i);
    }
    if a.dataIn.Some? {
      var i :| 0 <= i < |live| && Unfinished(live[i..]) && Payload(live[i..]) == a.dataIn.value;
      forall j | 0 <= j < |live| && Unfinished(live[j..]) ensures j == i { OpenStarts(live[i..]); OpenStarts(live[j..]); OneStart(live, i, j); }
      PayloadSnoc(live[i..], c);
      NextOfOpen(a, live, c, i);
      assert (live + [c])[i..] == live[i..] + [c];
    } else {
      FeedClosed(a, c);
    }
  }

  lemma OpenStarts(run: seq<Chunk>)
    requires Unfinished(run)
    ensures StartsOnce(run)
  {}

  lemma FeedClosed(a: Assembly, c: Chunk)
    requires !c.first && !c.paused && a.dataIn.None?
    ensures Feed(a, c) == (EMPTY, [])
  {}

  lemma NextOfOpen(a: Assembly, live: seq<Chunk>, c: Chunk, i: nat)
    requires !c.first && !c.paused && i < |live|
    requires a.dataIn == Some(Payload(live[i..])) && a.firstFlagReceived && Unfinished(live[i..])
    requires Payload(live[i..] + [c]) == Payload(live[i..]) + c.data
    ensures var (b, out) := Feed(a, c);
      var run := live[i..] + [c];
      && (b.firstFlagReceived <==> b.dataIn.Some?)
      && b.dataIn == (if Fits(run) && !c.last then Some(Payload(run)) else None)
      && out == (if Fits(run) && c.last && HasAnnouncedLength(run) then [Payload(run)] else [])
  {}

  lemma {:induction false} FeedStep(a: Assembly, live: seq<Chunk>, c: Chunk)
    requires !c.paused && Tracks(a, live)
    ensures Tracks(Feed(a, c).0, live + [c])
    ensures Pdus(live + [c]) == Pdus(live) + Feed(a, c).1
  {
    assert (live + [c])[..|live|] == live;
    if c.first {
      FeedFirst(a, live, c);
    } else {
      FeedNext(a, live, c);
    }
    hide Feed, Tracks, Complete, Payload;
  }

  /** Chunk by chunk, the assembly tracks the open run and delivers the runs that end. */
  lemma {:induction false} FeedRefines(cs: seq<Chunk>)
    ensures Tracks(FeedAll(EMPTY, cs).0, Live(cs))
    ensures FeedAll(EMPTY, cs).1 == Pdus(Live(cs))
  {
    if cs != [] {
      hide Tracks, Pdus;
      var c, before := cs[|cs| - 1], cs[..|cs| - 1];
      FeedRefines(before);
      if c.paused {
        assert Live(before) + [] == Live(before);
      } else {
        FeedStep(FeedAll(EMPTY, before).0, Live(before), c);
      }
    }
  }

  /** Reassembly delivers exactly the PDUs of the trace, for every chunk sequence. */
  lemma ReassemblyRefines(cs: seq<Chunk>)
    ensures Delivered(cs) == Pdus(Live(cs))
  {
    FeedRefines(cs);
  }

  /** After every chunk, a FIRST chunk is remembered exactly when a stream is open. */
  lemma FlagMeansOpen(cs: seq<Chunk>)
    ensures var a := FeedAll(EMPTY, cs).0; a.firstFlagReceived <==> a.dataIn.Some?
  {}

  /** Whatever a stream holds, a last chunk completes nothing if no first chunk is remembered. */
  lemma NoFirstNoPdu(a: Assembly, c: Chunk)
    requires !a.firstFlagReceived && !c.first && c.last && !c.paused
    ensures Feed(a, c) == (EMPTY, [])
  {}

  // ---- round trip

  /** Chunks that carry one PDU: FIRST on the first, LAST on the last, each total the length or zero. */
  predicate Carries(run: seq<Chunk>, pdu: Bytes) {
    && run != [] && Payload(run) == pdu
    && forall k :: 0 <= k < |run| ==>
         && !run[k].paused && run[k].memOk
         && (run[k].first <==> k == 0) && (run[k].last <==> k == |run| - 1)
         && (run[k].total == 0 || run[k].total == |pdu|)
  }

  predicate AllCarry(runs: seq<seq<Chunk>>, pdus: seq<Bytes>) {
    |runs| == |pdus| && forall i :: 0 <= i < |runs| ==> Carries(runs[i], pdus[i])
  }

  function Join(runs: seq<seq<Chunk>>): seq<Chunk> {
    if runs == [] then [] else Join(runs[..|runs| - 1]) + runs[|runs| - 1]
  }

  lemma {:induction false} PayloadPrefix(run: seq<Chunk>, k: nat)
    requires k <= |run|
    ensures |Payload(run[..k])| <= |Payload(run)|
  {
    if k == |run| {
      assert run[..k] == run;
    } else {
      PayloadPrefix(run[..|run| - 1], k);
      assert run[..|run| - 1][..k] == run[..k];
    }
  }

  lemma FeedSnoc(a: Assembly, cs: seq<Chunk>, c: Chunk)
    ensures var (b, out) := FeedAll(a, cs);
      FeedAll(a, cs + [c]) == (Feed(b, c).0, out + Feed(b, c).1)
  {}

  /** However it is cut, a PDU comes back whole, whatever was being assembled before. */
  lemma {:induction false} FeedRun(a: Assembly, run: seq<Chunk>, pdu: Bytes, k: nat)
    requires Carries(run, pdu) && 0 < k <= |run|
    ensures FeedAll(a, run[..k]) == if k < |run| then (Assembly(Some(Payload(run[..k])), true), []) else (EMPTY, [pdu])
  {
    var c, before := run[k - 1], run[..k - 1];
    PayloadPrefix(run, k);
    assert run[..k] == before + [c];
    PayloadSnoc(before, c);
    FeedSnoc(a, before, c);
    if k == 1 {
      assert before == [] && [] + c.data == c.data;
    } else {
      FeedRun(a, run, pdu, k - 1);
    }
    var (b, out) := FeedAll(a, before);
    assert out == [] && out + Feed(b, c).1 == Feed(b, c).1;
    if k == |run| { assert run[..k] == run; }
  }

  lemma {:induction false} FeedAppend(a: Assembly, x: seq<Chunk>, y: seq<Chunk>)
    ensures var (b, out) := FeedAll(a, x);
      FeedAll(a, x + y) == (FeedAll(b, y).0, out + FeedAll(b, y).1)
  {
    hide Feed;
    if y == [] {
      assert x + y == x;
      assert FeedAll(a, x).1 + [] == FeedAll(a, x).1;
    } else {
      var before, c := y[..|y| - 1], y[|y| - 1];
      assert x + y == x + before + [c] && y == before + [c];
      FeedAppend(a, x, before);
      FeedSnoc(a, x + before, c);
      FeedSnoc(FeedAll(a, x).0, before, c);
      var (b, out) := FeedAll(a, x);
      var (d, out') := FeedAll(b, before);
      assert out + out' + Feed(d, c).1 == out + (out' + Feed(d, c).1);
    }
  }

  lemma {:induction false} FeedLive(a: Assembly, cs: seq<Chunk>)
    ensures FeedAll(a, cs) == FeedAll(a, Live(cs))
  {
    if cs != [] {
      var before, c := cs[..|cs| - 1], cs[|cs| - 1];
      FeedLive(a, before);
      FeedSnoc(a, Live(before), c);
      if c.paused {
        assert Live(before) + [] == Live(before);
        assert FeedAll(a, before).1 + [] == FeedAll(a, before).1;
      }
    }
  }

  lemma {:induction false} FeedRuns(a: Assembly, runs: seq<seq<Chunk>>, pdus: seq<Bytes>)
    requires AllCarry(runs, pdus)
    ensures FeedAll(a, Join(runs)).1 == pdus
  {
    if runs != [] {
      var n := |runs| - 1;
      FeedRuns(a, runs[..n], pdus[..n]);
      FeedAppend(a, Join(runs[..n]), runs[n]);
      FeedRun(FeedAll(a, Join(runs[..n])).0, runs[n], pdus[n], |runs[n]|);
      assert runs[n][..|runs[n]|] == runs[n];
      assert pdus[..n] + [pdus[n]] == pdus;
    }
  }

  /**
   Any PDU list, cut into chunks in any way, with suspend and resume chunks anywhere, comes back
   unchanged, whatever chunks came before.
  */
  lemma RoundTrip(cs: seq<Chunk>, garbage: seq<Chunk>, runs: seq<seq<Chunk>>, pdus: seq<Bytes>)
    requires AllCarry(runs, pdus) && Live(cs) == Live(garbage) + Join(runs)
    ensures Delivered(cs) == Delivered(garbage) + pdus
  {
    FeedLive(EMPTY, cs);
    FeedLive(EMPTY, garbage);
    FeedAppend(EMPTY, Live(garbage), Join(runs));
    FeedRuns(FeedAll(EMPTY, Live(garbage)).0, runs, pdus);
  }
}
