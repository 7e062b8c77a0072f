/**
 What becomes of reassembled PDUs (channels/client/addin.c): they are handled at once, or posted to a
 queue that a thread drains until it is told to quit or its queue fails.
*/
module ChannelThread {
  import opened ChannelDelivery
  import opened Common

  const CHANNEL_RC_OK: uint32 := 0
  const ERROR_INTERNAL_ERROR: uint32 := 1359

  datatype Message = Pdu(data: Bytes) | Quit

  /** The thread's "error" variable while it runs, its exit code afterwards. */
  datatype Thread = Running(error: uint32) | Exited(code: uint32)

  /** "fed" are the chunks that arrived before the queue was closed, "reported" the session's channel error. */
  datatype State = State(assembly: Assembly, queue: seq<Message>, closed: bool, thread: Thread, reported: Option<uint32>,
                         fed: seq<Chunk>, posted: seq<Bytes>, handled: seq<Bytes>)

  const INITIAL := State(EMPTY, [], false, Running(CHANNEL_RC_OK), None, [], [], [])

  /**
   The producer's steps, and the thread's: one turn of its loop with the handler's return value, a failing
   wait, and a peek that finds nothing because the queue's event was left set.
  */
  datatype Event =
    | Post(chunk: Chunk, postOk: bool)
    | PostQuit(postOk: bool)
    | Iterate(returned: uint32)
    | WaitFails
    | PeekFails

  function OnPost(s: State, c: Chunk, postOk: bool): State {
    var (a, pdu) := Feed(s.assembly, c);
    var s1 := s.(assembly := a, fed := if s.closed then s.fed else s.fed + [c]);
    if pdu == [] || s.closed || !postOk then s1
    else s1.(queue := s.queue + [Pdu(pdu[0])], posted := s.posted + pdu)
  }

  function OnPostQuit(s: State, postOk: bool): State {
    if s.closed || !postOk then s else s.(queue := s.queue + [Quit], closed := true)
  }

  /** After the loop: an error is reported to the session and becomes the exit code. */
  function Leave(s: State, error: uint32): State {
    s.(thread := Exited(error), reported := if error != CHANNEL_RC_OK then Some(error) else s.reported)
  }

  /** One turn of the thread's loop; it waits while the queue is empty. */
  function OnIterate(s: State, returned: uint32): State {
    if !s.thread.Running? || s.queue == [] then s
    else if s.queue[0].Quit? then Leave(s.(queue := s.queue[1..]), s.thread.error)
    else
      var error := if returned != CHANNEL_RC_OK then CHANNEL_RC_OK else returned;
      s.(queue := s.queue[1..], handled := s.handled + [s.queue[0].data], thread := Running(error))
  }

  /** The queue fails the running thread. */
  predicate Fails(s: State, ev: Event) {
    s.thread.Running? && (ev.WaitFails? || (ev.PeekFails? && s.queue == []))
  }

  function Step(s: State, ev: Event): State {
    match ev
    case Post(c, postOk) => OnPost(s, c, postOk)
    case PostQuit(postOk) => OnPostQuit(s, postOk)
    case Iterate(returned) => OnIterate(s, returned)
    case _ => if Fails(s, ev) then Leave(s, ERROR_INTERNAL_ERROR) else s
  }

  function Run(s: State, evs: seq<Event>): State
    decreases |evs|
  {
    if evs == [] then s else Run(Step(s, evs[0]), evs[1..])
  }

  function Queued(queue: seq<Message>): seq<Bytes> {
    if queue == [] then [] else (if queue[0].Pdu? then [queue[0].data] else []) + Queued(queue[1..])
  }

  predicate Stopped(s: State) { s.thread == Exited(CHANNEL_RC_OK) }

  /** Nothing is lost or reordered between the producer and the handler; QUIT is the last message. */
  predicate Conserves(s: State) {
    && s.posted == s.handled + Queued(s.queue)
    && (forall k :: 0 <= k < |s.queue| ==> (s.queue[k].Quit? <==> s.closed && k == |s.queue| - 1))
    && (s.closed && !Stopped(s) ==> s.queue != [])
    && (Stopped(s) ==> s.queue == [] && s.closed)
  }

  /** The error is clear while the thread runs, and reported when it is the exit code. */
  predicate Clear(s: State) {
    match s.thread
    case Running(error) => error == CHANNEL_RC_OK && s.reported == None
    case Exited(code) => s.reported == if code != CHANNEL_RC_OK then Some(code) else None
  }

  lemma QueuedCons(queue: seq<Message>)
    requires queue != []
    ensures Queued(queue) == (if queue[0].Pdu? then [queue[0].data] else []) + Queued(queue[1..])
  {}

  lemma {:induction false} QueuedSnoc(queue: seq<Message>, m: Message)
    ensures Queued(queue + [m]) == Queued(queue) + if m.Pdu? then [m.data] else []
  {
    if queue == [] {
      assert queue + [m] == [m];
    } else {
      assert (queue + [m])[1..] == queue[1..] + [m];
      QueuedCons(queue);
      QueuedCons(queue + [m]);
      QueuedSnoc(queue[1..], m);
      hide Queued;
      var x, y := Queued(queue[1..]), if m.Pdu? then [m.data] else [];
      var head := if queue[0].Pdu? then [queue[0].data] else [];
      assert head + (x + y) == head + x + y;
    }
  }

  lemma FeedOne(a: Assembly, c: Chunk)
    ensures |Feed(a, c).1| <= 1
  {}

  lemma PostConserves(s: State, c: Chunk, postOk: bool)
    requires Conserves(s) && Clear(s)
    ensures Conserves(OnPost(s, c, postOk)) && Clear(OnPost(s, c, postOk))
  {
    FeedOne(s.assembly, c);
    var pdu := Feed(s.assembly, c).1;
    if pdu != [] && !s.closed {
      QueuedSnoc(s.queue, Pdu(pdu[0]));
      hide Feed, Queued;
      assert s.handled + Queued(s.queue) + pdu == s.handled + (Queued(s.queue) + [pdu[0]]);
    }
  }

  lemma QuitConserves(s: State, postOk: bool)
    requires Conserves(s) && Clear(s)
    ensures Conserves(OnPostQuit(s, postOk)) && Clear(OnPostQuit(s, postOk))
  {
    QueuedSnoc(s.queue, Quit);
    hide Queued;
  }

  lemma IterateConserves(s: State, returned: uint32)
    requires Conserves(s) && Clear(s)
    ensures Conserves(OnIterate(s, returned)) && Clear(OnIterate(s, returned))
  {
    if s.queue != [] {
      QueuedCons(s.queue);
      hide Queued;
      var head := if s.queue[0].Pdu? then [s.queue[0].data] else [];
      assert s.handled + (head + Queued(s.queue[1..])) == s.handled + head + Queued(s.queue[1..]);
      assert s.handled + [] == s.handled;
    }
  }

  lemma StepConserves(s: State, ev: Event)
    requires Conserves(s) && Clear(s)
    ensures Conserves(Step(s, ev)) && Clear(Step(s, ev))
  {
    hide OnPost, OnPostQuit, OnIterate, Queued;
    match ev
    case Post(c, postOk) => PostConserves(s, c, postOk);
    case PostQuit(postOk) => QuitConserves(s, postOk);
    case Iterate(returned) => IterateConserves(s, returned);
    case _ =>
  }

  /** The queue failed the thread somewhere in a run. */
  predicate AnyFails(s: State, evs: seq<Event>)
    decreases |evs|
  {
    evs != [] && (Fails(s, evs[0]) || AnyFails(Step(s, evs[0]), evs[1..]))
  }

  lemma {:induction false} RunConserves(s: State, evs: seq<Event>)
    requires Conserves(s) && Clear(s)
    ensures Conserves(Run(s, evs)) && Clear(Run(s, evs))
    decreases |evs|
  {
    if evs != [] {
      hide Step, Conserves, Clear;
      StepConserves(s, evs[0]);
      RunConserves(Step(s, evs[0]), evs[1..]);
    }
  }

  /** A thread that exited stays so, and has no more failures. */
  lemma {:induction false} ExitedStays(s: State, evs: seq<Event>)
    requires s.thread.Exited?
    ensures Run(s, evs).thread == s.thread && !AnyFails(s, evs)
    decreases |evs|
  {
    if evs != [] { ExitedStays(Step(s, evs[0]), evs[1..]); }
  }

  lemma {:induction false} FailsIff(s: State, evs: seq<Event>)
    requires Clear(s) && Conserves(s) && s.thread.Running?
    ensures AnyFails(s, evs) <==> Run(s, evs).thread == Exited(ERROR_INTERNAL_ERROR)
    ensures !AnyFails(s, evs) ==> Run(s, evs).thread.Running? || Stopped(Run(s, evs))
    decreases |evs|
  {
    if evs != [] {
      var t := Step(s, evs[0]);
      StepConserves(s, evs[0]);
      StepThread(s, evs[0]);
      hide Step, Conserves;
      if t.thread.Running? { FailsIff(t, evs[1..]); } else { ExitedStays(t, evs[1..]); }
    }
  }

  lemma StepThread(s: State, ev: Event)
    requires Clear(s) && s.thread.Running?
    ensures var t := Step(s, ev);
      if Fails(s, ev) then t.thread == Exited(ERROR_INTERNAL_ERROR) else t.thread.Running? || Stopped(t)
  {
    hide Feed;
  }

  /**
   Whatever handlers return, the thread exits with an error, which is then reported to the session, exactly
   when a wait or a peek failed it; otherwise it runs, or stopped when it was told to quit.
  */
  lemma ExitErrorIff(evs: seq<Event>)
    ensures var t := Run(INITIAL, evs);
      && (t.thread == Exited(1359) <==> AnyFails(INITIAL, evs))
      && (t.reported == if AnyFails(INITIAL, evs) then Some(1359) else None)
      && (!AnyFails(INITIAL, evs) ==> t.thread == Running(0) || t.thread == Exited(0))
  {
    FailsIff(INITIAL, evs);
    RunConserves(INITIAL, evs);
  }

  /** Every PDU was posted successfully. */
  predicate NoPostFails(evs: seq<Event>) { forall ev | ev in evs :: ev.Post? ==> ev.postOk }

  predicate PostsAll(s: State) {
    && (s.closed || s.assembly == FeedAll(EMPTY, s.fed).0)
    && s.posted == Delivered(s.fed)
  }

  lemma {:induction false} RunPostsAll(s: State, evs: seq<Event>)
    requires PostsAll(s) && NoPostFails(evs)
    ensures PostsAll(Run(s, evs))
    decreases |evs|
  {
    if evs != [] {
      hide Step, PostsAll;
      RunPostsAll(Step(s, evs[0]), evs[1..]);
    }
  }

  /** The chunks of a run, whether or not they could be posted. */
  function Arrived(evs: seq<Event>): seq<Chunk> {
    if evs == [] then [] else
    var n := |evs| - 1;
    Arrived(evs[..n]) + if evs[n].Post? then [evs[n].chunk] else []
  }

  lemma {:induction false} RunLast(s: State, evs: seq<Event>)
    requires evs != []
    ensures var n := |evs| - 1; Run(s, evs) == Step(Run(s, evs[..n]), evs[n])
    decreases |evs|
  {
    hide Step;
    var n := |evs| - 1;
    if n > 0 {
      assert evs[1..][..n - 1] == evs[..n][1..];
      RunLast(Step(s, evs[0]), evs[1..]);
    } else {
      assert evs[1..] == [];
    }
  }

  /**
   A PDU that cannot be posted is lost and nothing else: reassembly goes on with every chunk, and after each chunk
   what it completed is posted exactly if posting works and the queue is open.
  */
  lemma {:induction false} PostsExactly(evs: seq<Event>)
    ensures Run(INITIAL, evs).assembly == FeedAll(EMPTY, Arrived(evs)).0
    ensures evs != [] ==>
      var n := |evs| - 1;
      var s, t, ev := Run(INITIAL, evs[..n]), Run(INITIAL, evs), evs[n];
      t.posted == s.posted + if ev.Post? && ev.postOk && !s.closed then Feed(FeedAll(EMPTY, Arrived(evs[..n])).0, ev.chunk).1 else []
  {
    if evs != [] {
      var n := |evs| - 1;
      PostsExactly(evs[..n]);
      RunLast(INITIAL, evs);
      StepPosts(Run(INITIAL, evs[..n]), evs[n]);
      hide Step, Run, Feed;
      if evs[n].Post? { FeedSnoc(EMPTY, Arrived(evs[..n]), evs[n].chunk); } else { assert Arrived(evs[..n]) + [] == Arrived(evs[..n]); }
    }
  }

  lemma StepPosts(s: State, ev: Event)
    ensures var t := Step(s, ev);
      && t.assembly == (if ev.Post? then Feed(s.assembly, ev.chunk).0 else s.assembly)
      && t.posted == s.posted + if ev.Post? && ev.postOk && !s.closed then Feed(s.assembly, ev.chunk).1 else []
  {
    if ev.Post? { FeedOne(s.assembly, ev.chunk); }
    hide Feed;
    assert s.posted + [] == s.posted;
  }

  /**
   Threaded delivery, for every interleaving of producer and thread and every handler result: handled
   then queued PDUs are the posted ones in order, and once the thread has stopped all were handled.
  */
  lemma ThreadedDelivery(evs: seq<Event>)
    ensures var t := Run(INITIAL, evs);
      && t.posted == t.handled + Queued(t.queue)
      && (Stopped(t) ==> t.handled == t.posted)
      && (NoPostFails(evs) ==> t.posted == Delivered(t.fed))
  {
    RunConserves(INITIAL, evs);
    if NoPostFails(evs) { RunPostsAll(INITIAL, evs); }
    hide Run;
    var t := Run(INITIAL, evs);
    assert t.handled + [] == t.handled;
  }

  // ---- direct mode

  /** Without a thread a PDU is handled where it is completed, whatever the handler returns. */
  datatype Direct = Direct(assembly: Assembly, handled: seq<Bytes>)

  function DirectPost(d: Direct, c: Chunk, returned: uint32): Direct {
    var (a, pdu) := Feed(d.assembly, c);
    Direct(a, d.handled + pdu)
  }

  function DirectRun(d: Direct, calls: seq<(Chunk, uint32)>): Direct
    decreases |calls|
  {
    if calls == [] then d else DirectRun(DirectPost(d, calls[0].0, calls[0].1), calls[1..])
  }

  function Chunks(calls: seq<(Chunk, uint32)>): seq<Chunk> { seq(|calls|, i requires 0 <= i < |calls| => calls[i].0) }

  lemma {:induction false} DirectDelivers(d: Direct, calls: seq<(Chunk, uint32)>)
    ensures DirectRun(d, calls).handled == d.handled + FeedAll(d.assembly, Chunks(calls)).1
    decreases |calls|
  {
    hide Feed;
    if calls == [] {
      assert d.handled + [] == d.handled;
    } else {
      var c, rest := calls[0].0, Chunks(calls[1..]);
      var e := DirectPost(d, c, calls[0].1);
      DirectDelivers(e, calls[1..]);
      assert Chunks(calls) == [c] + rest;
      FeedFront(d.assembly, c, rest);
      assert DirectRun(d, calls) == DirectRun(e, calls[1..]);
      hide FeedAll, DirectRun;
      var out, later := Feed(d.assembly, c).1, FeedAll(e.assembly, rest).1;
      assert d.handled + out + later == d.handled + (out + later);
    }
  }

  lemma FeedFront(a: Assembly, c: Chunk, rest: seq<Chunk>)
    ensures FeedAll(a, [c] + rest).1 == Feed(a, c).1 + FeedAll(Feed(a, c).0, rest).1
  {
    hide Feed;
    FeedAppend(a, [c], rest);
    FeedSnoc(a, [], c);
    assert [] + [c] == [c] && [] + Feed(a, c).1 == Feed(a, c).1;
  }

  /**
   The thread that stopped has handled what direct mode handles for the same chunks, and both have handled
   the PDUs of the trace, whatever the handlers returned in either mode.
  */
  lemma ThreadedEqualsDirect(evs: seq<Event>, calls: seq<(Chunk, uint32)>)
    requires NoPostFails(evs) && Stopped(Run(INITIAL, evs)) && Chunks(calls) == Run(INITIAL, evs).fed
    ensures Run(INITIAL, evs).handled == DirectRun(Direct(EMPTY, []), calls).handled == Pdus(Live(Run(INITIAL, evs).fed))
  {
    ThreadedDelivery(evs);
    DirectDelivers(Direct(EMPTY, []), calls);
    ReassemblyRefines(Run(INITIAL, evs).fed);
    hide Run, DirectRun, FeedAll, Live;
    assert [] + FeedAll(EMPTY, Chunks(calls)).1 == FeedAll(EMPTY, Chunks(calls)).1;
  }

  // ---- handler results and the end of the thread

  /** The same event with another handler result. */
  predicate SameButResult(x: Event, y: Event) { x == y || (x.Iterate? && y.Iterate?) }

  /** What handlers return changes nothing: not what is handled later, not when the thread stops, not its error. */
  lemma {:induction false} HandlerErrorsIgnored(s: State, xs: seq<Event>, ys: seq<Event>)
    requires |xs| == |ys| && forall i :: 0 <= i < |xs| ==> SameButResult(xs[i], ys[i])
    ensures Run(s, xs) == Run(s, ys)
    decreases |xs|
  {
    if xs != [] {
      assert Step(s, xs[0]) == Step(s, ys[0]);
      hide Step;
      HandlerErrorsIgnored(Step(s, xs[0]), xs[1..], ys[1..]);
    }
  }

  /** With a closed queue and a working thread, as many turns as there are messages stop it. */
  lemma {:induction false} ThreadStops(s: State, turns: seq<Event>)
    requires Conserves(s) && Clear(s) && s.closed && s.thread.Running?
    requires |turns| == |s.queue| && forall ev | ev in turns :: ev.Iterate?
    ensures Stopped(Run(s, turns)) && Run(s, turns).handled == s.posted
    decreases |turns|
  {
    assert turns[0] in turns;
    var t := Step(s, turns[0]);
    StepConserves(s, turns[0]);
    assert forall ev | ev in turns[1..] :: ev in turns;
    if t.thread.Running? {
      ThreadStops(t, turns[1..]);
    } else {
      assert s.queue[0].Quit? && turns[1..] == [];
      assert t.handled + [] == t.handled;
    }
  }

  // ---- the handler object

  class MessageProcessor {
    const threaded: bool
    var dataIn: Option<Bytes>
    var firstFlagReceived: bool
    var queue: seq<Message>
    var closed: bool
    var thread: Thread
    var reported: Option<uint32>
    ghost var fed: seq<Chunk>
    ghost var posted: seq<Bytes>
    ghost var handled: seq<Bytes>

    ghost function View(): State
      reads this
    {
      State(Assembly(dataIn, firstFlagReceived), queue, closed, thread, reported, fed, posted, handled)
    }

    constructor (threaded: bool)
      ensures this.threaded == threaded && View() == INITIAL
    {
      this.threaded := threaded;
      dataIn, firstFlagReceived, queue, closed := None, false, [], false;
      thread, reported := Running(CHANNEL_RC_OK), None;
      fed, posted, handled := [], [], [];
    }

    method DropStream()
      modifies this`dataIn, this`firstFlagReceived
      ensures dataIn == None && !firstFlagReceived
    {
      dataIn, firstFlagReceived := None, false;
    }

    /** The reassembly half of channel_client_post_message. */
    method Reassemble(c: Chunk) returns (pdu: Option<Bytes>)
      modifies this`dataIn, this`firstFlagReceived
      ensures (Assembly(dataIn, firstFlagReceived), if pdu.Some? then [pdu.value] else [])
           == Feed(old(Assembly(dataIn, firstFlagReceived)), c)
    {
      pdu := None;
      if c.paused { return; }
      if c.first {
        firstFlagReceived := true;
        dataIn := if c.memOk then Some([]) else None;
      }
      if dataIn.None? {
        firstFlagReceived := false;
        return;
      }
      if !c.memOk {
        DropStream();
        return;
      }
      dataIn := Some(dataIn.value + c.data);
      if c.total > 0 && |dataIn.value| > c.total {
        DropStream();
        return;
      }
      if c.last {
        if firstFlagReceived && (c.total == 0 || |dataIn.value| == c.total) { pdu := dataIn; }
        DropStream();
      }
    }

    /** Threaded mode posts the PDU; direct mode runs the handler on it and drops what it returns. */
    method PostMessage(c: Chunk, postOk: bool, returned: uint32) returns (rc: uint32)
      modifies this
      ensures rc == CHANNEL_RC_OK
      ensures threaded ==> View() == OnPost(old(View()), c, postOk)
      ensures !threaded ==>
        var d := DirectPost(Direct(old(View()).assembly, old(handled)), c, returned);
        View() == old(View()).(assembly := d.assembly, handled := d.handled, fed := fed)
      ensures fed == if old(closed) then old(fed) else old(fed) + [c]
    {
      hide Feed;
      if !closed { fed := fed + [c]; }
      var pdu := Reassemble(c);
      if pdu.Some? {
        if !threaded {
          handled := handled + [pdu.value];
        } else if !closed && postOk {
          queue := queue + [Pdu(pdu.value)];
          posted := posted + [pdu.value];
        }
      }
      return CHANNEL_RC_OK;
    }

    /** What follows the loop of channel_client_thread_proc. */
    method LeaveThread(error: uint32)
      modifies this`thread, this`reported
      ensures View() == Leave(old(View()), error)
    {
      if error != CHANNEL_RC_OK {
        reported := Some(error);
      }
      thread := Exited(error);
    }

    /** One turn of channel_client_thread_proc, which the queue's event or a failed wait starts; whether the loop goes on. */
    method ThreadTurn(waitOk: bool, returned: uint32) returns (running: bool)
      requires thread.Running?
      modifies this`queue, this`handled, this`thread, this`reported
      ensures var turn := if !waitOk then WaitFails else if old(queue) == [] then PeekFails else Iterate(returned);
        View() == Step(old(View()), turn)
      ensures running <==> thread.Running?
      ensures running ==> |queue| < old(|queue|)
    {
      var error := thread.error;
      if !waitOk || queue == [] {
        error := ERROR_INTERNAL_ERROR;
        LeaveThread(error);
        return false;
      }
      var message := queue[0];
      queue := queue[1..];
      if message.Quit? {
        LeaveThread(error);
        return false;
      }
      handled := handled + [message.data];
      error := returned;
      if error != CHANNEL_RC_OK {
        error := CHANNEL_RC_OK;
      }
      thread := Running(error);
      return true;
    }

    /**
     Closes the queue and waits for the thread, which drains it unless a wait fails; a thread that has
     exited already is not waited for.
    */
    method QuitHandler(postOk: bool, waits: nat -> bool, returned: nat -> uint32)
      requires Conserves(View()) && Clear(View())
      modifies this
      ensures Conserves(View()) && Clear(View()) && posted == old(posted)
      ensures threaded && postOk && !old(closed) ==> thread.Exited?
      ensures threaded && postOk && !old(closed) && old(thread.Running?) && (forall k :: 0 <= k <= old(|queue|) ==> waits(k))
        ==> Stopped(View()) && handled == posted
      ensures !threaded || !postOk || old(closed) ==> View() == old(View())
    {
      if !threaded || closed || !postOk { return; }
      StepConserves(View(), PostQuit(postOk));
      queue, closed := queue + [Quit], true;
      var running, turn := thread.Running?, 0;
      while running
        invariant Conserves(View()) && Clear(View()) && closed && posted == old(posted)
        invariant running <==> thread.Running?
        invariant running ==> turn + |queue| == old(|queue|) + 1
        invariant old(thread.Running?) && !running && (forall k :: 0 <= k <= old(|queue|) ==> waits(k)) ==> Stopped(View())
        decreases |queue| + if running then 1 else 0
      {
        StepConserves(View(), if waits(turn) then Iterate(returned(turn)) else WaitFails);
        running := ThreadTurn(waits(turn), returned(turn));
        turn := turn + 1;
      }
      assert handled + [] == handled;
    }
  }
}
