/**
 * The TCP side of the raw protocol (src/workloads/raw-protocol.ts): bytes are reassembled
 * into frames, and frames are handed to `receive` calls in the order both arrive.
 */
module TcpConnection {
  import opened Wrappers
  import opened Sequences
  import opened BigEndian
  import opened TcpFraming

  datatype Failure = SocketError(message: string) | ConnectionClosed

  /** How the promise a `receive` call handed out was settled. */
  datatype Settlement = Resolved(frame: Frame) | Rejected(error: Failure) | TimedOut

  /**
   * `receive` calls are numbered in call order; `waiters` holds the numbers of those that still
   * wait, and `settled` the promises that are no longer pending. The last three fields record
   * the history: bytes received, frames completed, and which call took which frame.
   */
  datatype Conn = Conn(
    buffer: seq<byte>,
    frames: seq<Frame>,
    waiters: seq<nat>,
    closed: bool,
    closeError: Option<Failure>,
    issued: nat,
    settled: map<nat, Settlement>,
    received: seq<byte>,
    arrived: seq<Frame>,
    taken: seq<(nat, Frame)>
  )

  datatype Event =
    | Data(chunk: seq<byte>)
    | Receive
    | Timeout(call: nat)
    | SocketFailed(error: Failure)
    | Closed

  const FRESH := Conn([], [], [], false, None, 0, map[], [], [], [])

  /** A promise settles once; settling it again has no effect. */
  function Settle(settled: map<nat, Settlement>, call: nat, s: Settlement): map<nat, Settlement> {
    if call in settled then settled else settled[call := s]
  }

  function SettleAll(settled: map<nat, Settlement>, calls: seq<nat>, s: Settlement): map<nat, Settlement> {
    map call | call in settled.Keys + ToSet(calls) :: if call in settled then settled[call] else s
  }

  /** Hand one frame over: to the longest-waiting call, or to the queue of frames. */
  function Deliver(c: Conn, frame: Frame): Conn {
    var c' := c.(arrived := c.arrived + [frame]);
    if c.waiters == [] then c'.(frames := c.frames + [frame])
    else c'.(waiters := c.waiters[1..],
             settled := Settle(c.settled, c.waiters[0], Resolved(frame)),
             taken := c.taken + [(c.waiters[0], frame)])
  }

  function DeliverAll(c: Conn, frames: seq<Frame>): Conn
    decreases |frames|
  {
    if frames == [] then c else DeliverAll(Deliver(c, frames[0]), frames[1..])
  }

  function OnData(c: Conn, chunk: seq<byte>): Conn {
    var d := Drain(c.buffer + chunk);
    DeliverAll(c.(received := c.received + chunk, buffer := d.rest), d.frames)
  }

  function OnReceive(c: Conn): Conn {
    var call := c.issued;
    var c' := c.(issued := c.issued + 1);
    if c.frames != [] then
      c'.(frames := c.frames[1..],
          settled := Settle(c.settled, call, Resolved(c.frames[0])),
          taken := c.taken + [(call, c.frames[0])])
    else if c.closed then
      c'.(settled := Settle(c.settled, call, Rejected(c.closeError.GetOr(ConnectionClosed))))
    else
      c'.(waiters := c.waiters + [call])
  }

  /** The deadline of `withTimeout` passes. The waiter stays where it is in the queue. */
  function OnTimeout(c: Conn, call: nat): Conn {
    if call in c.waiters then c.(settled := Settle(c.settled, call, TimedOut)) else c
  }

  function RejectWaiters(c: Conn, error: Failure): Conn {
    c.(waiters := [], settled := SettleAll(c.settled, c.waiters, Rejected(error)))
  }

  function Step(c: Conn, e: Event): Conn {
    match e
    case Data(chunk) => OnData(c, chunk)
    case Receive => OnReceive(c)
    case Timeout(call) => OnTimeout(c, call)
    case SocketFailed(error) => RejectWaiters(c.(closeError := Some(error)), error)
    case Closed => RejectWaiters(c.(closed := true), c.closeError.GetOr(ConnectionClosed))
  }

  function Run(c: Conn, events: seq<Event>): Conn {
    if events == [] then c else Step(Run(c, events[..|events| - 1]), events[|events| - 1])
  }

  // ---------- what every event keeps ----------

  function Frames(taken: seq<(nat, Frame)>): (fs: seq<Frame>)
    ensures |fs| == |taken| && forall i :: 0 <= i < |taken| ==> fs[i] == taken[i].1
  {
    seq(|taken|, i requires 0 <= i < |taken| => taken[i].1)
  }

  /** The calls that have taken a frame, in the order of the frames, then those still waiting. */
  function Takers(c: Conn): (calls: seq<nat>)
    ensures |calls| == |c.taken| + |c.waiters|
  {
    seq(|c.taken|, i requires 0 <= i < |c.taken| => c.taken[i].0) + c.waiters
  }

  ghost predicate Took(c: Conn, call: nat, frame: Frame) {
    exists i :: 0 <= i < |c.taken| && c.taken[i] == (call, frame)
  }

  /** Frames and waiters never pile up together, and a closed connection has no waiters. */
  ghost predicate QueuesApart(c: Conn) {
    (c.frames == [] || c.waiters == []) && (c.closed ==> c.waiters == [])
  }

  /** The bytes received are exactly the arrived frames, re-encoded, and the unfinished rest. */
  ghost predicate BytesConserved(c: Conn) {
    Splits(c.received, Drained(c.arrived, c.buffer))
  }

  /**
   * Every arrived frame was taken once or is still queued, in arrival order, and the calls
   * that took them did so in call order.
   */
  ghost predicate FramesInOrder(c: Conn) {
    && c.arrived == Frames(c.taken) + c.frames
    && Increasing(Takers(c))
    && forall i :: 0 <= i < |Takers(c)| ==> Takers(c)[i] < c.issued
  }

  /**
   * Every call is waiting or settled. A call that resolved did so with the frame it took; a call
   * that took a frame resolved with it, unless its deadline had already passed; a rejected call
   * took nothing.
   */
  ghost predicate PromisesHonest(c: Conn) {
    && (forall call :: call in c.settled ==> call < c.issued)
    && (forall call: nat :: call < c.issued ==> call in c.settled || call in c.waiters)
    && (forall i :: 0 <= i < |c.waiters| && c.waiters[i] in c.settled ==> c.settled[c.waiters[i]] == TimedOut)
    && (forall i :: 0 <= i < |c.taken| ==>
          var (call, frame) := c.taken[i];
          call in c.settled && (c.settled[call] == Resolved(frame) || c.settled[call] == TimedOut))
    && (forall call :: call in c.settled && c.settled[call].Resolved? ==> Took(c, call, c.settled[call].frame))
  }

  ghost predicate Inv(c: Conn) {
    QueuesApart(c) && BytesConserved(c) && FramesInOrder(c) && PromisesHonest(c)
  }

  ghost predicate HandoffInv(c: Conn) {
    QueuesApart(c) && FramesInOrder(c) && PromisesHonest(c)
  }

  lemma TookAppend(c: Conn, c': Conn, last: (nat, Frame))
    requires c'.taken == c.taken + [last]
    ensures Took(c', last.0, last.1)
    ensures forall call: nat, frame :: Took(c, call, frame) ==> Took(c', call, frame)
  {
    assert c'.taken[|c.taken|] == last;
    forall call: nat, frame | Took(c, call, frame) ensures Took(c', call, frame) {
      var i :| 0 <= i < |c.taken| && c.taken[i] == (call, frame);
      assert c'.taken[i] == (call, frame);
    }
  }

  lemma DeliverKeeps(c: Conn, frame: Frame)
    requires HandoffInv(c)
    ensures HandoffInv(Deliver(c, frame))
  {
    var c' := Deliver(c, frame);
    if c.waiters == [] {
      assert Takers(c') == Takers(c);
      assert c'.arrived == Frames(c'.taken) + c'.frames;
      forall call: nat, f | Took(c, call, f) ensures Took(c', call, f) {}
    } else {
      var head := c.waiters[0];
      assert Takers(c') == Takers(c);
      assert head == Takers(c)[|c.taken|];
      TookAppend(c, c', (head, frame));
      assert Frames(c'.taken) == Frames(c.taken) + [frame];
      assert c'.arrived == Frames(c'.taken) + c'.frames;
      HeadLeaves(c, c', frame);
    }
  }

  /** The promises once the longest-waiting call has taken a frame. */
  lemma HeadLeaves(c: Conn, c': Conn, frame: Frame)
    requires HandoffInv(c) && c.waiters != [] && c' == Deliver(c, frame)
    requires Took(c', c.waiters[0], frame)
    requires forall call: nat, f :: Took(c, call, f) ==> Took(c', call, f)
    ensures PromisesHonest(c')
  {
    var head := c.waiters[0];
    assert Takers(c)[|c.taken|] == head;
    assert head in c'.settled;
    forall i | 0 <= i < |c'.waiters| && c'.waiters[i] in c'.settled
      ensures c'.settled[c'.waiters[i]] == TimedOut
    {
      assert c'.waiters[i] == c.waiters[i + 1];
      assert Takers(c)[|c.taken| + i + 1] == c.waiters[i + 1];
      assert c.waiters[i + 1] != head;
    }
    forall call: nat | call < c'.issued ensures call in c'.settled || call in c'.waiters {
      if call in c.waiters && call != head {
        var i :| 0 <= i < |c.waiters| && c.waiters[i] == call;
        assert c'.waiters[i - 1] == call;
      }
    }
  }

  lemma {:induction false} DeliverAllKeeps(c: Conn, frames: seq<Frame>)
    requires HandoffInv(c)
    ensures HandoffInv(DeliverAll(c, frames))
    decreases |frames|
  {
    if frames != [] {
      DeliverKeeps(c, frames[0]);
      DeliverAllKeeps(Deliver(c, frames[0]), frames[1..]);
    }
  }

  lemma {:induction false} DeliverAllArrives(c: Conn, frames: seq<Frame>)
    ensures var c' := DeliverAll(c, frames);
            && c'.arrived == c.arrived + frames
            && c'.buffer == c.buffer && c'.received == c.received && c'.closed == c.closed
    decreases |frames|
  {
    if frames != [] {
      DeliverAllArrives(Deliver(c, frames[0]), frames[1..]);
      assert c.arrived + frames == c.arrived + [frames[0]] + frames[1..];
    }
  }

  lemma OnDataKeeps(c: Conn, chunk: seq<byte>)
    requires Inv(c)
    ensures Inv(OnData(c, chunk))
    ensures OnData(c, chunk).received == c.received + chunk
  {
    var d := Drain(c.buffer + chunk);
    var c1 := c.(received := c.received + chunk, buffer := d.rest);
    assert Takers(c1) == Takers(c);
    forall call: nat, f | Took(c, call, f) ensures Took(c1, call, f) {}
    DeliverAllKeeps(c1, d.frames);
    DeliverAllArrives(c1, d.frames);
    DrainIff(c.buffer + chunk, d);
    SplitsJoin(c.received, Drained(c.arrived, c.buffer), chunk, d);
  }

  lemma OnReceiveTakes(c: Conn)
    requires HandoffInv(c) && c.frames != []
    ensures HandoffInv(OnReceive(c))
  {
    var c' := OnReceive(c);
    TookAppend(c, c', (c.issued, c.frames[0]));
    assert Takers(c') == Takers(c) + [c.issued];
    assert Frames(c'.taken) == Frames(c.taken) + [c.frames[0]];
    assert c'.arrived == Frames(c'.taken) + c'.frames;
    ReceiverHonest(c, c');
  }

  lemma ReceiverHonest(c: Conn, c': Conn)
    requires HandoffInv(c) && c.frames != [] && c' == OnReceive(c) && Took(c', c.issued, c.frames[0])
    requires forall call: nat, f :: Took(c, call, f) ==> Took(c', call, f)
    ensures PromisesHonest(c')
  {
    forall k: nat | k in c'.settled && c'.settled[k].Resolved? ensures Took(c', k, c'.settled[k].frame) {
      if k in c.settled {
        assert Took(c, k, c.settled[k].frame);
      }
    }
  }

  lemma OnReceiveWaits(c: Conn)
    requires HandoffInv(c) && c.frames == [] && !c.closed
    ensures HandoffInv(OnReceive(c))
  {
    var c' := OnReceive(c);
    assert Takers(c') == Takers(c) + [c.issued];
  }

  lemma OnReceiveRejects(c: Conn)
    requires HandoffInv(c) && c.frames == [] && c.closed
    ensures HandoffInv(OnReceive(c))
  {
    var c' := OnReceive(c);
    assert Takers(c') == Takers(c);
    forall call: nat, f | Took(c, call, f) ensures Took(c', call, f) {}
  }

  lemma OnTimeoutKeeps(c: Conn, call: nat)
    requires HandoffInv(c) && call in c.waiters && call !in c.settled
    ensures HandoffInv(OnTimeout(c, call))
  {
    var c' := OnTimeout(c, call);
    assert Takers(c') == Takers(c);
    forall k: nat, f | Took(c, k, f) ensures Took(c', k, f) {}
    var i :| 0 <= i < |c.waiters| && c.waiters[i] == call;
    assert Takers(c)[|c.taken| + i] == call;
  }

  lemma RejectWaitersKeeps(c: Conn, error: Failure)
    requires HandoffInv(c.(closed := false))
    ensures HandoffInv(RejectWaiters(c, error))
  {
    var c' := RejectWaiters(c, error);
    assert Takers(c') == Takers(c)[..|c.taken|];
    forall i | 0 <= i < |c.waiters| ensures c.waiters[i] < c.issued {
      assert Takers(c)[|c.taken| + i] == c.waiters[i];
    }
    assert Takers(c.(closed := false)) == Takers(c);
    forall call: nat, f | Took(c.(closed := false), call, f) ensures Took(c', call, f) {}
    forall i | 0 <= i < |c.taken|
      ensures var (call, frame) := c'.taken[i];
              call in c'.settled && (c'.settled[call] == Resolved(frame) || c'.settled[call] == TimedOut)
    {
      assert c'.taken[i] == c.(closed := false).taken[i];
    }
  }

  lemma StepKeeps(c: Conn, e: Event)
    requires Inv(c)
    ensures Inv(Step(c, e))
  {
    match e
    case Data(chunk) => OnDataKeeps(c, chunk);
    case Receive =>
      if c.frames != [] { OnReceiveTakes(c); }
      else if c.closed { OnReceiveRejects(c); }
      else { OnReceiveWaits(c); }
    case Timeout(call) =>
      if call in c.waiters && call !in c.settled { OnTimeoutKeeps(c, call); }
    case SocketFailed(error) =>
      Irrelevant(c, c.(closeError := Some(error), closed := false));
      RejectWaitersKeeps(c.(closeError := Some(error)), error);
    case Closed =>
      Irrelevant(c, c.(closed := false));
      RejectWaitersKeeps(c.(closed := true), c.closeError.GetOr(ConnectionClosed));
  }

  lemma {:induction false} DeliverAllSettled(c: Conn, frames: seq<Frame>, call: nat)
    requires call in c.settled
    ensures call in DeliverAll(c, frames).settled && DeliverAll(c, frames).settled[call] == c.settled[call]
    decreases |frames|
  {
    if frames != [] {
      DeliverAllSettled(Deliver(c, frames[0]), frames[1..], call);
    }
  }

  /** A promise settles once: no event changes how a call was settled. */
  lemma SettledStays(c: Conn, e: Event, call: nat)
    requires call in c.settled
    ensures call in Step(c, e).settled && Step(c, e).settled[call] == c.settled[call]
  {
    if e.Data? {
      var d := Drain(c.buffer + e.chunk);
      DeliverAllSettled(c.(received := c.received + e.chunk, buffer := d.rest), d.frames, call);
    }
  }

  /** Nor does any further run: what a caller was told stands. */
  lemma {:induction false} SettledForever(c: Conn, events: seq<Event>, call: nat)
    requires call in c.settled
    ensures call in Run(c, events).settled && Run(c, events).settled[call] == c.settled[call]
    decreases |events|
  {
    if events != [] {
      SettledForever(c, events[..|events| - 1], call);
      SettledStays(Run(c, events[..|events| - 1]), events[|events| - 1], call);
    }
  }

  /** Being open and the remembered error play no part in the hand-off invariant. */
  lemma Irrelevant(c: Conn, c': Conn)
    requires HandoffInv(c) && c' == c.(closed := false, closeError := c'.closeError)
    ensures HandoffInv(c')
  {
    assert Takers(c') == Takers(c);
    forall call: nat, f | Took(c, call, f) ensures Took(c', call, f) {}
  }

  /** The invariant holds after every sequence of events, in whatever order they come. */
  lemma {:induction false} RunKeeps(events: seq<Event>)
    ensures Inv(Run(FRESH, events))
    decreases |events|
  {
    if events == [] {
      assert Wire([]) + [] == [];
    } else {
      RunKeeps(events[..|events| - 1]);
      StepKeeps(Run(FRESH, events[..|events| - 1]), events[|events| - 1]);
    }
  }

  // ---------- whole runs ----------

  /** All bytes the socket delivered, in order, however it chunked them. */
  function Bytes(events: seq<Event>): seq<byte> {
    if events == [] then []
    else
      var front, last := events[..|events| - 1], events[|events| - 1];
      Bytes(front) + if last.Data? then last.chunk else []
  }

  lemma {:induction false} ReceivedBytes(events: seq<Event>)
    ensures Run(FRESH, events).received == Bytes(events)
    decreases |events|
  {
    if events != [] {
      var front, last := events[..|events| - 1], events[|events| - 1];
      ReceivedBytes(front);
      RunKeeps(front);
      if last.Data? {
        OnDataKeeps(Run(FRESH, front), last.chunk);
      }
    }
  }

  /**
   * Frames sent with `encodeTcpFrame` arrive as they were sent and leave the buffer empty,
   * for every way of chunking the bytes and every interleaving with the other events.
   */
  lemma Reassembly(events: seq<Event>, frames: seq<Frame>)
    requires Short(frames) && Bytes(events) == Wire(frames)
    ensures Run(FRESH, events).arrived == frames
    ensures Run(FRESH, events).buffer == []
  {
    var c := Run(FRESH, events);
    RunKeeps(events);
    ReceivedBytes(events);
    assert Wire(frames) + [] == Wire(frames);
    DrainIff(c.received, Drained(c.arrived, c.buffer));
    DrainIff(c.received, Drained(frames, []));
  }

  predicate Calm(events: seq<Event>) {
    forall i :: 0 <= i < |events| ==> !events[i].SocketFailed? && !events[i].Closed?
  }

  ghost predicate InTurn(c: Conn) {
    !c.closed && |Takers(c)| == c.issued && forall i :: 0 <= i < c.issued ==> Takers(c)[i] == i
  }

  lemma {:induction false} DeliverAllInTurn(c: Conn, frames: seq<Frame>)
    requires InTurn(c)
    ensures InTurn(DeliverAll(c, frames))
    decreases |frames|
  {
    if frames != [] {
      assert Takers(Deliver(c, frames[0])) == Takers(c);
      DeliverAllInTurn(Deliver(c, frames[0]), frames[1..]);
    }
  }

  lemma StepInTurn(c: Conn, e: Event)
    requires Inv(c) && InTurn(c) && !e.SocketFailed? && !e.Closed?
    ensures InTurn(Step(c, e))
  {
    match e
    case Data(chunk) =>
      var d := Drain(c.buffer + chunk);
      var c1 := c.(received := c.received + chunk, buffer := d.rest);
      assert Takers(c1) == Takers(c);
      DeliverAllInTurn(c1, d.frames);
    case Receive => assert Takers(OnReceive(c)) == Takers(c) + [c.issued];
    case Timeout(call) => assert Takers(OnTimeout(c, call)) == Takers(c);
    case SocketFailed(_) =>
    case Closed =>
  }

  lemma {:induction false} CalmInTurn(events: seq<Event>)
    requires Calm(events)
    ensures InTurn(Run(FRESH, events))
    decreases |events|
  {
    if events == [] {
      assert Takers(FRESH) == [];
    } else {
      var front := events[..|events| - 1];
      assert forall i :: 0 <= i < |front| ==> front[i] == events[i];
      CalmInTurn(front);
      RunKeeps(front);
      StepInTurn(Run(FRESH, front), events[|events| - 1]);
    }
  }

  lemma TakenInTurn(c: Conn)
    requires Inv(c) && InTurn(c)
    ensures |c.taken| <= |c.arrived|
    ensures forall i :: 0 <= i < |c.taken| ==> c.taken[i] == (i, c.arrived[i])
    ensures |c.taken| == if c.issued < |c.arrived| then c.issued else |c.arrived|
  {
    forall i | 0 <= i < |c.taken| ensures c.taken[i] == (i, c.arrived[i]) {
      assert Takers(c)[i] == c.taken[i].0 && Frames(c.taken)[i] == c.taken[i].1;
    }
  }

  /**
   * While the connection lives, frame k goes to call k. A call whose deadline passed keeps its
   * place and takes its frame: no later call gets it.
   */
  lemma FrameForEachCall(events: seq<Event>)
    requires Calm(events)
    ensures var c := Run(FRESH, events);
            && InTurn(c)
            && |c.taken| <= |c.arrived|
            && (forall i :: 0 <= i < |c.taken| ==> c.taken[i] == (i, c.arrived[i]))
            && (|c.taken| == if c.issued < |c.arrived| then c.issued else |c.arrived|)
  {
    CalmInTurn(events);
    RunKeeps(events);
    TakenInTurn(Run(FRESH, events));
  }

  // ---------- what becomes of a call ----------

  /** How many times `receive` was called. */
  function Calls(events: seq<Event>): nat {
    if events == [] then 0
    else Calls(events[..|events| - 1]) + if events[|events| - 1] == Receive then 1 else 0
  }

  /** The error that calls on a dead connection are told: the latest of the socket, or that it is closed. */
  function LastError(events: seq<Event>): Failure {
    if events == [] then ConnectionClosed
    else
      var front, last := events[..|events| - 1], events[|events| - 1];
      if last.SocketFailed? then last.error else LastError(front)
  }

  lemma DeliverAllRest(c: Conn, frames: seq<Frame>)
    ensures DeliverAll(c, frames).issued == c.issued && DeliverAll(c, frames).closeError == c.closeError
    decreases |frames|
  {
    if frames != [] {
      DeliverAllRest(Deliver(c, frames[0]), frames[1..]);
    }
  }

  lemma StepRest(c: Conn, e: Event)
    ensures Step(c, e).issued == c.issued + if e == Receive then 1 else 0
    ensures Step(c, e).closed <==> c.closed || e == Closed
    ensures Step(c, e).closeError == if e.SocketFailed? then Some(e.error) else c.closeError
  {
    if e.Data? {
      var d := Drain(c.buffer + e.chunk);
      var c1 := c.(received := c.received + e.chunk, buffer := d.rest);
      DeliverAllRest(c1, d.frames);
      DeliverAllArrives(c1, d.frames);
    }
  }

  lemma {:induction false} RunRest(events: seq<Event>)
    ensures var c := Run(FRESH, events);
            && c.issued == Calls(events)
            && (c.closed <==> Closed in events)
            && c.closeError.GetOr(ConnectionClosed) == LastError(events)
    decreases |events|
  {
    if events != [] {
      var front, last := events[..|events| - 1], events[|events| - 1];
      assert events == front + [last];
      RunRest(front);
      StepRest(Run(FRESH, front), last);
    }
  }

  /** Frames never time a call out or reject it. */
  lemma {:induction false} DeliveriesResolve(c: Conn, frames: seq<Frame>, call: nat)
    requires call !in c.settled
    ensures call in DeliverAll(c, frames).settled ==> DeliverAll(c, frames).settled[call].Resolved?
    decreases |frames|
  {
    if frames != [] {
      var c' := Deliver(c, frames[0]);
      if call in c'.settled {
        DeliverAllSettled(c', frames[1..], call);
      } else {
        DeliveriesResolve(c', frames[1..], call);
      }
    }
  }

  /** How an unsettled call is told that it failed: by its deadline, by an error, by the close, or at once on a closed connection. */
  function FailsWith(c: Conn, e: Event, call: nat): Option<Settlement> {
    match e
    case Data(_) => None
    case Receive =>
      if call == c.issued && c.closed && c.frames == [] then Some(Rejected(c.closeError.GetOr(ConnectionClosed))) else None
    case Timeout(k) => if call == k < c.issued then Some(TimedOut) else None
    case SocketFailed(error) => if call < c.issued then Some(Rejected(error)) else None
    case Closed => if call < c.issued then Some(Rejected(c.closeError.GetOr(ConnectionClosed))) else None
  }

  lemma WaitersIssued(c: Conn)
    requires Inv(c)
    ensures forall call :: call in c.waiters ==> call < c.issued
  {
    forall i | 0 <= i < |c.waiters| ensures c.waiters[i] < c.issued {
      assert Takers(c)[|c.taken| + i] == c.waiters[i];
    }
  }

  lemma StepFails(c: Conn, e: Event, call: nat)
    requires Inv(c) && call !in c.settled
    ensures var t := Step(c, e).settled;
            && (FailsWith(c, e, call).Some? ==> call in t && t[call] == FailsWith(c, e, call).value)
            && (FailsWith(c, e, call).None? && call in t ==> t[call].Resolved?)
  {
    WaitersIssued(c);
    if e.Data? {
      var d := Drain(c.buffer + e.chunk);
      DeliveriesResolve(c.(received := c.received + e.chunk, buffer := d.rest), d.frames, call);
    }
  }

  /** Event n finds a call unsettled and fails it so. */
  ghost predicate FailedAt(events: seq<Event>, n: int, call: nat, s: Settlement) {
    && 0 <= n < |events|
    && call !in Run(FRESH, events[..n]).settled
    && match events[n]
       case Data(_) => false
       case Receive =>
         && call == Calls(events[..n]) && Closed in events[..n] && Run(FRESH, events[..n]).frames == []
         && s == Rejected(LastError(events[..n]))
       case Timeout(k) => call == k < Calls(events[..n]) && s == TimedOut
       case SocketFailed(error) => call < Calls(events[..n]) && s == Rejected(error)
       case Closed => call < Calls(events[..n]) && s == Rejected(LastError(events[..n]))
  }

  lemma FailedAtIff(events: seq<Event>, n: nat, call: nat, s: Settlement)
    requires n < |events| && call !in Run(FRESH, events[..n]).settled
    ensures FailedAt(events, n, call, s) <==> FailsWith(Run(FRESH, events[..n]), events[n], call) == Some(s)
  {
    RunRest(events[..n]);
  }

  lemma FailedSplit(events: seq<Event>, call: nat, s: Settlement)
    requires events != []
    ensures var k := |events| - 1;
            (exists n :: FailedAt(events, n, call, s)) <==>
              (exists n :: FailedAt(events[..k], n, call, s)) || FailedAt(events, k, call, s)
  {
    var k := |events| - 1;
    forall n | 0 <= n < k ensures FailedAt(events[..k], n, call, s) <==> FailedAt(events, n, call, s) {
      assert events[..k][..n] == events[..n];
    }
  }

  /** The last event of a run leaves a settlement as it is, or makes it. */
  lemma FailedLast(events: seq<Event>, call: nat, s: Settlement)
    requires events != [] && !s.Resolved?
    ensures var k := |events| - 1;
            var before, after := Run(FRESH, events[..k]).settled, Run(FRESH, events).settled;
            call in after && after[call] == s <==>
              (call in before && before[call] == s) || FailedAt(events, k, call, s)
  {
    var k := |events| - 1;
    var c := Run(FRESH, events[..k]);
    RunKeeps(events[..k]);
    if call in c.settled {
      SettledStays(c, events[k], call);
    } else {
      StepFails(c, events[k], call);
      FailedAtIff(events, k, call, s);
    }
  }

  /**
   * A call is told a failure exactly when an event failed it while it was still unsettled: its own
   * deadline, an error of the socket, the close, or its being made on a closed connection with no frame
   * left. It is told the failure of that event and no other.
   */
  lemma {:induction false} FailedIff(events: seq<Event>, call: nat, s: Settlement)
    requires !s.Resolved?
    ensures call in Run(FRESH, events).settled && Run(FRESH, events).settled[call] == s <==>
              exists n :: FailedAt(events, n, call, s)
    decreases |events|
  {
    if events != [] {
      FailedIff(events[..|events| - 1], call, s);
      FailedSplit(events, call, s);
      FailedLast(events, call, s);
    }
  }

  /** A call that is unsettled when its deadline passes is timed out from then on, and no other call ever is. */
  lemma TimedOutIff(events: seq<Event>, call: nat)
    ensures call in Run(FRESH, events).settled && Run(FRESH, events).settled[call] == TimedOut <==>
              exists n :: 0 <= n < |events| && events[n] == Timeout(call)
                          && call < Calls(events[..n]) && call !in Run(FRESH, events[..n]).settled
  {
    FailedIff(events, call, TimedOut);
    if n :| FailedAt(events, n, call, TimedOut) {
      assert events[n] == Timeout(call);
    }
    if n :| 0 <= n < |events| && events[n] == Timeout(call) && call < Calls(events[..n]) && call !in Run(FRESH, events[..n]).settled {
      assert FailedAt(events, n, call, TimedOut);
    }
  }

  /** A call that takes a frame resolves with it unless it was told a failure before. */
  lemma ResolvedIff(events: seq<Event>, call: nat, frame: Frame)
    ensures var c := Run(FRESH, events);
            call in c.settled && c.settled[call] == Resolved(frame) <==>
              Took(c, call, frame) && !exists n :: FailedAt(events, n, call, TimedOut)
  {
    var c := Run(FRESH, events);
    RunKeeps(events);
    FailedIff(events, call, TimedOut);
    if Took(c, call, frame) {
      var i :| 0 <= i < |c.taken| && c.taken[i] == (call, frame);
      assert call in c.settled && (c.settled[call] == Resolved(frame) || c.settled[call] == TimedOut);
    }
  }

  /** A closed connection leaves no promise pending. */
  lemma ClosedSettlesEveryCall(events: seq<Event>, call: nat)
    requires Run(FRESH, events).closed && call < Run(FRESH, events).issued
    ensures call in Run(FRESH, events).settled
  {
    RunKeeps(events);
  }

  /** Only `receive` takes frames off the queue. */
  lemma BufferedFramesStay(c: Conn, e: Event)
    requires Inv(c) && e != Receive
    ensures c.frames <= Step(c, e).frames
  {
    if e.Data? {
      DeliverAllAppends(c.(received := c.received + e.chunk, buffer := Drain(c.buffer + e.chunk).rest),
                        Drain(c.buffer + e.chunk).frames);
    }
  }

  lemma {:induction false} DeliverAllAppends(c: Conn, frames: seq<Frame>)
    ensures c.frames <= DeliverAll(c, frames).frames
    decreases |frames|
  {
    if frames != [] {
      DeliverAllAppends(Deliver(c, frames[0]), frames[1..]);
    }
  }

  function Receives(n: nat): (events: seq<Event>)
    ensures |events| == n
  {
    seq(n, _ => Receive)
  }

  /** n calls after `c`, the first n frames queued in `c` have been received, oldest first. */
  ghost predicate Answered(c: Conn, n: nat, c': Conn)
    requires n <= |c.frames|
  {
    && c'.closed == c.closed && c'.issued == c.issued + n && c'.frames == c.frames[n..]
    && (forall call :: call in c'.settled ==> call < c'.issued)
    && forall call :: c.issued <= call < c.issued + n ==>
         call in c'.settled && c'.settled[call] == Resolved(c.frames[call - c.issued])
  }

  lemma AnsweredNext(c: Conn, n: nat, mid: Conn)
    requires n < |c.frames| && Answered(c, n, mid)
    ensures Answered(c, n + 1, OnReceive(mid))
  {
    var c' := OnReceive(mid);
    assert mid.frames[0] == c.frames[n];
    assert c'.settled == mid.settled[mid.issued := Resolved(c.frames[n])];
    DropDrop(c.frames, n);
  }

  lemma DropDrop(s: seq<Frame>, n: nat)
    requires n < |s|
    ensures s[n..][1..] == s[n + 1..]
  {
  }

  lemma {:induction false} ReceivesAnswer(c: Conn, n: nat)
    requires n <= |c.frames| && Answered(c, 0, c)
    ensures Answered(c, n, Run(c, Receives(n)))
    decreases n
  {
    if n > 0 {
      ReceivesAnswer(c, n - 1);
      AnsweredNext(c, n - 1, Run(c, Receives(n - 1)));
      assert Receives(n)[..n - 1] == Receives(n - 1);
    }
  }

  /**
   * Frames buffered before the close are still received, oldest first, one per call;
   * the call after the last of them is rejected.
   */
  lemma ReceivableAfterClose(events: seq<Event>, n: nat)
    requires Run(FRESH, events).closed && n <= |Run(FRESH, events).frames|
    ensures var c := Run(FRESH, events);
            var c' := Run(c, Receives(n));
            && Answered(c, n, c')
            && (n == |c.frames| ==>
                  c'.issued in OnReceive(c').settled && OnReceive(c').settled[c'.issued].Rejected?)
  {
    var c := Run(FRESH, events);
    assert Answered(c, 0, c) by { RunKeeps(events); }
    ReceivesAnswer(c, n);
    var c' := Run(c, Receives(n));
    assert c'.issued !in c'.settled;
  }

  // ---------- the connection object ----------

  /** The state that the closures of `openRawTcp` share. */
  class RawTcp {
    var buffer: seq<byte>
    var frames: seq<Frame>
    var waiters: seq<nat>
    var closed: bool
    var closeError: Option<Failure>
    var issued: nat
    var settled: map<nat, Settlement>
    ghost var received: seq<byte>
    ghost var arrived: seq<Frame>
    ghost var taken: seq<(nat, Frame)>

    ghost function State(): Conn
      reads this
    {
      Conn(buffer, frames, waiters, closed, closeError, issued, settled, received, arrived, taken)
    }

    constructor ()
      ensures State() == FRESH
    {
      buffer, frames, waiters := [], [], [];
      closed, closeError, issued, settled := false, None, 0, map[];
      received, arrived, taken := [], [], [];
    }

    /** Resolve the longest-waiting call with the frame, or queue the frame. */
    method DeliverFrame(frame: Frame)
      modifies this
      ensures State() == Deliver(old(State()), frame)
    {
      arrived := arrived + [frame];
      if waiters != [] {
        settled := Settle(settled, waiters[0], Resolved(frame));
        taken := taken + [(waiters[0], frame)];
        waiters := waiters[1..];
      } else {
        frames := frames + [frame];
      }
    }

    method Data(chunk: seq<byte>)
      modifies this
      ensures State() == Step(old(State()), Event.Data(chunk))
    {
      ghost var goal := Step(State(), Event.Data(chunk));
      buffer := buffer + chunk;
      received := received + chunk;
      while |buffer| >= 4
        invariant Finish(State()) == goal
        decreases |buffer|
      {
        var length := ReadU32(buffer[..4]);
        if |buffer| < 4 + length {
          break;
        }
        FinishStep(State());
        var frame := buffer[4..4 + length];
        buffer := buffer[4 + length..];
        DeliverFrame(frame);
      }
    }

    method Receive()
      modifies this
      ensures State() == Step(old(State()), Event.Receive)
    {
      var call := issued;
      issued := issued + 1;
      if |frames| > 0 {
        settled := Settle(settled, call, Resolved(frames[0]));
        taken := taken + [(call, frames[0])];
        frames := frames[1..];
      } else if closed {
        settled := Settle(settled, call, Rejected(closeError.GetOr(ConnectionClosed)));
      } else {
        waiters := waiters + [call];
      }
    }

    method Timeout(call: nat)
      modifies this
      ensures State() == Step(old(State()), Event.Timeout(call))
    {
      if call in waiters {
        settled := Settle(settled, call, TimedOut);
      }
    }

    method Fail(error: Failure)
      modifies this
      ensures State() == Step(old(State()), SocketFailed(error))
    {
      closeError := Some(error);
      settled := SettleAll(settled, waiters, Rejected(error));
      waiters := [];
    }

    method Close()
      modifies this
      ensures State() == Step(old(State()), Closed)
    {
      closed := true;
      settled := SettleAll(settled, waiters, Rejected(closeError.GetOr(ConnectionClosed)));
      waiters := [];
    }
  }

  /** What the data handler still has to do with the bytes in the buffer. */
  ghost function Finish(c: Conn): Conn {
    DeliverAll(c.(buffer := Drain(c.buffer).rest), Drain(c.buffer).frames)
  }

  lemma FinishStep(c: Conn)
    requires HoldsFrame(c.buffer)
    ensures var f := FirstFrame(c.buffer);
            Finish(c) == Finish(Deliver(c.(buffer := c.buffer[4 + |f|..]), f))
  {
  }
}
