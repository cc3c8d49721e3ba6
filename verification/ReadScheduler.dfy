/**
 The server's read scheduler as a transition system.  Every section that runs under the
 lock of `Read` and every system call is one atomic action; a run is any sequence of
 enabled actions, so it covers every interleaving of the main thread (which pushes and
 interrupts reads) with the worker thread (which serves them).
 */
module ReadScheduler {
  import opened Base
  import Spec = ReadSpec

  type Req = Spec.Req

  /** Capacity of a Linux pipe; a write to a full pipe blocks. */
  const PIPE_CAPACITY: nat := 0x1_0000

  /** Where the worker thread is, and the request it holds there. */
  datatype Worker =
    | Top                                        // about to take the next request
    | WaitSync                                   // blocked in consume_sync
    | Trying(req: Req)                           // about to read from the device
    | Sending(req: Req, bytes: seq<byte>)        // about to send the data
    | Parking(req: Req)                          // about to register the pending request
    | Polling                                    // blocked in poll
    | Woken(sync: bool, err: Option<nat>)        // poll returned
    | Consuming(back: Option<Req>)               // about to take the sync byte that poll announced
    | Rescheduling(req: Req)                     // about to push the request back to the front
    | Failing(req: Req, errno: nat)              // about to send an error

  /**
   `owed` says that the main thread holds the lock and has still to write its sync byte.
   `arrivals`, `answers` and `consumed` are the histories of pushed requests, sent
   answers, and bytes read from the device.
   */
  datatype State = State(
    queue: seq<Req>, pending: Option<Req>, tokens: nat, owed: bool, worker: Worker,
    arrivals: seq<Req>, answers: seq<Spec.Answer>, consumed: seq<byte>)

  const INIT: State := State([], None, 0, false, Top, [], [], [])

  datatype Action =
    | Push(req: Req) | Intr(sequence: nat) | SyncWrite
    | Pop | ConsumeSync
    | ReadOk(bytes: seq<byte>) | ReadAgain | ReadErr(errno: nat) | SendData
    | Park | PollReturn(ready: bool, err: Option<nat>) | TakeBack | ConsumeBack
    | Reschedule | SendErr

  // ---- lock-protected operations on the shared fields ----

  /** First position of a sequence number in the queue. */
  function Find(queue: seq<Req>, sequence: nat): (r: Option<nat>)
    ensures r.Some? ==> r.value < |queue| && queue[r.value].sequence == sequence
                        && forall i :: 0 <= i < r.value ==> queue[i].sequence != sequence
    ensures r.None? ==> forall i :: 0 <= i < |queue| ==> queue[i].sequence != sequence
  {
    if queue == [] then None
    else if queue[0].sequence == sequence then Some(0)
    else match Find(queue[1..], sequence)
      case None => None
      case Some(i) => Some(i + 1)
  }

  datatype Where = InPending | InQueue(pos: nat) | Nowhere

  /** What an interrupt for `sequence` hits: the pending slot first, then the queue. */
  function Locate(queue: seq<Req>, pending: Option<Req>, sequence: nat): (w: Where)
    ensures w.InPending? ==> pending.Some? && pending.value.sequence == sequence
    ensures w.InQueue? ==> w.pos < |queue| && queue[w.pos].sequence == sequence
                           && (pending.Some? ==> pending.value.sequence != sequence)
                           && forall i :: 0 <= i < w.pos ==> queue[i].sequence != sequence
    ensures w.Nowhere? ==> (pending.Some? ==> pending.value.sequence != sequence)
                           && forall i :: 0 <= i < |queue| ==> queue[i].sequence != sequence
  {
    if pending.Some? && pending.value.sequence == sequence then InPending
    else match Find(queue, sequence)
      case None => Nowhere
      case Some(i) => InQueue(i)
  }

  function Interrupted(req: Req): Spec.Answer { Spec.Answer(req, Spec.Error(Spec.EINTR)) }

  function ApplyIntr(s: State, sequence: nat): State {
    match Locate(s.queue, s.pending, sequence)
    case InPending =>
      s.(pending := None, answers := s.answers + [Interrupted(s.pending.value)], owed := true)
    case InQueue(i) =>
      s.(queue := Remove(s.queue, i), answers := s.answers + [Interrupted(s.queue[i])], owed := true)
    case Nowhere => s.(owed := true)
  }

  // ---- actions ----

  predicate NeedsLock(w: Worker) {
    w.Top? || w.Sending? || w.Parking? || w.Woken? || w.Rescheduling? || w.Failing?
  }

  predicate Enabled(s: State, a: Action) {
    match a
    case Push(_) => !s.owed
    case Intr(_) => !s.owed
    case SyncWrite => s.owed && s.tokens < PIPE_CAPACITY
    case Pop => s.worker.Top? && !s.owed
    case ConsumeSync => s.worker.WaitSync? && s.tokens > 0
    case ReadOk(bytes) => s.worker.Trying? && |bytes| <= Min(s.worker.req.size, Spec.BUF_SZ)
    case ReadAgain => s.worker.Trying?
    case ReadErr(_) => s.worker.Trying?
    case SendData => s.worker.Sending? && !s.owed
    case Park => s.worker.Parking? && !s.owed
    case PollReturn(ready, err) => s.worker.Polling? && (s.tokens > 0 || ready || err.Some?)
    case TakeBack => s.worker.Woken? && !s.owed
    case ConsumeBack => s.worker.Consuming? && s.tokens > 0
    case Reschedule => s.worker.Rescheduling? && !s.owed
    case SendErr => s.worker.Failing? && !s.owed
  }

  /** What follows once poll is over and the pending slot was taken back. */
  function AfterTake(w: Worker, back: Option<Req>): Worker
    requires w.Woken?
  {
    match (w.err, back)
    case (Some(e), Some(r)) => Failing(r, e)
    case (Some(e), None) => Top
    case (None, _) => if w.sync then Consuming(back) else AfterConsume(back)
  }

  function AfterConsume(back: Option<Req>): Worker {
    match back case Some(r) => Rescheduling(r) case None => Top
  }

  function Apply(s: State, a: Action): State
    requires Enabled(s, a)
  {
    match a
    case Push(r) => s.(queue := s.queue + [r], arrivals := s.arrivals + [r], owed := true)
    case Intr(q) => ApplyIntr(s, q)
    case SyncWrite => s.(tokens := s.tokens + 1, owed := false)
    case Pop =>
      if s.queue == [] then s.(worker := WaitSync)
      else s.(worker := Trying(s.queue[0]), queue := s.queue[1..])
    case ConsumeSync => s.(tokens := s.tokens - 1, worker := Top)
    case ReadOk(bytes) =>
      s.(worker := Sending(s.worker.req, bytes), consumed := s.consumed + bytes)
    case ReadAgain => s.(worker := Parking(s.worker.req))
    case ReadErr(e) => s.(worker := Failing(s.worker.req, e))
    case SendData =>
      s.(worker := Top, answers := s.answers + [Spec.Answer(s.worker.req, Spec.Data(s.worker.bytes))])
    case Park => s.(worker := Polling, pending := Some(s.worker.req))
    case PollReturn(ready, err) => s.(worker := Woken(s.tokens > 0, err))
    case TakeBack => s.(worker := AfterTake(s.worker, s.pending), pending := None)
    case ConsumeBack => s.(worker := AfterConsume(s.worker.back), tokens := s.tokens - 1)
    case Reschedule => s.(worker := Top, queue := [s.worker.req] + s.queue)
    case SendErr =>
      s.(worker := Top, answers := s.answers + [Spec.Answer(s.worker.req, Spec.Error(s.worker.errno))])
  }

  // ---- runs ----

  ghost predicate IsRun(s: State, acts: seq<Action>)
    decreases |acts|
  {
    acts == [] || (Enabled(s, acts[0]) && IsRun(Apply(s, acts[0]), acts[1..]))
  }

  function After(s: State, acts: seq<Action>): State
    requires IsRun(s, acts)
    decreases |acts|
  {
    if acts == [] then s else After(Apply(s, acts[0]), acts[1..])
  }

  ghost predicate Reachable(s: State) {
    exists acts :: IsRun(INIT, acts) && After(INIT, acts) == s
  }

  // ---- the abstraction ----

  /** The request in the worker's hand, if any. */
  function Hand(w: Worker): seq<Req> {
    match w
    case Trying(r) => [r]
    case Sending(r, _) => [r]
    case Parking(r) => [r]
    case Consuming(back) => OptSeq(back)
    case Rescheduling(r) => [r]
    case Failing(r, _) => [r]
    case _ => []
  }

  function InFlight(w: Worker): seq<byte> {
    if w.Sending? then w.bytes else []
  }

  /** Hand, pending slot and queue read as one list of waiting requests. */
  function Waiting(s: State): seq<Req> {
    Hand(s.worker) + OptSeq(s.pending) + s.queue
  }

  function Abs(s: State): Spec.State {
    Spec.State(s.arrivals, Waiting(s), s.answers)
  }

  function EventOf(s: State, a: Action): Spec.Event
    requires Enabled(s, a)
  {
    match a
    case Push(r) => Spec.Arrive(r)
    case Intr(q) =>
      (match Locate(s.queue, s.pending, q)
       case InPending => Spec.Cancel(|Hand(s.worker)|)
       case InQueue(i) => Spec.Cancel(|Hand(s.worker)| + |OptSeq(s.pending)| + i)
       case Nowhere => Spec.Tau)
    case SendData => Spec.Serve(Spec.Data(s.worker.bytes))
    case SendErr => Spec.Serve(Spec.Error(s.worker.errno))
    case _ => Spec.Tau
  }

  // ---- invariants ----

  /** The pending slot is filled only while the worker is between park and take-back. */
  ghost predicate SlotInv(s: State) {
    s.pending.Some? ==> s.worker.Polling? || s.worker.Woken?
  }

  /** A sleeping worker that has work also has a sync byte, written or about to be. */
  ghost predicate WakeInv(s: State) {
    && s.tokens <= PIPE_CAPACITY
    && (s.worker.WaitSync? && s.queue != [] ==> s.tokens > 0 || s.owed)
    && (s.worker.Polling? && s.pending.None? ==> s.tokens > 0 || s.owed)
    && (s.worker.Woken? && s.worker.sync ==> s.tokens > 0)
    && (s.worker.Consuming? ==> s.tokens > 0)
  }

  ghost predicate ByteInv(s: State) {
    && Spec.DataBytes(s.answers) + InFlight(s.worker) == s.consumed
    && (s.worker.Sending? ==> |s.worker.bytes| <= Min(s.worker.req.size, Spec.BUF_SZ))
  }

  ghost predicate Inv(s: State) {
    SlotInv(s) && WakeInv(s) && ByteInv(s) && Spec.Inv(Abs(s))
  }

  lemma ControlKept(s: State, a: Action)
    requires SlotInv(s) && WakeInv(s) && Enabled(s, a)
    ensures SlotInv(Apply(s, a)) && WakeInv(Apply(s, a))
  {
  }

  lemma IntrKeepsBytes(s: State, q: nat)
    requires ByteInv(s)
    ensures ByteInv(ApplyIntr(s, q))
  {
    var t := ApplyIntr(s, q);
    var sent := Spec.DataBytes(s.answers);
    assert sent + [] == sent;
    if !Locate(s.queue, s.pending, q).Nowhere? {
      Spec.AnsweredSnoc(s.answers, t.answers[|s.answers|]);
    }
  }

  /** The worker moves on without reading or answering. */
  lemma QuietKeepsBytes(s: State, a: Action)
    requires ByteInv(s) && Enabled(s, a) && !a.ReadOk? && !a.SendData? && !a.SendErr? && !a.Intr?
    ensures ByteInv(Apply(s, a))
  {
    var t := Apply(s, a);
    assert t.answers == s.answers && t.consumed == s.consumed;
    assert InFlight(t.worker) == InFlight(s.worker) && (t.worker.Sending? ==> t.worker == s.worker);
  }

  lemma BytesKept(s: State, a: Action)
    requires ByteInv(s) && Enabled(s, a)
    ensures ByteInv(Apply(s, a))
  {
    var t := Apply(s, a);
    var sent := Spec.DataBytes(s.answers);
    if a.ReadOk? {
      assert sent + [] == sent && s.consumed == sent;
    } else if a.SendData? || a.SendErr? {
      assert sent + [] == sent;
      Spec.AnsweredSnoc(s.answers, t.answers[|s.answers|]);
    } else if a.Intr? {
      IntrKeepsBytes(s, a.sequence);
    } else {
      QuietKeepsBytes(s, a);
    }
  }

  lemma CancelPending(s: State)
    requires s.pending.Some?
    ensures |Hand(s.worker)| < |Waiting(s)| && Waiting(s)[|Hand(s.worker)|] == s.pending.value
    ensures Waiting(s.(pending := None)) == Remove(Waiting(s), |Hand(s.worker)|)
  {
    RemoveMiddle(Hand(s.worker), s.pending.value, s.queue);
  }

  lemma CancelQueued(s: State, i: nat)
    requires i < |s.queue|
    ensures var n := |Hand(s.worker)| + |OptSeq(s.pending)| + i;
            && n < |Waiting(s)| && Waiting(s)[n] == s.queue[i]
            && Waiting(s.(queue := Remove(s.queue, i))) == Remove(Waiting(s), n)
  {
    RemoveRight(Hand(s.worker) + OptSeq(s.pending), s.queue, i);
  }

  lemma IntrRefines(s: State, q: nat)
    requires Enabled(s, Intr(q))
    ensures Spec.Allowed(Abs(s), EventOf(s, Intr(q)))
    ensures Abs(Apply(s, Intr(q))) == Spec.Next(Abs(s), EventOf(s, Intr(q)))
  {
    match Locate(s.queue, s.pending, q)
    case InPending =>
      CancelPending(s);
      assert Waiting(ApplyIntr(s, q)) == Waiting(s.(pending := None));
    case InQueue(i) =>
      CancelQueued(s, i);
      assert Waiting(ApplyIntr(s, q)) == Waiting(s.(queue := Remove(s.queue, i)));
    case Nowhere =>
  }

  /** Moving a request between queue, hand and pending slot does not change the list. */
  lemma MoveRefines(s: State, a: Action)
    requires SlotInv(s) && Enabled(s, a)
    requires !a.Push? && !a.Intr? && !a.SendData? && !a.SendErr?
    ensures Waiting(Apply(s, a)) == Waiting(s)
    ensures Apply(s, a).answers == s.answers && Apply(s, a).arrivals == s.arrivals
  {
    if a.Pop? {
      if s.queue != [] { assert s.queue == [s.queue[0]] + s.queue[1..]; }
    } else if a.TakeBack? {
      assert Hand(Apply(s, a).worker) == OptSeq(s.pending);
    } else if a.Park? {
      assert Hand(s.worker) == OptSeq(Apply(s, a).pending);
    } else if !a.Reschedule? {
      assert Hand(Apply(s, a).worker) == Hand(s.worker);
    }
  }

  /** Each action of the threads is a step of the one-list server, or invisible to it. */
  lemma Refines(s: State, a: Action)
    requires SlotInv(s) && ByteInv(s) && Enabled(s, a)
    ensures Spec.Allowed(Abs(s), EventOf(s, a))
    ensures Abs(Apply(s, a)) == Spec.Next(Abs(s), EventOf(s, a))
  {
    match a
    case Push(r) => assert Waiting(Apply(s, a)) == Waiting(s) + [r];
    case Intr(q) => IntrRefines(s, q);
    case SendData => assert Waiting(Apply(s, a)) == Waiting(s)[1..];
    case SendErr => assert Waiting(Apply(s, a)) == Waiting(s)[1..];
    case _ => MoveRefines(s, a);
  }

  lemma StepKeepsInv(s: State, a: Action)
    requires Inv(s) && Enabled(s, a)
    ensures Inv(Apply(s, a))
  {
    ControlKept(s, a);
    BytesKept(s, a);
    Refines(s, a);
    Spec.NextKeepsInv(Abs(s), EventOf(s, a));
  }

  lemma {:induction false} RunKeepsInv(s: State, acts: seq<Action>)
    requires Inv(s) && IsRun(s, acts)
    ensures Inv(After(s, acts))
    decreases |acts|
  {
    if acts != [] {
      StepKeepsInv(s, acts[0]);
      RunKeepsInv(Apply(s, acts[0]), acts[1..]);
    }
  }

  lemma InitInv()
    ensures Inv(INIT)
  {
    assert Waiting(INIT) == [];
    assert Spec.Served(INIT.answers) + Waiting(INIT) == [];
  }

  lemma ReachableInv(s: State)
    requires Reachable(s)
    ensures Inv(s)
  {
    var acts :| IsRun(INIT, acts) && After(INIT, acts) == s;
    InitInv();
    RunKeepsInv(INIT, acts);
  }
}
