/**
 What holds in every run of the read scheduler: each read is in exactly one place, data
 leaves in arrival order, no wake-up is lost, and exactly when the threads can block.
 */
module ReadProperties {
  import opened Base
  import Spec = ReadSpec
  import opened ReadScheduler

  function Sequences(rs: seq<Req>): (r: seq<nat>)
    ensures |r| == |rs|
    ensures forall i :: 0 <= i < |r| ==> r[i] == rs[i].sequence
  {
    seq(|rs|, i requires 0 <= i < |rs| => rs[i].sequence)
  }

  /** How often a request is queued, parked, held by the worker, or answered. */
  function Places(s: State, r: Req): nat {
    multiset(s.queue)[r] + multiset(OptSeq(s.pending))[r] + multiset(Hand(s.worker))[r]
    + multiset(Spec.Answered(s.answers))[r]
  }

  /** Requests are neither lost nor duplicated, whatever sequence numbers the peer uses. */
  lemma PlacesCountArrivals(s: State, r: Req)
    requires Reachable(s)
    ensures Places(s, r) == multiset(s.arrivals)[r]
  {
    ReachableInv(s);
    assert multiset(Waiting(s)) == multiset(Hand(s.worker)) + multiset(OptSeq(s.pending)) + multiset(s.queue);
  }

  lemma {:induction false} TwiceInMultiset<T>(s: seq<T>, i: nat, j: nat)
    requires i < j < |s| && s[i] == s[j]
    ensures multiset(s)[s[i]] >= 2
  {
    assert s == s[..j] + [s[j]] + s[j + 1..];
    assert s[..j][i] in multiset(s[..j]);
  }

  lemma DistinctSequences(rs: seq<Req>)
    requires NoDup(Sequences(rs))
    ensures NoDup(rs)
    ensures forall a, b :: a in rs && b in rs && a.sequence == b.sequence ==> a == b
  {
    var q := Sequences(rs);
    forall i, j | 0 <= i < j < |rs| ensures rs[i] != rs[j] {
      assert q[i] != q[j];
    }
    forall a, b | a in rs && b in rs && a.sequence == b.sequence ensures a == b {
      var i :| 0 <= i < |rs| && rs[i] == a;
      var j :| 0 <= j < |rs| && rs[j] == b;
      assert q[i] == q[j];
    }
  }

  /** With distinct sequence numbers every arrived read is in exactly one place. */
  lemma ExactlyOnePlace(s: State, r: Req)
    requires Reachable(s) && NoDup(Sequences(s.arrivals)) && r in s.arrivals
    ensures Places(s, r) == 1
  {
    PlacesCountArrivals(s, r);
    DistinctSequences(s.arrivals);
    NoDupMultiset(s.arrivals, r);
  }

  /** No sequence number is answered twice. */
  lemma AnsweredOnce(s: State, i: nat, j: nat)
    requires Reachable(s) && NoDup(Sequences(s.arrivals))
    requires i < j < |s.answers|
    ensures s.answers[i].req.sequence != s.answers[j].req.sequence
  {
    var done := Spec.Answered(s.answers);
    PlacesCountArrivals(s, done[i]);
    PlacesCountArrivals(s, done[j]);
    assert done[i] in multiset(done) && done[j] in multiset(done);
    assert done[i] in s.arrivals && done[j] in s.arrivals;
    DistinctSequences(s.arrivals);
    NoDupMultiset(s.arrivals, done[i]);
    if done[i].sequence == done[j].sequence {
      TwiceInMultiset(done, i, j);
      assert false;
    }
  }

  /**
   Data replies leave in arrival order, the reads still waiting continue that order, the
   replies add up to exactly the bytes taken from the device except those in the worker's
   hand, and no reply exceeds what was asked for or the buffer.
   */
  lemma DataInOrder(s: State)
    requires Reachable(s)
    ensures Subsequence(Spec.Served(s.answers) + Waiting(s), s.arrivals)
    ensures Spec.DataBytes(s.answers) + InFlight(s.worker) == s.consumed
    ensures forall i :: 0 <= i < |s.answers| && s.answers[i].reply.Data? ==>
              |s.answers[i].reply.bytes| <= Min(s.answers[i].req.size, 4096)
  {
    ReachableInv(s);
    forall i | 0 <= i < |s.answers| && s.answers[i].reply.Data?
      ensures |s.answers[i].reply.bytes| <= Min(s.answers[i].req.size, 4096)
    {
      assert Spec.WithinLimit(s.answers[i].req, s.answers[i].reply);
    }
  }

  /** The pending slot is empty whenever the worker parks a request. */
  lemma PendingEmptyOnPark(s: State)
    requires Reachable(s) && Enabled(s, Park)
    ensures s.pending == None
  {
    ReachableInv(s);
  }

  /** An interrupt never finds two queued requests with its sequence number. */
  lemma SingleQueueMatch(s: State, i: nat, j: nat)
    requires Reachable(s) && NoDup(Sequences(s.arrivals))
    requires i < j < |s.queue|
    ensures s.queue[i].sequence != s.queue[j].sequence
  {
    PlacesCountArrivals(s, s.queue[i]);
    PlacesCountArrivals(s, s.queue[j]);
    assert s.queue[i] in multiset(s.queue) && s.queue[j] in multiset(s.queue);
    assert s.queue[i] in s.arrivals && s.queue[j] in s.arrivals;
    DistinctSequences(s.arrivals);
    NoDupMultiset(s.arrivals, s.queue[i]);
    if s.queue[i].sequence == s.queue[j].sequence {
      TwiceInMultiset(s.queue, i, j);
      assert false;
    }
  }

  // ---- wake-ups and blocking ----

  /** While the worker sleeps on work, a sync byte is in the pipe or about to be written. */
  lemma NoLostWakeup(s: State)
    requires Reachable(s)
    ensures s.worker.WaitSync? && s.queue != [] ==> s.tokens > 0 || s.owed
    ensures s.worker.Polling? && s.pending.None? ==> s.tokens > 0 || s.owed
    ensures s.worker.Consuming? ==> s.tokens > 0
  {
    ReachableInv(s);
  }

  /** Actions that need neither a new request nor new data on the device. */
  predicate Internal(a: Action) {
    !a.Push? && !a.Intr? && (a.PollReturn? ==> !a.ready && a.err.None?)
  }

  ghost predicate CanMove(s: State) {
    exists a :: Internal(a) && Enabled(s, a)
  }

  predicate Idle(s: State) { !s.owed && s.worker.WaitSync? && s.tokens == 0 }

  predicate AwaitsData(s: State) { !s.owed && s.worker.Polling? && s.tokens == 0 }

  /** The main thread holds the lock, the pipe is full, and the worker wants the lock. */
  predicate PipeFull(s: State) {
    s.owed && s.tokens >= PIPE_CAPACITY && NeedsLock(s.worker)
  }

  function InternalAction(s: State): Action {
    if s.owed && s.tokens < PIPE_CAPACITY then SyncWrite
    else match s.worker
      case Top => Pop
      case WaitSync => ConsumeSync
      case Trying(_) => ReadAgain
      case Sending(_, _) => SendData
      case Parking(_) => Park
      case Polling => PollReturn(false, None)
      case Woken(_, _) => TakeBack
      case Consuming(_) => ConsumeBack
      case Rescheduling(_) => Reschedule
      case Failing(_, _) => SendErr
  }

  lemma ControlInv(s: State)
    requires Reachable(s)
    ensures SlotInv(s) && WakeInv(s)
  {
    ReachableInv(s);
  }

  lemma RestIsStill(s: State, a: Action)
    requires Idle(s) || AwaitsData(s) || PipeFull(s)
    requires Internal(a)
    ensures !Enabled(s, a)
  {
  }

  lemma ElseMoves(s: State)
    requires SlotInv(s) && WakeInv(s)
    requires !(Idle(s) || AwaitsData(s) || PipeFull(s))
    ensures Internal(InternalAction(s)) && Enabled(s, InternalAction(s))
  {
  }

  /**
   The scheduler comes to rest in exactly three ways: nothing is waiting; the oldest read
   waits for device data; or the sync pipe is full and both threads block each other.
   */
  lemma RestExactly(s: State)
    requires Reachable(s)
    ensures !CanMove(s) <==> Idle(s) || AwaitsData(s) || PipeFull(s)
    ensures Idle(s) ==> Waiting(s) == []
    ensures AwaitsData(s) ==> s.pending.Some? && Waiting(s)[0] == s.pending.value
  {
    ControlInv(s);
    if Idle(s) || AwaitsData(s) || PipeFull(s) {
      forall a | Internal(a) ensures !Enabled(s, a) { RestIsStill(s, a); }
    } else {
      ElseMoves(s);
    }
  }

  /** A full pipe is the only deadlock: then no action at all is possible, ever. */
  lemma DeadlockExactly(s: State)
    requires Reachable(s)
    ensures (forall a :: !Enabled(s, a)) <==> PipeFull(s)
  {
    ControlInv(s);
    if PipeFull(s) {
      forall a ensures !Enabled(s, a) {
        if Internal(a) { RestIsStill(s, a); }
      }
    } else if s.owed {
      ElseMoves(s);
    } else {
      assert Enabled(s, Intr(0));
    }
  }

  lemma {:induction false} RunAppend(s: State, acts: seq<Action>, a: Action)
    requires IsRun(s, acts) && Enabled(After(s, acts), a)
    ensures IsRun(s, acts + [a])
    ensures After(s, acts + [a]) == Apply(After(s, acts), a)
    decreases |acts|
  {
    if acts == [] {
      assert acts + [a] == [a];
      assert IsRun(Apply(s, a), [a][1..]);
    } else {
      assert (acts + [a])[1..] == acts[1..] + [a];
      RunAppend(Apply(s, acts[0]), acts[1..], a);
    }
  }

  lemma ReachableStep(s: State, a: Action)
    requires Reachable(s) && Enabled(s, a)
    ensures Reachable(Apply(s, a))
  {
    var acts :| IsRun(INIT, acts) && After(INIT, acts) == s;
    RunAppend(INIT, acts, a);
  }

  lemma InitReachable()
    ensures Reachable(INIT)
  {
    assert IsRun(INIT, []) && After(INIT, []) == INIT;
  }

  /** Pushes and interrupts of a run, each of which writes one sync byte. */
  function Signals(acts: seq<Action>): nat {
    if acts == [] then 0
    else (if acts[0].Push? || acts[0].Intr? then 1 else 0) + Signals(acts[1..])
  }

  lemma {:induction false} TokensBySignals(s: State, acts: seq<Action>)
    requires IsRun(s, acts)
    ensures var t := After(s, acts);
            t.tokens + (if t.owed then 1 else 0) <= s.tokens + (if s.owed then 1 else 0) + Signals(acts)
    decreases |acts|
  {
    if acts != [] {
      TokensBySignals(Apply(s, acts[0]), acts[1..]);
    }
  }

  /** Up to as many pushes and interrupts as the pipe holds, no run can deadlock. */
  lemma FewSignalsNeverDeadlock(acts: seq<Action>)
    requires IsRun(INIT, acts) && Signals(acts) <= PIPE_CAPACITY
    ensures !PipeFull(After(INIT, acts))
  {
    TokensBySignals(INIT, acts);
  }

  /** Reads 1 to n arrived and were served; their sync bytes are still in the pipe. */
  ghost predicate Filled(s: State, n: nat) {
    && Reachable(s) && s.tokens == n && !s.owed && s.worker == Top && s.queue == [] && s.pending == None
    && |s.arrivals| == n && forall i :: 0 <= i < n ==> s.arrivals[i].sequence == i + 1
  }

  /** Reads that are served at once leave their sync bytes behind in the pipe. */
  lemma {:induction false} Fill(n: nat) returns (s: State)
    requires n <= PIPE_CAPACITY
    ensures Filled(s, n)
  {
    if n == 0 {
      InitReachable();
      s := INIT;
    } else {
      s := Fill(n - 1);
      var r := Spec.Req(n, 1);
      ReachableStep(s, Push(r)); s := Apply(s, Push(r));
      ReachableStep(s, SyncWrite); s := Apply(s, SyncWrite);
      ReachableStep(s, Pop); s := Apply(s, Pop);
      ReachableStep(s, ReadOk([])); s := Apply(s, ReadOk([]));
      ReachableStep(s, SendData); s := Apply(s, SendData);
    }
  }

  /** One signal more than the pipe holds can block the server for good, with all numbers distinct. */
  lemma DeadlockReachable() returns (s: State)
    ensures Reachable(s) && PipeFull(s) && NoDup(Sequences(s.arrivals))
    ensures forall a :: !Enabled(s, a)
  {
    s := Fill(PIPE_CAPACITY);
    var r := Spec.Req(PIPE_CAPACITY + 1, 1);
    ReachableStep(s, Push(r));
    s := Apply(s, Push(r));
    DeadlockExactly(s);
  }

  // ---- interrupts ----

  ghost predicate Holds(rs: seq<Req>, q: nat) {
    exists i :: 0 <= i < |rs| && rs[i].sequence == q
  }

  /**
   An interrupt answers with EINTR exactly if its read is parked or queued; otherwise it
   changes neither queue nor slot and sends nothing.
   */
  lemma InterruptExactly(s: State, q: nat)
    requires Reachable(s) && Enabled(s, Intr(q))
    ensures var t := Apply(s, Intr(q));
            && (t.answers != s.answers <==> Holds(OptSeq(s.pending) + s.queue, q))
            && (t.answers == s.answers ==> t == s.(owed := true))
            && (t.answers != s.answers ==>
                  exists r: Req :: r.sequence == q && r in Waiting(s) && t.answers == s.answers + [Interrupted(r)])
  {
    var front := OptSeq(s.pending);
    match Locate(s.queue, s.pending, q)
    case InPending =>
      assert (front + s.queue)[0].sequence == q;
      assert s.pending.value in Waiting(s);
    case InQueue(i) =>
      assert (front + s.queue)[|front| + i].sequence == q;
      assert s.queue[i] in Waiting(s);
    case Nowhere =>
      forall i | 0 <= i < |front + s.queue| ensures (front + s.queue)[i].sequence != q {
        if i >= |front| { assert (front + s.queue)[i] == s.queue[i - |front|]; }
      }
  }

  /** A late interrupt for an answered read has no effect and no second reply. */
  lemma LateInterruptIgnored(s: State, q: nat)
    requires Reachable(s) && NoDup(Sequences(s.arrivals)) && Enabled(s, Intr(q))
    requires Holds(Spec.Answered(s.answers), q)
    ensures Apply(s, Intr(q)) == s.(owed := true)
  {
    InterruptExactly(s, q);
    var done := Spec.Answered(s.answers);
    var i :| 0 <= i < |done| && done[i].sequence == q;
    assert done[i] in multiset(done);
    ExactlyOneOf(s, done[i]);
    if Holds(OptSeq(s.pending) + s.queue, q) {
      var parked := OptSeq(s.pending) + s.queue;
      var j :| 0 <= j < |parked| && parked[j].sequence == q;
      assert parked[j] in multiset(parked);
      assert multiset(parked) == multiset(OptSeq(s.pending)) + multiset(s.queue);
      ExactlyOneOf(s, parked[j]);
      DistinctSequences(s.arrivals);
      assert false;
    }
  }

  lemma ExactlyOneOf(s: State, r: Req)
    requires Reachable(s) && NoDup(Sequences(s.arrivals)) && Places(s, r) > 0
    ensures r in s.arrivals && Places(s, r) == 1
  {
    PlacesCountArrivals(s, r);
    assert r in multiset(s.arrivals);
    ExactlyOnePlace(s, r);
  }

  /** Whatever was answered had arrived. */
  lemma AnsweredArrived(s: State, i: nat)
    requires Reachable(s) && i < |s.answers|
    ensures s.answers[i].req in s.arrivals
  {
    var done := Spec.Answered(s.answers);
    assert done[i] in multiset(done);
    PlacesCountArrivals(s, done[i]);
    assert done[i] in multiset(s.arrivals);
  }

  // ---- what a system call gave is what is answered ----

  /** The worker is about to give this answer, or has given it. */
  ghost predicate Bound(s: State, r: Req, reply: Spec.Reply) {
    || Spec.Answer(r, reply) in s.answers
    || s.worker == match reply case Data(bytes) => Sending(r, bytes) case Error(e) => Failing(r, e)
  }

  /** Poll failed for the parked read, which is then answered with that error unless it is interrupted first. */
  ghost predicate BoundParked(s: State, r: Req, e: nat) {
    || Bound(s, r, Spec.Error(e)) || Spec.Answer(r, Spec.Error(4)) in s.answers
    || (s.worker.Woken? && s.worker.err == Some(e) && s.pending == Some(r))
  }

  lemma AnswersAppend(s: State, a: Action)
    requires Enabled(s, a)
    ensures s.answers <= Apply(s, a).answers
  {
  }

  lemma BoundStep(s: State, a: Action, r: Req, reply: Spec.Reply)
    requires Bound(s, r, reply) && Enabled(s, a)
    ensures Bound(Apply(s, a), r, reply)
  {
    var x := Spec.Answer(r, reply);
    if x in s.answers {
      AnswersAppend(s, a);
      var i :| 0 <= i < |s.answers| && s.answers[i] == x;
      assert Apply(s, a).answers[i] == x;
    } else if a.SendData? || a.SendErr? {
      assert Apply(s, a).answers == s.answers + [x];
    } else {
      assert Apply(s, a).worker == s.worker;
    }
  }

  lemma ParkedStep(s: State, a: Action, r: Req, e: nat)
    requires BoundParked(s, r, e) && Enabled(s, a)
    ensures BoundParked(Apply(s, a), r, e)
  {
    var t := Apply(s, a);
    if Bound(s, r, Spec.Error(e)) {
      BoundStep(s, a, r, Spec.Error(e));
    } else if Spec.Answer(r, Spec.Error(4)) in s.answers {
      BoundStep(s, a, r, Spec.Error(4));
      AnswersAppend(s, a);
      var i :| 0 <= i < |s.answers| && s.answers[i] == Spec.Answer(r, Spec.Error(4));
      assert t.answers[i] == s.answers[i];
    } else if a.Intr? {
      match Locate(s.queue, s.pending, a.sequence)
      case InPending => assert t.answers == s.answers + [Spec.Answer(r, Spec.Error(4))];
      case InQueue(_) =>
      case Nowhere =>
    } else if !a.TakeBack? {
      assert t.worker == s.worker && t.pending == s.pending;
    }
  }

  /** What read(2) gave for a read is from then on what the worker answers, or has answered. */
  lemma ReadBinds(s: State, a: Action)
    requires Enabled(s, a) && (a.ReadOk? || a.ReadErr?)
    ensures Bound(Apply(s, a), s.worker.req, if a.ReadOk? then Spec.Data(a.bytes) else Spec.Error(a.errno))
  {
  }

  /** The same for an error of poll(2) while a read is parked. */
  lemma PollBinds(s: State, a: Action)
    requires Enabled(s, a) && a.PollReturn? && a.err.Some? && s.pending.Some?
    ensures BoundParked(Apply(s, a), s.pending.value, a.err.value)
  {
  }

  // ---- a lost interrupt ----

  ghost predicate Leads(s: State, t: State) {
    exists acts :: IsRun(s, acts) && After(s, acts) == t
  }

  lemma LeadsNowhere(s: State)
    ensures Leads(s, s)
  {
    assert IsRun(s, []) && After(s, []) == s;
  }

  lemma LeadsOn(s: State, t: State, a: Action)
    requires Leads(s, t) && Enabled(t, a)
    ensures Leads(s, Apply(t, a))
  {
    var acts :| IsRun(s, acts) && After(s, acts) == t;
    RunAppend(s, acts, a);
  }

  /** One round in which poll is woken by a left-over sync byte and finds no data. */
  function IdleRound(s: State): State
    requires s.worker.Polling? && s.pending.Some? && !s.owed && s.tokens > 0 && s.queue == []
  {
    s.(tokens := s.tokens - 1)
  }

  /** The worker tries a read, finds no data and parks it. */
  lemma TryAndPark(from: State, s: State, r: Req)
    requires Leads(from, s) && s.worker == Trying(r) && !s.owed
    ensures Leads(from, s.(worker := Polling, pending := Some(r)))
  {
    LeadsOn(from, s, ReadAgain);
    LeadsOn(from, s.(worker := Parking(r)), Park);
  }

  /** A parked read goes back to the front of the queue after poll saw a sync byte. */
  lemma BackToQueue(from: State, s: State, r: Req)
    requires Leads(from, s) && s.worker.Polling? && s.pending == Some(r) && !s.owed && s.tokens > 0
    ensures Leads(from, s.(worker := Top, pending := None, tokens := s.tokens - 1, queue := [r] + s.queue))
  {
    LeadsOn(from, s, PollReturn(false, None));
    var woken := s.(worker := Woken(true, None));
    LeadsOn(from, woken, TakeBack);
    var taken := woken.(worker := Consuming(Some(r)), pending := None);
    assert Apply(woken, TakeBack) == taken;
    LeadsOn(from, taken, ConsumeBack);
    var again := taken.(worker := Rescheduling(r), tokens := s.tokens - 1);
    assert Apply(taken, ConsumeBack) == again;
    LeadsOn(from, again, Reschedule);
  }

  lemma IdleRoundLeads(from: State, s: State)
    requires Leads(from, s)
    requires s.worker.Polling? && s.pending.Some? && !s.owed && s.tokens > 0 && s.queue == []
    ensures Leads(from, IdleRound(s))
  {
    var r := s.pending.value;
    BackToQueue(from, s, r);
    var top := s.(worker := Top, pending := None, tokens := s.tokens - 1, queue := [r] + s.queue);
    LeadsOn(from, top, Pop);
    var trying := Apply(top, Pop);
    assert trying == top.(worker := Trying(r), queue := []);
    TryAndPark(from, trying, r);
    assert trying.(worker := Polling, pending := Some(r)) == IdleRound(s);
  }

  /**
   An interrupt that meets its read in the worker's hand is lost: from the state right after the
   interrupt a run leads to one in which that same read is parked, unanswered, and waits for data.
   */
  lemma InterruptCanBeLost(r: Req) returns (before: State, after: State)
    ensures Reachable(before) && before.worker == Trying(r) && Enabled(before, Intr(r.sequence))
    ensures Leads(Apply(before, Intr(r.sequence)), after)
    ensures AwaitsData(after) && after.pending == Some(r) && after.queue == [] && after.answers == before.answers
  {
    InitReachable();
    var s := INIT;
    ReachableStep(s, Push(r)); s := Apply(s, Push(r));
    ReachableStep(s, SyncWrite); s := Apply(s, SyncWrite);
    ReachableStep(s, Pop); s := Apply(s, Pop);
    before := s;
    after := LostFrom(before, r);
  }

  lemma LostFrom(s: State, r: Req) returns (after: State)
    requires s.worker == Trying(r) && s.queue == [] && s.pending == None && !s.owed && s.tokens == 1
    ensures Leads(Apply(s, Intr(r.sequence)), after)
    ensures AwaitsData(after) && after.pending == Some(r) && after.queue == [] && after.answers == s.answers
  {
    var hit := s.(owed := true);
    assert Apply(s, Intr(r.sequence)) == hit;
    LeadsNowhere(hit);
    LeadsOn(hit, hit, SyncWrite);
    TryAndPark(hit, s.(tokens := 2), r);
    var parked := s.(tokens := 2, worker := Polling, pending := Some(r));
    IdleRoundLeads(hit, parked);
    IdleRoundLeads(hit, IdleRound(parked));
    after := IdleRound(IdleRound(parked));
  }
}
