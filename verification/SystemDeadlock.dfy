/**
 A connection on which the server blocks for good: reads that are served at once leave their
 sync bytes in the pipe until the next signal finds it full and holds the lock forever.
 */
module SystemDeadlock {
  import opened Base
  import opened Endian
  import P = Protocol
  import C = Client
  import Spec = ReadSpec
  import Read = ReadScheduler
  import ReadProperties
  import opened System
  import opened SystemRuns

  /** The main thread waits for room in the pipe and holds the lock that the worker waits for. */
  predicate Stuck(s: State) {
    s.server.main.Syncing? && ReadProperties.PipeFull(s.server.read)
  }

  lemma StuckStep(s: State, a: Action)
    requires Stuck(s) && Enabled(s, a)
    ensures Apply(s, a).server.main.Syncing? && Apply(s, a).server.read == s.server.read
  {
    if a.ReadWorker? {
      WorkerStill(s.server.read, a.r);
    }
  }

  lemma WorkerStill(read: Read.State, a: Read.Action)
    requires ReadProperties.PipeFull(read) && WorkerAction(a)
    ensures !Read.Enabled(read, a)
  {
  }

  /** Whatever the client, the kernel, the device and the poll worker do, nothing changes that. */
  lemma {:induction false} StuckForever(s: State, acts: seq<Action>)
    requires Stuck(s) && IsRun(s, acts)
    ensures After(s, acts).server.main.Syncing? && After(s, acts).server.read == s.server.read
    decreases |acts|
  {
    if acts != [] {
      StuckStep(s, acts[0]);
      StuckForever(Apply(s, acts[0]), acts[1..]);
    }
  }

  /** After `n` served reads with numbers 1 to n, all sync bytes are still in the pipe. */
  ghost predicate Filled(s: State, n: nat) {
    && Reachable(s) && s.c2s == [] && s.server.main.Receiving? && s.server.poll.main.Free?
    && Idle(s.server.read, n)
    && !s.client.shut && s.client.nextSeq == n + 1 && forall u :: u in s.client.handed ==> u < n
  }

  predicate Idle(read: Read.State, n: nat) {
    read.tokens == n && !read.owed && read.worker == Read.Top && read.queue == [] && read.pending == Option.None
  }

  function NextRead(n: nat): P.Request { P.Read(n + 1, 0, 1, 0) }

  /** The client sends a read and the main thread queues it. */
  lemma Queued(s: State, n: nat) returns (t: State)
    requires Filled(s, n)
    ensures Reachable(t) && t.c2s == [] && t.server.main.Syncing? && t.server.poll == s.server.poll
    ensures t.server.read == Read.Apply(s.server.read, Read.Push(Spec.Req(n + 1, 1)))
    ensures t.client == C.Submit(s.client, n, NextRead(n), C.NO_APP)
  {
    var taken := Taken(s, n, NextRead(n));
    t := Pushed(taken, NextRead(n));
  }

  lemma Taken(s: State, u: nat, r: P.Request) returns (t: State)
    requires Reachable(s) && s.c2s == [] && s.server.main.Receiving? && !s.client.shut && u !in s.client.handed
    requires r.Read? && 0 < s.client.nextSeq <= r.sequence
    ensures Reachable(t) && t.c2s == [] && t.client == C.Submit(s.client, u, r, C.NO_APP)
    ensures t.server == s.server.(main := Busy(r))
  {
    ReachableStep(s, Submit(u, r, C.NO_APP));
    var sent := SubmitStep(s, u, r, C.NO_APP);
    assert sent.c2s == [r];
    ReachableStep(sent, Take);
    t := TakeStep(sent);
  }

  lemma Pushed(s: State, r: P.Request) returns (t: State)
    requires Reachable(s) && s.server.main == Busy(r) && !s.server.read.owed && s.server.poll.main.Free?
    requires r.Read? && !IsNonblock(r.flags)
    ensures Reachable(t) && t.c2s == s.c2s && t.client == s.client && t.server.main.Syncing?
    ensures t.server.poll == s.server.poll
    ensures t.server.read == Read.Apply(s.server.read, Read.Push(Spec.Req(r.sequence, r.size)))
  {
    ReachableStep(s, Handle(Outcome.None));
    t := HandleStep(s, Outcome.None);
  }

  lemma WorkerStep(s: State, a: Read.Action) returns (t: State)
    requires Reachable(s) && WorkerAction(a) && Read.Enabled(s.server.read, a)
    ensures Reachable(t) && t.client == s.client && t.c2s == s.c2s
    ensures t.server == s.server.(read := Read.Apply(s.server.read, a))
  {
    ReachableStep(s, ReadWorker(a));
    t := ReadStep(s, a);
  }

  /** The worker serves it with an empty read. */
  lemma Served(s: State) returns (t: State)
    requires Reachable(s) && s.server.main.Receiving? && !s.server.read.owed
    requires s.server.read.worker == Read.Top && |s.server.read.queue| == 1 && s.server.read.pending == Option.None
    ensures Reachable(t) && t.client == s.client && t.c2s == s.c2s && t.server.main == s.server.main
    ensures t.server.poll == s.server.poll && Idle(t.server.read, s.server.read.tokens)
  {
    var popped := WorkerStep(s, Read.Pop);
    var read := WorkerStep(popped, Read.ReadOk([]));
    t := WorkerStep(read, Read.SendData);
  }

  lemma Round(s: State, n: nat) returns (t: State)
    requires Filled(s, n) && n < Read.PIPE_CAPACITY
    ensures Filled(t, n + 1)
  {
    var queued := Queued(s, n);
    ReachableStep(queued, SyncWrite);
    var synced := SyncStep(queued);
    t := Served(synced);
  }

  lemma {:induction false} Fill(hc: Host, hs: Host, n: nat) returns (s: State)
    requires n <= Read.PIPE_CAPACITY
    ensures Filled(s, n)
  {
    if n == 0 {
      InitReachable(hc, hs, 1);
      s := Init(hc, hs, 1);
    } else {
      var before := Fill(hc, hs, n - 1);
      s := Round(before, n - 1);
    }
  }

  /** Between any two hosts a connection reaches a state in which the server blocks with a read unanswered. */
  lemma ServerDeadlocks(hc: Host, hs: Host) returns (s: State)
    ensures Reachable(s) && Stuck(s) && s.server.read.queue != []
  {
    var full := Fill(hc, hs, Read.PIPE_CAPACITY);
    s := Queued(full, Read.PIPE_CAPACITY);
  }
}
