/**
 The data that the lock of the server's `Read` protects, updated in place.  Each method is
 one lock-protected section; its contract says that the object moves exactly as the
 corresponding actions of `ReadScheduler` do.
 */
module ReadState {
  import opened Base
  import Spec = ReadSpec
  import opened ReadScheduler
  import opened ReadProperties

  class ReadInner {
    var readOps: seq<Req>
    var pendingRequest: Option<Req>
    var syncBytes: nat             // bytes in the sync pipe
    var sent: seq<Spec.Answer>     // answers written to the connection

    /** The object holds the shared part of `s`. */
    ghost predicate Shows(s: State)
      reads this
    {
      readOps == s.queue && pendingRequest == s.pending && syncBytes == s.tokens && sent == s.answers
    }

    constructor ()
      ensures Shows(INIT)
    {
      readOps, pendingRequest, syncBytes, sent := [], None, 0, [];
    }

    method RegisterPending(req: Req, ghost s: State)
      requires Shows(s) && s.worker == Parking(req) && Enabled(s, Park)
      requires pendingRequest.None?
      modifies this
      ensures Shows(Apply(s, Park))
    {
      assert pendingRequest.None?;
      pendingRequest := Some(req);
    }

    method TakePending() returns (req: Option<Req>)
      modifies this
      ensures req == old(pendingRequest) && pendingRequest == None
      ensures readOps == old(readOps) && syncBytes == old(syncBytes) && sent == old(sent)
    {
      req := pendingRequest;
      pendingRequest := None;
    }

    method NextRequest() returns (req: Option<Req>)
      modifies this
      ensures old(readOps) == [] ==> req == None && readOps == []
      ensures old(readOps) != [] ==> req == Some(old(readOps)[0]) && readOps == old(readOps)[1..]
      ensures pendingRequest == old(pendingRequest) && syncBytes == old(syncBytes) && sent == old(sent)
    {
      if readOps == [] {
        req := None;
      } else {
        req, readOps := Some(readOps[0]), readOps[1..];
      }
    }

    /** The worker's pop: the object and the request it returns follow `Pop`. */
    method PopFor(ghost s: State) returns (req: Option<Req>)
      requires Shows(s) && Enabled(s, Pop)
      modifies this
      ensures Shows(Apply(s, Pop))
      ensures OptSeq(req) == Hand(Apply(s, Pop).worker)
    {
      req := NextRequest();
    }

    /** The worker's take-back: what comes out of the slot decides how the worker goes on. */
    method TakeBackFor(ghost s: State) returns (req: Option<Req>)
      requires Shows(s) && Enabled(s, TakeBack)
      modifies this
      ensures Shows(Apply(s, TakeBack))
      ensures Apply(s, TakeBack).worker == AfterTake(s.worker, req)
    {
      req := TakePending();
    }

    method SendErr(req: Req, errno: nat)
      modifies this
      ensures sent == old(sent) + [Spec.Answer(req, Spec.Error(errno))]
      ensures readOps == old(readOps) && pendingRequest == old(pendingRequest) && syncBytes == old(syncBytes)
    {
      sent := sent + [Spec.Answer(req, Spec.Error(errno))];
    }

    /** Writes a sync byte; without room in the pipe the write blocks, and the lock stays held. */
    method SendSync() returns (done: bool)
      modifies this
      ensures done <==> old(syncBytes) < PIPE_CAPACITY
      ensures syncBytes == if done then old(syncBytes) + 1 else old(syncBytes)
      ensures readOps == old(readOps) && pendingRequest == old(pendingRequest) && sent == old(sent)
    {
      done := syncBytes < PIPE_CAPACITY;
      if done {
        syncBytes := syncBytes + 1;
      }
    }

    /** Queues a request and signals; `done` is false if the signal blocks. */
    method PushRequest(req: Req, ghost s: State) returns (done: bool)
      requires Shows(s) && Enabled(s, Push(req))
      modifies this
      ensures done <==> s.tokens < PIPE_CAPACITY
      ensures var t := Apply(s, Push(req)); Shows(if done then Apply(t, SyncWrite) else t)
    {
      readOps := readOps + [req];
      done := SendSync();
    }

    method PushFront(req: Req, ghost s: State)
      requires Shows(s) && s.worker == Rescheduling(req) && Enabled(s, Reschedule)
      modifies this
      ensures Shows(Apply(s, Reschedule))
    {
      readOps := [req] + readOps;
    }

    /** Interrupts everything that is queued or parked, queue first. */
    method DoIntrAll()
      modifies this
      ensures readOps == [] && pendingRequest == None && syncBytes == old(syncBytes)
      ensures sent == old(sent) + InterruptedAll(old(readOps) + OptSeq(old(pendingRequest)))
    {
      ghost var all := readOps;
      ghost var n := 0;
      while readOps != []
        invariant 0 <= n <= |all| && readOps == all[n..]
        invariant pendingRequest == old(pendingRequest) && syncBytes == old(syncBytes)
        invariant sent == old(sent) + InterruptedAll(all[..n])
        decreases |readOps|
      {
        var req := NextRequest();
        assert req.value == all[n];
        InterruptedAllSnoc(all[..n], all[n]);
        assert all[..n] + [all[n]] == all[..n + 1];
        n := n + 1;
        SendErr(req.value, Spec.EINTR);
      }
      assert all[..n] == all;
      var req := TakePending();
      if req.Some? {
        InterruptedAllSnoc(all, req.value);
        SendErr(req.value, Spec.EINTR);
      } else {
        assert all + [] == all;
      }
    }

    method DoIntrOne(q: nat)
      requires NoDup(Sequences(readOps))
      modifies this
      ensures syncBytes == old(syncBytes)
      ensures match Locate(old(readOps), old(pendingRequest), q)
              case InPending =>
                && pendingRequest == None && readOps == old(readOps)
                && sent == old(sent) + [Interrupted(old(pendingRequest).value)]
              case InQueue(i) =>
                && pendingRequest == old(pendingRequest) && readOps == Remove(old(readOps), i)
                && sent == old(sent) + [Interrupted(old(readOps)[i])]
              case Nowhere =>
                pendingRequest == old(pendingRequest) && readOps == old(readOps) && sent == old(sent)
    {
      if pendingRequest.Some? && pendingRequest.value.sequence == q {
        SendErr(pendingRequest.value, Spec.EINTR);
        pendingRequest := None;
        return;
      }
      var pos := 0;
      while pos < |readOps| && readOps[pos].sequence != q
        invariant 0 <= pos <= |readOps|
        invariant forall k :: 0 <= k < pos ==> readOps[k].sequence != q
        invariant unchanged(this)
      {
        pos := pos + 1;
      }
      if pos < |readOps| {
        SendErr(readOps[pos], Spec.EINTR);
        ghost var numbers := Sequences(readOps);
        assert forall k :: pos < k < |readOps| ==> numbers[k] != q;
        readOps := Remove(readOps, pos);
      }
    }

    /** Interrupts a read and signals; `done` is false if the signal blocks. */
    method DoIntr(q: nat, ghost s: State) returns (done: bool)
      requires Shows(s) && Enabled(s, Intr(q)) && NoDup(Sequences(readOps))
      modifies this
      ensures done <==> s.tokens < PIPE_CAPACITY
      ensures var t := Apply(s, Intr(q)); Shows(if done then Apply(t, SyncWrite) else t)
    {
      DoIntrOne(q);
      done := SendSync();
    }

    method SendData(req: Req, bytes: seq<byte>, ghost s: State)
      requires Shows(s) && s.worker == Sending(req, bytes) && Enabled(s, ReadScheduler.SendData)
      modifies this
      ensures Shows(Apply(s, ReadScheduler.SendData))
    {
      sent := sent + [Spec.Answer(req, Spec.Data(bytes))];
    }
  }

  function InterruptedAll(rs: seq<Req>): seq<Spec.Answer> {
    seq(|rs|, i requires 0 <= i < |rs| => Interrupted(rs[i]))
  }

  lemma InterruptedAllSnoc(rs: seq<Req>, r: Req)
    ensures InterruptedAll(rs + [r]) == InterruptedAll(rs) + [Interrupted(r)]
  {
  }
}
