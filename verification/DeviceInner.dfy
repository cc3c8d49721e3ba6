/**
 The client device as an object: a table of outstanding requests and a closed flag that
 callers and the receiving thread change in place.  Each method is tied to the steps of
 `Client` that the composed system takes.
 */
module DeviceState {
  import opened Base
  import opened Endian
  import opened IoctlNumber
  import opened IoctlArg
  import P = Protocol
  import R = Responses
  import C = Client
  import L = ClientLedger

  datatype Error = BadResponse

  /** Looking a response up, answering it and, for a release, closing: what one call does. */
  function Handled(c: C.State): C.State
    requires c.rx.RxGot?
  {
    var taken := C.TakeOut(c);
    if !taken.rx.RxReply? then taken
    else
      var answered := C.HandleResponse(taken);
      if answered.rx.RxClosing? then C.Close(answered) else answered
  }

  /** One round of the receiving loop. */
  function Round(c: C.State, f: R.Frame): C.State
    requires c.rx.RxLoop?
  {
    var got := C.Receive(c, f);
    if got.rx.RxGot? then Handled(got) else got
  }

  /** The receiving loop on the frames that arrive; it ends when the connection does or the device is closed. */
  function Received(c: C.State, frames: seq<R.Frame>): C.State
    requires c.rx.RxLoop?
    decreases |frames|
  {
    if c.closed || frames == [] then c.(rx := C.RxLeft)
    else
      var next := Round(c, frames[0]);
      if next.rx.RxLoop? then Received(next, frames[1..]) else next
  }

  /** A response as the kernel is told of it, for a request of this kind. */
  predicate Conveys(host: Host, kind: C.Kind, body: R.Response, what: C.KernelReply) {
    match body
    case Done => kind.KRelease? && what == C.KError(0)
    case Failed(e) => what == C.KError(e)
    case Wrote(n) => kind.KWrite? && what == C.KWritten(n)
    case Bytes(data) => kind.KRead? && what == C.KData(data)
    case IoctlDone(_, arg) =>
      && kind.KIoctl? && arg.Formed() && what.KIoctlOut?
      && CuseResponse(host, Repaired(kind.cmd), arg) == Success(what.data)
    case Polled(n) => kind.KPoll? && what == C.KPolled(n)
    case _ => false
  }

  lemma HandledLoops(c: C.State)
    requires c.rx.RxGot?
    ensures Handled(c).rx.RxLoop?
  {
  }

  class DeviceInner {
    const host: Host
    var closed: bool
    var requests: map<nat, C.Entry>
    var replies: seq<C.Reply>       // written to the kernel
    var notified: seq<nat>          // handles the kernel was notified of

    constructor (host: Host)
      ensures forall n :: Shows(C.Init(host, n))
    {
      this.host := host;
      closed, requests, replies, notified := false, map[], [], [];
    }

    ghost predicate Shows(c: C.State)
      reads this
    {
      && c.host == host && c.closed == closed && c.table == requests
      && c.replies == replies && c.notified == notified
    }

    method RemoveRequest(q: nat) returns (r: Option<C.Entry>)
      modifies this`requests
      ensures r == if q in old(requests) then Some(old(requests)[q]) else None
      ensures requests == old(requests) - {q}
    {
      if q in requests {
        r := Some(requests[q]);
        requests := requests - {q};
      } else {
        r := None;
        assert requests - {q} == requests;
      }
    }

    method Send(unique: nat, what: C.KernelReply)
      modifies this`replies
      ensures replies == old(replies) + [C.Reply(unique, what)]
    {
      replies := replies + [C.Reply(unique, what)];
    }

    /** Answers a response whose request was taken out of the table. */
    method Answer(ghost c: C.State, e: C.Entry, body: R.Response) returns (r: Result<(), Error>)
      requires Shows(c) && c.rx == C.RxReply(e, body)
      modifies this`closed, this`replies
      ensures var a := C.HandleResponse(c); Shows(if a.rx.RxClosing? then C.Close(a) else a)
      ensures r.Failure? <==> C.Convert(host, e.kind, body).None?
      ensures if r.Success? then
                exists what :: Conveys(host, e.kind, body, what) && replies == old(replies) + [C.Reply(e.unique, what)]
              else
                replies == old(replies) && forall what :: !Conveys(host, e.kind, body, what)
      ensures closed == (old(closed) || (e.kind.KRelease? && body.Done?))
    {
      if e.kind.KRelease? && body.Done? {
        closed := true;
        Send(e.unique, C.KError(0));
        assert Conveys(host, e.kind, body, C.KError(0));
        return Success(());
      }
      var what := C.Convert(host, e.kind, body);
      if what.None? {
        return Failure(BadResponse);
      }
      Send(e.unique, what.value);
      assert Conveys(host, e.kind, body, what.value);
      return Success(());
    }

    method HandleResponse(ghost c: C.State, f: R.Frame) returns (r: Result<(), Error>)
      requires Shows(c) && c.rx == C.RxGot(f)
      modifies this
      ensures Shows(Handled(c))
      ensures r.Failure? ==> Handled(c).lost
    {
      var e := RemoveRequest(f.sequence);
      if e.None? {
        return Success(());
      }
      r := Answer(C.TakeOut(c), e.value, f.body);
    }

    /** Notifies the kernel of every handle that an event names. */
    method HandleEvent(body: R.Response) returns (r: Result<(), Error>)
      modifies this`notified
      ensures notified == old(notified) + R.Notifications(body)
      ensures r.Success? <==> body.Wakeups? || body.Wakeup?
    {
      if body.Wakeups? {
        var i := 0;
        while i < |body.khs|
          invariant i <= |body.khs| && notified == old(notified) + body.khs[..i]
        {
          notified := notified + [body.khs[i]];
          assert body.khs[..i + 1] == body.khs[..i] + [body.khs[i]];
          i := i + 1;
        }
        assert body.khs[..i] == body.khs;
        return Success(());
      } else if body.Wakeup? {
        notified := notified + [body.kh];
        return Success(());
      }
      return Failure(BadResponse);
    }

    /** Answers everything left in the table, in the order in which the table yields it. */
    method Drain() returns (ghost order: seq<nat>)
      modifies this`replies
      ensures NoDup(order) && forall q :: q in order <==> q in requests
      ensures replies == old(replies) + C.Drained(requests, order)
    {
      var todo := requests.Keys;
      order := [];
      while todo != {}
        invariant todo <= requests.Keys && NoDup(order)
        invariant forall q :: q in order <==> q in requests && q !in todo
        invariant forall i :: 0 <= i < |order| ==> order[i] in requests
        invariant replies == old(replies) + C.Drained(requests, order)
        decreases |todo|
      {
        var q :| q in todo;
        Send(requests[q].unique, C.KError(C.EINTR));
        assert C.Drained(requests, order + [q])
            == C.Drained(requests, order) + [C.Reply(requests[q].unique, C.KError(C.EINTR))];
        order := order + [q];
        todo := todo - {q};
      }
    }

    /** One received frame; a remote error without a request ends the loop. */
    method Serve(ghost c: C.State, f: R.Frame) returns (goOn: bool)
      requires Shows(c) && c.rx.RxLoop?
      modifies this
      ensures Shows(Round(c, f)) && (goOn <==> Round(c, f).rx.RxLoop?)
    {
      if f.sequence != 0 {
        var _ := HandleResponse(C.Receive(c, f), f);
        HandledLoops(C.Receive(c, f));
        return true;
      }
      if f.body.Failed? {
        return false;
      }
      var _ := HandleEvent(f.body);
      return true;
    }

    /** The receiving thread: serves the frames that arrive, then answers whatever is left. */
    method RxThread(ghost c: C.State, frames: seq<R.Frame>) returns (ghost order: seq<nat>)
      requires Shows(c) && c.rx.RxLoop?
      modifies this
      ensures var left := Received(c, frames);
              && NoDup(order) && (forall q :: q in order <==> q in left.table)
              && Shows(C.Drain(left.(rx := C.RxShut, shut := true), order))
    {
      ghost var now := c;
      var i := 0;
      var goOn := true;
      while goOn && !closed && i < |frames|
        invariant i <= |frames| && Shows(now) && (goOn <==> now.rx.RxLoop?)
        invariant Received(c, frames) == if goOn then Received(now, frames[i..]) else now
        decreases |frames| - i
      {
        assert frames[i..][1..] == frames[i + 1..] && frames[i..][0] == frames[i];
        goOn := Serve(now, frames[i]);
        now := Round(now, frames[i]);
        i := i + 1;
      }
      assert Shows(Received(c, frames));
      order := Drain();
    }

    /**
     Sends a request and remembers it, or answers it with EIO.  `sent` says whether the send
     succeeded; `req` carries the number that the send took.
     */
    method HandleCuse(ghost c: C.State, unique: nat, req: P.Request, ghost app: C.App, sent: bool)
      requires Shows(c) && C.KindOf(req).Some?
      modifies this`requests, this`replies
      ensures Shows(if sent then C.Submit(c, unique, req, app)
                    else C.EioReply(C.SubmitFails(c, unique, req.sequence), |c.failing|))
    {
      if sent {
        requests := requests[req.sequence := C.Entry(C.KindOf(req).value, unique)];
      } else {
        Send(unique, C.KError(C.EIO));
      }
    }

    /** Finds the request that an interrupt is for; a second match is impossible. */
    method TryInterrupt(unique: nat) returns (r: Option<nat>)
      requires L.Injective(requests)
      ensures r.Some? ==> r.value in requests && requests[r.value].unique == unique
      ensures r.Some? ==> forall q :: q in requests && requests[q].unique == unique ==> q == r.value
      ensures r.None? ==> unique !in L.Uniques(requests)
    {
      var todo := requests.Keys;
      while todo != {}
        invariant todo <= requests.Keys
        invariant forall q :: q in requests && q !in todo ==> requests[q].unique != unique
        decreases |todo|
      {
        var q :| q in todo;
        if requests[q].unique == unique {
          return Some(q);
        }
        todo := todo - {q};
      }
      return None;
    }
  }

  /** A frame that the connection's invariants allow is answered: the table loses its entry and the kernel gets one reply. */
  lemma HandledAnswers(c: C.State)
    requires c.rx.RxGot? && c.rx.frame.sequence in c.table
    requires C.Convert(c.host, c.table[c.rx.frame.sequence].kind, c.rx.frame.body).Some?
    ensures var e, c' := c.table[c.rx.frame.sequence], Handled(c);
            && c'.table == c.table - {c.rx.frame.sequence} && c'.lost == c.lost && c'.rx.RxLoop?
            && c'.replies
               == c.replies + [C.Reply(e.unique, C.Convert(c.host, e.kind, c.rx.frame.body).value)]
  {
  }
}
