/**
 The handle map that the lock of the server's `Poll` protects, updated in place.  The
 contracts tie each lock-protected section to the actions of `PollServer`.
 */
module PollState {
  import opened Base
  import opened PollServer

  class PollInner {
    var khs: map<Kh, set<Flag>>
    var replies: seq<Reply>       // poll replies written to the connection
    var woken: seq<Kh>            // handles written in wake-up messages

    ghost predicate Shows(s: State)
      reads this
    {
      khs == s.khs && replies == s.replies && woken == s.woken
    }

    constructor ()
      ensures Shows(INIT)
    {
      khs, replies, woken := map[], [], [];
    }

    /** The matching handles, in whatever order the map yields them. */
    method Collect(ev: set<Flag>) returns (order: seq<Kh>)
      ensures Lists(order, Matched(khs, ev))
    {
      order := [];
      var rest := khs.Keys;
      while rest != {}
        invariant rest <= khs.Keys
        invariant NoDup(order)
        invariant forall kh :: kh in order <==> kh in Matched(khs, ev) && kh !in rest
        decreases |rest|
      {
        var kh :| kh in rest;
        if ev * (khs[kh] + ALWAYS) != {} {
          order := order + [kh];
        }
        rest := rest - {kh};
      }
    }

    method RemoveAll(order: seq<Kh>)
      modifies this`khs
      ensures khs.Keys == old(khs).Keys - (set kh | kh in order)
      ensures forall kh :: kh in khs ==> khs[kh] == old(khs)[kh]
    {
      var i := 0;
      while i < |order|
        invariant 0 <= i <= |order|
        invariant khs.Keys == old(khs).Keys - (set kh | kh in order[..i])
        invariant forall kh :: kh in khs ==> khs[kh] == old(khs)[kh]
      {
        khs := khs - {order[i]};
        assert order[..i + 1] == order[..i] + [order[i]];
        i := i + 1;
      }
      assert order[..i] == order;
    }

    /** Removes the matching handles and sends them as wake-ups. */
    method Signal(ev: set<Flag>, ghost s: State) returns (order: seq<Kh>)
      requires Shows(s) && s.worker == Holding(ev) && s.main.Free?
      modifies this
      ensures Enabled(s, PollServer.Signal(order))
      ensures Shows(Apply(s, PollServer.Signal(order)))
    {
      order := Collect(ev);
      assert (set kh | kh in order) == Matched(khs, ev);
      RemoveAll(order);
      assert khs == s.khs - Matched(s.khs, ev);
      woken := woken + order;
    }

    method RegisterKh(kh: Kh, ev: set<Flag>)
      modifies this`khs
      ensures khs == AfterRegister(old(khs), kh, ev)
    {
      if ev == {} {
        khs := khs - {kh};
      } else {
        khs := khs[kh := PollToEpoll(ev)];
      }
    }

    /** A poll that asks for no notification. */
    method PollOnce(q: nat, events: nat, rc: Result<set<Flag>, nat>, ghost s: State)
      requires Shows(s) && s.main.Free?
      requires rc.Success? ==> rc.value == Reported(s.ready, ProtoToPoll(events))
      modifies this
      ensures rc.Failure? ==> Shows(Apply(s, PollFails(q, rc.error)))
      ensures rc.Success? ==> Shows(Apply(s, PollServer.PollOnce(q, events)))
    {
      replies := replies + [match rc case Failure(e) => Failed(q, e) case Success(flags) => Events(q, flags)];
    }

    /** A poll that asks for notification; `rc` is the outcome of poll(2) under the lock. */
    method Poll(q: nat, kh: Kh, events: nat, rc: Result<set<Flag>, nat>, ghost s: State)
      requires Shows(s) && s.main.Free?
      requires rc.Success? ==> rc.value == Reported(s.ready, ProtoToPoll(events))
      modifies this
      ensures rc.Failure? ==> Shows(Apply(s, PollFails(q, rc.error)))
      ensures rc.Success? && rc.value != {} ==> Shows(Apply(s, PollServer.Poll(q, kh, events)))
      ensures rc.Success? && rc.value == {} ==>
                Shows(Apply(Apply(s, PollServer.Poll(q, kh, events)), Register))
    {
      match rc
      case Failure(e) =>
        replies := replies + [Failed(q, e)];
      case Success(flags) =>
        replies := replies + [Events(q, flags)];
        if flags == {} {
          RegisterKh(kh, ProtoToPoll(events));
        }
    }
  }
}
