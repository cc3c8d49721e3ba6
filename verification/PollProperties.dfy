/** What holds in every run of the poll server, and exactly which waits it guarantees. */
module PollProperties {
  import opened Base
  import opened PollServer

  /**
   A registered handle whose event is ready is never forgotten: an edge is still pending
   or the worker holds an event that will match.  Readiness may rise at any moment, also
   between the poll check and the registration.
   */
  lemma NoLostWakeup(s: State, kh: Kh, f: Flag)
    requires Reachable(s) && kh in s.khs && f in s.ready
    requires f in s.khs[kh] * {In, Out, Pri} || f in {Err, Hup}
    ensures s.edge || (s.worker.Holding? && kh in Matched(s.khs, s.worker.ev))
  {
    ReachableInv(s);
    assert AllCovered(s, s.khs[kh]) && f in Relevant(s.khs[kh]);
    assert Covered(s, f);
    if !s.edge {
      assert f in s.worker.ev * (s.khs[kh] + ALWAYS);
    }
  }

  /** After a signal no remaining handle intersects the event; the others were woken, each once. */
  lemma SignalExactly(s: State, order: seq<Kh>, kh: Kh)
    requires Enabled(s, Signal(order))
    ensures var t := Apply(s, Signal(order)); var ev := s.worker.ev;
            && (kh in t.khs <==> kh in s.khs && ev * (s.khs[kh] + ALWAYS) == {})
            && (kh in t.khs ==> t.khs[kh] == s.khs[kh])
            && (kh in order <==> kh in s.khs && kh !in t.khs)
            && multiset(t.woken)[kh] == multiset(s.woken)[kh] + (if kh in order then 1 else 0)
            && (ev * ALWAYS != {} ==> t.khs == map[])
  {
    var t := Apply(s, Signal(order));
    var ev := s.worker.ev;
    NoDupMultiset(order, kh);
    assert kh in multiset(order) <==> kh in order;
    if ev * ALWAYS != {} {
      forall k | k in s.khs ensures k in Matched(s.khs, ev) {
        assert ev * ALWAYS <= ev * (s.khs[k] + ALWAYS);
      }
    }
  }

  /** No handle is woken more often than it was registered. */
  lemma WakeupsPaid(s: State, kh: Kh)
    requires Reachable(s)
    ensures multiset(s.woken)[kh] <= multiset(s.registered)[kh]
    ensures kh in s.khs ==> multiset(s.woken)[kh] < multiset(s.registered)[kh]
  {
    ReachableInv(s);
    assert multiset(s.woken)[kh] + (if kh in s.khs then 1 else 0) <= multiset(s.registered)[kh];
  }

  lemma {:induction false} ListOf(khs: set<Kh>) returns (order: seq<Kh>)
    ensures Lists(order, khs)
    decreases |khs|
  {
    if khs == {} {
      order := [];
    } else {
      var kh :| kh in khs;
      var rest := ListOf(khs - {kh});
      order := rest + [kh];
    }
  }

  /** Readiness of `f` wakes a handle that waits with `mask`. */
  predicate Wakes(mask: set<Flag>, f: Flag) {
    f in Relevant(mask)
  }

  lemma SignalNow(s: State, kh: Kh, f: Flag) returns (a: Action)
    requires s.main.Free? && s.worker.Holding? && kh in s.khs && Wakes(s.khs[kh], f) && f in s.worker.ev
    ensures a.Signal? && Enabled(s, a) && kh in a.order
  {
    var order := ListOf(Matched(s.khs, s.worker.ev));
    a := Signal(order);
    assert f in s.worker.ev * (s.khs[kh] + ALWAYS);
    assert kh in Matched(s.khs, s.worker.ev);
  }

  lemma WaitThenSignal(s: State, kh: Kh, f: Flag) returns (acts: seq<Action>)
    requires s.main.Free? && s.worker.Waiting? && s.edge
    requires kh in s.khs && Wakes(s.khs[kh], f) && f in s.ready
    ensures |acts| == 2 && acts[0].Wait? && acts[1].Signal? && IsRun(s, acts)
    ensures kh in acts[1].order && After(s, acts).woken == s.woken + acts[1].order
  {
    var t := Apply(s, Wait);
    assert f in s.ready * WATCHED;
    assert f in t.worker.ev;
    var sig := SignalNow(t, kh, f);
    acts := [Wait, sig];
    assert acts[1..] == [sig] && [sig][1..] == [];
    assert IsRun(Apply(t, sig), []);
    assert IsRun(t, [sig]);
    assert After(t, [sig]) == Apply(t, sig);
  }

  /** The run wakes the handle, whatever else it wakes. */
  ghost predicate WakesIn(s: State, acts: seq<Action>, kh: Kh) {
    IsRun(s, acts) && s.woken <= After(s, acts).woken && kh in After(s, acts).woken[|s.woken|..]
  }

  lemma WorkerDeliversFree(s: State, kh: Kh, f: Flag) returns (acts: seq<Action>)
    requires Reachable(s) && s.main.Free?
    requires kh in s.khs && Wakes(s.khs[kh], f) && f in s.ready
    ensures WakesIn(s, acts, kh) && |acts| <= 3
    ensures forall i :: 0 <= i < |acts| ==> acts[i].Wait? || acts[i].Signal?
  {
    CoverOf(s, kh, f);
    if s.worker.Waiting? {
      acts := WaitThenSignal(s, kh, f);
      assert (s.woken + acts[1].order)[|s.woken|..] == acts[1].order;
      return;
    }
    var order := ListOf(Matched(s.khs, s.worker.ev));
    var first := Signal(order);
    var t := Apply(s, first);
    assert t.woken[|s.woken|..] == order;
    if kh in order {
      acts := [first];
      assert acts[1..] == [];
      assert After(t, []) == t;
    } else {
      assert kh in t.khs && t.khs[kh] == s.khs[kh];
      assert f !in s.worker.ev * (s.khs[kh] + ALWAYS);
      var rest := WaitThenSignal(t, kh, f);
      acts := [first] + rest;
      assert acts[1..] == rest;
      assert After(s, acts).woken == s.woken + (order + rest[1].order);
      assert (s.woken + (order + rest[1].order))[|s.woken|..] == order + rest[1].order;
    }
  }

  /** What a handle waits for once the main thread has given up the lock. */
  function NextMask(s: State, kh: Kh): set<Flag>
    requires kh in s.khs
  {
    if s.main.Checked? && s.main.kh == kh then s.main.mask else s.khs[kh]
  }

  /**
   From every reachable state in which an event that a handle waits for is ready, the worker
   wakes that handle within three of its steps; if the main thread holds the lock, once it has
   registered what it came to register and unless that takes the handle's wish away.
   */
  lemma WorkerDelivers(s: State, kh: Kh, f: Flag) returns (acts: seq<Action>)
    requires Reachable(s) && kh in s.khs && f in s.ready
    requires NextMask(s, kh) != {} && Wakes(NextMask(s, kh), f)
    ensures WakesIn(s, acts, kh)
    ensures |acts| <= if s.main.Free? then 3 else 4
    ensures forall i :: 0 <= i < |acts| ==> acts[i].Wait? || acts[i].Signal? || (i == 0 && acts[i].Register?)
  {
    if s.main.Free? {
      acts := WorkerDeliversFree(s, kh, f);
    } else {
      ReachableInv(s);
      ReachableStep(s, Register);
      var t := Apply(s, Register);
      assert PollToEpoll(s.main.mask) == s.main.mask;
      var rest := WorkerDeliversFree(t, kh, f);
      acts := [Register] + rest;
      assert acts[1..] == rest;
    }
  }

  lemma CoverOf(s: State, kh: Kh, f: Flag)
    requires Reachable(s) && kh in s.khs && Wakes(s.khs[kh], f)
    ensures Covered(s, f)
  {
    ReachableInv(s);
    assert AllCovered(s, s.khs[kh]);
  }

  // ---- reachability of concrete states ----

  lemma {:induction false} RunAppend(s: State, acts: seq<Action>, a: Action)
    requires IsRun(s, acts) && Enabled(After(s, acts), a)
    ensures IsRun(s, acts + [a])
    ensures After(s, acts + [a]) == Apply(After(s, acts), a)
    decreases |acts|
  {
    if acts == [] {
      assert acts + [a] == [a];
      assert IsRun(Apply(s, a), [a][1..]);
    } else {
      assert (acts + [a])[1..] == acts[1..] + [a];
      RunAppend(Apply(s, acts[0]), acts[1..], a);
    }
  }

  lemma ReachableStep(s: State, a: Action)
    requires Reachable(s) && Enabled(s, a)
    ensures Reachable(Apply(s, a))
  {
    var acts :| IsRun(INIT, acts) && After(INIT, acts) == s;
    RunAppend(INIT, acts, a);
  }

  lemma InitReachable()
    ensures Reachable(INIT)
  {
    assert IsRun(INIT, []) && After(INIT, []) == INIT;
  }

  /** The number that asks for exactly these events. */
  function EventsOf(mask: set<Flag>): nat {
    (if In in mask then Bit(In) else 0) + (if Pri in mask then Bit(Pri) else 0)
    + (if Out in mask then Bit(Out) else 0) + (if RdBand in mask then Bit(RdBand) else 0)
    + (if WrBand in mask then Bit(WrBand) else 0)
  }

  lemma FiveBits(a: nat, b: nat, c: nat, d: nat, e: nat)
    requires a <= 1 && b <= 1 && c <= 1 && d <= 1 && e <= 1
    ensures var ev := a + 2 * b + 4 * c + 0x80 * d + 0x200 * e;
            ev % 2 == a && ev / 2 % 2 == b && ev / 4 % 2 == c && ev / 0x80 % 2 == d && ev / 0x200 % 2 == e
  {
    var ev := a + 2 * b + 4 * c + 0x80 * d + 0x200 * e;
    assert ev / 2 == b + 2 * c + 0x40 * d + 0x100 * e;
    assert ev / 4 == c + 0x20 * d + 0x80 * e;
    assert ev / 0x80 == d + 4 * e;
    assert ev / 0x200 == e;
  }

  lemma EventsOfExact(mask: set<Flag>)
    requires mask <= MAPPED
    ensures ProtoToPoll(EventsOf(mask)) == mask && PollToEpoll(mask) == mask
  {
    FiveBits(if In in mask then 1 else 0, if Pri in mask then 1 else 0, if Out in mask then 1 else 0,
             if RdBand in mask then 1 else 0, if WrBand in mask then 1 else 0);
    forall f | f in MAPPED ensures HasBit(EventsOf(mask), f) <==> f in mask {
    }
  }

  /** Polling a device that is not ready registers the handle with exactly the asked events. */
  lemma PollRegisters(acts: seq<Action>, q: nat, kh: Kh, mask: set<Flag>) returns (more: seq<Action>)
    requires IsRun(INIT, acts) && mask <= MAPPED && mask != {}
    requires After(INIT, acts).main.Free? && After(INIT, acts).ready == {}
    ensures more == acts + [Poll(q, kh, EventsOf(mask)), Register]
    ensures IsRun(INIT, more)
    ensures var s, t := After(INIT, acts), After(INIT, more);
            && t.khs == s.khs[kh := mask] && t.replies == s.replies + [Events(q, {})]
            && t.ready == {} && t.main.Free? && t.edge == s.edge && t.worker == s.worker && t.woken == s.woken
            && t.registered == s.registered + [kh]
  {
    var s, a := After(INIT, acts), Poll(q, kh, EventsOf(mask));
    EventsOfExact(mask);
    RunAppend(INIT, acts, a);
    RunAppend(INIT, acts + [a], Register);
    more := acts + [a] + [Register];
    assert acts + [a] + [Register] == acts + [a, Register];
  }

  /** A state in which the worker can do nothing although `f` is ready. */
  predicate Forgotten(s: State, f: Flag) {
    f in s.ready && !s.edge && s.worker.Waiting? && s.main.Free?
  }

  /** The event passes while a handle waits for others, and leaves nothing behind. */
  function Passing(f: Flag): seq<Action> {
    if f in WATCHED then [Rise(f), Wait, Signal([])] else [Rise(f)]
  }

  lemma UnwantedEvent(acts: seq<Action>, kh: Kh, f: Flag)
    requires IsRun(INIT, acts) && f in MAPPED
    requires var s := After(INIT, acts);
             && s.main.Free? && s.worker.Waiting? && s.ready == {} && !s.edge
             && s.khs.Keys == {kh} && f !in s.khs[kh] * {In, Out, Pri}
    ensures IsRun(INIT, acts + Passing(f))
    ensures var s, t := After(INIT, acts), After(INIT, acts + Passing(f));
            Forgotten(t, f) && t.khs == s.khs && t.woken == s.woken && t.replies == s.replies && t.registered == s.registered
  {
    var s := After(INIT, acts);
    RunAppend(INIT, acts, Rise(f));
    if f in WATCHED {
      var up := s.(ready := {f}, edge := true);
      assert Apply(s, Rise(f)) == up;
      RunAppend(INIT, acts + [Rise(f)], Wait);
      assert up.ready * WATCHED == {f};
      var held := up.(edge := false, worker := Holding({f}));
      assert Matched(held.khs, {f}) == {};
      RunAppend(INIT, acts + [Rise(f)] + [Wait], Signal([]));
      assert acts + [Rise(f)] + [Wait] + [Signal([])] == acts + Passing(f);
      assert held.khs - {} == s.khs;
    }
  }

  /**
   Exactly the asked events among IN, OUT and PRI are never forgotten: for every mask that a
   handle can be registered with and every event that a poll can ask for.
   */
  lemma GuaranteedExactly(mask: set<Flag>, f: Flag)
    requires mask <= MAPPED && mask != {} && f in MAPPED
    ensures (forall s, kh :: Reachable(s) && kh in s.khs && s.khs[kh] == mask ==> !Forgotten(s, f))
            <==> f in mask * {In, Out, Pri}
  {
    if f in mask * {In, Out, Pri} {
      forall s, kh | Reachable(s) && kh in s.khs && s.khs[kh] == mask ensures !Forgotten(s, f) {
        CoverOf(s, kh, f);
      }
    } else {
      var acts := PollRegisters([], 1, 7, mask);
      UnwantedEvent(acts, 7, f);
      var t := After(INIT, acts + Passing(f));
      assert Reachable(t) && t.khs[7] == mask && Forgotten(t, f);
    }
  }

  /** No step of the run registers the handle. */
  ghost predicate Unregistered(s: State, acts: seq<Action>, kh: Kh)
    requires IsRun(s, acts)
    decreases |acts|
  {
    acts == [] || (&& !(acts[0].Register? && s.main.kh == kh)
                   && Unregistered(Apply(s, acts[0]), acts[1..], kh))
  }

  lemma {:induction false} MaskStays(s: State, acts: seq<Action>, kh: Kh)
    requires IsRun(s, acts) && Unregistered(s, acts, kh)
    ensures var t := After(s, acts); kh in t.khs ==> kh in s.khs && t.khs[kh] == s.khs[kh]
    decreases |acts|
  {
    if acts != [] { MaskStays(Apply(s, acts[0]), acts[1..], kh); }
  }

  /**
   What a handle is woken for is what its last registration asked for, and nothing of an earlier
   one: after any run without a further registration of it, a signal wakes it exactly if it
   still waits and the event meets the last mask, an error or a hang-up.
   */
  lemma LastRegistrationCounts(s: State, acts: seq<Action>, order: seq<Kh>)
    requires Reachable(s) && Enabled(s, Register) && s.main.mask != {}
    requires IsRun(Apply(s, Register), acts) && Unregistered(Apply(s, Register), acts, s.main.kh)
    requires Enabled(After(Apply(s, Register), acts), Signal(order))
    ensures var t := After(Apply(s, Register), acts);
            s.main.kh in order <==> s.main.kh in t.khs && t.worker.ev * (s.main.mask + ALWAYS) != {}
  {
    ReachableInv(s);
    assert PollToEpoll(s.main.mask) == s.main.mask;
    MaskStays(Apply(s, Register), acts, s.main.kh);
  }

  /**
   Two polls on one handle, the first for IN and the second for OUT: both are told to wait, the
   second registration replaces the first, and IN then passes without waking the handle.
   */
  lemma SecondPollReplacesFirst(kh: Kh) returns (acts: seq<Action>)
    ensures acts == [Poll(1, kh, Bit(In)), Register, Poll(2, kh, Bit(Out)), Register,
                     Rise(In), Wait, Signal([])]
    ensures IsRun(INIT, acts)
    ensures var s := After(INIT, acts);
            && s.replies == [Events(1, {}), Events(2, {})] && s.registered == [kh, kh]
            && kh in s.khs && s.woken == [] && Forgotten(s, In)
  {
    var first := PollRegisters([], 1, kh, {In});
    var second := PollRegisters(first, 2, kh, {Out});
    UnwantedEvent(second, kh, In);
    acts := second + Passing(In);
    assert second == [Poll(1, kh, Bit(In)), Register, Poll(2, kh, Bit(Out)), Register];
  }
}
