/**
 The server's poll side as a transition system: a map of kernel handles that wait for
 readiness, an edge-triggered epoll item for the device, the main thread that answers and
 registers polls, and the worker that turns epoll events into wake-ups.
 */
module PollServer {
  import opened Base

  type Kh = nat

  datatype Flag = In | Pri | Out | Err | Hup | Nval | RdNorm | RdBand | WrNorm | WrBand

  function Bit(f: Flag): nat {
    match f
    case In => 0x1 case Pri => 0x2 case Out => 0x4 case Err => 0x8 case Hup => 0x10
    case Nval => 0x20 case RdNorm => 0x40 case RdBand => 0x80 case WrNorm => 0x100 case WrBand => 0x200
  }

  predicate HasBit(ev: nat, f: Flag) { ev / Bit(f) % 2 == 1 }

  /** Events that the protocol, poll and epoll share. */
  const MAPPED: set<Flag> := {In, Out, Pri, RdBand, WrBand}

  /** What the device's epoll item reports: its interest, and always errors and hang-ups. */
  const WATCHED: set<Flag> := {In, Out, Pri, Err, Hup}

  const ALWAYS: set<Flag> := {Err, Hup}

  function ProtoToPoll(ev: nat): set<Flag> {
    set f | f in MAPPED && HasBit(ev, f)
  }

  function PollToEpoll(s: set<Flag>): set<Flag> {
    set f | f in MAPPED && f in s
  }

  /** The two translations together keep every shared event and drop the others. */
  lemma TranslationExact(ev: nat, f: Flag)
    ensures f in PollToEpoll(ProtoToPoll(ev)) <==> f in MAPPED && HasBit(ev, f)
  {
  }

  datatype Worker = Waiting | Holding(ev: set<Flag>)

  /** `Checked` holds the lock: poll found nothing, registration follows. */
  datatype Main = Free | Checked(kh: Kh, mask: set<Flag>)

  datatype Reply = Events(sequence: nat, flags: set<Flag>) | Failed(sequence: nat, errno: nat)

  datatype State = State(
    khs: map<Kh, set<Flag>>, ready: set<Flag>, edge: bool, worker: Worker, main: Main,
    replies: seq<Reply>, registered: seq<Kh>, woken: seq<Kh>)

  const INIT: State := State(map[], {}, false, Waiting, Free, [], [], [])

  datatype Action =
    | Rise(f: Flag) | Fall(f: Flag)
    | Poll(sequence: nat, kh: Kh, events: nat) | PollFails(sequence: nat, errno: nat)
    | PollOnce(sequence: nat, events: nat) | Register
    | Wait | Signal(order: seq<Kh>)

  /** What poll(2) reports for a mask: errors are reported whether asked for or not. */
  function Reported(ready: set<Flag>, mask: set<Flag>): set<Flag> {
    ready * (mask + {Err, Hup, Nval})
  }

  /** The handles that a signal wakes. */
  function Matched(khs: map<Kh, set<Flag>>, ev: set<Flag>): set<Kh> {
    set kh | kh in khs && ev * (khs[kh] + ALWAYS) != {}
  }

  function AfterRegister(khs: map<Kh, set<Flag>>, kh: Kh, mask: set<Flag>): map<Kh, set<Flag>> {
    if mask == {} then khs - {kh} else khs[kh := PollToEpoll(mask)]
  }

  ghost predicate Lists(order: seq<Kh>, khs: set<Kh>) {
    NoDup(order) && forall kh :: kh in order <==> kh in khs
  }

  ghost predicate Enabled(s: State, a: Action) {
    match a
    case Rise(_) => true
    case Fall(_) => true
    case Poll(_, _, _) => s.main.Free?
    case PollFails(_, _) => s.main.Free?
    case PollOnce(_, _) => s.main.Free?
    case Register => s.main.Checked?
    case Wait => s.worker.Waiting? && s.edge
    case Signal(order) => s.worker.Holding? && s.main.Free? && Lists(order, Matched(s.khs, s.worker.ev))
  }

  ghost function Apply(s: State, a: Action): State
    requires Enabled(s, a)
  {
    match a
    case Rise(f) => s.(ready := s.ready + {f}, edge := s.edge || f in WATCHED)
    case Fall(f) => s.(ready := s.ready - {f})
    case Poll(q, kh, events) =>
      var mask := ProtoToPoll(events);
      var hit := Reported(s.ready, mask);
      s.(replies := s.replies + [Events(q, hit)], main := if hit == {} then Checked(kh, mask) else Free)
    case PollFails(q, e) => s.(replies := s.replies + [Failed(q, e)])
    case PollOnce(q, events) =>
      s.(replies := s.replies + [Events(q, Reported(s.ready, ProtoToPoll(events)))])
    case Register =>
      s.(khs := AfterRegister(s.khs, s.main.kh, s.main.mask), main := Free,
         registered := s.registered + if s.main.mask == {} then [] else [s.main.kh])
    case Wait =>
      var ev := s.ready * WATCHED;
      s.(edge := false, worker := if ev == {} then Waiting else Holding(ev))
    case Signal(order) =>
      s.(khs := s.khs - Matched(s.khs, s.worker.ev), worker := Waiting, woken := s.woken + order)
  }

  ghost predicate IsRun(s: State, acts: seq<Action>)
    decreases |acts|
  {
    acts == [] || (Enabled(s, acts[0]) && IsRun(Apply(s, acts[0]), acts[1..]))
  }

  ghost function After(s: State, acts: seq<Action>): State
    requires IsRun(s, acts)
    decreases |acts|
  {
    if acts == [] then s else After(Apply(s, acts[0]), acts[1..])
  }

  ghost predicate Reachable(s: State) {
    exists acts :: IsRun(INIT, acts) && After(INIT, acts) == s
  }

  // ---- invariants ----

  /** Readiness of `f` has an edge pending or is in the event the worker holds. */
  predicate Covered(s: State, f: Flag) {
    f in s.ready ==> s.edge || (s.worker.Holding? && f in s.worker.ev)
  }

  /** The events whose readiness reaches a handle that waits with `mask`. */
  function Relevant(mask: set<Flag>): set<Flag> {
    mask * {In, Out, Pri} + ALWAYS
  }

  ghost predicate AllCovered(s: State, mask: set<Flag>) {
    forall f :: f in Relevant(mask) ==> Covered(s, f)
  }

  ghost predicate HandlesCovered(s: State) {
    forall kh :: kh in s.khs ==> AllCovered(s, s.khs[kh])
  }

  /** The handle about to be registered is covered too, though its readiness may have risen. */
  ghost predicate MainCovered(s: State) {
    s.main.Checked? ==> AllCovered(s, s.main.mask) && s.main.mask <= MAPPED
  }

  /** Each wake-up was paid for by a registration of its own. */
  ghost predicate Paid(s: State) {
    forall kh :: multiset(s.woken)[kh] + (if kh in s.khs then 1 else 0) <= multiset(s.registered)[kh]
  }

  ghost predicate Inv(s: State) {
    HandlesCovered(s) && MainCovered(s) && Paid(s)
  }

  lemma CoverKept(s: State, a: Action, mask: set<Flag>)
    requires Enabled(s, a) && AllCovered(s, mask)
    requires a.Signal? ==> s.worker.ev * Relevant(mask) == {}
    ensures AllCovered(Apply(s, a), mask)
  {
    var t := Apply(s, a);
    forall f | f in Relevant(mask) ensures Covered(t, f) {
      assert Covered(s, f);
      assert f in WATCHED;
      if a.Signal? { assert f !in s.worker.ev * Relevant(mask); }
    }
  }

  lemma HandlesKept(s: State, a: Action)
    requires Enabled(s, a) && HandlesCovered(s) && MainCovered(s)
    ensures HandlesCovered(Apply(s, a))
  {
    var t := Apply(s, a);
    forall kh | kh in t.khs ensures AllCovered(t, t.khs[kh]) {
      if a.Register? && kh == s.main.kh {
        assert PollToEpoll(s.main.mask) == s.main.mask;
        CoverKept(s, a, s.main.mask);
      } else {
        if a.Signal? {
          assert kh !in Matched(s.khs, s.worker.ev);
          assert s.worker.ev * Relevant(s.khs[kh]) <= s.worker.ev * (s.khs[kh] + ALWAYS);
        }
        CoverKept(s, a, s.khs[kh]);
      }
    }
  }

  lemma MainKept(s: State, a: Action)
    requires Enabled(s, a) && MainCovered(s)
    ensures MainCovered(Apply(s, a))
  {
    var t := Apply(s, a);
    if t.main.Checked? {
      if a.Poll? {
        forall f | f in Relevant(t.main.mask) ensures Covered(t, f) {
          assert f !in Reported(s.ready, t.main.mask);
        }
      } else {
        CoverKept(s, a, s.main.mask);
      }
    }
  }

  lemma PaidKept(s: State, a: Action)
    requires Enabled(s, a) && Paid(s)
    ensures Paid(Apply(s, a))
  {
    var t := Apply(s, a);
    forall kh ensures multiset(t.woken)[kh] + (if kh in t.khs then 1 else 0) <= multiset(t.registered)[kh] {
      assert multiset(s.woken)[kh] + (if kh in s.khs then 1 else 0) <= multiset(s.registered)[kh];
      if a.Signal? {
        NoDupMultiset(a.order, kh);
        assert kh in multiset(a.order) <==> kh in a.order;
      }
    }
  }

  lemma StepKeepsInv(s: State, a: Action)
    requires Inv(s) && Enabled(s, a)
    ensures Inv(Apply(s, a))
  {
    HandlesKept(s, a);
    MainKept(s, a);
    PaidKept(s, a);
  }

  lemma {:induction false} RunKeepsInv(s: State, acts: seq<Action>)
    requires Inv(s) && IsRun(s, acts)
    ensures Inv(After(s, acts))
    decreases |acts|
  {
    if acts != [] {
      StepKeepsInv(s, acts[0]);
      RunKeepsInv(Apply(s, acts[0]), acts[1..]);
    }
  }

  lemma ReachableInv(s: State)
    requires Reachable(s)
    ensures Inv(s)
  {
    var acts :| IsRun(INIT, acts) && After(INIT, acts) == s;
    assert Inv(INIT);
    RunKeepsInv(INIT, acts);
  }
}
