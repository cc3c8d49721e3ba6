/** Poll events and flags as numbers, by the bit masks of the protocol and of poll(2). */
module Events {
  import opened Base
  import opened Bits
  import opened PollServer
  import RequestFlags

  /** Whether a number has the mask of an event. */
  predicate HasMask(n: nat, f: Flag) {
    match f
    case In => BitAnd(n, 0x1) != 0
    case Pri => BitAnd(n, 0x2) != 0
    case Out => BitAnd(n, 0x4) != 0
    case Err => BitAnd(n, 0x8) != 0
    case Hup => BitAnd(n, 0x10) != 0
    case Nval => BitAnd(n, 0x20) != 0
    case RdNorm => BitAnd(n, 0x40) != 0
    case RdBand => BitAnd(n, 0x80) != 0
    case WrNorm => BitAnd(n, 0x100) != 0
    case WrBand => BitAnd(n, 0x200) != 0
  }

  /** The events that a poll with this number asks for. */
  function Wanted(n: nat): set<Flag> {
    set f | f in {In, Out, Pri, RdBand, WrBand} && HasMask(n, f)
  }

  /** The number tells which events are ready: the asked ones, and errors and hang-ups always. */
  ghost predicate Reports(ready: set<Flag>, events: nat, n: nat) {
    n < 0x400 && forall f :: HasMask(n, f) <==> f in ready && (f in Wanted(events) || f in {Err, Hup, Nval})
  }

  /** Nothing that a poll with this number reports is ready. */
  predicate NothingReady(ready: set<Flag>, events: nat) {
    ready * (Wanted(events) + {Err, Hup, Nval}) == {}
  }

  lemma {:induction false} AndPow2(v: nat, k: nat)
    ensures BitAnd(v, Pow2(k)) != 0 <==> v / Pow2(k) % 2 == 1
  {
    if k == 0 {
      AndHalves(v, 1);
      assert BitAnd(v / 2, 0) == 0;
    } else {
      AndPow2(v / 2, k - 1);
      AndHalves(v, Pow2(k));
      DivTwice(v, Pow2(k - 1));
    }
  }

  lemma Powers()
    ensures Pow2(0) == 0x1 && Pow2(1) == 0x2 && Pow2(2) == 0x4 && Pow2(3) == 0x8 && Pow2(4) == 0x10
    ensures Pow2(5) == 0x20 && Pow2(6) == 0x40 && Pow2(7) == 0x80 && Pow2(8) == 0x100 && Pow2(9) == 0x200
  {
  }

  function Position(f: Flag): nat {
    match f
    case In => 0 case Pri => 1 case Out => 2 case Err => 3 case Hup => 4
    case Nval => 5 case RdNorm => 6 case RdBand => 7 case WrNorm => 8 case WrBand => 9
  }

  lemma MaskIsBit(n: nat, f: Flag)
    ensures HasMask(n, f) <==> HasBit(n, f)
  {
    Powers();
    AndPow2(n, Position(f));
  }

  lemma WantedExact(n: nat)
    ensures Wanted(n) == ProtoToPoll(n)
  {
    forall f ensures HasMask(n, f) <==> HasBit(n, f) { MaskIsBit(n, f); }
  }

  lemma MaskOne(n: nat)
    ensures BitAnd(n, 1) != 0 <==> n % 2 == 1
    ensures BitAnd(n, 4) != 0 <==> n / 4 % 2 == 1
  {
    Powers();
    AndPow2(n, 0);
    AndPow2(n, 2);
  }

  /** The non-blocking flag of an open file is the third bit of the flags that are sent. */
  lemma NonblockSent(f: nat)
    ensures BitAnd(RequestFlags.WireFlags(f), 4) != 0 <==> BitAnd(f, 0x800) != 0
  {
    Powers();
    MaskOne(RequestFlags.WireFlags(f));
    assert Pow2(11) == 0x800 by { assert Pow2(10) == 2 * Pow2(9); }
    AndPow2(f, 11);
    RequestFlags.FlagsKept(f);
  }
}
