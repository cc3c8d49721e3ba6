/** Building runs of a connection step by step. */
module SystemRuns {
  import opened Endian
  import opened System
  import SystemInvariant

  lemma {:induction false} RunAppend(s: State, acts: seq<Action>, a: Action)
    requires IsRun(s, acts) && Enabled(After(s, acts), a)
    ensures IsRun(s, acts + [a])
    ensures After(s, acts + [a]) == Apply(After(s, acts), a)
    decreases |acts|
  {
    var all := acts + [a];
    if acts == [] {
      assert all[1..] == [];
    } else {
      assert all[0] == acts[0] && all[1..] == acts[1..] + [a];
      RunAppend(Apply(s, acts[0]), acts[1..], a);
    }
  }

  lemma ReachableStep(s: State, a: Action)
    requires Reachable(s) && Enabled(s, a)
    ensures Reachable(Apply(s, a))
  {
    var hc, hs, n, acts :| n > 0 && IsRun(Init(hc, hs, n), acts) && After(Init(hc, hs, n), acts) == s;
    RunAppend(Init(hc, hs, n), acts, a);
    assert IsRun(Init(hc, hs, n), acts + [a]);
  }

  lemma {:induction false} ReachableRun(s: State, acts: seq<Action>)
    requires Reachable(s) && IsRun(s, acts)
    ensures Reachable(After(s, acts))
    decreases |acts|
  {
    if acts != [] {
      ReachableStep(s, acts[0]);
      ReachableRun(Apply(s, acts[0]), acts[1..]);
    }
  }

  lemma InitReachable(hc: Host, hs: Host, n: nat)
    requires n > 0
    ensures Reachable(Init(hc, hs, n))
  {
    assert IsRun(Init(hc, hs, n), []) && After(Init(hc, hs, n), []) == Init(hc, hs, n);
  }

  lemma NumbersPositive(s: State)
    requires Reachable(s)
    ensures s.client.nextSeq > 0
  {
    SystemInvariant.ReachableInv(s);
  }
}
