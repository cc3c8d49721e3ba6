/** Fields of records by the place of their bytes. */
module Positions {
  import opened Base
  import opened Endian
  import opened Records

  /** Where a field begins. */
  function Offset(widths: seq<nat>, k: nat): nat
    requires k <= |widths|
  {
    if k == 0 then 0 else Offset(widths, k - 1) + widths[k - 1]
  }

  /** The number in the `w` bytes from `at` on. */
  function At(h: Host, raw: seq<byte>, at: nat, w: nat): nat
    requires at + w <= |raw|
  {
    NativeNumber(h, raw[at..at + w])
  }

  lemma {:induction false} OffsetCons(widths: seq<nat>, k: nat)
    requires 0 < k <= |widths|
    ensures Offset(widths, k) == widths[0] + Offset(widths[1..], k - 1)
  {
    if k > 1 { OffsetCons(widths, k - 1); }
  }

  lemma {:induction false} OffsetWithin(widths: seq<nat>, k: nat)
    requires k < |widths|
    ensures Offset(widths, k) + widths[k] <= Size(widths)
  {
    if k > 0 {
      OffsetCons(widths, k);
      OffsetWithin(widths[1..], k - 1);
    }
  }

  lemma AtBehind(h: Host, front: seq<byte>, raw: seq<byte>, at: nat, w: nat)
    requires at + w <= |raw|
    ensures At(h, front + raw, |front| + at, w) == At(h, raw, at, w)
  {
    assert (front + raw)[|front| + at..|front| + at + w] == raw[at..at + w];
  }

  lemma AtDropped(h: Host, raw: seq<byte>, n: nat, at: nat, w: nat)
    requires n + at + w <= |raw|
    ensures At(h, raw[n..], at, w) == At(h, raw, n + at, w)
  {
    assert raw[n..][at..at + w] == raw[n + at..n + at + w];
  }

  lemma GetTail(h: Host, widths: seq<nat>, raw: seq<byte>, k: nat)
    requires |raw| >= Size(widths) && 0 < k < |widths|
    ensures Get(h, widths, raw)[k] == Get(h, widths[1..], raw[widths[0]..])[k - 1]
  {
  }

  /** Each field is the number in the bytes at its own place. */
  lemma {:induction false} GetAt(h: Host, widths: seq<nat>, raw: seq<byte>, k: nat)
    requires |raw| >= Size(widths) && k < |widths|
    ensures Offset(widths, k) + widths[k] <= |raw|
    ensures Get(h, widths, raw)[k] == At(h, raw, Offset(widths, k), widths[k])
  {
    OffsetWithin(widths, k);
    if k > 0 {
      GetTail(h, widths, raw, k);
      OffsetCons(widths, k);
      GetAt(h, widths[1..], raw[widths[0]..], k - 1);
      AtDropped(h, raw, widths[0], Offset(widths[1..], k - 1), widths[k]);
    }
  }

  /** In a record that was written, each field is found at its own place. */
  lemma PutAt(h: Host, widths: seq<nat>, vals: seq<nat>, rest: seq<byte>, k: nat)
    requires InRange(widths, vals) && k < |widths|
    ensures var out := Put(h, widths, vals) + rest;
            Offset(widths, k) + widths[k] <= |out| && At(h, out, Offset(widths, k), widths[k]) == vals[k]
  {
    GetPut(h, widths, vals, rest);
    GetAt(h, widths, Put(h, widths, vals) + rest, k);
  }

  /** Fields of these widths, one behind the other, begin at these places. */
  predicate Tiled(widths: seq<nat>, starts: seq<nat>) {
    && |starts| == |widths|
    && (|widths| > 0 ==> starts[0] == 0)
    && forall k :: 0 < k < |widths| ==> starts[k] == starts[k - 1] + widths[k - 1]
  }

  lemma {:induction false} TiledOffset(widths: seq<nat>, starts: seq<nat>, k: nat)
    requires Tiled(widths, starts) && k < |widths|
    ensures Offset(widths, k) == starts[k]
  {
    if k > 0 { TiledOffset(widths, starts, k - 1); }
  }

  /** Every field of a record that is read. */
  lemma FieldsAt(h: Host, widths: seq<nat>, starts: seq<nat>, raw: seq<byte>)
    requires Tiled(widths, starts) && |raw| >= Size(widths)
    ensures forall k :: 0 <= k < |widths| ==>
              starts[k] + widths[k] <= |raw| && Get(h, widths, raw)[k] == At(h, raw, starts[k], widths[k])
  {
    forall k | 0 <= k < |widths|
      ensures starts[k] + widths[k] <= |raw| && Get(h, widths, raw)[k] == At(h, raw, starts[k], widths[k])
    {
      TiledOffset(widths, starts, k);
      GetAt(h, widths, raw, k);
    }
  }

  /** Every field of a record that was written. */
  lemma Placed(h: Host, widths: seq<nat>, starts: seq<nat>, vals: seq<nat>, rest: seq<byte>)
    requires InRange(widths, vals) && Tiled(widths, starts)
    ensures var out := Put(h, widths, vals) + rest;
            forall k :: 0 <= k < |widths| ==>
              starts[k] + widths[k] <= |out| && At(h, out, starts[k], widths[k]) == vals[k]
  {
    GetPut(h, widths, vals, rest);
    FieldsAt(h, widths, starts, Put(h, widths, vals) + rest);
  }

  /** A zero takes zero bytes. */
  lemma {:induction false} ZeroBytes(h: Host, s: seq<byte>)
    requires NativeNumber(h, s) == 0
    ensures forall i :: 0 <= i < |s| ==> s[i] == 0
  {
    NativeBytesBack(h, s);
    ZeroBigEndian(|s|);
  }

  lemma {:induction false} ZeroBigEndian(k: nat)
    ensures forall i :: 0 <= i < k ==> BigEndian(0, k)[i] == 0
  {
    if k > 0 { ZeroBigEndian(k - 1); }
  }
}
