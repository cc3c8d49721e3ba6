/** Fixed-layout records: fields of given widths, one after the other, in a byte order. */
module Records {
  import opened Base
  import opened Endian

  function Size(widths: seq<nat>): nat {
    if widths == [] then 0 else widths[0] + Size(widths[1..])
  }

  predicate InRange(widths: seq<nat>, vals: seq<nat>) {
    |vals| == |widths| && forall i :: 0 <= i < |vals| ==> vals[i] < Pow256(widths[i])
  }

  /** The memory of a record on host `h`; with `Big` this is the wire format. */
  function Put(h: Host, widths: seq<nat>, vals: seq<nat>): (r: seq<byte>)
    requires |vals| == |widths|
    ensures |r| == Size(widths)
  {
    if widths == [] then []
    else NativeBytes(h, vals[0], widths[0]) + Put(h, widths[1..], vals[1..])
  }

  /** The fields of a record at the start of `raw`. */
  function Get(h: Host, widths: seq<nat>, raw: seq<byte>): (r: seq<nat>)
    requires |raw| >= Size(widths)
    ensures |r| == |widths|
  {
    if widths == [] then []
    else [NativeNumber(h, raw[..widths[0]])] + Get(h, widths[1..], raw[widths[0]..])
  }

  lemma {:induction false} GetPut(h: Host, widths: seq<nat>, vals: seq<nat>, rest: seq<byte>)
    requires InRange(widths, vals)
    ensures Get(h, widths, Put(h, widths, vals) + rest) == vals
  {
    if widths != [] {
      var w := widths[0];
      var head := NativeBytes(h, vals[0], w);
      var tail := Put(h, widths[1..], vals[1..]);
      var raw := head + tail + rest;
      NativeRoundTrip(h, vals[0], w);
      assert raw[..w] == head;
      assert raw[w..] == tail + rest;
      GetPut(h, widths[1..], vals[1..], rest);
    }
  }

  lemma {:induction false} PutGet(h: Host, widths: seq<nat>, raw: seq<byte>)
    requires |raw| >= Size(widths)
    ensures InRange(widths, Get(h, widths, raw))
    ensures Put(h, widths, Get(h, widths, raw)) == raw[..Size(widths)]
  {
    if widths != [] {
      var w := widths[0];
      NativeBytesBack(h, raw[..w]);
      PutGet(h, widths[1..], raw[w..]);
      assert raw[..w] + raw[w..][..Size(widths[1..])] == raw[..Size(widths)];
    }
  }
}
