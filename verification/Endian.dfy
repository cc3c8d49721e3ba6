/**
 Numbers as bytes.  A host stores a word with its own byte order; the `beN` types of the
 protocol store the byte-swapped word, so that their memory is big-endian on every host.
 */
module Endian {
  import opened Base

  datatype Host = Little | Big

  function Pow256(k: nat): (r: nat)
    ensures r > 0
  {
    if k == 0 then 1 else 256 * Pow256(k - 1)
  }

  /** The `k` low bytes of a number, most significant first. */
  function BigEndian(n: nat, k: nat): (r: seq<byte>)
    ensures |r| == k
  {
    if k == 0 then [] else BigEndian(n / 256, k - 1) + [n % 256]
  }

  /** The number that big-endian bytes denote. */
  function Number(s: seq<byte>): nat {
    if s == [] then 0 else Number(s[..|s| - 1]) * 256 + s[|s| - 1]
  }

  function Reverse<T>(s: seq<T>): (r: seq<T>)
    ensures |r| == |s|
    ensures forall i :: 0 <= i < |s| ==> r[i] == s[|s| - 1 - i]
  {
    if s == [] then [] else [s[|s| - 1]] + Reverse(s[..|s| - 1])
  }

  lemma ReverseTwice<T>(s: seq<T>)
    ensures Reverse(Reverse(s)) == s
  {
  }

  lemma {:induction false} NumberBound(s: seq<byte>)
    ensures Number(s) < Pow256(|s|)
  {
    if s != [] {
      NumberBound(s[..|s| - 1]);
    }
  }

  lemma {:induction false} NumberOfBytes(n: nat, k: nat)
    requires n < Pow256(k)
    ensures Number(BigEndian(n, k)) == n
  {
    if k > 0 {
      NumberOfBytes(n / 256, k - 1);
      var b := BigEndian(n, k);
      assert b[..k - 1] == BigEndian(n / 256, k - 1);
    }
  }

  lemma {:induction false} BytesOfNumber(s: seq<byte>)
    ensures BigEndian(Number(s), |s|) == s
  {
    if s != [] {
      var front := s[..|s| - 1];
      BytesOfNumber(front);
      var n := Number(front);
      assert (n * 256 + s[|s| - 1]) / 256 == n && (n * 256 + s[|s| - 1]) % 256 == s[|s| - 1];
      assert s == front + [s[|s| - 1]];
    }
  }

  lemma Widths()
    ensures Pow256(1) == 0x100 && Pow256(2) == 0x1_0000 && Pow256(4) == 0x1_0000_0000
    ensures Pow256(8) == 0x1_0000_0000_0000_0000
  {
    assert Pow256(3) == 0x100_0000;
    assert Pow256(5) == 0x100_0000_0000;
    assert Pow256(6) == 0x1_0000_0000_0000;
    assert Pow256(7) == 0x100_0000_0000_0000;
  }

  // ---- hosts ----

  function NativeBytes(h: Host, n: nat, k: nat): (r: seq<byte>)
    ensures |r| == k
  {
    if h.Big? then BigEndian(n, k) else Reverse(BigEndian(n, k))
  }

  function NativeNumber(h: Host, s: seq<byte>): nat {
    if h.Big? then Number(s) else Number(Reverse(s))
  }

  lemma NativeRoundTrip(h: Host, n: nat, k: nat)
    requires n < Pow256(k)
    ensures NativeNumber(h, NativeBytes(h, n, k)) == n
  {
    NumberOfBytes(n, k);
    ReverseTwice(BigEndian(n, k));
  }

  lemma NativeBytesBack(h: Host, s: seq<byte>)
    ensures NativeBytes(h, NativeNumber(h, s), |s|) == s
    ensures NativeNumber(h, s) < Pow256(|s|)
  {
    BytesOfNumber(s);
    BytesOfNumber(Reverse(s));
    ReverseTwice(s);
    NumberBound(s);
    NumberBound(Reverse(s));
  }

  /** The word conversion `to_be` of a host; it is also its own inverse. */
  function ToBe(h: Host, n: nat, k: nat): nat {
    if h.Big? then n else Number(Reverse(BigEndian(n, k)))
  }

  /** `from_native` followed by `as_native` gives the value back, on either host. */
  lemma BeValueKept(h: Host, n: nat, k: nat)
    requires n < Pow256(k)
    ensures ToBe(h, n, k) < Pow256(k)
    ensures ToBe(h, ToBe(h, n, k), k) == n
  {
    var swapped := Reverse(BigEndian(n, k));
    NumberBound(swapped);
    BytesOfNumber(swapped);
    ReverseTwice(BigEndian(n, k));
    NumberOfBytes(n, k);
  }

  /** The memory of a `beN` value is big-endian whatever the host: sender and receiver agree. */
  lemma BeMemory(h: Host, n: nat, k: nat)
    requires n < Pow256(k)
    ensures NativeBytes(h, ToBe(h, n, k), k) == BigEndian(n, k)
  {
    var swapped := Reverse(BigEndian(n, k));
    BytesOfNumber(swapped);
    ReverseTwice(BigEndian(n, k));
  }
}
