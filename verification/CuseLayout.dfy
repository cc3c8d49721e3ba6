/** The kernel's message format byte by byte, in the byte order of the host. */
module CuseLayout {
  import opened Base
  import opened Endian
  import opened Records
  import opened Positions
  import Bits
  import C = Client
  import I = IoctlProperties
  import M = CuseMessages
  import O = CuseReplies

  // ---- to the kernel ----

  /** Length of the whole message, error, request answered. */
  predicate Headed(h: Host, out: seq<byte>, error: nat, unique: nat) {
    |out| >= 16 && At(h, out, 0, 4) == |out| && At(h, out, 4, 4) == error && At(h, out, 8, 8) == unique
  }

  lemma OutSizes()
    ensures Size(O.W_OUT) == 16 && Size(O.W_PAIR) == 8 && Size(O.W_IOCTL_OUT) == 16 && Size(O.W_IOVEC) == 16
    ensures Size(O.W_NOTIFY) == 8
  {
    assert O.W_OUT[1..] == [4, 8] && [4, 8][1..] == [8] && Size([8]) == 8 && Size([4, 8]) == 12;
    assert O.W_PAIR[1..] == [4] && Size([4]) == 4 && O.W_IOVEC[1..] == [8];
    assert O.W_IOCTL_OUT[1..] == [4, 4, 4] && [4, 4, 4][1..] == [4, 4] && [4, 4][1..] == [4];
    assert Size([4, 4]) == 8 && Size([4, 4, 4]) == 12;
  }

  lemma HeadAt(h: Host, len: nat, error: nat, unique: nat, body: seq<byte>)
    requires len == 16 + |body| < 0x1_0000_0000 && error < 0x1_0000_0000 && unique < 0x1_0000_0000_0000_0000
    ensures var out := O.OutHeader(h, len, error, unique) + body;
            Headed(h, out, error, unique) && |out| == len && out[16..] == body
  {
    OutSizes();
    O.OutInRange(len, error, unique);
    var at := [0, 4, 8];
    Placed(h, O.W_OUT, at, [len, error, unique], body);
    assert at[0] == 0 && at[1] == 4 && at[2] == 8;
  }

  lemma FlattenOne(p: seq<byte>)
    ensures Flatten([p]) == p
  {
    O.FlattenSnoc([], p);
    assert [] + [p] == [p] && Flatten([]) + p == p;
  }

  lemma FlattenTwo(p: seq<byte>, q: seq<byte>)
    ensures Flatten([p, q]) == p + q
  {
    O.FlattenSnoc([p], q);
    FlattenOne(p);
    assert [p] + [q] == [p, q];
  }

  lemma ResponseHeaded(h: Host, unique: nat, parts: seq<seq<byte>>)
    requires 16 + |Flatten(parts)| < 0x1_0000_0000 && unique < 0x1_0000_0000_0000_0000
    ensures var out := O.ResponseBytes(h, unique, parts);
            Headed(h, out, 0, unique) && |out| == 16 + |Flatten(parts)| && out[16..] == Flatten(parts)
  {
    OutSizes();
    var len := 16 + |Flatten(parts)|;
    assert len % 0x1_0000_0000 == len;
    HeadAt(h, len, 0, unique, Flatten(parts));
  }

  lemma PairAt(h: Host, n: u32)
    ensures var body := Put(h, O.W_PAIR, [n, 0]);
            |body| == 8 && At(h, body, 0, 4) == n && At(h, body, 4, 4) == 0
  {
    OutSizes();
    Widths();
    var body, at := Put(h, O.W_PAIR, [n, 0]), [0, 4];
    assert body + [] == body;
    Placed(h, O.W_PAIR, at, [n, 0], []);
    assert at[0] == 0 && at[1] == 4;
  }

  /** The four words of an ioctl reply: result, flags, number of vectors in each direction. */
  predicate Quad(h: Host, s: seq<byte>, at: nat, a: nat, b: nat, c: nat, d: nat) {
    && at + 16 <= |s| && At(h, s, at, 4) == a && At(h, s, at + 4, 4) == b
    && At(h, s, at + 8, 4) == c && At(h, s, at + 12, 4) == d
  }

  lemma QuadAt(h: Host, a: u32, b: u32, c: u32, d: u32, rest: seq<byte>)
    ensures var body := O.IoctlOut(h, a, b, c, d) + rest;
            |body| == 16 + |rest| && Quad(h, body, 0, a, b, c, d) && body[16..] == rest
  {
    OutSizes();
    Widths();
    var at := [0, 4, 8, 12];
    Placed(h, O.W_IOCTL_OUT, at, [a, b, c, d], rest);
    assert at[0] == 0 && at[1] == 4 && at[2] == 8 && at[3] == 12;
  }

  lemma QuadBehind(h: Host, out: seq<byte>, n: nat, a: nat, b: nat, c: nat, d: nat)
    requires n <= |out| && Quad(h, out[n..], 0, a, b, c, d)
    ensures Quad(h, out, n, a, b, c, d)
  {
    AtDropped(h, out, n, 0, 4);
    AtDropped(h, out, n, 4, 4);
    AtDropped(h, out, n, 8, 4);
    AtDropped(h, out, n, 12, 4);
  }

  /** What a kernel reply must fit into. */
  predicate Fits(what: C.KernelReply) {
    match what
    case KError(e) => e < 0x8000_0000
    case KWritten(n) => n < 0x1_0000_0000
    case KData(bytes) => |bytes| < 0xffff_0000
    case KIoctlOut(data) => data.Some? ==> |data.value| < 0xffff_0000
    case KPolled(n) => n < 0x1_0000_0000
  }

  /** The bytes of a reply. */
  predicate ReplyLaid(h: Host, r: C.Reply, out: seq<byte>) {
    match r.what
    case KError(e) => |out| == 16 && Headed(h, out, (0x1_0000_0000 - e) % 0x1_0000_0000, r.unique)
    case KWritten(n) => |out| == 24 && Headed(h, out, 0, r.unique) && At(h, out, 16, 4) == n && At(h, out, 20, 4) == 0
    case KData(bytes) => Headed(h, out, 0, r.unique) && out[16..] == bytes
    case KIoctlOut(data) =>
      && |out| >= 32 && Headed(h, out, 0, r.unique) && Quad(h, out, 16, 0, 2, 0, 1)
      && out[32..] == if data.Some? then data.value else []
    case KPolled(n) => |out| == 24 && Headed(h, out, 0, r.unique) && At(h, out, 16, 4) == n && At(h, out, 20, 4) == 0
  }

  lemma PairDropped(h: Host, out: seq<byte>, body: seq<byte>)
    requires |out| == 24 && out[16..] == body
    ensures At(h, out, 16, 4) == At(h, body, 0, 4) && At(h, out, 20, 4) == At(h, body, 4, 4)
  {
    AtDropped(h, out, 16, 0, 4);
    AtDropped(h, out, 16, 4, 4);
  }

  lemma PairBehind(h: Host, unique: u64, body: seq<byte>)
    requires |body| == 8
    ensures var out := O.ResponseBytes(h, unique, [body]);
            && |out| == 24 && Headed(h, out, 0, unique)
            && At(h, out, 16, 4) == At(h, body, 0, 4) && At(h, out, 20, 4) == At(h, body, 4, 4)
  {
    FlattenOne(body);
    ResponseHeaded(h, unique, [body]);
    PairDropped(h, O.ResponseBytes(h, unique, [body]), body);
  }

  lemma PairLaid(h: Host, unique: u64, n: u32)
    ensures var out := O.ResponseBytes(h, unique, [Put(h, O.W_PAIR, [n, 0])]);
            |out| == 24 && Headed(h, out, 0, unique) && At(h, out, 16, 4) == n && At(h, out, 20, 4) == 0
  {
    PairAt(h, n);
    PairBehind(h, unique, Put(h, O.W_PAIR, [n, 0]));
  }

  lemma ErrorLaid(h: Host, unique: u64, e: nat)
    requires e < 0x8000_0000
    ensures ReplyLaid(h, C.Reply(unique, C.KError(e)), O.ErrorBytes(h, unique, e))
  {
    OutSizes();
    var out := O.ErrorBytes(h, unique, e);
    assert O.Negated(e) == (0x1_0000_0000 - e) % 0x1_0000_0000;
    HeadAt(h, 16, O.Negated(e), unique, []);
    assert out + [] == out;
  }

  lemma QuadLaid(h: Host, unique: u64, parts: seq<seq<byte>>, a: u32, b: u32, c: u32, d: u32, rest: seq<byte>)
    requires Flatten(parts) == O.IoctlOut(h, a, b, c, d) + rest && |rest| < 0xffff_0000
    ensures var out := O.ResponseBytes(h, unique, parts);
            |out| == 32 + |rest| && Headed(h, out, 0, unique) && Quad(h, out, 16, a, b, c, d) && out[32..] == rest
  {
    QuadAt(h, a, b, c, d, rest);
    QuadWithin(h, unique, parts, Flatten(parts), a, b, c, d, rest);
  }

  lemma QuadWithin(h: Host, unique: u64, parts: seq<seq<byte>>, body: seq<byte>, a: nat, b: nat, c: nat, d: nat,
                   rest: seq<byte>)
    requires Flatten(parts) == body && |body| == 16 + |rest| && |rest| < 0xffff_0000
    requires Quad(h, body, 0, a, b, c, d) && body[16..] == rest
    ensures var out := O.ResponseBytes(h, unique, parts);
            |out| == 32 + |rest| && Headed(h, out, 0, unique) && Quad(h, out, 16, a, b, c, d) && out[32..] == rest
  {
    ResponseHeaded(h, unique, parts);
    var out := O.ResponseBytes(h, unique, parts);
    QuadBehind(h, out, 16, a, b, c, d);
    assert out[32..] == out[16..][16..];
  }

  lemma IoctlLaid(h: Host, unique: u64, data: Option<seq<byte>>)
    requires Fits(C.KIoctlOut(data))
    ensures var r := C.Reply(unique, C.KIoctlOut(data)); ReplyLaid(h, r, O.ReplyBytes(h, r))
  {
    var quad := O.IoctlOut(h, 0, 2, 0, 1);
    var parts := O.Parts(h, C.KIoctlOut(data));
    if data.Some? {
      assert parts == [quad, data.value];
      FlattenTwo(quad, data.value);
      QuadLaid(h, unique, parts, 0, 2, 0, 1, data.value);
    } else {
      assert parts == [quad];
      FlattenOne(quad);
      assert quad + [] == quad;
      QuadLaid(h, unique, parts, 0, 2, 0, 1, []);
    }
  }

  /** Every field of every reply stands at its place, and the header counts the bytes. */
  lemma ReplyAt(h: Host, r: C.Reply)
    requires Fits(r.what) && r.unique < 0x1_0000_0000_0000_0000
    ensures ReplyLaid(h, r, O.ReplyBytes(h, r))
  {
    match r.what
    case KError(e) => ErrorLaid(h, r.unique, e);
    case KWritten(n) => PairLaid(h, r.unique, n);
    case KData(bytes) => FlattenOne(bytes); ResponseHeaded(h, r.unique, [bytes]);
    case KIoctlOut(data) => IoctlLaid(h, r.unique, data);
    case KPolled(n) => PairLaid(h, r.unique, n);
  }

  lemma HandleAt(h: Host, kh: u64)
    ensures var body := Put(h, O.W_NOTIFY, [kh]); |body| == 8 && At(h, body, 0, 8) == kh
  {
    OutSizes();
    Widths();
    var body, at := Put(h, O.W_NOTIFY, [kh]), [0];
    assert body + [] == body;
    Placed(h, O.W_NOTIFY, at, [kh], []);
    assert at[0] == 0;
  }

  lemma WordDropped(h: Host, out: seq<byte>, body: seq<byte>)
    requires |out| >= 24 && out[16..] == body
    ensures At(h, out, 16, 8) == At(h, body, 0, 8)
  {
    AtDropped(h, out, 16, 0, 8);
  }

  lemma BehindHead(h: Host, len: nat, error: nat, unique: nat, body: seq<byte>)
    requires len == 16 + |body| < 0x1_0000_0000 && |body| >= 8
    requires error < 0x1_0000_0000 && unique < 0x1_0000_0000_0000_0000
    ensures var out := O.OutHeader(h, len, error, unique) + body;
            |out| == len && Headed(h, out, error, unique) && At(h, out, 16, 8) == At(h, body, 0, 8)
  {
    HeadAt(h, len, error, unique, body);
    WordDropped(h, O.OutHeader(h, len, error, unique) + body, body);
  }

  /** A notification names the handle and no request. */
  lemma NotifyAt(h: Host, kh: u64)
    ensures var out := O.NotifyBytes(h, kh); |out| == 24 && Headed(h, out, 1, 0) && At(h, out, 16, 8) == kh
  {
    OutSizes();
    HandleAt(h, kh);
    BehindHead(h, 24, 1, 0, Put(h, O.W_NOTIFY, [kh]));
  }

  // ---- asking for buffers ----

  function WithRetry(flags: nat): nat { if flags / 4 % 2 == 1 then flags else flags + 4 }

  lemma OrFour(flags: u32)
    ensures Bits.BitOr(flags, 4) == WithRetry(flags) < 0x1_0000_0000
  {
    OrLow(flags / 4);
    OrDoubled(flags / 2, 2);
    OrDoubled(flags, 4);
    assert flags / 2 / 2 == flags / 4;
  }

  lemma OrLow(a: nat)
    ensures Bits.BitOr(a, 1) == if a % 2 == 1 then a else a + 1
  {
    Bits.OrHalves(a, 1);
    Bits.OrZero(a / 2);
  }

  lemma OrDoubled(a: nat, b: nat)
    requires b % 2 == 0
    ensures Bits.BitOr(a, b) == 2 * Bits.BitOr(a / 2, b / 2) + a % 2
  {
    Bits.OrHalves(a, b);
  }

  /** A buffer vector in memory. */
  predicate VectorAt(h: Host, out: seq<byte>, at: nat, base: nat, len: nat) {
    at + 16 <= |out| && At(h, out, at, 8) == base && At(h, out, at + 8, 8) == len
  }

  lemma VectorPlaced(h: Host, front: seq<byte>, base: u64, len: u64, rest: seq<byte>)
    ensures VectorAt(h, front + (O.Vector(h, base, len) + rest), |front|, base, len)
  {
    OutSizes();
    Widths();
    var at, body := [0, 8], O.Vector(h, base, len) + rest;
    Placed(h, O.W_IOVEC, at, [base, len], rest);
    assert at[0] == 0 && at[1] == 8;
    AtBehind(h, front, body, 0, 8);
    AtBehind(h, front, body, 8, 8);
  }

  /** A vector at the end of a message, or followed by one more. */
  lemma VectorsBehind(h: Host, out: seq<byte>, base: u64, len: u64, rest: seq<byte>)
    requires |out| >= 32 && out[32..] == O.Vector(h, base, len) + rest
    ensures VectorAt(h, out, 32, base, len)
    ensures rest == O.Vector(h, base, len) ==> VectorAt(h, out, 48, base, len)
  {
    OutSizes();
    var vec := O.Vector(h, base, len);
    assert out == out[..32] + (vec + rest);
    VectorPlaced(h, out[..32], base, len, rest);
    if rest == vec {
      assert out == out[..48] + (vec + []);
      VectorPlaced(h, out[..48], base, len, []);
    }
  }

  /** A message that asks for one buffer, or for the same one in both directions. */
  predicate Asked(h: Host, out: seq<byte>, unique: nat, word: nat, c: nat, d: nat, base: nat, len: nat) {
    && |out| == 32 + 16 * c + 16 * d && Headed(h, out, 0, unique) && Quad(h, out, 16, 0, word, c, d)
    && VectorAt(h, out, 32, base, len) && (c + d == 2 ==> VectorAt(h, out, 48, base, len))
  }

  lemma OneVector(h: Host, unique: u64, word: u32, c: u32, d: u32, base: u64, len: u64, parts: seq<seq<byte>>)
    requires c + d == 1 && parts == [O.IoctlOut(h, 0, word, c, d), O.Vector(h, base, len)]
    ensures Asked(h, O.ResponseBytes(h, unique, parts), unique, word, c, d, base, len)
  {
    OutSizes();
    var quad, vec := O.IoctlOut(h, 0, word, c, d), O.Vector(h, base, len);
    FlattenTwo(quad, vec);
    QuadLaid(h, unique, parts, 0, word, c, d, vec);
    assert vec + [] == vec;
    VectorsBehind(h, O.ResponseBytes(h, unique, parts), base, len, []);
  }

  lemma TwoVectors(h: Host, unique: u64, word: u32, base: u64, len: u64, parts: seq<seq<byte>>)
    requires parts == [O.IoctlOut(h, 0, word, 1, 1), O.Vector(h, base, len), O.Vector(h, base, len)]
    ensures Asked(h, O.ResponseBytes(h, unique, parts), unique, word, 1, 1, base, len)
  {
    OutSizes();
    var quad, vec := O.IoctlOut(h, 0, word, 1, 1), O.Vector(h, base, len);
    FlattenThree(quad, vec);
    QuadLaid(h, unique, parts, 0, word, 1, 1, vec + vec);
    VectorsBehind(h, O.ResponseBytes(h, unique, parts), base, len, vec);
  }

  lemma FlattenThree(p: seq<byte>, q: seq<byte>)
    ensures Flatten([p, q, q]) == p + (q + q)
  {
    FlattenTwo(p, q);
    O.FlattenSnoc([p, q], q);
    assert [p, q] + [q] == [p, q, q] && p + q + q == p + (q + q);
  }

  function One(v: Option<I.Iovec>): nat { if v.Some? then 1 else 0 }

  /** The retry that a command is answered with: RETRY is added to the flags, and each buffer is named. */
  predicate RetryLaid(h: Host, unique: nat, flags: u32, c: I.Completion, out: seq<byte>)
    requires c.Retry?
  {
    && |out| == 32 + 16 * One(c.input) + 16 * One(c.output) && Headed(h, out, 0, unique)
    && Quad(h, out, 16, 0, WithRetry(flags), One(c.input), One(c.output))
    && (c.input.Some? ==> VectorAt(h, out, 32, c.input.value.base, c.input.value.len))
    && (c.output.Some? ==> VectorAt(h, out, 32 + 16 * One(c.input), c.output.value.base, c.output.value.len))
  }

  /** The parts of a retry, from the word of flags on. */
  function PartsWith(h: Host, word: nat, c: I.Completion): seq<seq<byte>>
    requires c.Retry?
  {
    [O.IoctlOut(h, 0, word, One(c.input), One(c.output))] + O.VectorParts(h, c.input) + O.VectorParts(h, c.output)
  }

  lemma PartsWithWord(h: Host, flags: u32, c: I.Completion, word: nat)
    requires c.Retry? && word == Bits.BitOr(flags, 4)
    ensures O.RetryParts(h, flags, c) == PartsWith(h, word, c)
  {
  }

  lemma Listed<T>(p: T, q: T)
    ensures [p] + [q] + [] == [p, q] && [p] + [] + [q] == [p, q] && [p] + [q] + [q] == [p, q, q]
  {
  }

  lemma RetryAsked(h: Host, unique: u64, word: u32, c: I.Completion, base: u64, len: u64)
    requires c.Retry? && (c.input.Some? || c.output.Some?)
    requires c.input.Some? ==> c.input.value == I.Iovec(base, len)
    requires c.output.Some? ==> c.output.value == I.Iovec(base, len)
    ensures Asked(h, O.ResponseBytes(h, unique, PartsWith(h, word, c)), unique, word, One(c.input), One(c.output), base, len)
  {
    var parts := PartsWith(h, word, c);
    Listed(O.IoctlOut(h, 0, word, One(c.input), One(c.output)), O.Vector(h, base, len));
    if c.input.Some? && c.output.Some? {
      TwoVectors(h, unique, word, base, len, parts);
    } else {
      OneVector(h, unique, word, One(c.input), One(c.output), base, len, parts);
    }
  }

  lemma RetryPlaced(h: Host, unique: u64, flags: u32, c: I.Completion, base: u64, len: u64)
    requires c.Retry? && (c.input.Some? || c.output.Some?)
    requires c.input.Some? ==> c.input.value == I.Iovec(base, len)
    requires c.output.Some? ==> c.output.value == I.Iovec(base, len)
    ensures RetryLaid(h, unique, flags, c, O.ResponseBytes(h, unique, O.RetryParts(h, flags, c)))
  {
    var word := WithRetry(flags);
    OrFour(flags);
    PartsWithWord(h, flags, c, word);
    RetryAsked(h, unique, word, c, base, len);
    AskedIsLaid(h, unique, flags, c, base, len, O.ResponseBytes(h, unique, O.RetryParts(h, flags, c)));
  }

  lemma AskedIsLaid(h: Host, unique: u64, flags: u32, c: I.Completion, base: u64, len: u64, out: seq<byte>)
    requires c.Retry? && (c.input.Some? || c.output.Some?)
    requires c.input.Some? ==> c.input.value == I.Iovec(base, len)
    requires c.output.Some? ==> c.output.value == I.Iovec(base, len)
    requires Asked(h, out, unique, WithRetry(flags), One(c.input), One(c.output), base, len)
    ensures RetryLaid(h, unique, flags, c, out)
  {
  }

  /** Every field of the message that asks the kernel to call again. */
  lemma RetryAt(h: Host, unique: u64, flags: u32, cmd: u32, arg: u64)
    requires I.Buffers(cmd, arg).Retry?
    ensures RetryLaid(h, unique, flags, I.Buffers(cmd, arg),
                      O.ResponseBytes(h, unique, O.RetryParts(h, flags, I.Complete(true, cmd, arg, 0, 0))))
  {
    I.BuffersExact(cmd, arg);
    var c, len := BufferOf(cmd, arg);
    RetryPlaced(h, unique, flags, c, arg, len);
  }

  lemma BufferOf(cmd: u32, arg: u64) returns (c: I.Completion, len: u64)
    requires I.Buffers(cmd, arg).Retry?
    ensures c == I.Buffers(cmd, arg) && (c.input.Some? || c.output.Some?)
    ensures c.input.Some? ==> c.input.value == I.Iovec(arg, len)
    ensures c.output.Some? ==> c.output.value == I.Iovec(arg, len)
  {
    c := I.Buffers(cmd, arg);
    len := if c.input.Some? then c.input.value.len else c.output.value.len;
  }

  // ---- from the kernel ----

  /** The header of a message. */
  predicate HeaderLaid(h: Host, msg: seq<byte>, info: M.Info) {
    && |msg| >= 40 && At(h, msg, 4, 4) == info.opcode && At(h, msg, 8, 8) == info.unique
    && At(h, msg, 16, 8) == info.nodeid && At(h, msg, 24, 4) == info.uid && At(h, msg, 28, 4) == info.gid
    && At(h, msg, 32, 4) == info.pid
  }

  /** An operation as read from the bytes behind the header. */
  predicate OpLaid(h: Host, opcode: nat, body: seq<byte>, op: M.Op) {
    match op
    case Unknown => opcode !in {14, 15, 16, 18, 36, 39, 40, 4096}
    case Init(major, minor, flags) =>
      && opcode == 4096 && |body| >= 16 && At(h, body, 0, 4) == major && At(h, body, 4, 4) == minor
      && At(h, body, 12, 4) == flags
    case Open(flags, openFlags) =>
      opcode == 14 && |body| >= 8 && At(h, body, 0, 4) == flags && At(h, body, 4, 4) == openFlags
    case Release(fh, flags, releaseFlags, owner) =>
      && opcode == 18 && |body| >= 24 && At(h, body, 0, 8) == fh && At(h, body, 8, 4) == flags
      && At(h, body, 12, 4) == releaseFlags && At(h, body, 16, 8) == owner
    case Write(fh, offset, writeFlags, owner, flags, data) =>
      && opcode == 16 && TransferLaid(h, body, fh, offset, |data|, writeFlags, owner, flags)
      && |body| >= 40 + |data| && data == body[40..40 + |data|]
    case Read(fh, offset, size, readFlags, owner, flags) =>
      opcode == 15 && TransferLaid(h, body, fh, offset, size, readFlags, owner, flags)
    case Interrupt(unique) => opcode == 36 && |body| >= 8 && At(h, body, 0, 8) == unique
    case Ioctl(fh, flags, cmd, arg, outSize, data) =>
      && opcode == 39 && |body| >= 32 + |data| && At(h, body, 0, 8) == fh && At(h, body, 8, 4) == flags
      && At(h, body, 12, 4) == cmd && At(h, body, 16, 8) == arg && At(h, body, 24, 4) == |data|
      && At(h, body, 28, 4) == outSize && data == body[32..32 + |data|]
    case Poll(fh, kh, flags, events) =>
      && opcode == 40 && |body| >= 24 && At(h, body, 0, 8) == fh && At(h, body, 8, 8) == kh
      && At(h, body, 16, 4) == flags && At(h, body, 20, 4) == events
  }

  /** The record of a read or a write. */
  predicate TransferLaid(h: Host, body: seq<byte>, fh: nat, offset: nat, size: nat, own: nat, owner: nat, flags: nat) {
    && |body| >= 40 && At(h, body, 0, 8) == fh && At(h, body, 8, 8) == offset && At(h, body, 16, 4) == size
    && At(h, body, 20, 4) == own && At(h, body, 24, 8) == owner && At(h, body, 32, 4) == flags
  }

  /** Where the fields of an operation's record begin. */
  function Starts(opcode: nat): seq<nat> {
    if opcode == 4096 then [0, 4, 8, 12]
    else if opcode == 14 then [0, 4]
    else if opcode == 18 then [0, 8, 12, 16]
    else if opcode == 16 || opcode == 15 then [0, 8, 16, 20, 24, 32, 36]
    else if opcode == 36 then [0]
    else if opcode == 39 then [0, 8, 12, 16, 24, 28]
    else [0, 8, 16, 20]
  }

  function RecordLen(opcode: nat): nat {
    if opcode == 4096 then 16
    else if opcode == 14 then 8
    else if opcode == 18 || opcode == 40 then 24
    else if opcode == 16 || opcode == 15 then 40
    else if opcode == 36 then 8
    else 32
  }

  lemma {:induction false} SizeByStarts(widths: seq<nat>, starts: seq<nat>)
    requires Tiled(widths, starts) && |widths| > 0
    ensures Size(widths) == starts[|widths| - 1] + widths[|widths| - 1]
  {
    SizeIsOffset(widths, |widths| - 1);
    TiledOffset(widths, starts, |widths| - 1);
  }

  lemma {:induction false} SizeIsOffset(widths: seq<nat>, k: nat)
    requires k + 1 == |widths|
    ensures Size(widths) == Offset(widths, k) + widths[k]
  {
    if k > 0 {
      OffsetCons(widths, k);
      SizeIsOffset(widths[1..], k - 1);
    }
  }

  lemma RecordTiled(opcode: nat)
    requires M.Listed(opcode)
    ensures Tiled(M.Layout(opcode), Starts(opcode)) && Size(M.Layout(opcode)) == RecordLen(opcode)
  {
    SizeByStarts(M.Layout(opcode), Starts(opcode));
  }

  /** The record of an operation, field by field. */
  lemma RecordAt(h: Host, opcode: nat, body: seq<byte>)
    requires M.Listed(opcode) && |body| >= RecordLen(opcode)
    ensures var w, at := M.Layout(opcode), Starts(opcode);
            && |at| == |w| && Size(w) == RecordLen(opcode)
            && forall k :: 0 <= k < |w| ==> at[k] + w[k] <= |body| && Get(h, w, body)[k] == At(h, body, at[k], w[k])
  {
    RecordTiled(opcode);
    FieldsAt(h, M.Layout(opcode), Starts(opcode), body);
  }

  /** What was parsed, from the fields of the record and the bytes behind it. */
  lemma ParsedFrom(h: Host, opcode: nat, body: seq<byte>) returns (vals: seq<nat>, data: seq<byte>)
    requires M.Listed(opcode) && M.ParseBody(h, opcode, body).Success?
    ensures |body| >= RecordLen(opcode) + |data| && data == body[RecordLen(opcode)..RecordLen(opcode) + |data|]
    ensures |vals| == |M.Layout(opcode)| == |Starts(opcode)| && |data| == M.PayloadLen(opcode, vals)
    ensures M.ParseBody(h, opcode, body).value == M.OpOf(opcode, vals, data)
    ensures forall k :: 0 <= k < |vals| ==>
              && Starts(opcode)[k] + M.Layout(opcode)[k] <= |body|
              && vals[k] == At(h, body, Starts(opcode)[k], M.Layout(opcode)[k])
  {
    RecordTiled(opcode);
    M.RecordSize(opcode);
    vals, data := RecordParsed(h, opcode, M.Layout(opcode), RecordLen(opcode), body);
    RecordAt(h, opcode, body);
  }

  lemma RecordParsed(h: Host, opcode: nat, w: seq<nat>, n: nat, body: seq<byte>) returns (vals: seq<nat>, data: seq<byte>)
    requires M.Listed(opcode) && |w| == |M.Layout(opcode)| && Size(w) == n > 0
    requires M.ParseRecord(h, opcode, w, body).Success?
    ensures |body| >= n + |data| && data == body[n..n + |data|]
    ensures vals == Get(h, w, body) && |data| == M.PayloadLen(opcode, vals)
    ensures M.ParseRecord(h, opcode, w, body).value == M.OpOf(opcode, vals, data)
  {
    vals := Get(h, w, body);
    data := body[n..n + M.PayloadLen(opcode, vals)];
    assert body[n..][..|data|] == data;
  }

  lemma ReadAt(h: Host, body: seq<byte>)
    requires M.ParseBody(h, 15, body).Success?
    ensures OpLaid(h, 15, body, M.ParseBody(h, 15, body).value)
  {
    var vals, data := ParsedFrom(h, 15, body);
    TransferFields(h, body, vals);
  }

  lemma WriteAt(h: Host, body: seq<byte>)
    requires M.ParseBody(h, 16, body).Success?
    ensures OpLaid(h, 16, body, M.ParseBody(h, 16, body).value)
  {
    var vals, data := ParsedFrom(h, 16, body);
    TransferFields(h, body, vals);
  }

  lemma TransferFields(h: Host, body: seq<byte>, v: seq<nat>)
    requires |v| == 7 && |body| >= 40
    requires forall k :: 0 <= k < 7 ==>
               Starts(15)[k] + M.Layout(15)[k] <= |body| && v[k] == At(h, body, Starts(15)[k], M.Layout(15)[k])
    ensures TransferLaid(h, body, v[0], v[1], v[2], v[3], v[4], v[5])
  {
  }

  lemma IoctlAt(h: Host, body: seq<byte>)
    requires M.ParseBody(h, 39, body).Success?
    ensures OpLaid(h, 39, body, M.ParseBody(h, 39, body).value)
  {
    var vals, data := ParsedFrom(h, 39, body);
  }

  lemma PlainAt(h: Host, opcode: nat, body: seq<byte>)
    requires opcode in {14, 18, 36, 40, 4096}
    requires M.ParseBody(h, opcode, body).Success?
    ensures OpLaid(h, opcode, body, M.ParseBody(h, opcode, body).value)
  {
    var vals, data := ParsedFrom(h, opcode, body);
  }

  lemma OpAt(h: Host, opcode: nat, body: seq<byte>)
    requires M.ParseBody(h, opcode, body).Success?
    ensures OpLaid(h, opcode, body, M.ParseBody(h, opcode, body).value)
  {
    if opcode == 15 {
      ReadAt(h, body);
    } else if opcode == 16 {
      WriteAt(h, body);
    } else if opcode == 39 {
      IoctlAt(h, body);
    } else if M.Listed(opcode) {
      PlainAt(h, opcode, body);
    }
  }

  const HEADER_AT: seq<nat> := [0, 4, 8, 16, 24, 28, 32, 36]

  lemma HeaderAt(h: Host, msg: seq<byte>)
    requires |msg| >= 40
    ensures Size(M.W_HEADER) == 40
    ensures HeaderLaid(h, msg, M.InfoOf(Get(h, M.W_HEADER, msg))) && At(h, msg, 0, 4) == Get(h, M.W_HEADER, msg)[0]
  {
    M.HeaderSize();
    FieldsAt(h, M.W_HEADER, HEADER_AT, msg);
  }

  /** Every field of a message that was read stood at its place, within the length that the header announces. */
  lemma MessageAt(h: Host, msg: seq<byte>)
    requires M.Parse(h, msg).Success?
    ensures var info, op := M.Parse(h, msg).value.0, M.Parse(h, msg).value.1;
            && HeaderLaid(h, msg, info) && 40 <= At(h, msg, 0, 4) <= |msg|
            && OpLaid(h, info.opcode, msg[40..At(h, msg, 0, 4)], op)
  {
    M.HeaderSize();
    HeaderAt(h, msg);
    OpAt(h, At(h, msg, 4, 4), msg[40..At(h, msg, 0, 4)]);
  }
}
