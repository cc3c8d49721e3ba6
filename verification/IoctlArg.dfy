/**
 ioctl arguments: decoded from the application's or the device's bytes, sent over the
 network, and encoded for the other side.
 */
module IoctlArg {
  import opened Base
  import opened Endian
  import opened IoctlNumber
  import Records
  import Termios

  datatype Source = Cuse | Device

  datatype Arg =
    | NoArg
    | Scalar(n: nat)
    | Raw(bytes: seq<byte>)
    | RawScalar(n: nat)
    | Ios(ios: Termios.TermIOs)
    | Int(n: nat)
    | UInt(n: nat)
  {
    ghost predicate Valid() {
      match this
      case NoArg => true
      case Scalar(n) => n < Pow256(8)
      case Raw(_) => true
      case RawScalar(n) => n < Pow256(8)
      case Ios(t) => t.Valid()
      case Int(n) => n < Pow256(4)
      case UInt(n) => n < Pow256(4)
    }

    predicate IsRaw() { Raw? || RawScalar? }

    /** Records have their fixed number of control characters; every constructor gives that. */
    predicate Formed() { Ios? ==> |ios.cc| == Termios.WIRE_CCS }
  }

  /** `Todo` stands for the arms that panic with `todo!`. */
  datatype ArgError = BadIoctlParam | ShortBuffer | Todo

  /** What ioctl(2) is given: a number, a filled buffer, or an uninitialised one. */
  datatype Operand = Plain(n: nat) | Filled(bytes: seq<byte>) | Scratch(size: nat)

  predicate SetsTermios(cmd: u32) {
    cmd == TIOCSLCKTRMIOS || cmd == TCSETSW || cmd == TCSETSF || cmd == TCSETS
  }
  predicate SetsTermios2(cmd: u32) { cmd == TCSETSW2 || cmd == TCSETSF2 || cmd == TCSETS2 }
  predicate GetsTermios(cmd: u32) { cmd == TIOCGLCKTRMIOS || cmd == TCGETS }
  predicate SetsInt(cmd: u32) {
    cmd == TIOCSSOFTCAR || cmd == TIOCMSET || cmd == TIOCMBIC || cmd == TIOCMBIS
  }

  function TryFromOs(h: Host, raw: seq<byte>): Result<Arg, ArgError> {
    if |raw| < TERMIOS_SZ then Failure(BadIoctlParam)
    else Success(Ios(Termios.FromOs(Termios.ReadTermios(h, raw))))
  }

  function TryFromOs2(h: Host, raw: seq<byte>): Result<Arg, ArgError> {
    if |raw| < TERMIOS2_SZ then Failure(BadIoctlParam)
    else Success(Ios(Termios.FromOs2(Termios.ReadTermios2(h, raw))))
  }

  function TryAsInt(h: Host, raw: seq<byte>): Result<Arg, ArgError> {
    if |raw| < INT_SZ then Failure(ShortBuffer) else Success(Int(NativeNumber(h, raw[..INT_SZ])))
  }

  function Decode(h: Host, c: BadIoctl, arg: u64, buf: seq<byte>, src: Source): Result<Arg, ArgError> {
    var cmd := c.native;
    var none: Result<Arg, ArgError> := Success(NoArg);
    if SetsTermios(cmd) then if src.Cuse? then TryFromOs(h, buf) else none
    else if SetsTermios2(cmd) then if src.Cuse? then TryFromOs2(h, buf) else none
    else if cmd == TIOCSWINSZ then if src.Cuse? then Failure(Todo) else none
    else if cmd == TIOCGWINSZ then if src.Cuse? then none else Failure(Todo)
    else if GetsTermios(cmd) then if src.Cuse? then none else TryFromOs(h, buf)
    else if cmd == TCGETS2 then if src.Cuse? then none else TryFromOs2(h, buf)
    else if SetsInt(cmd) then if src.Cuse? then TryAsInt(h, buf) else none
    else if cmd == TIOCINQ then if src.Cuse? then none else TryAsInt(h, buf)
    else if cmd == TCFLSH then if src.Cuse? then Success(Scalar(arg)) else none
    else if c.good.IsWrite() then if src.Cuse? then Success(Raw(buf)) else none
    else if c.good.IsRead() then if src.Cuse? then none else Success(Raw(buf))
    else Success(RawScalar(arg))
  }

  function Encode(h: Host, c: BadIoctl, a: Arg): Result<(u32, Operand), ArgError>
    requires a.Formed()
  {
    var cmd := c.native;
    var bad: Result<(u32, Operand), ArgError> := Failure(BadIoctlParam);
    if SetsTermios(cmd) then
      if a.Ios? then Success((cmd, Filled(Termios.WriteTermios(h, Termios.IntoOs(a.ios))))) else bad
    else if SetsTermios2(cmd) then
      if a.Ios? then Success((cmd, Filled(Termios.WriteTermios2(h, Termios.IntoOs2(a.ios))))) else bad
    else if GetsTermios(cmd) then
      if a.NoArg? then Success((cmd, Scratch(TERMIOS_SZ))) else bad
    else if cmd == TIOCMGET || cmd == TIOCINQ then
      if a.NoArg? then Success((cmd, Scratch(INT_SZ))) else bad
    else if !c.good.IsWrite() then
      if a.Scalar? || a.RawScalar? then Success((cmd, Plain(a.n))) else bad
    else if a.Raw? then Failure(Todo)
    else if a.Int? || a.UInt? then Success((cmd, Filled(NativeBytes(h, a.n, INT_SZ))))
    else bad
  }

  function CuseResponse(h: Host, c: BadIoctl, a: Arg): Result<Option<seq<byte>>, ArgError>
    requires a.Formed()
  {
    var cmd := c.native;
    var bad: Result<Option<seq<byte>>, ArgError> := Failure(BadIoctlParam);
    if GetsTermios(cmd) then
      if a.Ios? then Success(Some(Termios.WriteTermios(h, Termios.IntoOs(a.ios)))) else bad
    else if cmd == TCGETS2 then
      if a.Ios? then Success(Some(Termios.WriteTermios2(h, Termios.IntoOs2(a.ios)))) else bad
    else if cmd == TIOCSWINSZ then bad
    else if !c.good.IsRead() then Success(None)
    else match a
      case NoArg => Success(None)
      case Scalar(_) => Success(None)
      case RawScalar(_) => Success(None)
      case Ios(_) => bad
      case Raw(data) => Success(Some(data))
      case Int(n) => Success(Some(NativeBytes(h, n, INT_SZ)))
      case UInt(n) => Success(Some(NativeBytes(h, n, INT_SZ)))
  }

  // ---- the wire ----

  function Code(a: Arg): byte {
    match a
    case NoArg => 0 case Scalar(_) => 1 case Raw(_) => 2 case RawScalar(_) => 3
    case Ios(_) => 4 case Int(_) => 5 case UInt(_) => 6
  }

  function ToBytes(a: Arg): seq<byte>
    requires a.Formed()
  {
    match a
    case NoArg => []
    case Scalar(n) => BigEndian(n, 8)
    case Raw(raw) => raw
    case RawScalar(n) => BigEndian(n, 8)
    case Ios(t) => Termios.ToWire(t)
    case Int(n) => BigEndian(n, 4)
    case UInt(n) => BigEndian(n, 4)
  }

  function ArgLen(a: Arg): nat {
    match a
    case NoArg => 0
    case Scalar(_) => 8
    case Raw(raw) => |raw|
    case RawScalar(_) => 8
    case Ios(_) => Termios.WIRE_SZ
    case Int(_) => 4
    case UInt(_) => 4
  }

  lemma ArgLenExact(a: Arg)
    requires a.Formed()
    ensures ArgLen(a) == |ToBytes(a)|
  {
  }

  function FromRaw(code: byte, buf: seq<byte>): Result<Arg, ArgError> {
    match code
    case 0 => Success(NoArg)
    case 1 => if |buf| < 8 then Failure(ShortBuffer) else Success(Scalar(Number(buf[..8])))
    case 2 => Success(Raw(buf))
    case 3 => if |buf| < 8 then Failure(ShortBuffer) else Success(RawScalar(Number(buf[..8])))
    case 4 =>
      if |buf| < Termios.WIRE_SZ then Failure(ShortBuffer) else Success(Ios(Termios.FromWire(buf)))
    case 5 => if |buf| < 4 then Failure(ShortBuffer) else Success(Int(Number(buf[..4])))
    case 6 => if |buf| < 4 then Failure(ShortBuffer) else Success(UInt(Number(buf[..4])))
    case _ => Failure(BadIoctlParam)
  }

  /** Every argument survives the network. */
  lemma WireRoundTrip(a: Arg)
    requires a.Valid() && a.Formed()
    ensures FromRaw(Code(a), ToBytes(a)) == Success(a)
  {
    match a
    case Scalar(n) => NumberOfBytes(n, 8); assert BigEndian(n, 8)[..8] == BigEndian(n, 8);
    case RawScalar(n) => NumberOfBytes(n, 8); assert BigEndian(n, 8)[..8] == BigEndian(n, 8);
    case Int(n) => NumberOfBytes(n, 4); assert BigEndian(n, 4)[..4] == BigEndian(n, 4);
    case UInt(n) => NumberOfBytes(n, 4); assert BigEndian(n, 4)[..4] == BigEndian(n, 4);
    case Ios(t) => Termios.WireBack(t);
    case _ =>
  }

  lemma FromOsValid(h: Host, raw: seq<byte>)
    ensures TryFromOs(h, raw).Success? ==> TryFromOs(h, raw).value.Valid() && TryFromOs(h, raw).value.Formed()
  {
    if |raw| >= TERMIOS_SZ {
      Termios.TermiosBytesBack(h, raw);
      assert Records.InRange(Termios.SPEEDS, [0, 0]);
    }
  }

  lemma FromOs2Valid(h: Host, raw: seq<byte>)
    ensures TryFromOs2(h, raw).Success? ==> TryFromOs2(h, raw).value.Valid() && TryFromOs2(h, raw).value.Formed()
  {
    if |raw| >= TERMIOS2_SZ { Termios.Termios2BytesBack(h, raw); }
  }

  lemma AsIntValid(h: Host, raw: seq<byte>)
    ensures TryAsInt(h, raw).Success? ==> TryAsInt(h, raw).value.Valid() && TryAsInt(h, raw).value.Formed()
  {
    if |raw| >= INT_SZ { NativeBytesBack(h, raw[..INT_SZ]); }
  }

  /** What decoding yields can be sent. */
  lemma DecodeValid(h: Host, c: BadIoctl, arg: u64, buf: seq<byte>, src: Source)
    requires Decode(h, c, arg, buf, src).Success?
    ensures Decode(h, c, arg, buf, src).value.Valid()
    ensures Decode(h, c, arg, buf, src).value.Formed()
  {
    Widths();
    FromOsValid(h, buf);
    FromOs2Valid(h, buf);
    AsIntValid(h, buf);
  }
}
