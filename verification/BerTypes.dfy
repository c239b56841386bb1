/** Values shared by the BER printer, reader and framer: octets, identifiers,
    limits and the error classes of the ber package. */
module BerTypes {

  type byte = x: int | 0 <= x < 256
  type bytes = seq<byte>
  type uint32 = x: int | 0 <= x < 0x1_0000_0000
  type int32 = x: int | -0x8000_0000 <= x < 0x8000_0000

  // Go's int and uint64 on a 64-bit platform.
  const MAX_INT: int := 0x7FFF_FFFF_FFFF_FFFF
  const MAX_UINT64: int := 0xFFFF_FFFF_FFFF_FFFF
  const MAX_UINT32: int := 0xFFFF_FFFF

  datatype LimitKind = FrameBytes | Depth | Elements | IntegerOctets | TagNumber

  datatype Error =
    | Truncated
    | InvalidIdentifier
    | InvalidLength
    | IndefiniteLength
    | LengthOverflow
    | TrailingData
    | UnexpectedIdentifier
    | PrimitiveRequired
    | ConstructedRequired
    | InvalidBoolean
    | InvalidInteger
    | NoProgress
    | LimitExceeded(limit: LimitKind)
    | BadLimits             // a Limits value that fails Validate
    | EndOfStream           // io.EOF before a frame begins
    | TransportFailure      // any other read error, returned unchanged
    | BadEnvelope           // an LDAPMessage the envelope parser refuses
    | BadText               // LDAP text that is not UTF-8
    | BadValue              // a filter that breaks an RFC 4511 constraint

  datatype Result<+T> = Ok(value: T) | Err(error: Error)

  datatype Option<+T> = None | Some(value: T)

  const UNIVERSAL: byte := 0
  const APPLICATION: byte := 1
  const CONTEXT: byte := 2

  datatype Identifier = Identifier(cls: byte, constructed: bool, number: uint32) {
    // Only the four two-bit classes can be encoded.
    predicate Valid() { cls <= 3 }
  }

  const OCTET_STRING := Identifier(UNIVERSAL, false, 4)
  const INTEGER := Identifier(UNIVERSAL, false, 2)
  const SEQUENCE := Identifier(UNIVERSAL, true, 16)

  datatype Limits = Limits(
    maxFrameBytes: int,
    maxDepth: int,
    maxElements: int,
    maxIntegerBytes: int,
    maxTagNumber: uint32)
  {
    predicate Valid() {
      && maxFrameBytes > 0
      && maxDepth > 0
      && maxElements > 0
      && maxIntegerBytes > 0
      && maxTagNumber > 0
    }
  }

  // A view of one complete element: its contents and all of its octets.
  datatype Element = Element(id: Identifier, value: bytes, raw: bytes)

  // What a loop has collected, in front of what is still to be read.
  function Preceded<A, T>(found: seq<A>, r: Result<(seq<A>, T)>): Result<(seq<A>, T)>
  {
    match r
    case Err(e) => Err(e)
    case Ok((values, x)) => Ok((found + values, x))
  }

  lemma PrecededByNone<A, T>(r: Result<(seq<A>, T)>)
    ensures Preceded([], r) == r
  {
    if r.Ok? { assert [] + r.value.0 == r.value.0; }
  }

  lemma PrecededByOneMore<A, T>(found: seq<A>, v: A, r: Result<(seq<A>, T)>)
    ensures Preceded(found + [v], r) == Preceded(found, Preceded([v], r))
  {
    if r.Ok? { assert (found + [v]) + r.value.0 == found + ([v] + r.value.0); }
  }

  lemma Reassociate(a: bytes, b: bytes, c: bytes)
    ensures (a + b) + c == a + (b + c)
  {
  }
}
