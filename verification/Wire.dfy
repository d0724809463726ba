/** Cursor reads and writes used by every payload of the bridge protocol (src/protocol.rs). */
module Wire {
  import opened Bytes

  datatype ProtocolError =
    | BadMagic | UnsupportedVersion | InvalidMsgType | Truncated | PayloadTooLarge
    | ReservedRequestId | InvalidWriteMode | InvalidUtf8 | InvalidKeyTypeHint | InvalidErrorCode
    | InvalidQosPolicyId | InvalidQosValue | DuplicateQosPolicy | StringTooLong | TrailingBytes

  /** A reader either fails or yields a value and the bytes left under the cursor. */
  datatype Parsed<+T> = Parsed(value: T, rest: bytes) | Bad(error: ProtocolError) {
    predicate IsFailure() { Bad? }
    function PropagateFailure<U>(): Parsed<U> requires Bad? { Bad(error) }
    function Extract(): (T, bytes) requires Parsed? { (value, rest) }
  }

  const MAX_STRING_LENGTH: nat := 1024 * 1024

  /** Strings are held as their UTF-8 bytes. */
  function WriteString(s: bytes): bytes { Le(|s|, 4) + s }

  predicate Encodable(s: bytes) { |s| <= MAX_STRING_LENGTH && ValidUtf8(s) }

  function ReadString(b: bytes): Parsed<bytes> {
    if |b| < 4 then Bad(Truncated) else
    var len := U32At(b);
    if len > MAX_STRING_LENGTH then Bad(StringTooLong)
    else if |b| - 4 < len then Bad(Truncated)
    else if !ValidUtf8(b[4..][..len]) then Bad(InvalidUtf8)
    else Parsed(b[4..][..len], b[4..][len..])
  }

  /** Whatever a string read accepts is exactly the encoding of the value it returns. */
  lemma StringCanonical(b: bytes)
    requires ReadString(b).Parsed?
    ensures b == WriteString(ReadString(b).value) + ReadString(b).rest
    ensures Encodable(ReadString(b).value)
  {
    PowValues();
    SplitLe(b, 4);
  }

  /** A written string reads back exactly when it is valid UTF-8 within the length limit. */
  lemma StringRoundTrip(s: bytes, rest: bytes)
    ensures ReadString(WriteString(s) + rest) == Parsed(s, rest) <==> Encodable(s)
  {
    var b := WriteString(s) + rest;
    assert b == Le(|s|, 4) + (s + rest);
    ReadLe32(|s|, s + rest);
    if Encodable(s) {
      assert b[4..][..|s|] == s;
      assert b[4..][|s|..] == rest;
    } else if ReadString(b) == Parsed(s, rest) {
      StringCanonical(b);
    }
  }

  /** A string no longer than 4 GiB cannot be read back as another string. */
  lemma StringPrefix(s: bytes, rest: bytes)
    requires |s| < 0x1_0000_0000
    ensures ReadString(WriteString(s) + rest).Parsed? ==> ReadString(WriteString(s) + rest) == Parsed(s, rest)
  {
    var b := WriteString(s) + rest;
    assert b == Le(|s|, 4) + (s + rest);
    ReadLe32(|s|, s + rest);
    assert (s + rest)[..|s|] == s && (s + rest)[|s|..] == rest;
  }

  function ReadU8(b: bytes): Parsed<u8> {
    if |b| < 1 then Bad(Truncated) else Parsed(b[0], b[1..])
  }

  function ReadU32(b: bytes): Parsed<u32> {
    if |b| < 4 then Bad(Truncated) else Parsed(U32At(b), b[4..])
  }

  lemma U32Codec(n: u32, rest: bytes)
    ensures ReadU32(Le(n, 4) + rest) == Parsed(n, rest)
  {
    ReadLe32(n, rest);
  }

  lemma U32Canonical(b: bytes)
    requires |b| >= 4
    ensures b == Le(U32At(b), 4) + b[4..]
  {
    SplitLe(b, 4);
  }
}
