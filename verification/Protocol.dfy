/** Headers, key descriptors and payloads of the bridge protocol, as the bridge reads and writes them
    (src/protocol.rs). */
module Protocol {
  import opened Bytes
  import opened Wire
  import opened Qos

  const VERSION: u8 := 0x01
  const HEADER_SIZE: nat := 12

  datatype MsgType =
    | Subscribe | Unsubscribe | Write | Dispose | WriteDispose | CreateWriter | DeleteWriter | Ping
    | OkMsg | Data | DataDisposed | DataNoWriters | ErrorMsg | Pong

  function MsgByte(t: MsgType): u8 {
    match t
    case Subscribe => 0x01 case Unsubscribe => 0x02 case Write => 0x03 case Dispose => 0x04
    case WriteDispose => 0x05 case CreateWriter => 0x10 case DeleteWriter => 0x11 case Ping => 0x0F
    case OkMsg => 0x80 case Data => 0xC0 case DataDisposed => 0xC1 case DataNoWriters => 0xC2
    case ErrorMsg => 0xFE case Pong => 0x8F
  }

  function MsgFromByte(b: u8): Option<MsgType> {
    match b
    case 0x01 => Some(Subscribe) case 0x02 => Some(Unsubscribe) case 0x03 => Some(Write)
    case 0x04 => Some(Dispose) case 0x05 => Some(WriteDispose) case 0x10 => Some(CreateWriter)
    case 0x11 => Some(DeleteWriter) case 0x0F => Some(Ping) case 0x80 => Some(OkMsg)
    case 0xC0 => Some(Data) case 0xC1 => Some(DataDisposed) case 0xC2 => Some(DataNoWriters)
    case 0xFE => Some(ErrorMsg) case 0x8F => Some(Pong)
    case _ => None
  }

  datatype Header = Header(version: u8, msgType: MsgType, requestId: u32, payloadLength: u32)

  function ParseHeader(d: bytes): Parsed<Header> {
    if |d| < HEADER_SIZE then Bad(Truncated)
    else if d[0] != 0x44 || d[1] != 0x42 then Bad(BadMagic)
    else match MsgFromByte(d[3])
      case None => Bad(InvalidMsgType)
      case Some(t) => Parsed(Header(d[2], t, U32At(d[4..]), U32At(d[8..])), d[12..])
  }

  function SerializeHeader(h: Header): bytes {
    [0x44, 0x42, h.version, MsgByte(h.msgType)] + (Le(h.requestId, 4) + Le(h.payloadLength, 4))
  }

  function BuildMessage(t: MsgType, requestId: u32, payload: bytes): bytes {
    SerializeHeader(Header(VERSION, t, requestId, |payload| % 0x1_0000_0000)) + payload
  }

  function ValidateClientHeader(h: Header, maxVersion: u8, maxPayload: nat): Option<ProtocolError> {
    if h.version > maxVersion then Some(UnsupportedVersion)
    else if h.payloadLength > maxPayload then Some(PayloadTooLarge)
    else if h.requestId == 0 then Some(ReservedRequestId)
    else None
  }

  /** The header survives, and what follows it is untouched. */
  lemma HeaderRoundTrip(h: Header, rest: bytes)
    ensures ParseHeader(SerializeHeader(h) + rest) == Parsed(h, rest)
  {
    hide U32At, Le, FromLe;
    var d := SerializeHeader(h) + rest;
    assert d[4..] == Le(h.requestId, 4) + (Le(h.payloadLength, 4) + rest);
    assert d[8..] == Le(h.payloadLength, 4) + rest;
    assert d[12..] == rest;
    ReadLe32(h.requestId, Le(h.payloadLength, 4) + rest);
    ReadLe32(h.payloadLength, rest);
  }

  lemma HeaderCanonical(d: bytes)
    requires ParseHeader(d).Parsed?
    ensures d == SerializeHeader(ParseHeader(d).value) + ParseHeader(d).rest
  {
    hide U32At, Le, FromLe;
    U32Canonical(d[4..]);
    U32Canonical(d[8..]);
    var h := ParseHeader(d).value;
    assert d[8..][4..] == d[12..] && d[4..][4..] == d[8..];
    assert d == [d[0], d[1], d[2], d[3]] + d[4..];
  }

  // ---- Key descriptors ----

  datatype KeyTypeHint = Opaque | Uuid | Int32 | Int64 | Str

  function HintByte(h: KeyTypeHint): u8 {
    match h case Opaque => 0 case Uuid => 1 case Int32 => 2 case Int64 => 3 case Str => 4
  }

  function HintFromByte(b: u8): Option<KeyTypeHint> {
    match b
    case 0 => Some(Opaque) case 1 => Some(Uuid) case 2 => Some(Int32) case 3 => Some(Int64) case 4 => Some(Str)
    case _ => None
  }

  datatype KeyField = KeyField(offset: u32, size: u32, hint: KeyTypeHint)

  function SerializeKeyField(k: KeyField): bytes { Le(k.offset, 4) + (Le(k.size, 4) + [HintByte(k.hint)]) }

  function SerializeKeys(ks: seq<KeyField>): bytes {
    if ks == [] then [] else SerializeKeyField(ks[0]) + SerializeKeys(ks[1..])
  }

  function SerializeKeyDescriptors(ks: seq<KeyField>): bytes { [|ks| % 256] + SerializeKeys(ks) }

  function ParseKeyField(b: bytes): Parsed<KeyField> {
    if |b| < 9 then Bad(Truncated)
    else match HintFromByte(b[8])
      case None => Bad(InvalidKeyTypeHint)
      case Some(h) => Parsed(KeyField(U32At(b), U32At(b[4..]), h), b[9..])
  }

  function ParseKeys(n: nat, b: bytes): Parsed<seq<KeyField>> {
    if n == 0 then Parsed([], b) else
    var (k, b1) :- ParseKeyField(b);
    var (ks, b2) :- ParseKeys(n - 1, b1);
    Parsed([k] + ks, b2)
  }

  function ParseKeyDescriptors(b: bytes): Parsed<seq<KeyField>> {
    if |b| < 1 then Bad(Truncated) else ParseKeys(b[0], b[1..])
  }

  lemma KeyFieldRoundTrip(k: KeyField, rest: bytes)
    ensures ParseKeyField(SerializeKeyField(k) + rest) == Parsed(k, rest)
  {
    hide U32At, Le, FromLe;
    var b := SerializeKeyField(k) + rest;
    assert b == Le(k.offset, 4) + (Le(k.size, 4) + ([HintByte(k.hint)] + rest));
    ReadLe32(k.offset, Le(k.size, 4) + ([HintByte(k.hint)] + rest));
    ReadLe32(k.size, [HintByte(k.hint)] + rest);
    assert b[8..] == b[4..][4..];
    assert b[9..] == rest;
  }

  lemma KeyFieldCanonical(b: bytes)
    requires ParseKeyField(b).Parsed?
    ensures b == SerializeKeyField(ParseKeyField(b).value) + ParseKeyField(b).rest
  {
    hide U32At, Le, FromLe;
    U32Canonical(b);
    U32Canonical(b[4..]);
    assert b[4..][4..] == [b[8]] + b[9..];
  }

  lemma {:induction false} KeysRoundTrip(ks: seq<KeyField>, rest: bytes)
    ensures ParseKeys(|ks|, SerializeKeys(ks) + rest) == Parsed(ks, rest)
  {
    hide ParseKeyField, SerializeKeyField;
    if ks == [] {
      assert SerializeKeys(ks) + rest == rest;
    } else {
      KeyFieldRoundTrip(ks[0], SerializeKeys(ks[1..]) + rest);
      KeysRoundTrip(ks[1..], rest);
      assert SerializeKeys(ks) + rest == SerializeKeyField(ks[0]) + (SerializeKeys(ks[1..]) + rest);
      assert ks == [ks[0]] + ks[1..];
    }
  }

  lemma {:induction false} KeysCanonical(n: nat, b: bytes)
    requires ParseKeys(n, b).Parsed?
    ensures var r := ParseKeys(n, b); |r.value| == n && b == SerializeKeys(r.value) + r.rest
  {
    hide ParseKeyField, SerializeKeyField;
    if n > 0 {
      KeyFieldCanonical(b);
      KeysCanonical(n - 1, ParseKeyField(b).rest);
      var r := ParseKeys(n, b);
      assert r.value[1..] == ParseKeys(n - 1, ParseKeyField(b).rest).value;
    }
  }

  lemma KeyDescriptorsRoundTrip(ks: seq<KeyField>, rest: bytes)
    ensures ParseKeyDescriptors(SerializeKeyDescriptors(ks) + rest) == Parsed(ks, rest) <==> |ks| <= 255
  {
    hide ParseKeys, SerializeKeys;
    var b := SerializeKeyDescriptors(ks) + rest;
    assert b[1..] == SerializeKeys(ks) + rest;
    if |ks| <= 255 {
      KeysRoundTrip(ks, rest);
    } else if ParseKeyDescriptors(b) == Parsed(ks, rest) {
      KeysCanonical(b[0], b[1..]);
    }
  }

  lemma KeyDescriptorsCanonical(b: bytes)
    requires ParseKeyDescriptors(b).Parsed?
    ensures var r := ParseKeyDescriptors(b);
            |r.value| <= 255 && b == SerializeKeyDescriptors(r.value) + r.rest
  {
    hide ParseKeys, SerializeKeys;
    KeysCanonical(b[0], b[1..]);
    assert b == [b[0]] + b[1..];
  }

  /** `parse_key_descriptors`: the cursor loop. */
  method ParseKeyDescriptorsLoop(buf: bytes) returns (r: Parsed<seq<KeyField>>)
    ensures r == ParseKeyDescriptors(buf)
  {
    hide ParseKeyField;
    if |buf| < 1 { return Bad(Truncated); }
    var count, cur := buf[0], buf[1..];
    var keys: seq<KeyField> := [];
    ghost var whole := ParseKeyDescriptors(buf);
    assert whole.Parsed? ==> [] + whole.value == whole.value;
    for i := 0 to count
      invariant whole == PrependKeys(keys, ParseKeys(count - i, cur))
    {
      var k := ParseKeyField(cur);
      if k.Bad? { return Bad(k.error); }
      ghost var r := ParseKeys(count - i - 1, k.rest);
      assert r.Parsed? ==> keys + [k.value] + r.value == keys + ([k.value] + r.value);
      keys, cur := keys + [k.value], k.rest;
    }
    assert keys + [] == keys;
    r := Parsed(keys, cur);
  }

  function PrependKeys(done: seq<KeyField>, r: Parsed<seq<KeyField>>): Parsed<seq<KeyField>> {
    if r.Bad? then r else Parsed(done + r.value, r.rest)
  }

  // ---- Payloads ----

  datatype ErrorCode =
    | InvalidMessage | TopicNotFound | DdsError | WriterNotFound | ReaderNotFound
    | InvalidQos | AlreadyExists | InternalError | BufferOverflow

  function CodeNumber(c: ErrorCode): u16 {
    match c
    case InvalidMessage => 1 case TopicNotFound => 2 case DdsError => 3 case WriterNotFound => 4
    case ReaderNotFound => 5 case InvalidQos => 6 case AlreadyExists => 7 case InternalError => 8
    case BufferOverflow => 9
  }

  function CodeFromNumber(n: u16): Option<ErrorCode> {
    match n
    case 1 => Some(InvalidMessage) case 2 => Some(TopicNotFound) case 3 => Some(DdsError)
    case 4 => Some(WriterNotFound) case 5 => Some(ReaderNotFound) case 6 => Some(InvalidQos)
    case 7 => Some(AlreadyExists) case 8 => Some(InternalError) case 9 => Some(BufferOverflow)
    case _ => None
  }

  datatype Endpoint = Endpoint(topicName: bytes, typeName: bytes, qos: QosSet, isKeyed: bool, keys: seq<KeyField>)

  datatype WriteMode =
    | TopicName(topicName: bytes, typeName: bytes, qos: QosSet, keys: seq<KeyField>, data: bytes)
    | WriterId(writerId: u32, keyBytes: bytes, data: bytes)

  datatype Payload =
    | EndpointP(endpoint: Endpoint)                                    // SUBSCRIBE and CREATE_WRITER
    | UnsubscribeP(topicName: bytes, typeName: bytes)
    | WriteP(mode: WriteMode)                                          // WRITE, DISPOSE and WRITE_DISPOSE
    | DeleteWriterP(writerId: u32)
    | ErrorP(code: ErrorCode, message: bytes)
    | StampedP(topicName: bytes, timestamp: u64, data: bytes)          // DATA and DATA_DISPOSED
    | NoWritersP(topicName: bytes, data: bytes)

  datatype Kind = EndpointK | UnsubscribeK | WriteK | DeleteWriterK | ErrorK | StampedK | NoWritersK

  function KindOf(p: Payload): Kind {
    match p
    case EndpointP(_) => EndpointK case UnsubscribeP(_, _) => UnsubscribeK case WriteP(_) => WriteK
    case DeleteWriterP(_) => DeleteWriterK case ErrorP(_, _) => ErrorK case StampedP(_, _, _) => StampedK
    case NoWritersP(_, _) => NoWritersK
  }

  function BoolByte(v: bool): u8 { if v then 1 else 0 }

  function SerializeEndpoint(e: Endpoint): bytes {
    WriteString(e.topicName) + (WriteString(e.typeName) + (SerializeQos(e.qos)
    + ([BoolByte(e.isKeyed)] + SerializeKeyDescriptors(e.keys))))
  }

  function SerializeWriteMode(m: WriteMode): bytes {
    match m
    case TopicName(t, y, q, ks, data) =>
      [0] + (WriteString(t) + (WriteString(y) + (SerializeQos(q) + (SerializeKeyDescriptors(ks) + data))))
    case WriterId(id, key, data) => [1] + (Le(id, 4) + (Le(|key|, 4) + (key + data)))
  }

  function Serialize(p: Payload): bytes {
    match p
    case EndpointP(e) => SerializeEndpoint(e)
    case UnsubscribeP(t, y) => WriteString(t) + WriteString(y)
    case WriteP(m) => SerializeWriteMode(m)
    case DeleteWriterP(id) => Le(id, 4)
    case ErrorP(c, m) => Le(CodeNumber(c), 2) + WriteString(m)
    case StampedP(t, ts, data) => WriteString(t) + (Le(ts, 8) + data)
    case NoWritersP(t, data) => WriteString(t) + data
  }

  datatype Result<+T> = Success(value: T) | Failure(error: ProtocolError) {
    predicate IsFailure() { Failure? }
    function PropagateFailure<U>(): Result<U> requires Failure? { Failure(error) }
    function Extract(): T requires Success? { value }
  }

  function Whole<T>(r: Parsed<T>): Result<T> {
    if r.Bad? then Failure(r.error) else if r.rest != [] then Failure(TrailingBytes) else Success(r.value)
  }

  function ReadEndpoint(b: bytes): Parsed<Endpoint> {
    var (t, b1) :- ReadString(b);
    var (y, b2) :- ReadString(b1);
    var (q, b3) :- ParseQos(b2);
    var (k, b4) :- ReadU8(b3);
    var (ks, b5) :- ParseKeyDescriptors(b4);
    Parsed(Endpoint(t, y, q, k != 0, ks), b5)
  }

  function ParseEndpoint(b: bytes): Result<Endpoint> { Whole(ReadEndpoint(b)) }

  function ParseTopicMode(b: bytes): Parsed<WriteMode> {
    var (t, b1) :- ReadString(b);
    var (y, b2) :- ReadString(b1);
    var (q, b3) :- ParseQos(b2);
    var (ks, b4) :- ParseKeyDescriptors(b3);
    Parsed(TopicName(t, y, q, ks, b4), [])
  }

  function ParseWriterMode(b: bytes): Parsed<WriteMode> {
    if |b| < 8 then Bad(Truncated)
    else
      var len := U32At(b[4..]);
      if |b| - 8 < len then Bad(Truncated)
      else Parsed(WriterId(U32At(b), b[8..][..len], b[8..][len..]), [])
  }

  function ParseWriteMode(b: bytes): Result<WriteMode> {
    if b == [] then Failure(Truncated)
    else if b[0] == 0 then Whole(ParseTopicMode(b[1..]))
    else if b[0] == 1 then Whole(ParseWriterMode(b[1..]))
    else Failure(InvalidWriteMode)
  }

  function ParseUnsubscribe(b: bytes): Result<(bytes, bytes)> {
    var t := ReadString(b);
    if t.Bad? then Failure(t.error) else
    var y :- Whole(ReadString(t.rest));
    Success((t.value, y))
  }

  function ParseDeleteWriter(b: bytes): Result<u32> {
    if |b| < 4 then Failure(Truncated) else if |b| > 4 then Failure(TrailingBytes) else Success(U32At(b))
  }

  function ParseError(b: bytes): Result<Payload> {
    if |b| < 2 then Failure(Truncated)
    else match CodeFromNumber(U16At(b))
      case None => Failure(InvalidErrorCode)
      case Some(c) => var m :- Whole(ReadString(b[2..])); Success(ErrorP(c, m))
  }

  function ParseStamped(b: bytes): Result<Payload> {
    var t := ReadString(b);
    if t.Bad? then Failure(t.error)
    else if |t.rest| < 8 then Failure(Truncated)
    else Success(StampedP(t.value, U64At(t.rest), t.rest[8..]))
  }

  function ParseNoWriters(b: bytes): Result<Payload> {
    var t := ReadString(b);
    if t.Bad? then Failure(t.error) else Success(NoWritersP(t.value, t.rest))
  }

  function ParsePayload(k: Kind, b: bytes): Result<Payload> {
    match k
    case EndpointK => var e :- ParseEndpoint(b); Success(EndpointP(e))
    case UnsubscribeK => var n :- ParseUnsubscribe(b); Success(UnsubscribeP(n.0, n.1))
    case WriteK => var m :- ParseWriteMode(b); Success(WriteP(m))
    case DeleteWriterK => var id :- ParseDeleteWriter(b); Success(DeleteWriterP(id))
    case ErrorK => ParseError(b)
    case StampedK => ParseStamped(b)
    case NoWritersK => ParseNoWriters(b)
  }

  /** The values the wire can carry: names encodable, QoS well formed, counts and lengths that fit their fields. */
  ghost predicate Valid(p: Payload) {
    match p
    case EndpointP(e) => Encodable(e.topicName) && Encodable(e.typeName) && WellFormed(e.qos) && |e.keys| <= 255
    case UnsubscribeP(t, y) => Encodable(t) && Encodable(y)
    case WriteP(TopicName(t, y, q, ks, _)) => Encodable(t) && Encodable(y) && WellFormed(q) && |ks| <= 255
    case WriteP(WriterId(_, key, _)) => |key| < 0x1_0000_0000
    case DeleteWriterP(_) => true
    case ErrorP(_, m) => Encodable(m)
    case StampedP(t, _, _) => Encodable(t)
    case NoWritersP(t, _) => Encodable(t)
  }

  /** An accepted keyed flag may be any nonzero byte; it is written back as 1. Every other byte is kept. */
  function FlagAt(p: Payload): (i: int) {
    match p
    case EndpointP(e) => |WriteString(e.topicName)| + |WriteString(e.typeName)| + |SerializeQos(e.qos)|
    case _ => -1
  }

  function CanonFlag(k: Kind, b: bytes, i: int): bytes {
    if k == EndpointK && 0 <= i < |b| && b[i] != 0 then b[i := 1] else b
  }

  // ---- Every accepted payload re-serializes to itself ----

  function EndpointPrefix(e: Endpoint): bytes {
    WriteString(e.topicName) + WriteString(e.typeName) + SerializeQos(e.qos)
  }

  /** An accepted endpoint payload is the printed prefix, one flag byte and the printed key descriptors. */
  lemma EndpointSplit(b: bytes) returns (f: u8)
    ensures ParseEndpoint(b).Success? ==>
              var e := ParseEndpoint(b).value;
              && Valid(EndpointP(e)) && e.isKeyed == (f != 0)
              && b == EndpointPrefix(e) + ([f] + SerializeKeyDescriptors(e.keys))
  {
    hide ReadString, WriteString, ParseQos, SerializeQos, ParseKeyDescriptors, SerializeKeyDescriptors,
         Encodable, WellFormed;
    if ParseEndpoint(b).Failure? { return 0; }
    var t := ReadString(b);
    var y := ReadString(t.rest);
    var q := ParseQos(y.rest);
    f := q.rest[0];
    StringCanonical(b);
    StringCanonical(t.rest);
    QosCanonical(y.rest);
    KeyDescriptorsCanonical(q.rest[1..]);
    assert ParseKeyDescriptors(q.rest[1..]).rest == [];
    assert q.rest == [f] + SerializeKeyDescriptors(ParseEndpoint(b).value.keys);
  }

  lemma EndpointCanonical(b: bytes)
    ensures ParseEndpoint(b).Success? ==>
              var p := EndpointP(ParseEndpoint(b).value);
              Valid(p) && 0 <= FlagAt(p) < |b| && Serialize(p) == CanonFlag(EndpointK, b, FlagAt(p))
  {
    hide ParseEndpoint, WriteString, SerializeQos, SerializeKeyDescriptors, Encodable, WellFormed;
    var f := EndpointSplit(b);
    if ParseEndpoint(b).Success? {
      var e := ParseEndpoint(b).value;
      var pre, post := EndpointPrefix(e), SerializeKeyDescriptors(e.keys);
      assert b[|pre|] == f;
      assert SerializeEndpoint(e) == pre + ([BoolByte(f != 0)] + post);
      assert (pre + ([f] + post))[|pre| := 1] == pre + ([1] + post);
    }
  }

  lemma WriteModeCanonical(b: bytes)
    requires ParseWriteMode(b).Success?
    ensures var p := WriteP(ParseWriteMode(b).value); Valid(p) && Serialize(p) == b
  {
    hide ReadString, WriteString, ParseQos, SerializeQos, ParseKeyDescriptors, SerializeKeyDescriptors,
         Encodable, WellFormed, U32At, Le, FromLe;
    var r := b[1..];
    assert b == [b[0]] + r;
    if b[0] == 0 {
      var t := ReadString(r);
      var y := ReadString(t.rest);
      var q := ParseQos(y.rest);
      StringCanonical(r);
      StringCanonical(t.rest);
      QosCanonical(y.rest);
      KeyDescriptorsCanonical(q.rest);
    } else {
      U32Canonical(r);
      U32Canonical(r[4..]);
      var len := U32At(r[4..]);
      assert r[4..][4..] == r[8..];
      assert r[8..] == r[8..][..len] + r[8..][len..];
    }
  }

  lemma ShortCanonical(k: Kind, b: bytes)
    requires ParsePayload(k, b).Success? && k != EndpointK && k != WriteK
    ensures var p := ParsePayload(k, b).value; KindOf(p) == k && Valid(p) && Serialize(p) == b
  {
    hide ReadString, WriteString, Encodable, Le, FromLe;
    match k
    case UnsubscribeK =>
      StringCanonical(b);
      StringCanonical(ReadString(b).rest);
      assert ReadString(ReadString(b).rest).rest == [];
    case DeleteWriterK =>
      U32Canonical(b);
      assert b[4..] == [];
    case ErrorK =>
      SplitLe(b, 2);
      StringCanonical(b[2..]);
      assert ReadString(b[2..]).rest == [];
    case StampedK =>
      StringCanonical(b);
      SplitLe(ReadString(b).rest, 8);
    case NoWritersK => StringCanonical(b);
  }

  /** Accepted payloads are canonical: printing the result gives the input back, up to the keyed flag. */
  lemma PayloadCanonical(k: Kind, b: bytes)
    requires ParsePayload(k, b).Success?
    ensures var p := ParsePayload(k, b).value;
            KindOf(p) == k && Valid(p) && Serialize(p) == CanonFlag(k, b, FlagAt(p))
  {
    hide ParseEndpoint, ParseWriteMode, Serialize, FlagAt, CanonFlag;
    if k == EndpointK {
      EndpointCanonical(b);
    } else if k == WriteK {
      WriteModeCanonical(b);
      CanonOther(k, b, FlagAt(ParsePayload(k, b).value));
    } else {
      ShortCanonical(k, b);
      CanonOther(k, b, FlagAt(ParsePayload(k, b).value));
    }
  }

  lemma CanonOther(k: Kind, b: bytes, i: int)
    requires k != EndpointK
    ensures CanonFlag(k, b, i) == b
  {
  }

  // ---- Every valid payload round-trips ----

  lemma EndpointRoundTrip(e: Endpoint)
    requires Valid(EndpointP(e))
    ensures ParseEndpoint(SerializeEndpoint(e)) == Success(e)
  {
    hide ReadString, WriteString, ParseQos, SerializeQos, ParseKeyDescriptors, SerializeKeyDescriptors,
         Encodable, WellFormed;
    var b5 := SerializeKeyDescriptors(e.keys);
    var b4 := [BoolByte(e.isKeyed)] + b5;
    var b3 := SerializeQos(e.qos) + b4;
    var b2 := WriteString(e.typeName) + b3;
    StringRoundTrip(e.topicName, b2);
    StringRoundTrip(e.typeName, b3);
    QosRoundTrip(e.qos, b4);
    assert b4[1..] == b5;
    assert b5 + [] == b5;
    KeyDescriptorsRoundTrip(e.keys, []);
  }

  lemma WriteModeRoundTrip(m: WriteMode)
    requires Valid(WriteP(m))
    ensures ParseWriteMode(SerializeWriteMode(m)) == Success(m)
  {
    hide ReadString, WriteString, ParseQos, SerializeQos, ParseKeyDescriptors, SerializeKeyDescriptors,
         Encodable, WellFormed, U32At, Le, FromLe;
    var b := SerializeWriteMode(m);
    match m
    case TopicName(t, y, q, ks, data) =>
      var b4 := SerializeKeyDescriptors(ks) + data;
      var b3 := SerializeQos(q) + b4;
      var b2 := WriteString(y) + b3;
      assert b[1..] == WriteString(t) + b2;
      StringRoundTrip(t, b2);
      StringRoundTrip(y, b3);
      QosRoundTrip(q, b4);
      KeyDescriptorsRoundTrip(ks, data);
    case WriterId(id, key, data) =>
      var r := b[1..];
      assert r == Le(id, 4) + (Le(|key|, 4) + (key + data));
      ReadLe32(id, Le(|key|, 4) + (key + data));
      ReadLe32(|key|, key + data);
      assert r[4..][4..] == r[8..];
      assert (key + data)[..|key|] == key && (key + data)[|key|..] == data;
  }

  lemma ShortRoundTrip(p: Payload)
    requires Valid(p) && !p.EndpointP? && !p.WriteP?
    ensures ParsePayload(KindOf(p), Serialize(p)) == Success(p)
  {
    hide ReadString, WriteString, Encodable, Le, FromLe, U32At, U16At, U64At;
    match p
    case UnsubscribeP(t, y) =>
      StringRoundTrip(t, WriteString(y));
      StringRoundTrip(y, []);
      assert WriteString(y) + [] == WriteString(y);
    case DeleteWriterP(id) =>
      ReadLe32(id, []);
      assert Le(id, 4) + [] == Le(id, 4);
    case ErrorP(c, m) =>
      ReadLe16(CodeNumber(c), WriteString(m));
      StringRoundTrip(m, []);
      assert WriteString(m) + [] == WriteString(m);
    case StampedP(t, ts, data) =>
      StringRoundTrip(t, Le(ts, 8) + data);
      ReadLe64(ts, data);
    case NoWritersP(t, data) => StringRoundTrip(t, data);
  }

  /** Serialize then parse gives the payload back exactly when the wire can carry it. */
  lemma PayloadRoundTrip(p: Payload)
    ensures ParsePayload(KindOf(p), Serialize(p)) == Success(p) <==> Valid(p)
  {
    hide ParsePayload, Serialize, Valid, FlagAt;
    if Valid(p) {
      ValidRoundTrip(p);
    } else if ParsePayload(KindOf(p), Serialize(p)) == Success(p) {
      PayloadCanonical(KindOf(p), Serialize(p));
    }
  }

  lemma ValidRoundTrip(p: Payload)
    requires Valid(p)
    ensures ParsePayload(KindOf(p), Serialize(p)) == Success(p)
  {
    hide ParseEndpoint, ParseWriteMode, SerializeEndpoint, SerializeWriteMode, Valid;
    match p
    case EndpointP(e) => EndpointRoundTrip(e);
    case WriteP(m) => WriteModeRoundTrip(m);
    case _ => ShortRoundTrip(p);
  }
}
