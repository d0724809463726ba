/** The Go client's codec (ddswsclient/protocol.go) and its agreement with the bridge's. */
module GoCodec {
  import opened Bytes
  import opened Wire
  import opened Qos
  import opened Protocol

  const GO_MAX_STRING: nat := 4 * 1024 * 1024

  datatype GoPolicy = GoPolicy(id: u8, data: bytes)
  datatype GoKey = GoKey(offset: u32, size: u32, hint: u8)

  /** A Go decoder returns a value and how many bytes it used, or an error. */
  datatype Decoded<+T> = Decoded(value: T, n: nat) | GoErr

  // ---- Encoders ----

  function AppendString(dst: bytes, s: bytes): bytes { dst + Le(|s|, 4) + s }

  function AppendStrings(dst: bytes, ss: seq<bytes>): bytes
    decreases |ss|
  {
    if ss == [] then dst else AppendStrings(AppendString(dst, ss[0]), ss[1..])
  }

  /** The `Qos...Policy` constructors. */
  function GoPolicyOf(p: QosPolicy): GoPolicy {
    match p
    case Reliability(k, t) => GoPolicy(0x01, [k] + Le(t, 4))
    case Durability(k) => GoPolicy(0x02, [k])
    case History(k, d) => GoPolicy(0x03, [k] + Le(d, 4))
    case Deadline(t) => GoPolicy(0x04, Le(t, 4))
    case LatencyBudget(t) => GoPolicy(0x05, Le(t, 4))
    case OwnershipStrength(v) => GoPolicy(0x06, Le(v, 4))
    case Liveliness(k, t) => GoPolicy(0x07, [k] + Le(t, 4))
    case DestinationOrder(k) => GoPolicy(0x08, [k])
    case Presentation(a, c, o) => GoPolicy(0x09, [a, c, o])
    case Partition(ps) => GoPolicy(0x0A, AppendStrings([|ps| % 256], ps))
    case Ownership(k) => GoPolicy(0x0B, [k])
    case WriterDataLifecycle(v) => GoPolicy(0x0C, [v])
    case TimeBasedFilter(t) => GoPolicy(0x0D, Le(t, 4))
  }

  function GoQosOf(q: QosSet): (g: seq<GoPolicy>)
    ensures |g| == |q|
  {
    seq(|q|, i requires 0 <= i < |q| => GoPolicyOf(q[i]))
  }

  function GoKeysOf(ks: seq<KeyField>): (g: seq<GoKey>)
    ensures |g| == |ks|
  {
    seq(|ks|, i requires 0 <= i < |ks| => GoKey(ks[i].offset, ks[i].size, HintByte(ks[i].hint)))
  }

  function AppendPolicies(dst: bytes, q: seq<GoPolicy>): bytes
    decreases |q|
  {
    if q == [] then dst else AppendPolicies(dst + [q[0].id] + q[0].data, q[1..])
  }

  function EncodeQos(q: seq<GoPolicy>): bytes { AppendPolicies([|q| % 256], q) }

  function AppendKeys(dst: bytes, ks: seq<GoKey>): bytes
    decreases |ks|
  {
    if ks == [] then dst
    else AppendKeys(dst + (Le(ks[0].offset, 4) + Le(ks[0].size, 4) + [ks[0].hint]), ks[1..])
  }

  function EncodeKeys(ks: seq<GoKey>): bytes { AppendKeys([|ks| % 256], ks) }

  datatype GoEndpoint =
    GoEndpoint(topicName: bytes, typeName: bytes, qos: seq<GoPolicy>, isKeyed: bool, keys: seq<GoKey>)

  datatype GoPayload =
    | GoEndpointP(endpoint: GoEndpoint)
    | GoUnsubscribeP(topicName: bytes, typeName: bytes)
    | GoTopicWriteP(topicName: bytes, typeName: bytes, qos: seq<GoPolicy>, keys: seq<GoKey>, data: bytes)
    | GoWriterWriteP(writerId: u32, keyBytes: bytes, data: bytes)
    | GoDeleteWriterP(writerId: u32)
    | GoErrorP(code: u16, message: bytes)
    | GoStampedP(topicName: bytes, timestamp: u64, data: bytes)
    | GoNoWritersP(topicName: bytes, data: bytes)

  function EncodeEndpoint(e: GoEndpoint): bytes {
    AppendString(AppendString([], e.topicName), e.typeName) + EncodeQos(e.qos)
    + [BoolByte(e.isKeyed)] + EncodeKeys(e.keys)
  }

  function Encode(p: GoPayload): bytes {
    match p
    case GoEndpointP(e) => EncodeEndpoint(e)
    case GoUnsubscribeP(t, y) => AppendString(AppendString([], t), y)
    case GoTopicWriteP(t, y, q, ks, data) =>
      AppendString(AppendString([0], t), y) + EncodeQos(q) + EncodeKeys(ks) + data
    case GoWriterWriteP(id, key, data) => [1] + Le(id, 4) + Le(|key|, 4) + key + data
    case GoDeleteWriterP(id) => Le(id, 4)
    case GoErrorP(c, m) => AppendString(Le(c, 2), m)
    case GoStampedP(t, ts, data) => AppendString([], t) + Le(ts, 8) + data
    case GoNoWritersP(t, data) => AppendString([], t) + data
  }

  /** The Go value that corresponds to a bridge value. */
  function ToGo(p: Payload): GoPayload {
    match p
    case EndpointP(e) => GoEndpointP(GoEndpoint(e.topicName, e.typeName, GoQosOf(e.qos), e.isKeyed, GoKeysOf(e.keys)))
    case UnsubscribeP(t, y) => GoUnsubscribeP(t, y)
    case WriteP(TopicName(t, y, q, ks, d)) => GoTopicWriteP(t, y, GoQosOf(q), GoKeysOf(ks), d)
    case WriteP(WriterId(id, key, d)) => GoWriterWriteP(id, key, d)
    case DeleteWriterP(id) => GoDeleteWriterP(id)
    case ErrorP(c, m) => GoErrorP(CodeNumber(c), m)
    case StampedP(t, ts, d) => GoStampedP(t, ts, d)
    case NoWritersP(t, d) => GoNoWritersP(t, d)
  }

  lemma {:induction false} AppendStringsIs(dst: bytes, ss: seq<bytes>)
    ensures AppendStrings(dst, ss) == dst + SerializeStrings(ss)
    decreases |ss|
  {
    if ss != [] {
      AppendStringsIs(AppendString(dst, ss[0]), ss[1..]);
      assert AppendString(dst, ss[0]) + SerializeStrings(ss[1..])
          == dst + (WriteString(ss[0]) + SerializeStrings(ss[1..]));
    }
  }

  lemma PolicyDataAgrees(p: QosPolicy)
    ensures GoPolicyOf(p) == GoPolicy(PolicyId(p), PolicyData(p))
  {
    if p.Partition? { AppendStringsIs([|p.partitions| % 256], p.partitions); }
  }

  lemma {:induction false} AppendPoliciesIs(dst: bytes, q: QosSet)
    ensures AppendPolicies(dst, GoQosOf(q)) == dst + SerializePolicies(q)
    decreases |q|
  {
    hide GoPolicyOf, PolicyData, PolicyId;
    if q != [] {
      PolicyDataAgrees(q[0]);
      var d := dst + [PolicyId(q[0])] + PolicyData(q[0]);
      AppendPoliciesIs(d, q[1..]);
      assert GoQosOf(q)[1..] == GoQosOf(q[1..]);
      assert d + SerializePolicies(q[1..]) == dst + SerializePolicies(q);
    }
  }

  lemma {:induction false} AppendKeysIs(dst: bytes, ks: seq<KeyField>)
    ensures AppendKeys(dst, GoKeysOf(ks)) == dst + SerializeKeys(ks)
    decreases |ks|
  {
    hide HintByte, Le;
    if ks != [] {
      var d := dst + SerializeKeyField(ks[0]);
      AppendKeysIs(d, ks[1..]);
      assert GoKeysOf(ks)[1..] == GoKeysOf(ks[1..]);
      assert dst + (Le(ks[0].offset, 4) + Le(ks[0].size, 4) + [HintByte(ks[0].hint)]) == d;
      assert d + SerializeKeys(ks[1..]) == dst + SerializeKeys(ks);
    }
  }

  lemma QosBytesAgree(q: QosSet)
    ensures EncodeQos(GoQosOf(q)) == SerializeQos(q)
  {
    hide GoQosOf, AppendPolicies, SerializePolicies;
    AppendPoliciesIs([|q| % 256], q);
  }

  lemma KeyBytesAgree(ks: seq<KeyField>)
    ensures EncodeKeys(GoKeysOf(ks)) == SerializeKeyDescriptors(ks)
  {
    hide GoKeysOf, AppendKeys, SerializeKeys;
    AppendKeysIs([|ks| % 256], ks);
  }

  lemma Append2(d: bytes, t: bytes, y: bytes, rest: bytes)
    ensures AppendString(AppendString(d, t), y) + rest == d + (WriteString(t) + (WriteString(y) + rest))
  {
    hide Le;
  }

  lemma EndpointBytesAgree(e: Endpoint)
    ensures Encode(ToGo(EndpointP(e))) == SerializeEndpoint(e)
  {
    hide EncodeQos, EncodeKeys, SerializeQos, SerializeKeyDescriptors, GoQosOf, GoKeysOf, WriteString, AppendString;
    QosBytesAgree(e.qos);
    KeyBytesAgree(e.keys);
    var q, f, k := SerializeQos(e.qos), [BoolByte(e.isKeyed)], SerializeKeyDescriptors(e.keys);
    Append2([], e.topicName, e.typeName, q + (f + k));
    var s := AppendString(AppendString([], e.topicName), e.typeName);
    assert s + q + f + k == s + (q + (f + k));
  }

  lemma TopicBytesAgree(m: WriteMode)
    requires m.TopicName?
    ensures Encode(ToGo(WriteP(m))) == SerializeWriteMode(m)
  {
    hide EncodeQos, EncodeKeys, SerializeQos, SerializeKeyDescriptors, GoQosOf, GoKeysOf, WriteString, AppendString;
    QosBytesAgree(m.qos);
    KeyBytesAgree(m.keys);
    var q, k := SerializeQos(m.qos), SerializeKeyDescriptors(m.keys);
    Append2([0], m.topicName, m.typeName, q + (k + m.data));
    var s := AppendString(AppendString([0], m.topicName), m.typeName);
    assert s + q + k + m.data == s + (q + (k + m.data));
  }

  /** Both encoders print the same bytes for corresponding values of every payload kind, whatever the counts. */
  lemma EncodersAgree(p: Payload)
    ensures Encode(ToGo(p)) == Serialize(p)
  {
    if p.EndpointP? {
      EndpointBytesAgree(p.endpoint);
    } else if p.WriteP? && p.mode.TopicName? {
      TopicBytesAgree(p.mode);
    } else {
      hide Encode, Serialize, ToGo;
      SmallBytesAgree(p);
    }
  }

  lemma SmallBytesAgree(p: Payload)
    requires !p.EndpointP? && (p.WriteP? ==> p.mode.WriterId?)
    ensures Encode(ToGo(p)) == Serialize(p)
  {
    hide EncodeEndpoint, SerializeEndpoint, EncodeQos, EncodeKeys, SerializeQos, SerializeKeyDescriptors,
         GoQosOf, GoKeysOf, Le, CodeNumber;
    match p
    case UnsubscribeP(t, y) =>
      Append2([], t, y, []);
      hide WriteString, AppendString;
    case WriteP(m) =>
      assert [1] + Le(m.writerId, 4) + Le(|m.keyBytes|, 4) + m.keyBytes + m.data == SerializeWriteMode(m);
    case DeleteWriterP(_) =>
    case ErrorP(c, m) => Append1(Le(CodeNumber(c), 2), m, []);
    case StampedP(t, ts, data) =>
      Append1([], t, Le(ts, 8) + data);
      hide WriteString, AppendString;
      assert AppendString([], t) + Le(ts, 8) + data == AppendString([], t) + (Le(ts, 8) + data);
    case NoWritersP(t, data) => Append1([], t, data);
  }

  lemma Append1(d: bytes, t: bytes, rest: bytes)
    ensures AppendString(d, t) + rest == d + (WriteString(t) + rest)
  {
    hide Le;
  }

  // ---- Decoders ----

  function DecodeString(d: bytes): Decoded<bytes> {
    if |d| < 4 then GoErr else
    var len := U32At(d);
    if len > GO_MAX_STRING then GoErr
    else if |d| < 4 + len then GoErr
    else Decoded(d[4..4 + len], 4 + len)
  }

  function StringsSize(count: nat, d: bytes): Option<nat> {
    if count == 0 then Some(0)
    else if |d| < 4 then None
    else
      var n := 4 + U32At(d);
      if n > |d| then None
      else match StringsSize(count - 1, d[n..])
        case None => None
        case Some(m) => Some(n + m)
  }

  function PartitionDataSize(d: bytes): Option<nat> {
    if |d| < 1 then None
    else match StringsSize(d[0], d[1..])
      case None => None
      case Some(m) => Some(1 + m)
  }

  function PolicyDataSize(id: u8, d: bytes): Option<nat> {
    match id
    case 0x01 => Some(5) case 0x02 => Some(1) case 0x03 => Some(5) case 0x04 => Some(4) case 0x05 => Some(4)
    case 0x06 => Some(4) case 0x07 => Some(5) case 0x08 => Some(1) case 0x09 => Some(3)
    case 0x0A => PartitionDataSize(d)
    case 0x0B => Some(1) case 0x0C => Some(1) case 0x0D => Some(4)
    case _ => None
  }

  function DecodePolicy(d: bytes): Decoded<GoPolicy> {
    if |d| < 1 then GoErr
    else match PolicyDataSize(d[0], d[1..])
      case None => GoErr
      case Some(size) =>
        if 1 + size > |d| then GoErr else Decoded(GoPolicy(d[0], d[1..1 + size]), 1 + size)
  }

  function DecodePolicies(count: nat, d: bytes): Decoded<seq<GoPolicy>>
    ensures DecodePolicies(count, d).Decoded? ==> DecodePolicies(count, d).n <= |d|
  {
    if count == 0 then Decoded([], 0)
    else match DecodePolicy(d)
      case GoErr => GoErr
      case Decoded(p, n) =>
        match DecodePolicies(count - 1, d[n..])
        case GoErr => GoErr
        case Decoded(ps, m) => Decoded([p] + ps, n + m)
  }

  function DecodeQos(d: bytes): Decoded<seq<GoPolicy>> {
    if |d| < 1 then GoErr
    else match DecodePolicies(d[0], d[1..])
      case GoErr => GoErr
      case Decoded(ps, n) => Decoded(ps, 1 + n)
  }

  function DecodeKeyFields(count: nat, d: bytes): Decoded<seq<GoKey>>
    ensures DecodeKeyFields(count, d).Decoded? ==> DecodeKeyFields(count, d).n <= |d|
  {
    if count == 0 then Decoded([], 0)
    else if |d| < 9 then GoErr
    else match DecodeKeyFields(count - 1, d[9..])
      case GoErr => GoErr
      case Decoded(ks, n) => Decoded([GoKey(U32At(d), U32At(d[4..]), d[8])] + ks, 9 + n)
  }

  function DecodeKeys(d: bytes): Decoded<seq<GoKey>> {
    if |d| < 1 then GoErr
    else match DecodeKeyFields(d[0], d[1..])
      case GoErr => GoErr
      case Decoded(ks, n) => Decoded(ks, 1 + n)
  }

  /** What a decoder leaves: the slice the next one is given. */
  function Tail<T>(d: bytes, r: Decoded<T>): bytes {
    if r.Decoded? && r.n <= |d| then d[r.n..] else []
  }

  function DecodeEndpoint(d: bytes): Option<GoEndpoint> {
    var t := DecodeString(d);
    if t.GoErr? then None else
    var d1 := Tail(d, t);
    var y := DecodeString(d1);
    if y.GoErr? then None else
    var d2 := Tail(d1, y);
    var q := DecodeQos(d2);
    if q.GoErr? then None else
    var d3 := Tail(d2, q);
    if |d3| < 1 then None else
    var d4 := d3[1..];
    var ks := DecodeKeys(d4);
    if ks.GoErr? || ks.n != |d4| then None else
    Some(GoEndpoint(t.value, y.value, q.value, d3[0] != 0, ks.value))
  }

  function DecodeTopicMode(d: bytes): Option<GoPayload> {
    var t := DecodeString(d);
    if t.GoErr? then None else
    var d1 := Tail(d, t);
    var y := DecodeString(d1);
    if y.GoErr? then None else
    var d2 := Tail(d1, y);
    var q := DecodeQos(d2);
    if q.GoErr? then None else
    var d3 := Tail(d2, q);
    var ks := DecodeKeys(d3);
    if ks.GoErr? then None else
    Some(GoTopicWriteP(t.value, y.value, q.value, ks.value, Tail(d3, ks)))
  }

  /** The key length is compared with the remaining length cut to 32 bits. */
  function DecodeWriterMode(d: bytes): Option<GoPayload> {
    if |d| < 8 then None else
    var len := U32At(d[4..]);
    if (|d| - 8) % 0x1_0000_0000 < len then None
    else Some(GoWriterWriteP(U32At(d), d[8..8 + len], d[8 + len..]))
  }

  function DecodeWriteMode(d: bytes): Option<GoPayload> {
    if d == [] then None
    else if d[0] == 0 then DecodeTopicMode(d[1..])
    else if d[0] == 1 then DecodeWriterMode(d[1..])
    else None
  }

  function Decode(k: Kind, d: bytes): Option<GoPayload> {
    match k
    case EndpointK => (match DecodeEndpoint(d) case None => None case Some(e) => Some(GoEndpointP(e)))
    case UnsubscribeK =>
      var t := DecodeString(d);
      if t.GoErr? then None else
      var y := DecodeString(Tail(d, t));
      if y.GoErr? || t.n + y.n != |d| then None else Some(GoUnsubscribeP(t.value, y.value))
    case WriteK => DecodeWriteMode(d)
    case DeleteWriterK => if |d| != 4 then None else Some(GoDeleteWriterP(U32At(d)))
    case ErrorK =>
      if |d| < 2 then None else
      var m := DecodeString(d[2..]);
      if m.GoErr? || 2 + m.n != |d| then None else Some(GoErrorP(U16At(d), m.value))
    case StampedK =>
      var t := DecodeString(d);
      if t.GoErr? || t.n + 8 > |d| then None else Some(GoStampedP(t.value, U64At(d[t.n..]), d[t.n + 8..]))
    case NoWritersK =>
      var t := DecodeString(d);
      if t.GoErr? then None else Some(GoNoWritersP(t.value, Tail(d, t)))
  }

  // ---- Whatever the bridge's parser accepts, the Go decoder accepts alike ----

  /** The Go result uses exactly the bytes the bridge's cursor moved over. */
  ghost predicate Agrees<S, T>(b: bytes, r: Parsed<S>, g: Decoded<T>, v: T) {
    r.Parsed? && g.Decoded? && g.value == v && g.n <= |b| && b[g.n..] == r.rest
  }

  lemma StringAgrees(b: bytes)
    requires ReadString(b).Parsed?
    ensures Agrees(b, ReadString(b), DecodeString(b), ReadString(b).value)
  {
    hide U32At, ValidUtf8;
    var len := U32At(b);
    assert b[4..][..len] == b[4..4 + len] && b[4..][len..] == b[4 + len..];
  }

  lemma {:induction false} StringsSizeAgrees(n: nat, b: bytes)
    requires ReadStrings(n, b).Parsed?
    ensures var r := ReadStrings(n, b);
            var s := StringsSize(n, b);
            s.Some? && s.value <= |b| && b[s.value..] == r.rest && b[..s.value] == SerializeStrings(r.value)
  {
    hide ReadString, WriteString, ValidUtf8, DecodeString, U32At;
    if n > 0 {
      StringAgrees(b);
      StringCanonical(b);
      StringSizeAgrees(b);
      var s := ReadString(b);
      StringsSizeAgrees(n - 1, s.rest);
      var k := 4 + U32At(b);
      var m := StringsSize(n - 1, s.rest).value;
      assert b[k..] == s.rest;
      assert b[k + m..] == b[k..][m..];
      assert b[..k + m] == b[..k] + b[k..][..m];
      var r := ReadStrings(n, b);
      assert r.value[1..] == ReadStrings(n - 1, s.rest).value;
    }
  }

  lemma StringSizeAgrees(b: bytes)
    requires ReadString(b).Parsed?
    ensures var n := 4 + U32At(b);
            n <= |b| && b[n..] == ReadString(b).rest && b[..n] == WriteString(ReadString(b).value)
  {
    hide U32At, ValidUtf8, Encodable;
    StringCanonical(b);
    var n := 4 + U32At(b);
    assert b[4..][U32At(b)..] == b[n..];
    assert |WriteString(ReadString(b).value)| == n;
    assert b[..n] == (WriteString(ReadString(b).value) + ReadString(b).rest)[..n];
  }

  lemma PolicySizeAgrees(id: u8, b: bytes)
    requires ParsePolicyData(id, b).Parsed?
    ensures PolicyDataSize(id, b) == Some(|PolicyData(ParsePolicyData(id, b).value)|)
  {
    hide ReadString, ReadStrings, StringsSize, SerializeStrings, ValidUtf8, U32At, Le;
    if id == 10 {
      StringsSizeAgrees(b[0], b[1..]);
      var m := StringsSize(b[0], b[1..]).value;
      assert |b[1..][..m]| == m;
    }
  }

  lemma PolicyAgrees(b: bytes)
    requires |b| >= 1 && ParsePolicyData(b[0], b[1..]).Parsed?
    ensures var r := ParsePolicyData(b[0], b[1..]); Agrees(b, r, DecodePolicy(b), GoPolicyOf(r.value))
  {
    hide ParsePolicyData, PolicyDataSize, PolicyData, GoPolicyOf, PolicyId, InRange;
    var r := ParsePolicyData(b[0], b[1..]);
    PolicyCanonical(b[0], b[1..]);
    PolicySizeAgrees(b[0], b[1..]);
    PolicyDataAgrees(r.value);
    var size := |PolicyData(r.value)|;
    assert b[1..1 + size] == b[1..][..size] == PolicyData(r.value);
    assert b[1 + size..] == b[1..][size..] == r.rest;
  }

  lemma {:induction false} PoliciesAgree(n: nat, seen: set<u8>, b: bytes)
    requires ParsePolicies(n, seen, b).Parsed?
    ensures var r := ParsePolicies(n, seen, b); Agrees(b, r, DecodePolicies(n, b), GoQosOf(r.value))
  {
    hide ParsePolicyData, DecodePolicy, GoPolicyOf;
    if n > 0 {
      PolicyAgrees(b);
      var p := ParsePolicyData(b[0], b[1..]);
      var k := DecodePolicy(b).n;
      PoliciesAgree(n - 1, seen + {b[0]}, p.rest);
      var m := DecodePolicies(n - 1, p.rest).n;
      assert b[k + m..] == b[k..][m..];
      var ps := ParsePolicies(n - 1, seen + {b[0]}, p.rest).value;
      assert GoQosOf([p.value] + ps) == [GoPolicyOf(p.value)] + GoQosOf(ps);
    }
  }

  lemma QosAgrees(b: bytes)
    requires ParseQos(b).Parsed?
    ensures Agrees(b, ParseQos(b), DecodeQos(b), GoQosOf(ParseQos(b).value))
  {
    hide ParsePolicies, DecodePolicies, GoQosOf;
    PoliciesAgree(b[0], {}, b[1..]);
    var n := DecodePolicies(b[0], b[1..]).n;
    assert b[1 + n..] == b[1..][n..];
  }

  lemma HintAgrees(b: u8)
    requires HintFromByte(b).Some?
    ensures HintByte(HintFromByte(b).value) == b
  {
  }

  lemma {:induction false} KeyFieldsAgree(n: nat, b: bytes)
    requires ParseKeys(n, b).Parsed?
    ensures var r := ParseKeys(n, b); Agrees(b, r, DecodeKeyFields(n, b), GoKeysOf(r.value))
  {
    hide U32At, HintByte, HintFromByte;
    if n > 0 {
      HintAgrees(b[8]);
      KeyFieldsAgree(n - 1, b[9..]);
      var m := DecodeKeyFields(n - 1, b[9..]).n;
      assert b[9 + m..] == b[9..][m..];
      var k, ks := ParseKeyField(b).value, ParseKeys(n - 1, b[9..]).value;
      assert GoKeysOf([k] + ks) == [GoKey(k.offset, k.size, HintByte(k.hint))] + GoKeysOf(ks);
    }
  }

  lemma KeysAgree(b: bytes)
    requires ParseKeyDescriptors(b).Parsed?
    ensures Agrees(b, ParseKeyDescriptors(b), DecodeKeys(b), GoKeysOf(ParseKeyDescriptors(b).value))
  {
    hide ParseKeys, DecodeKeyFields, GoKeysOf;
    KeyFieldsAgree(b[0], b[1..]);
    var n := DecodeKeyFields(b[0], b[1..]).n;
    assert b[1 + n..] == b[1..][n..];
  }

  lemma EndpointAgrees(b: bytes)
    requires ParseEndpoint(b).Success?
    ensures Decode(EndpointK, b) == Some(ToGo(EndpointP(ParseEndpoint(b).value)))
  {
    hide ReadString, DecodeString, ParseQos, DecodeQos, ParseKeyDescriptors, DecodeKeys, GoQosOf, GoKeysOf;
    var t := ReadString(b);
    var y := ReadString(t.rest);
    var q := ParseQos(y.rest);
    StringAgrees(b);
    StringAgrees(t.rest);
    QosAgrees(y.rest);
    KeysAgree(q.rest[1..]);
    assert ParseKeyDescriptors(q.rest[1..]).rest == [];
  }

  lemma TopicModeAgrees(b: bytes)
    ensures ParseTopicMode(b).Parsed? ==> DecodeTopicMode(b) == Some(ToGo(WriteP(ParseTopicMode(b).value)))
  {
    hide ReadString, DecodeString, ParseQos, DecodeQos, ParseKeyDescriptors, DecodeKeys, GoQosOf, GoKeysOf;
    if ParseTopicMode(b).Parsed? {
      var t := ReadString(b);
      var y := ReadString(t.rest);
      var q := ParseQos(y.rest);
      StringAgrees(b);
      StringAgrees(t.rest);
      QosAgrees(y.rest);
      KeysAgree(q.rest);
    }
  }

  /** In writer-id mode the 32-bit comparison decides: the Go decoder follows the bridge exactly when it passes. */
  lemma WriterModeAgrees(b: bytes)
    requires ParseWriterMode(b).Parsed?
    ensures DecodeWriterMode(b) == Some(ToGo(WriteP(ParseWriterMode(b).value)))
       <==> (|b| - 8) % 0x1_0000_0000 >= U32At(b[4..])
    ensures |b| - 8 < 0x1_0000_0000 ==> DecodeWriterMode(b) == Some(ToGo(WriteP(ParseWriterMode(b).value)))
  {
    hide U32At;
    var len := U32At(b[4..]);
    assert b[8..][..len] == b[8..8 + len] && b[8..][len..] == b[8 + len..];
  }

  lemma ShortAgrees(k: Kind, b: bytes)
    requires k != EndpointK && k != WriteK && ParsePayload(k, b).Success?
    ensures Decode(k, b) == Some(ToGo(ParsePayload(k, b).value))
  {
    hide ReadString, DecodeString, U32At, U64At, U16At;
    match k
    case UnsubscribeK =>
      StringAgrees(b);
      StringAgrees(ReadString(b).rest);
      assert ReadString(ReadString(b).rest).rest == [];
    case DeleteWriterK =>
    case ErrorK =>
      StringAgrees(b[2..]);
      assert ReadString(b[2..]).rest == [];
    case StampedK =>
      StringAgrees(b);
      var n := DecodeString(b).n;
      assert b[n + 8..] == b[n..][8..];
    case NoWritersK => StringAgrees(b);
  }

  /** The only payloads on which the two sides can part: a write by id whose length, cut to 32 bits, hides the key. */
  predicate KeyHidden(k: Kind, b: bytes) {
    k == WriteK && |b| >= 9 && b[0] == 1 && (|b| - 9) % 0x1_0000_0000 < U32At(b[5..])
  }

  /** A payload the bridge's parser accepts is decoded by the client to the corresponding value exactly when it is
      not one of these; below 4 GiB, all that a header's 32-bit length can announce, there are none. */
  lemma DecodersAgree(k: Kind, b: bytes)
    requires ParsePayload(k, b).Success?
    ensures Decode(k, b) == Some(ToGo(ParsePayload(k, b).value)) <==> !KeyHidden(k, b)
    ensures |b| < 0x1_0000_0000 ==> !KeyHidden(k, b)
  {
    if |b| < 0x1_0000_0000 { NotHidden(k, b); }
    hide ParseEndpoint, ParseTopicMode, ParseWriterMode, DecodeTopicMode, DecodeWriterMode, DecodeEndpoint, ToGo;
    if k == EndpointK {
      EndpointAgrees(b);
    } else if k == WriteK {
      if b[0] == 0 {
        TopicModeAgrees(b[1..]);
      } else {
        WriterModeAgrees(b[1..]);
        WriterModeLength(b[1..]);
        assert b[1..][4..] == b[5..];
      }
    } else {
      ShortAgrees(k, b);
    }
  }

  lemma WriterModeLength(b: bytes)
    requires ParseWriterMode(b).Parsed?
    ensures |b| >= 8
  {
  }

  lemma NotHidden(k: Kind, b: bytes)
    requires ParsePayload(k, b).Success? && |b| < 0x1_0000_0000
    ensures !KeyHidden(k, b)
  {
    hide ParseEndpoint, ParseTopicMode, U32At;
    if k == WriteK && |b| >= 9 && b[0] == 1 { assert b[1..][4..] == b[5..]; }
  }

  /** Beyond 4 GiB the two sides part: with 2^32 bytes after the length, a one-byte key is refused by the client
      only. */
  lemma WriterModeParts(pad: bytes)
    requires |pad| == 0x1_0000_0000
    ensures var b := Le(7, 4) + (Le(1, 4) + pad);
            ParseWriterMode(b).Parsed? && DecodeWriterMode(b).None?
  {
    hide U32At, Le;
    var b := Le(7, 4) + (Le(1, 4) + pad);
    ReadLe32(7, Le(1, 4) + pad);
    ReadLe32(1, pad);
    assert |b| - 8 == 0x1_0000_0000;
  }

  // ---- Headers ----

  datatype GoHeader = GoHeader(version: u8, msgType: u8, requestId: u32, payloadLength: u32)

  function DecodeHeader(d: bytes): Option<GoHeader> {
    if |d| < HEADER_SIZE then None
    else if d[0] != 0x44 || d[1] != 0x42 then None
    else if d[2] > VERSION then None
    else Some(GoHeader(d[2], d[3], U32At(d[4..]), U32At(d[8..])))
  }

  function GoBuildMessage(t: u8, requestId: u32, payload: bytes): bytes {
    [0x44, 0x42, VERSION, t] + Le(requestId, 4) + Le(|payload| % 0x1_0000_0000, 4) + payload
  }

  /** Client frames and bridge messages are built alike, and each side reads the other's header back. */
  lemma HeadersAgree(t: MsgType, id: u32, payload: bytes)
    ensures GoBuildMessage(MsgByte(t), id, payload) == BuildMessage(t, id, payload)
    ensures var d := BuildMessage(t, id, payload);
            var len := |payload| % 0x1_0000_0000;
            && |d| == 12 + |payload| && d[12..] == payload
            && ParseHeader(d) == Parsed(Header(1, t, id, len), payload)
            && DecodeHeader(d) == Some(GoHeader(1, MsgByte(t), id, len))
  {
    hide U32At, Le, MsgByte, MsgFromByte;
    var len := |payload| % 0x1_0000_0000;
    var h := Header(1, t, id, len);
    HeaderRoundTrip(h, payload);
    var d := BuildMessage(t, id, payload);
    assert GoBuildMessage(MsgByte(t), id, payload) == d;
    assert d[3] == MsgByte(t);
  }

  // ---- The decoders' loops ----

  /** `partitionDataSize`: step `pos` over each length prefix and body. */
  method PartitionDataSizeLoop(data: bytes) returns (r: Option<nat>)
    ensures r == PartitionDataSize(data)
  {
    hide U32At;
    if |data| < 1 { return None; }
    var count, pos := data[0], 1;
    for i := 0 to count
      invariant 1 <= pos <= |data|
      invariant PartitionDataSize(data)
             == match StringsSize(count - i, data[pos..]) case None => None case Some(m) => Some(pos + m)
    {
      if pos + 4 > |data| { return None; }
      var next := pos + 4 + U32At(data[pos..]);
      if next > |data| { return None; }
      assert data[pos..][next - pos..] == data[next..];
      pos := next;
    }
    return Some(pos);
  }

  function PrependPolicies(done: seq<GoPolicy>, pos: nat, r: Decoded<seq<GoPolicy>>): Decoded<seq<GoPolicy>> {
    if r.GoErr? then GoErr else Decoded(done + r.value, pos + r.n)
  }

  lemma DecodeStep(done: seq<GoPolicy>, pos: nat, n: nat, data: bytes)
    requires pos <= |data|
    ensures var whole := PrependPolicies(done, pos, DecodePolicies(n + 1, data[pos..]));
            var p := DecodePolicy(data[pos..]);
            if p.GoErr? then whole == GoErr
            else
              p.n <= |data| - pos &&
              whole == PrependPolicies(done + [p.value], pos + p.n, DecodePolicies(n, data[pos + p.n..]))
  {
    hide PolicyDataSize;
    var p := DecodePolicy(data[pos..]);
    if p.Decoded? {
      assert data[pos..][p.n..] == data[pos + p.n..];
      var rest := DecodePolicies(n, data[pos + p.n..]);
      assert rest.Decoded? ==> done + [p.value] + rest.value == done + ([p.value] + rest.value);
    }
  }

  /** `decodeQos`: raw policies cut out of the buffer at `pos`. */
  method DecodeQosLoop(data: bytes) returns (r: Decoded<seq<GoPolicy>>)
    ensures r == DecodeQos(data)
  {
    hide PolicyDataSize, DecodePolicies;
    if |data| < 1 { return GoErr; }
    var count, pos := data[0], 1;
    var policies: seq<GoPolicy> := [];
    ghost var whole := DecodeQos(data);
    assert whole.Decoded? ==> [] + whole.value == whole.value;
    for i := 0 to count
      invariant 1 <= pos <= |data|
      invariant whole == PrependPolicies(policies, pos, DecodePolicies(count - i, data[pos..]))
    {
      DecodeStep(policies, pos, count - i - 1, data);
      if pos >= |data| { return GoErr; }
      var id := data[pos];
      assert data[pos..][1..] == data[pos + 1..];
      var size := PolicyDataSize(id, data[pos + 1..]);
      if size.None? { return GoErr; }
      var next := pos + 1 + size.value;
      if next > |data| { return GoErr; }
      assert data[pos..][1..1 + size.value] == data[pos..][1..][..size.value] == data[pos + 1..next];
      policies, pos := policies + [GoPolicy(id, data[pos + 1..next])], next;
    }
    DecodeEnd(policies, pos, data[pos..]);
    return Decoded(policies, pos);
  }

  lemma DecodeEnd(done: seq<GoPolicy>, pos: nat, d: bytes)
    ensures PrependPolicies(done, pos, DecodePolicies(0, d)) == Decoded(done, pos)
  {
    assert done + [] == done;
  }

  function PrependFields(done: seq<GoKey>, pos: nat, r: Decoded<seq<GoKey>>): Decoded<seq<GoKey>> {
    if r.GoErr? then GoErr else Decoded(done + r.value, pos + r.n)
  }

  /** `decodeKeyDescriptors`: nine bytes a field. */
  method DecodeKeysLoop(data: bytes) returns (r: Decoded<seq<GoKey>>)
    ensures r == DecodeKeys(data)
  {
    hide U32At;
    if |data| < 1 { return GoErr; }
    var count, pos := data[0], 1;
    var keys: seq<GoKey> := [];
    ghost var whole := DecodeKeys(data);
    assert whole.Decoded? ==> [] + whole.value == whole.value;
    for i := 0 to count
      invariant 1 <= pos <= |data|
      invariant whole == PrependFields(keys, pos, DecodeKeyFields(count - i, data[pos..]))
    {
      if pos + 9 > |data| { return GoErr; }
      var k := GoKey(U32At(data[pos..]), U32At(data[pos + 4..]), data[pos + 8]);
      assert data[pos..][4..] == data[pos + 4..] && data[pos..][9..] == data[pos + 9..];
      ghost var rest := DecodeKeyFields(count - i - 1, data[pos + 9..]);
      assert rest.Decoded? ==> keys + [k] + rest.value == keys + ([k] + rest.value);
      keys, pos := keys + [k], pos + 9;
    }
    assert keys + [] == keys;
    return Decoded(keys, pos);
  }
}
