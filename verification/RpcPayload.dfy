/** RPC payloads carried in TLV records (src/workloads/rpc-response-state-conformance.ts). */
module RpcPayload {
  import opened Wrappers
  import opened Sequences
  import opened BigEndian
  import Tlv

  const RPC_REQUEST := 302

  /** A worker request; the route is kept as the bytes on the wire. */
  datatype Request = Request(correlation: seq<byte>, route: seq<byte>, body: seq<byte>)

  datatype RpcError =
    | BadCorrelation(length: nat)
    | RequestTruncated
    | RouteTruncated
    | BodyMalformed

  /** `encodeBytes` and `encodeString`: a four-byte length and the bytes. */
  function EncodeBytes(value: seq<byte>): seq<byte> {
    U32(|value|) + value
  }

  method ConcatBytes(parts: seq<seq<byte>>) returns (result: array<byte>)
    ensures fresh(result) && result[..] == Flatten(parts)
  {
    var size := 0;
    for i := 0 to |parts|
      invariant size == |Flatten(parts[..i])|
    {
      FlattenNext(parts, i + 1);
      size := size + |parts[i]|;
    }
    assert parts[..|parts|] == parts;
    result := new byte[size];
    var offset := 0;
    for i := 0 to |parts|
      invariant offset == |Flatten(parts[..i])| <= size
      invariant result[..offset] == Flatten(parts[..i])
    {
      FlattenNext(parts, i + 1);
      FlattenPrefix(parts, i + 1);
      var part := parts[i];
      forall k | 0 <= k < |part| {
        result[offset + k] := part[k];
      }
      assert result[..offset + |part|] == Flatten(parts[..i]) + part;
      offset := offset + |part|;
    }
  }

  // ---------- worker requests ----------

  function DecodeRpcWorkerRequest(payload: seq<byte>): Result<Request, RpcError> {
    if |payload| < 24 then Err(RequestTruncated)
    else
      var routeEnd := 20 + ReadU32(payload[16..20]);
      if routeEnd + 4 > |payload| then Err(RouteTruncated)
      else
        var bodyStart := routeEnd + 4;
        if bodyStart + ReadU32(payload[routeEnd..bodyStart]) != |payload| then Err(BodyMalformed)
        else Ok(Request(payload[..16], payload[20..routeEnd], payload[bodyStart..]))
  }

  function RequestPayload(q: Request): seq<byte> {
    q.correlation + EncodeBytes(q.route) + EncodeBytes(q.body)
  }

  predicate Framable(q: Request) {
    |q.correlation| == 16 && |q.route| < TWO_32 && |q.body| < TWO_32
  }

  lemma {:induction false} DecodedIsPayload(payload: seq<byte>)
    requires DecodeRpcWorkerRequest(payload).Ok?
    ensures var q := DecodeRpcWorkerRequest(payload).value;
            Framable(q) && payload == RequestPayload(q)
  {
    var q := DecodeRpcWorkerRequest(payload).value;
    var routeEnd := 20 + |q.route|;
    WriteReadU32(payload[16..20]);
    WriteReadU32(payload[routeEnd..routeEnd + 4]);
    assert payload[16..20] + q.route == payload[16..routeEnd];
    assert payload[routeEnd..routeEnd + 4] + q.body == payload[routeEnd..];
    assert payload == payload[..16] + payload[16..routeEnd] + payload[routeEnd..];
  }

  lemma PayloadDecodes(q: Request)
    requires Framable(q)
    ensures DecodeRpcWorkerRequest(RequestPayload(q)) == Ok(q)
  {
    LengthReads(|q.route|);
    LengthReads(|q.body|);
    PartsDecode(q, U32(|q.route|), U32(|q.body|));
  }

  lemma LengthReads(n: nat)
    requires n < TWO_32
    ensures ReadU32(U32(n)) == n
  {
    ReadWriteU32(n);
  }

  lemma PartsDecode(q: Request, routeLength: seq<byte>, bodyLength: seq<byte>)
    requires |q.correlation| == 16
    requires |routeLength| == 4 && ReadU32(routeLength) == |q.route|
    requires |bodyLength| == 4 && ReadU32(bodyLength) == |q.body|
    ensures DecodeRpcWorkerRequest(q.correlation + (routeLength + q.route) + (bodyLength + q.body)) == Ok(q)
  {
    FiveParts(q.correlation, routeLength, q.route, bodyLength, q.body);
    var p := q.correlation + (routeLength + q.route) + (bodyLength + q.body);
    DecodeFields(p, q, routeLength, bodyLength);
  }

  lemma DecodeFields(p: seq<byte>, q: Request, routeLength: seq<byte>, bodyLength: seq<byte>)
    requires |routeLength| == 4 && ReadU32(routeLength) == |q.route|
    requires |bodyLength| == 4 && ReadU32(bodyLength) == |q.body|
    requires |q.correlation| == 16 && Consists(p, q.correlation, routeLength, q.route, bodyLength, q.body)
    ensures DecodeRpcWorkerRequest(p) == Ok(q)
  {
  }

  /** `p` is five parts one after the other. */
  predicate Consists(p: seq<byte>, a: seq<byte>, b: seq<byte>, c: seq<byte>, d: seq<byte>, e: seq<byte>) {
    var i := |a|;
    var j := i + |b|;
    var k := j + |c|;
    var l := k + |d|;
    && |p| == l + |e|
    && p[..i] == a && p[i..j] == b && p[j..k] == c && p[k..l] == d && p[l..] == e
  }

  lemma FiveParts(a: seq<byte>, b: seq<byte>, c: seq<byte>, d: seq<byte>, e: seq<byte>)
    ensures Consists(a + (b + c) + (d + e), a, b, c, d, e)
  {
    var p := a + (b + c) + (d + e);
    assert p == a + b + c + d + e;
    assert a + b + c + d == p[..|a| + |b| + |c| + |d|];
  }

  /** The decoder accepts exactly the payloads built from three well-sized fields, and returns those fields. */
  lemma {:induction false} RequestDecodesIff(payload: seq<byte>, q: Request)
    ensures DecodeRpcWorkerRequest(payload) == Ok(q) <==> Framable(q) && payload == RequestPayload(q)
  {
    if DecodeRpcWorkerRequest(payload).Ok? {
      DecodedIsPayload(payload);
    }
    if Framable(q) {
      PayloadDecodes(q);
    }
  }

  /** A payload cut short is rejected with the error of the field it ends in, one with bytes too many as malformed. */
  lemma CutRequestRejected(q: Request, cut: nat, extra: seq<byte>)
    requires Framable(q) && cut < |RequestPayload(q)| && extra != []
    ensures DecodeRpcWorkerRequest(RequestPayload(q)[..cut])
         == Err(if cut < 24 then RequestTruncated else if cut < 24 + |q.route| then RouteTruncated else BodyMalformed)
    ensures DecodeRpcWorkerRequest(RequestPayload(q) + extra) == Err(BodyMalformed)
  {
    var p := RequestPayload(q);
    LengthReads(|q.route|);
    LengthReads(|q.body|);
    FiveParts(q.correlation, U32(|q.route|), q.route, U32(|q.body|), q.body);
    LengthsIn(p, q, p[..cut]);
    LengthsIn(p, q, p + extra);
  }

  lemma LengthsIn(p: seq<byte>, q: Request, other: seq<byte>)
    requires Framable(q) && Consists(p, q.correlation, U32(|q.route|), q.route, U32(|q.body|), q.body)
    requires other <= p || p <= other
    ensures |other| >= 20 ==> other[16..20] == U32(|q.route|)
    ensures |other| >= 24 + |q.route| ==> other[20 + |q.route|..24 + |q.route|] == U32(|q.body|)
  {
    if |other| >= 20 {
      assert other[16..20] == p[16..20];
    }
    if |other| >= 24 + |q.route| {
      assert other[20 + |q.route|..24 + |q.route|] == p[20 + |q.route|..24 + |q.route|];
    }
  }

  /** `decodeTlvs(frame).find((candidate) => candidate.type === type)`. */
  function Find(records: seq<Tlv.Record>, typ: int): Option<seq<byte>> {
    if records == [] then None
    else if records[0].typ == typ then Some(records[0].payload)
    else Find(records[1..], typ)
  }

  lemma {:induction false} FindFirst(before: seq<Tlv.Record>, r: Tlv.Record, after: seq<Tlv.Record>)
    requires forall i :: 0 <= i < |before| ==> before[i].typ != r.typ
    ensures Find(before + [r] + after, r.typ) == Some(r.payload)
  {
    if before != [] {
      assert (before + [r] + after)[1..] == before[1..] + [r] + after;
      FindFirst(before[1..], r, after);
    }
  }

  /** A request survives the TLV layer, whatever other records share its frame. */
  lemma RequestThroughTlv(q: Request, before: seq<Tlv.Record>, after: seq<Tlv.Record>)
    requires |q.correlation| == 16 && |RequestPayload(q)| <= 0xffff
    requires Tlv.AllEncodable(before) && Tlv.AllEncodable(after)
    requires forall i :: 0 <= i < |before| ==> before[i].typ != RPC_REQUEST
    ensures var record := Tlv.Record(302, RequestPayload(q));
            var records := before + [record] + after;
            && Tlv.AllEncodable(records)
            && Tlv.Decode(Tlv.EncodeAll(records)) == Ok(records)
            && Find(records, RPC_REQUEST) == Some(RequestPayload(q))
            && DecodeRpcWorkerRequest(RequestPayload(q)) == Ok(q)
  {
    var record := Tlv.Record(RPC_REQUEST, RequestPayload(q));
    Tlv.DecodeEncode(before + [record] + after);
    FindFirst(before, record, after);
    PayloadDecodes(q);
  }

  // ---------- responses ----------

  function EncodeRpcResponsePayload(
    correlation: seq<byte>, sequence: nat, terminal: bool, body: seq<byte>
  ): Result<seq<byte>, RpcError>
  {
    if |correlation| != 16 then Err(BadCorrelation(|correlation|))
    else Ok(correlation + U64(sequence) + [if terminal then 1 else 0] + EncodeBytes(body))
  }

  /** Two responses with the same bytes are the same response: no field can be mistaken for another. */
  lemma ResponseUnambiguous(
    c1: seq<byte>, s1: nat, t1: bool, b1: seq<byte>,
    c2: seq<byte>, s2: nat, t2: bool, b2: seq<byte>
  )
    requires s1 < TWO_64 && s2 < TWO_64
    requires EncodeRpcResponsePayload(c1, s1, t1, b1).Ok?
    requires EncodeRpcResponsePayload(c1, s1, t1, b1) == EncodeRpcResponsePayload(c2, s2, t2, b2)
    ensures c1 == c2 && s1 == s2 && t1 == t2 && b1 == b2
  {
    ResponseFields(c1, s1, t1, b1);
    ResponseFields(c2, s2, t2, b2);
    ReadWriteU64(s1);
    ReadWriteU64(s2);
  }

  lemma ResponseFields(c: seq<byte>, s: nat, t: bool, b: seq<byte>)
    requires |c| == 16
    ensures var p := EncodeRpcResponsePayload(c, s, t, b).value;
            && |p| == 29 + |b|
            && p[..16] == c && p[16..24] == U64(s) && p[24] == (if t then 1 else 0)
            && p[25..29] == U32(|b|) && p[29..] == b
  {
  }
}
