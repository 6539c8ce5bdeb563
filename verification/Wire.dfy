// The RPC wire format: requests, responses and frames as byte strings.
module Wire {
  import opened Wrappers
  import opened Bytes

  // What a Request and a Response hold; nil and empty fields are the same.
  datatype Req = Req(headLength: u32, bodyLength: u32, requestId: u32, version: byte, compresser: byte,
                     serializer: byte, serviceName: bytes, methodName: bytes, meta: map<bytes, bytes>, data: bytes)

  datatype Resp = Resp(headLength: u32, bodyLength: u32, requestId: u32, version: byte, compresser: byte,
                       serializer: byte, error: bytes, data: bytes)

  // The fifteen bytes both kinds of message start with.
  function Prefix(head: u32, body: u32, id: u32, version: byte, compresser: byte, serializer: byte): (b: bytes)
    ensures |b| == 15
  {
    PutUint32(head) + PutUint32(body) + PutUint32(id) + [version, compresser, serializer]
  }

  // Writing `header` and then `data` into head + body bytes, both lengths
  // taken modulo 2^32: a panic when the header does not fit; the data is cut
  // or padded with zeros.
  function Pack(head: u32, body: u32, header: bytes, data: bytes): (r: Option<bytes>)
    ensures r.Some? ==> |r.value| == Truncate(head + body)
  {
    var n := Truncate(head + body);
    if n < |header| then None else Some(header + Fit(data, n - |header|))
  }

  // ---------- requests ----------

  // `order` is one of the orders in which `meta` can be iterated.
  ghost predicate Enumerates(order: seq<bytes>, meta: map<bytes, bytes>) {
    && (forall k :: k in order <==> k in meta)
    && forall i, j :: 0 <= i < j < |order| ==> order[i] != order[j]
  }

  function MetaBytes(meta: map<bytes, bytes>, order: seq<bytes>): bytes
    requires forall k <- order :: k in meta
  {
    if order == [] then [] else
      MetaBytes(meta, order[..|order| - 1]) + PairBytes(meta, order[|order| - 1])
  }

  function PairBytes(meta: map<bytes, bytes>, key: bytes): bytes
    requires key in meta
  {
    key + [RETURN] + meta[key] + [NEWLINE]
  }

  function PrefixOf(q: Req): (p: bytes)
    ensures |p| == 15
  {
    Prefix(q.headLength, q.bodyLength, q.requestId, q.version, q.compresser, q.serializer)
  }

  // The variable part of a request header.
  function NameBytes(q: Req, order: seq<bytes>): (b: bytes)
    requires forall k <- order :: k in q.meta
    ensures |b| == |q.serviceName| + 1 + |q.methodName| + 1 + |MetaBytes(q.meta, order)|
  {
    q.serviceName + [NEWLINE] + q.methodName + [NEWLINE] + MetaBytes(q.meta, order)
  }

  function ReqHeader(q: Req, order: seq<bytes>): bytes
    requires forall k <- order :: k in q.meta
  {
    PrefixOf(q) + NameBytes(q, order)
  }

  function EncodeReq(q: Req, order: seq<bytes>): Option<bytes>
    requires forall k <- order :: k in q.meta
  {
    Pack(q.headLength, q.bodyLength, ReqHeader(q, order), q.data)
  }

  // The sum CalculateHeaderLength computes when it iterates in `order`.
  function HeaderLength(q: Req, order: seq<bytes>): nat
    requires forall k <- order :: k in q.meta
  {
    15 + |q.serviceName| + 1 + |q.methodName| + 1 + |MetaBytes(q.meta, order)|
  }

  // Both length calculators.
  function Measured(q: Req, order: seq<bytes>): Req
    requires forall k <- order :: k in q.meta
  {
    q.(headLength := Truncate(HeaderLength(q, order)), bodyLength := Truncate(|q.data|))
  }

  // The metadata loop of DecodeReq; None is a panic.
  function ParseMeta(header: bytes, meta: map<bytes, bytes>): Option<map<bytes, bytes>>
    decreases |header|
  {
    var i := IndexByte(header, NEWLINE);
    if i == -1 then Some(meta) else
      var pair := header[..i];
      var j := IndexByte(pair, RETURN);
      if j == -1 then None else ParseMeta(header[i + 1..], meta[pair[..j] := pair[j + 1..]])
  }

  function ParseNames(header: bytes): Option<(bytes, bytes, bytes)> {
    var i := IndexByte(header, NEWLINE);
    if i == -1 then None else
      var rest := header[i + 1..];
      var j := IndexByte(rest, NEWLINE);
      if j == -1 then None else Some((header[..i], rest[..j], rest[j + 1..]))
  }

  // The variable part of a header: both names and the metadata.
  function ParseHeader(header: bytes): Option<(bytes, bytes, map<bytes, bytes>)> {
    match ParseNames(header)
    case None => None
    case Some((service, name, rest)) =>
      match ParseMeta(rest, map[])
      case None => None
      case Some(meta) => Some((service, name, meta))
  }

  function DecodeReq(d: bytes): Option<Req> {
    if |d| < 15 then None else
      var head, body := Uint32(d[..4]), Uint32(d[4..8]);
      if !(15 <= head <= |d|) then None else
        match ParseHeader(d[15..head])
        case None => None
        case Some((service, name, meta)) =>
          Some(Req(head, body, Uint32(d[8..12]), d[12], d[13], d[14], service, name, meta,
                   if body != 0 then d[head..] else []))
  }

  // ---------- responses ----------

  function RespHeader(p: Resp): bytes {
    Prefix(p.headLength, p.bodyLength, p.requestId, p.version, p.compresser, p.serializer) + p.error
  }

  function EncodeResp(p: Resp): Option<bytes> {
    Pack(p.headLength, p.bodyLength, RespHeader(p), p.data)
  }

  function MeasuredResp(p: Resp): Resp {
    p.(headLength := Truncate(15 + Truncate(|p.error|)), bodyLength := Truncate(|p.data|))
  }

  function DecodeResp(d: bytes): Option<Resp> {
    if |d| < 15 then None else
      var head, body := Uint32(d[..4]), Uint32(d[4..8]);
      if head > |d| && (head > 15 || body != 0) then None else
        Some(Resp(head, body, Uint32(d[8..12]), d[12], d[13], d[14],
                  if head > 15 then d[15..head] else [], if body != 0 then d[head..] else []))
  }

  // ---------- the common part ----------

  lemma PrefixFields(head: u32, body: u32, id: u32, version: byte, compresser: byte, serializer: byte, rest: bytes)
    ensures var d := Prefix(head, body, id, version, compresser, serializer) + rest;
      && Uint32(d[..4]) == head && Uint32(d[4..8]) == body && Uint32(d[8..12]) == id
      && d[12] == version && d[13] == compresser && d[14] == serializer && d[15..] == rest
  {
    var d := Prefix(head, body, id, version, compresser, serializer) + rest;
    assert d[..4] == PutUint32(head) && d[4..8] == PutUint32(body) && d[8..12] == PutUint32(id);
    Uint32RoundTrip(head);
    Uint32RoundTrip(body);
    Uint32RoundTrip(id);
  }

  // With lengths computed from a header of `h` bytes and a body of `b`, both
  // modulo 2^32: when everything fits the packed frame is header and data, and
  // otherwise packing panics or leaves less room than the data needs.
  lemma PackMeasured(header: bytes, data: bytes)
    ensures var r := Pack(Truncate(|header|), Truncate(|data|), header, data);
      if |header| + |data| < U32_LIMIT then r == Some(header + data)
      else r.None? || (|header| < U32_LIMIT && |r.value| - |header| < |data|)
  {
    var h, b := |header|, |data|;
    if h + b < U32_LIMIT {
      assert header + Fit(data, b) == header + data;
    } else if h < U32_LIMIT && b < U32_LIMIT {
      assert Truncate(h + b) == h + b - U32_LIMIT;
    }
  }
}
