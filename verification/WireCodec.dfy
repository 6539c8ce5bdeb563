// rpc/message and rpc/tcp.go as they run: byte arrays filled through a cursor,
// a decoding loop, and a connection that is read in place.
module WireCodec {
  import opened Wrappers
  import opened Bytes
  import opened Wire
  import opened WireLaws
  import opened Frames

  class Request {
    var headLength: u32
    var bodyLength: u32
    var requestId: u32
    var version: byte
    var compresser: byte
    var serializer: byte
    var serviceName: bytes
    var methodName: bytes
    var meta: map<bytes, bytes>
    var data: bytes

    constructor ()
      ensures Value() == Req(0, 0, 0, 0, 0, 0, [], [], map[], [])
    {
      headLength, bodyLength, requestId := 0, 0, 0;
      version, compresser, serializer := 0, 0, 0;
      serviceName, methodName, meta, data := [], [], map[], [];
    }

    function Value(): Req
      reads this
    {
      Req(headLength, bodyLength, requestId, version, compresser, serializer, serviceName, methodName, meta, data)
    }

    // The map is iterated in any order; `order` is the one taken.
    method CalculateHeaderLength() returns (ghost order: seq<bytes>)
      modifies this`headLength
      ensures Enumerates(order, meta)
      ensures headLength == Truncate(HeaderLength(old(Value()), order))
    {
      var length := 15 + |serviceName| + 1 + |methodName| + 1;
      order := [];
      var todo := meta.Keys;
      while todo != {}
        invariant Visited(order, meta, todo)
        invariant length == HeaderLength(Value(), order)
        decreases |todo|
      {
        var key :| key in todo;
        length := length + |key|;
        length := length + 1;
        length := length + |meta[key]|;
        length := length + 1;
        assert (order + [key])[..|order|] == order;
        order := order + [key];
        todo := todo - {key};
      }
      headLength := Truncate(length);
    }

    method CalculateBodyLength()
      modifies this`bodyLength
      ensures bodyLength == Truncate(|data|)
    {
      bodyLength := Truncate(|data|);
    }

    // Before a request is sent.
    method CalculateLengths() returns (ghost order: seq<bytes>)
      modifies this`headLength, this`bodyLength
      ensures Enumerates(order, meta) && Value() == Measured(old(Value()), order)
    {
      order := CalculateHeaderLength();
      CalculateBodyLength();
    }
  }

  class Response {
    var headLength: u32
    var bodyLength: u32
    var requestId: u32
    var version: byte
    var compresser: byte
    var serializer: byte
    var error: bytes
    var data: bytes

    constructor ()
      ensures Value() == Resp(0, 0, 0, 0, 0, 0, [], [])
    {
      headLength, bodyLength, requestId := 0, 0, 0;
      version, compresser, serializer := 0, 0, 0;
      error, data := [], [];
    }

    function Value(): Resp
      reads this
    {
      Resp(headLength, bodyLength, requestId, version, compresser, serializer, error, data)
    }

    method CalculateLengths()
      modifies this`headLength, this`bodyLength
      ensures Value() == MeasuredResp(old(Value()))
    {
      headLength := Truncate(15 + Truncate(|error|));
      bodyLength := Truncate(|data|);
    }
  }

  // ---------- writing ----------

  // A zeroed buffer and the slice `cur` that moves along it. A slice bounds
  // panic sets `panicked`; nothing is written after it.
  class Cursor {
    const bs: array<byte>
    var pos: nat
    var panicked: bool
    // Everything that was to be written so far.
    ghost var text: bytes

    ghost predicate Valid()
      reads this, bs
    {
      if panicked then |text| > bs.Length
      else pos == |text| <= bs.Length && bs[..pos] == text && bs[pos..] == Zeros(bs.Length - pos)
    }

    constructor (n: nat)
      ensures Valid() && fresh(bs) && bs.Length == n && text == []
    {
      bs := new byte[n](_ => 0);
      pos, panicked, text := 0, false, [];
    }

    // copy(cur, src); cur = cur[len(src):]
    method Append(src: bytes)
      requires Valid()
      modifies this, bs
      ensures Valid() && text == old(text) + src
    {
      if !panicked {
        Copy(bs, pos, src);
        if pos + |src| <= bs.Length {
          pos := pos + |src|;
        } else {
          panicked := true;
        }
      }
      text := text + src;
    }

    method AppendPrefix(head: u32, body: u32, id: u32, version: byte, compresser: byte, serializer: byte)
      requires Valid() && text == []
      modifies this, bs
      ensures Valid() && text == Prefix(head, body, id, version, compresser, serializer)
    {
      Append(PutUint32(head));
      Append(PutUint32(body));
      Append(PutUint32(id));
      Append([version]);
      Append([compresser]);
      Append([serializer]);
      assert text == Prefix(head, body, id, version, compresser, serializer);
    }

    method AppendField(src: bytes, delimiter: byte)
      requires Valid()
      modifies this, bs
      ensures Valid() && text == old(text) + (src + [delimiter])
    {
      Append(src);
      Append([delimiter]);
    }

    // The metadata loop of EncodeReq, in whatever order the map yields.
    method AppendMeta(meta: map<bytes, bytes>) returns (ghost order: seq<bytes>)
      requires Valid()
      modifies this, bs
      ensures Valid() && Enumerates(order, meta) && text == old(text) + MetaBytes(meta, order)
    {
      order := [];
      var todo := meta.Keys;
      while todo != {}
        invariant Valid() && Visited(order, meta, todo)
        invariant text == old(text) + MetaBytes(meta, order)
        decreases |todo|
      {
        var key :| key in todo;
        AppendField(key, RETURN);
        AppendField(meta[key], NEWLINE);
        MetaBytesSnoc(old(text), meta, order, key);
        order := order + [key];
        todo := todo - {key};
      }
    }
  }

  // Part of the way through an iteration of `meta`.
  ghost predicate Visited(order: seq<bytes>, meta: map<bytes, bytes>, todo: set<bytes>) {
    && todo <= meta.Keys
    && (forall k :: k in order <==> k in meta && k !in todo)
    && forall i, j :: 0 <= i < j < |order| ==> order[i] != order[j]
  }

  lemma MetaBytesSnoc(t: bytes, meta: map<bytes, bytes>, order: seq<bytes>, key: bytes)
    requires key in meta && forall k <- order :: k in meta
    ensures t + MetaBytes(meta, order) + (key + [RETURN]) + (meta[key] + [NEWLINE]) ==
            t + MetaBytes(meta, order + [key])
  {
    assert (order + [key])[..|order|] == order;
    assert PairBytes(meta, key) == (key + [RETURN]) + (meta[key] + [NEWLINE]);
    Assoc(t, MetaBytes(meta, order), PairBytes(meta, key));
    Assoc(t + MetaBytes(meta, order), key + [RETURN], meta[key] + [NEWLINE]);
  }

  // The last copy of an encoder: data that does not fit is dropped.
  method Finish(cur: Cursor, head: u32, body: u32, data: bytes) returns (r: Option<array<byte>>)
    requires cur.Valid() && cur.bs.Length == Truncate(head + body)
    modifies cur.bs
    ensures r.Some? <==> Pack(head, body, cur.text, data).Some?
    ensures r.Some? ==> r.value == cur.bs && r.value[..] == Pack(head, body, cur.text, data).value
  {
    if cur.panicked { return None; }
    OverlayZeros(data, cur.bs.Length - cur.pos);
    Copy(cur.bs, cur.pos, data);
    return Some(cur.bs);
  }

  lemma HeaderText(q: Req, order: seq<bytes>)
    requires forall k <- order :: k in q.meta
    ensures PrefixOf(q) + (q.serviceName + [NEWLINE]) + (q.methodName + [NEWLINE]) + MetaBytes(q.meta, order) ==
            ReqHeader(q, order)
  {
    var (p, a, b, m) := (PrefixOf(q), q.serviceName + [NEWLINE], q.methodName + [NEWLINE], MetaBytes(q.meta, order));
    Assoc(p, a, b);
    Assoc(p, a + b, m);
    Assoc(q.serviceName + [NEWLINE], q.methodName, [NEWLINE]);
  }

  // EncodeReq; None is a panic.
  method EncodeReq(req: Request) returns (r: Option<array<byte>>, ghost order: seq<bytes>)
    ensures Enumerates(order, req.meta)
    ensures r.Some? <==> Wire.EncodeReq(req.Value(), order).Some?
    ensures r.Some? ==> fresh(r.value) && r.value[..] == Wire.EncodeReq(req.Value(), order).value
  {
    hide MetaBytes, Prefix, ReqHeader, Pack;
    var cur := new Cursor(Truncate(req.headLength + req.bodyLength));
    cur.AppendPrefix(req.headLength, req.bodyLength, req.requestId, req.version, req.compresser, req.serializer);
    cur.AppendField(req.serviceName, NEWLINE);
    cur.AppendField(req.methodName, NEWLINE);
    order := cur.AppendMeta(req.meta);
    HeaderText(req.Value(), order);
    r := Finish(cur, req.headLength, req.bodyLength, req.data);
  }

  // EncodeResp; None is a panic.
  method EncodeResp(resp: Response) returns (r: Option<array<byte>>)
    ensures r.Some? <==> Wire.EncodeResp(resp.Value()).Some?
    ensures r.Some? ==> fresh(r.value) && r.value[..] == Wire.EncodeResp(resp.Value()).value
  {
    var cur := new Cursor(Truncate(resp.headLength + resp.bodyLength));
    cur.AppendPrefix(resp.headLength, resp.bodyLength, resp.requestId, resp.version, resp.compresser, resp.serializer);
    cur.Append(resp.error);
    assert cur.text == RespHeader(resp.Value());
    r := Finish(cur, resp.headLength, resp.bodyLength, resp.data);
  }

  // ---------- reading ----------

  // DecodeReq; null is a panic.
  method DecodeReq(data: array<byte>) returns (req: Request?)
    ensures var q := Wire.DecodeReq(data[..]);
      if q.None? then req == null else req != null && fresh(req) && req.Value() == q.value
  {
    hide ParseHeader, Uint32;
    if data.Length < 15 { return null; }
    ghost var d := data[..];
    assert data[..4] == d[..4] && data[4..8] == d[4..8] && data[8..12] == d[8..12];
    var head, body, id := Uint32(data[..4]), Uint32(data[4..8]), Uint32(data[8..12]);
    if !(15 <= head <= data.Length) { return null; }
    assert data[15..head] == d[15..head] && data[head..] == d[head..];
    req := new Request();
    req.headLength, req.bodyLength, req.requestId := head, body, id;
    req.version, req.compresser, req.serializer := data[12], data[13], data[14];
    var ok := ReadHeader(req, data[15..head]);
    if !ok { return null; }
    if req.bodyLength != 0 {
      req.data := data[req.headLength..];
    }
  }

  // Cutting the variable part of the header; false is a panic.
  method ReadHeader(req: Request, middle: bytes) returns (ok: bool)
    modifies req`serviceName, req`methodName, req`meta
    ensures ok <==> ParseHeader(middle).Some?
    ensures ok ==> (req.serviceName, req.methodName, req.meta) == ParseHeader(middle).value
  {
    var index := IndexByte(middle, NEWLINE);
    if index == -1 { return false; }
    req.serviceName := middle[..index];
    var header := middle[index + 1..];
    var index' := IndexByte(header, NEWLINE);
    if index' == -1 { return false; }
    req.methodName := header[..index'];
    header := header[index' + 1..];
    assert ParseNames(middle) == Some((req.serviceName, req.methodName, header));
    var meta := ReadMeta(header);
    if meta.None? { return false; }
    req.meta := meta.value;
    return true;
  }

  // The metadata loop of DecodeReq, reslicing the header; None is a panic.
  method ReadMeta(header: bytes) returns (r: Option<map<bytes, bytes>>)
    ensures r == ParseMeta(header, map[])
  {
    var rest := header;
    var meta: map<bytes, bytes> := map[];
    var index := IndexByte(rest, NEWLINE);
    while index != -1
      invariant index == IndexByte(rest, NEWLINE)
      invariant ParseMeta(header, map[]) == ParseMeta(rest, meta)
      decreases |rest|
    {
      var pair := rest[..index];
      var pairIndex := IndexByte(pair, RETURN);
      if pairIndex == -1 { return None; }
      var key, value := pair[..pairIndex], pair[pairIndex + 1..];
      meta := meta[key := value];
      rest := rest[index + 1..];
      index := IndexByte(rest, NEWLINE);
    }
    return Some(meta);
  }

  // DecodeResp; null is a panic.
  method DecodeResp(data: array<byte>) returns (resp: Response?)
    ensures var p := Wire.DecodeResp(data[..]);
      if p.None? then resp == null else resp != null && fresh(resp) && resp.Value() == p.value
  {
    if data.Length < 15 { return null; }
    ghost var d := data[..];
    resp := new Response();
    resp.headLength := Uint32(data[..4]);
    resp.bodyLength := Uint32(data[4..8]);
    resp.requestId := Uint32(data[8..12]);
    resp.version, resp.compresser, resp.serializer := data[12], data[13], data[14];
    if resp.headLength > 15 {
      if resp.headLength > data.Length { return null; }
      resp.error := data[15..resp.headLength];
    }
    if resp.bodyLength != 0 {
      if resp.headLength > data.Length { return null; }
      resp.data := data[resp.headLength..];
    }
  }

  // ---------- the connection ----------

  class Conn {
    var pending: bytes

    // Read into buf[from..] when `ready` of the pending bytes have arrived.
    method Read(buf: array<byte>, from: nat, ready: nat) returns (eof: bool)
      requires from <= buf.Length
      modifies this, buf
      ensures eof == AtEof(old(pending), buf.Length - from)
      ensures eof ==> pending == old(pending) && buf[..] == old(buf[..])
      ensures !eof ==> pending == ReadSome(old(pending), buf.Length - from, ready).1
      ensures !eof ==> buf[..] == old(buf[..from]) +
                       OverlayAt(old(pending)[..Delivered(old(pending), buf.Length - from, ready)], old(buf[from..]))
    {
      eof := from < buf.Length && pending == [];
      if !eof {
        var d := Delivered(pending, buf.Length - from, ready);
        Copy(buf, from, pending[..d]);
        pending := pending[d..];
      }
    }
  }

  method ReadMsg(conn: Conn, first: nat, second: nat) returns (data: array?<byte>, eof: bool, panicked: bool)
    modifies conn
    ensures var (r, rest) := Frames.ReadMsg(old(conn.pending), first, second);
      && conn.pending == rest
      && (panicked <==> r.Panic?) && (eof <==> r.Eof?)
      && (r.Message? ==> data != null && fresh(data) && data[..] == r.data)
  {
    data, panicked := null, false;
    var lenBs, length, none := ReadLengths(conn, first);
    eof := none;
    if eof { return; }
    if length < 8 { panicked := true; return; }
    data, eof := ReadBody(conn, lenBs, length, second);
  }

  // The first half of ReadMsg: the two length fields and their uint32 sum.
  method ReadLengths(conn: Conn, first: nat) returns (lenBs: array<byte>, length: u32, eof: bool)
    modifies conn
    ensures fresh(lenBs) && lenBs.Length == 8 && (eof <==> AtEof(old(conn.pending), 8))
    ensures eof ==> conn.pending == old(conn.pending)
    ensures !eof ==> (lenBs[..], conn.pending) == ReadSome(old(conn.pending), 8, first)
    ensures length == Truncate(Uint32(lenBs[..][..4]) + Uint32(lenBs[..][4..]))
  {
    hide Uint32, Truncate, Fit, OverlayAt;
    lenBs := new byte[8](_ => 0);
    assert lenBs[0..] == Zeros(8);
    OverlayZeros(conn.pending[..Delivered(conn.pending, 8, first)], 8);
    eof := conn.Read(lenBs, 0, first);
    assert !eof ==> lenBs[..] == ReadSome(old(conn.pending), 8, first).0;
    assert lenBs[..4] == lenBs[..][..4] && lenBs[4..] == lenBs[..][4..];
    length := Truncate(Uint32(lenBs[..4]) + Uint32(lenBs[4..]));
  }

  // The second half of ReadMsg, once the length is known.
  method ReadBody(conn: Conn, lenBs: array<byte>, length: u32, second: nat) returns (data: array<byte>, eof: bool)
    requires lenBs.Length == 8 && length >= 8
    modifies conn
    ensures fresh(data) && (eof <==> AtEof(old(conn.pending), length - 8))
    ensures eof ==> conn.pending == old(conn.pending)
    ensures !eof ==> conn.pending == ReadSome(old(conn.pending), length - 8, second).1
    ensures !eof ==> data[..] == lenBs[..] + ReadSome(old(conn.pending), length - 8, second).0
  {
    data := new byte[length](_ => 0);
    assert data[8..] == Zeros(length - 8);
    OverlayZeros(conn.pending[..Delivered(conn.pending, length - 8, second)], length - 8);
    eof := conn.Read(data, 8, second);
    assert !eof ==> data[8..] == ReadSome(old(conn.pending), length - 8, second).0;
    ghost var body := data[8..];
    Copy(data, 0, lenBs[..]);
    assert data[8..] == body && data[..8] == lenBs[..];
  }
}
