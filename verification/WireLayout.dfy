// Where every byte of an encoded message lies.
module WireLayout {
  import opened Wrappers
  import opened Bytes
  import opened Wire
  import opened WireLaws

  predicate At(d: bytes, pos: nat, w: bytes) { pos + |w| <= |d| && d[pos..pos + |w|] == w }

  // The most significant byte comes first.
  predicate BigEndianAt(d: bytes, pos: nat, n: u32) {
    && pos + 4 <= |d|
    && 16777216 * (d[pos] as int) + 65536 * (d[pos + 1] as int) + 256 * (d[pos + 2] as int) + d[pos + 3] == n
  }

  // A key and its value, ended by a carriage return and a line feed.
  predicate PairAt(d: bytes, pos: nat, key: bytes, val: bytes) {
    && At(d, pos, key) && At(d, pos + |key|, [13]) && At(d, pos + |key| + 1, val)
    && At(d, pos + |key| + 1 + |val|, [10])
  }

  // The data begin here; what there is no room for is cut off.
  predicate DataFrom(d: bytes, pos: nat, data: bytes) {
    pos <= |d| && if |data| <= |d| - pos then At(d, pos, data) else d[pos..] == data[..|d| - pos]
  }

  predicate PrefixAt(d: bytes, head: u32, body: u32, id: u32, version: byte, compresser: byte, serializer: byte) {
    && BigEndianAt(d, 0, head) && BigEndianAt(d, 4, body) && BigEndianAt(d, 8, id)
    && At(d, 12, [version, compresser, serializer])
  }

  // Where pair `k` of the metadata starts.
  function PairStart(q: Req, order: seq<bytes>, k: nat): nat
    requires k <= |order| && forall key <- order :: key in q.meta
  {
    17 + |q.serviceName| + |q.methodName| + MetaSize(q.meta, order[..k])
  }

  lemma PutIsBigEndian(n: u32)
    ensures BigEndianAt(PutUint32(n), 0, n)
  {
  }

  lemma PrefixLies(head: u32, body: u32, id: u32, version: byte, compresser: byte, serializer: byte, rest: bytes)
    ensures var p := Prefix(head, body, id, version, compresser, serializer);
      PrefixAt(p + rest, head, body, id, version, compresser, serializer) && At(p + rest, 15, rest)
  {
    hide PutUint32;
    var d := Prefix(head, body, id, version, compresser, serializer) + rest;
    assert d[..4] == PutUint32(head) && d[4..8] == PutUint32(body) && d[8..12] == PutUint32(id);
    PutIsBigEndian(head);
    PutIsBigEndian(body);
    PutIsBigEndian(id);
    assert forall i :: 0 <= i < 4 ==>
      d[i] == d[..4][i] && d[4 + i] == d[4..8][i] && d[8 + i] == d[8..12][i];
  }

  lemma PairLies(meta: map<bytes, bytes>, key: bytes, a: bytes, b: bytes)
    requires key in meta
    ensures PairAt(a + PairBytes(meta, key) + b, |a|, key, meta[key])
  {
  }

  lemma {:induction false} MetaLies(meta: map<bytes, bytes>, order: seq<bytes>, k: nat, a: bytes, b: bytes)
    requires k < |order| && forall key <- order :: key in meta
    ensures PairAt(a + MetaBytes(meta, order) + b, |a| + MetaSize(meta, order[..k]), order[k], meta[order[k]])
    decreases |order|
  {
    hide PairAt;
    var n := |order| - 1;
    var init, last := MetaBytes(meta, order[..n]), PairBytes(meta, order[n]);
    if k < n {
      assert order[..n][..k] == order[..k];
      MetaLies(meta, order[..n], k, a, last + b);
      assert a + init + (last + b) == a + MetaBytes(meta, order) + b;
    } else {
      MetaBytesSize(meta, order[..n]);
      PairLies(meta, order[n], a + init, b);
      assert (a + init) + last + b == a + MetaBytes(meta, order) + b;
    }
  }

  lemma PackLies(head: u32, body: u32, header: bytes, data: bytes)
    requires Pack(head, body, header, data).Some?
    ensures var d := Pack(head, body, header, data).value;
      |d| == (head + body) % 0x1_0000_0000 && DataFrom(d, |header|, data) && d[..|header|] == header
  {
  }

  lemma Next(a: bytes, w: bytes, b: bytes)
    ensures a + (w + b) == (a + w) + b && |a + w| == |a| + |w|
    ensures At(a + (w + b), |a|, w)
  {
  }

  lemma NamesLie(p: bytes, service: bytes, name: bytes, tail: bytes)
    ensures var d, s, n := p + (service + [10] + name + [10]) + tail, |p| + |service|, |p| + |service| + 1 + |name|;
      At(d, |p|, service) && At(d, s, [10]) && At(d, s + 1, name) && At(d, n, [10])
  {
    hide At;
    var r3 := [10] + tail;
    var r2 := name + r3;
    var r1 := [10] + r2;
    assert p + (service + [10] + name + [10]) + tail == p + (service + r1);
    Next(p, service, r1);
    Next(p + service, [10], r2);
    Next(p + service + [10], name, r3);
    Next(p + service + [10] + name, [10], tail);
  }

  // The fixed prefix, both names, every pair of the metadata and the data.
  lemma RequestLayout(q: Req, order: seq<bytes>)
    requires (forall key <- order :: key in q.meta) && EncodeReq(q, order).Some?
    ensures var d := EncodeReq(q, order).value;
      var s, n := 15 + |q.serviceName|, 16 + |q.serviceName| + |q.methodName|;
      && |d| == (q.headLength + q.bodyLength) % 0x1_0000_0000
      && PrefixAt(d, q.headLength, q.bodyLength, q.requestId, q.version, q.compresser, q.serializer)
      && At(d, 15, q.serviceName) && At(d, s, [10]) && At(d, s + 1, q.methodName) && At(d, n, [10])
      && (forall k: nat :: k < |order| ==> PairAt(d, PairStart(q, order, k), order[k], q.meta[order[k]]))
      && DataFrom(d, PairStart(q, order, |order|), q.data)
  {
    hide Pack, Prefix, PrefixAt, At, PairAt, DataFrom, MetaBytes, MetaSize;
    var d, p, meta := EncodeReq(q, order).value, PrefixOf(q), MetaBytes(q.meta, order);
    var names := q.serviceName + [10] + q.methodName + [10];
    PackLies(q.headLength, q.bodyLength, ReqHeader(q, order), q.data);
    MetaBytesSize(q.meta, order);
    assert order[..|order|] == order;
    var rest := d[|ReqHeader(q, order)|..];
    assert d == ReqHeader(q, order) + rest == p + names + (meta + rest);
    NamesLie(p, q.serviceName, q.methodName, meta + rest);
    assert d == p + (names + (meta + rest));
    PrefixLies(q.headLength, q.bodyLength, q.requestId, q.version, q.compresser, q.serializer, names + (meta + rest));
    assert d == (p + names) + meta + rest;
    forall k: nat | k < |order| ensures PairAt(d, PairStart(q, order, k), order[k], q.meta[order[k]]) {
      MetaLies(q.meta, order, k, p + names, rest);
    }
  }

  lemma ResponseLayout(p: Resp)
    requires EncodeResp(p).Some?
    ensures var d := EncodeResp(p).value;
      && |d| == (p.headLength + p.bodyLength) % 0x1_0000_0000
      && PrefixAt(d, p.headLength, p.bodyLength, p.requestId, p.version, p.compresser, p.serializer)
      && At(d, 15, p.error) && DataFrom(d, 15 + |p.error|, p.data)
  {
    hide Pack, Prefix, PrefixAt, At, DataFrom;
    var d := EncodeResp(p).value;
    PackLies(p.headLength, p.bodyLength, RespHeader(p), p.data);
    var rest := d[|RespHeader(p)|..];
    var prefix := Prefix(p.headLength, p.bodyLength, p.requestId, p.version, p.compresser, p.serializer);
    assert d == prefix + (p.error + rest);
    PrefixLies(p.headLength, p.bodyLength, p.requestId, p.version, p.compresser, p.serializer, p.error + rest);
    Next(prefix, p.error, rest);
  }
}
