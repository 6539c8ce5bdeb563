// Round trips of the wire format and the exact conditions under which they hold.
module WireLaws {
  import opened Wrappers
  import opened Bytes
  import opened Wire

  // No field contains a delimiter that would end it early.
  ghost predicate Clean(q: Req) {
    && NEWLINE !in q.serviceName && NEWLINE !in q.methodName
    && forall k <- q.meta :: NEWLINE !in k && RETURN !in k && NEWLINE !in q.meta[k]
  }

  // ---------- the iteration order does not matter ----------

  function MetaSize(meta: map<bytes, bytes>, order: seq<bytes>): nat
    requires forall k <- order :: k in meta
  {
    if order == [] then 0 else
      MetaSize(meta, order[..|order| - 1]) + |order[|order| - 1]| + 1 + |meta[order[|order| - 1]]| + 1
  }

  lemma {:induction false} MetaBytesSize(meta: map<bytes, bytes>, order: seq<bytes>)
    requires forall k <- order :: k in meta
    ensures |MetaBytes(meta, order)| == MetaSize(meta, order)
  {
    if order != [] { MetaBytesSize(meta, order[..|order| - 1]); }
  }

  lemma {:induction false} MetaSizeRemove(meta: map<bytes, bytes>, order: seq<bytes>, i: nat)
    requires i < |order| && forall k <- order :: k in meta
    ensures forall k <- order[..i] + order[i + 1..] :: k in meta
    ensures MetaSize(meta, order) ==
      MetaSize(meta, order[..i] + order[i + 1..]) + |order[i]| + 1 + |meta[order[i]]| + 1
    decreases |order|
  {
    var last := |order| - 1;
    if i == last {
      assert order[..i] + order[i + 1..] == order[..last];
    } else {
      var init := order[..last];
      MetaSizeRemove(meta, init, i);
      assert (order[..i] + order[i + 1..])[..last - 1] == init[..i] + init[i + 1..];
    }
  }

  predicate AllDifferent(order: seq<bytes>) { forall i, j :: 0 <= i < j < |order| ==> order[i] != order[j] }

  lemma RemoveOne(order: seq<bytes>, i: nat)
    requires i < |order| && AllDifferent(order)
    ensures var rest := order[..i] + order[i + 1..];
      AllDifferent(rest) && forall x :: x in rest <==> x in order && x != order[i]
  {
    var rest := order[..i] + order[i + 1..];
    forall x ensures x in rest <==> x in order && x != order[i] {
      if x in order && x != order[i] {
        var j :| 0 <= j < |order| && order[j] == x;
        assert rest[if j < i then j else j - 1] == x;
      }
    }
  }

  // Two enumerations of the same keys have the same total size.
  lemma {:induction false} MetaSizeOrderFree(meta: map<bytes, bytes>, a: seq<bytes>, b: seq<bytes>)
    requires (forall k <- a :: k in meta) && (forall k :: k in a <==> k in b)
    requires AllDifferent(a) && AllDifferent(b)
    ensures MetaSize(meta, a) == MetaSize(meta, b)
    decreases |a|
  {
    if a == [] {
      assert forall x :: x !in b;
    } else {
      var last := |a| - 1;
      assert a[last] in b;
      var i :| 0 <= i < |b| && b[i] == a[last];
      var a', b' := a[..last], b[..i] + b[i + 1..];
      assert a[..last] + a[last + 1..] == a';
      RemoveOne(a, last);
      RemoveOne(b, i);
      MetaSizeRemove(meta, b, i);
      MetaSizeOrderFree(meta, a', b');
    }
  }

  lemma HeaderLengthOrderFree(q: Req, a: seq<bytes>, b: seq<bytes>)
    requires Enumerates(a, q.meta) && Enumerates(b, q.meta)
    ensures HeaderLength(q, a) == HeaderLength(q, b)
  {
    MetaBytesSize(q.meta, a);
    MetaBytesSize(q.meta, b);
    MetaSizeOrderFree(q.meta, a, b);
  }

  // ---------- metadata ----------

  lemma ParsePair(meta: map<bytes, bytes>, key: bytes, rest: bytes, acc: map<bytes, bytes>)
    requires key in meta && NEWLINE !in key && RETURN !in key && NEWLINE !in meta[key]
    ensures ParseMeta(PairBytes(meta, key) + rest, acc) == ParseMeta(rest, acc[key := meta[key]])
  {
    var pair := key + [RETURN] + meta[key];
    var header := PairBytes(meta, key) + rest;
    assert header == pair + [NEWLINE] + rest;
    IndexByteAfter(pair, NEWLINE, rest);
    IndexByteAfter(key, RETURN, meta[key]);
    assert header[..|pair|] == pair && header[|pair| + 1..] == rest;
    assert pair[..|key|] == key && pair[|key| + 1..] == meta[key];
  }

  lemma {:induction false} MetaBytesHead(meta: map<bytes, bytes>, order: seq<bytes>)
    requires order != [] && forall k <- order :: k in meta
    ensures forall k <- order[1..] :: k in meta
    ensures MetaBytes(meta, order) == PairBytes(meta, order[0]) + MetaBytes(meta, order[1..])
    decreases |order|
  {
    var last := |order| - 1;
    if last == 0 {
      assert order[..0] == [] && order[1..] == [];
      assert [] + PairBytes(meta, order[0]) == PairBytes(meta, order[0]) + [];
    } else {
      MetaBytesHead(meta, order[..last]);
      assert order[..last][1..] == order[1..][..last - 1];
      Assoc(PairBytes(meta, order[0]), MetaBytes(meta, order[1..last]), PairBytes(meta, order[last]));
      assert order[..last][1..] == order[1..last];
    }
  }

  lemma Assoc(a: bytes, b: bytes, c: bytes)
    ensures a + b + c == a + (b + c)
  {}

  lemma MapHead(meta: map<bytes, bytes>, order: seq<bytes>, acc: map<bytes, bytes>)
    requires order != [] && forall k <- order :: k in meta
    ensures acc[order[0] := meta[order[0]]] + (map k | k in order[1..] :: meta[k]) ==
            acc + map k | k in order :: meta[k]
  {
    assert forall k :: k in order <==> k == order[0] || k in order[1..];
  }

  lemma {:induction false} ParseMetaBytes(meta: map<bytes, bytes>, order: seq<bytes>, acc: map<bytes, bytes>)
    requires forall k <- order :: k in meta && NEWLINE !in k && RETURN !in k && NEWLINE !in meta[k]
    ensures ParseMeta(MetaBytes(meta, order), acc) == Some(acc + map k | k in order :: meta[k])
    decreases |order|
  {
    if order == [] {
      assert acc + map[] == acc;
    } else {
      var key := order[0];
      MetaBytesHead(meta, order);
      ParsePair(meta, key, MetaBytes(meta, order[1..]), acc);
      ParseMetaBytes(meta, order[1..], acc[key := meta[key]]);
      MapHead(meta, order, acc);
    }
  }

  // Whatever the bytes, parsed keys and values hold no delimiter.
  lemma {:induction false} ParsedMetaIsClean(header: bytes, acc: map<bytes, bytes>)
    requires forall k <- acc :: NEWLINE !in k && RETURN !in k && NEWLINE !in acc[k]
    ensures var m := ParseMeta(header, acc);
      m.Some? ==> forall k <- m.value :: NEWLINE !in k && RETURN !in k && NEWLINE !in m.value[k]
    decreases |header|
  {
    var i := IndexByte(header, NEWLINE);
    if i != -1 {
      var pair := header[..i];
      var j := IndexByte(pair, RETURN);
      if j != -1 {
        assert forall c <- pair[..j] :: c in pair;
        assert forall c <- pair[j + 1..] :: c in pair;
        ParsedMetaIsClean(header[i + 1..], acc[pair[..j] := pair[j + 1..]]);
      }
    }
  }

  lemma DecodedIsClean(d: bytes)
    ensures DecodeReq(d).Some? ==> Clean(DecodeReq(d).value)
  {
    if DecodeReq(d).Some? {
      var names := ParseNames(d[15..Uint32(d[..4])]);
      ParsedMetaIsClean(names.value.2, map[]);
    }
  }

  // ---------- requests ----------

  ghost predicate SurvivesWire(q: Req, order: seq<bytes>)
    requires forall k <- order :: k in q.meta
  {
    EncodeReq(q, order).Some? && DecodeReq(EncodeReq(q, order).value) == Some(q)
  }

  // A request comes back unchanged exactly when its fields hold no delimiter
  // and the whole frame is shorter than 2^32 bytes; this is so for every
  // order in which the length calculator and the encoder iterate the metadata.
  lemma RequestRoundTrip(q: Req, a: seq<bytes>, b: seq<bytes>)
    requires Enumerates(a, q.meta) && Enumerates(b, q.meta)
    ensures SurvivesWire(Measured(q, a), b) <==> Clean(q) && HeaderLength(q, a) + |q.data| < U32_LIMIT
  {
    HeaderLengthOrderFree(q, a, b);
    var q' := Measured(q, a);
    if HeaderLength(q, b) + |q.data| < U32_LIMIT {
      if Clean(q) {
        CleanRequestDecodes(q', b);
      } else if EncodeReq(q', b).Some? {
        DecodedIsClean(EncodeReq(q', b).value);
      }
    } else {
      OversizedIsLost(q', b);
    }
  }

  // A frame of 2^32 bytes or more: encoding panics or loses part of the data.
  lemma OversizedIsLost(q: Req, order: seq<bytes>)
    requires forall k <- order :: k in q.meta
    requires HeaderLength(q, order) + |q.data| >= U32_LIMIT
    requires q.headLength == Truncate(HeaderLength(q, order)) && q.bodyLength == Truncate(|q.data|)
    ensures !SurvivesWire(q, order)
  {
    var r := EncodeReq(q, order);
    if r.Some? {
      EncodedHead(q, order);
      DecodedDataLength(r.value);
      OversizedPack(q.headLength, q.bodyLength, ReqHeader(q, order), q.data, r.value);
    }
  }

  lemma OversizedPack(head: u32, body: u32, header: bytes, data: bytes, d: bytes)
    requires head == Truncate(|header|) && body == Truncate(|data|) && |header| + |data| >= U32_LIMIT
    requires Pack(head, body, header, data) == Some(d)
    ensures head == |header| && |d| - head < |data|
  {
    PackMeasured(header, data);
  }

  lemma EncodedHead(q: Req, order: seq<bytes>)
    requires forall k <- order :: k in q.meta
    ensures var r := EncodeReq(q, order);
      r.Some? ==> |r.value| >= 15 && Uint32(r.value[..4]) == q.headLength
  {
    var r := EncodeReq(q, order);
    if r.Some? {
      PrefixFields(q.headLength, q.bodyLength, q.requestId, q.version, q.compresser, q.serializer, r.value[15..]);
      assert r.value == PrefixOf(q) + r.value[15..];
    }
  }

  lemma DecodedDataLength(d: bytes)
    ensures DecodeReq(d).Some? ==>
      var head := Uint32(d[..4]); head <= |d| && |DecodeReq(d).value.data| <= |d| - head
  {}

  lemma ParseNamesOf(service: bytes, name: bytes, rest: bytes)
    requires NEWLINE !in service && NEWLINE !in name
    ensures ParseNames(service + [NEWLINE] + name + [NEWLINE] + rest) == Some((service, name, rest))
  {
    var header := service + [NEWLINE] + name + [NEWLINE] + rest;
    var tail := name + [NEWLINE] + rest;
    assert header == service + [NEWLINE] + tail;
    IndexByteAfter(service, NEWLINE, tail);
    assert header[..|service|] == service && header[|service| + 1..] == tail;
    IndexByteAfter(name, NEWLINE, rest);
    assert tail[..|name|] == name && tail[|name| + 1..] == rest;
  }

  lemma CleanRequestDecodes(q: Req, order: seq<bytes>)
    requires Enumerates(order, q.meta) && Clean(q)
    requires q.headLength == HeaderLength(q, order) && q.bodyLength == |q.data|
    requires q.headLength + q.bodyLength < U32_LIMIT
    ensures SurvivesWire(q, order)
  {
    FittingPack(q.headLength, q.bodyLength, ReqHeader(q, order), q.data);
    CleanFrameDecodes(q, order);
  }

  lemma CleanFrameDecodes(q: Req, order: seq<bytes>)
    requires Enumerates(order, q.meta) && Clean(q)
    requires q.headLength == HeaderLength(q, order) && q.bodyLength == |q.data|
    ensures DecodeReq(PrefixOf(q) + NameBytes(q, order) + q.data) == Some(q)
  {
    ParseHeaderOf(q, order);
    DecodeLayout(q, NameBytes(q, order));
  }

  lemma ParseHeaderOf(q: Req, order: seq<bytes>)
    requires Enumerates(order, q.meta) && Clean(q)
    ensures ParseHeader(NameBytes(q, order)) == Some((q.serviceName, q.methodName, q.meta))
  {
    hide ParseNames, ParseMeta, MetaBytes, IndexByte;
    ParseNamesOf(q.serviceName, q.methodName, MetaBytes(q.meta, order));
    ParseMetaBytes(q.meta, order, map[]);
    assert map[] + (map k | k in order :: q.meta[k]) == q.meta;
  }

  // Decoding a frame whose lengths are right is parsing its middle part.
  lemma DecodeLayout(q: Req, names: bytes)
    requires q.headLength == 15 + |names| && q.bodyLength == |q.data|
    requires ParseHeader(names).Some?
    ensures var (service, name, meta) := ParseHeader(names).value;
      DecodeReq(PrefixOf(q) + names + q.data) == Some(q.(serviceName := service, methodName := name, meta := meta))
  {
    var d := PrefixOf(q) + names + q.data;
    assert d == PrefixOf(q) + (names + q.data);
    PrefixFields(q.headLength, q.bodyLength, q.requestId, q.version, q.compresser, q.serializer, names + q.data);
    assert d[15..q.headLength] == names && d[q.headLength..] == q.data;
  }

  // ---------- responses ----------

  ghost predicate ResponseSurvives(p: Resp) {
    EncodeResp(p).Some? && DecodeResp(EncodeResp(p).value) == Some(p)
  }

  // A response comes back unchanged exactly when it is shorter than 2^32 bytes.
  lemma ResponseRoundTrip(p: Resp)
    ensures ResponseSurvives(MeasuredResp(p)) <==> 15 + |p.error| + |p.data| < U32_LIMIT
  {
    hide DecodeResp, Prefix, Pack, PutUint32, Uint32;
    var p' := MeasuredResp(p);
    var h := RespHeader(p');
    assert p'.headLength == Truncate(|h|);
    if EncodeResp(p').Some? {
      var d := EncodeResp(p').value;
      DecodeRespLayout(p', d);
      if 15 + |p.error| + |p.data| >= U32_LIMIT {
        OversizedPack(p'.headLength, p'.bodyLength, h, p.data, d);
      } else {
        FittingPack(p'.headLength, p'.bodyLength, h, p.data);
      }
    } else if |h| + |p.data| < U32_LIMIT {
      FittingPack(p'.headLength, p'.bodyLength, h, p.data);
    }
  }

  lemma FittingPack(head: u32, body: u32, header: bytes, data: bytes)
    requires head == Truncate(|header|) && body == Truncate(|data|) && |header| + |data| < U32_LIMIT
    ensures head == |header| && body == |data| && Pack(head, body, header, data) == Some(header + data)
  {
    PackMeasured(header, data);
  }

  lemma DecodeRespLayout(p: Resp, d: bytes)
    requires EncodeResp(p) == Some(d)
    ensures DecodeResp(d) ==
      if p.headLength > |d| && (p.headLength > 15 || p.bodyLength != 0) then None
      else Some(p.(error := if p.headLength > 15 then d[15..p.headLength] else [],
                   data := if p.bodyLength != 0 then d[p.headLength..] else []))
    ensures |d| >= 15 + |p.error| && d[15..15 + |p.error|] == p.error
    ensures |d| == 15 + |p.error| + |p.data| ==> d[15 + |p.error|..] == p.data
  {
    var prefix := Prefix(p.headLength, p.bodyLength, p.requestId, p.version, p.compresser, p.serializer);
    PrefixFields(p.headLength, p.bodyLength, p.requestId, p.version, p.compresser, p.serializer, d[15..]);
    assert d == prefix + d[15..];
  }
}
