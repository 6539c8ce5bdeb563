// Splitting a byte stream into messages.
module Frames {
  import opened Wrappers
  import opened Bytes
  import opened Wire
  import opened WireLaws

  // How much one conn.Read into `n` bytes delivers of a stream of which `ready`
  // bytes have arrived.
  function Delivered(stream: bytes, n: nat, ready: nat): (d: nat)
    ensures d <= |stream| && d <= n && d <= ready
  {
    var m := if |stream| <= n then |stream| else n;
    if ready <= m then ready else m
  }

  // One conn.Read into `n` bytes of zeroed memory: the memory and what is left.
  function ReadSome(stream: bytes, n: nat, ready: nat): (bytes, bytes) {
    var d := Delivered(stream, n, ready);
    (Fit(stream[..d], n), stream[d..])
  }

  predicate AtEof(stream: bytes, n: nat) { n > 0 && stream == [] }

  datatype ReadResult = Message(data: bytes) | Eof | Panic

  // ReadMsg: the message or failure, and the rest of the stream, when `first` and
  // `second` bytes have arrived at its two reads. It does not look at how much
  // a read delivers.
  function ReadMsg(stream: bytes, first: nat, second: nat): (ReadResult, bytes) {
    if AtEof(stream, 8) then (Eof, stream) else
      var (lens, rest) := ReadSome(stream, 8, first);
      var length := Truncate(Uint32(lens[..4]) + Uint32(lens[4..]));
      if length < 8 then (Panic, rest)
      else if AtEof(rest, length - 8) then (Eof, rest)
      else
        var (body, rest') := ReadSome(rest, length - 8, second);
        (Message(lens + body), rest')
  }

  // The messages a reader that calls ReadMsg over and over receives when
  // everything has arrived.
  function ReadAll(stream: bytes): seq<bytes>
    decreases |stream|
  {
    var (r, rest) := ReadMsg(stream, |stream|, |stream|);
    if r.Message? && |rest| < |stream| then [r.data] + ReadAll(rest) else []
  }

  // The frame's own length fields add up to its size.
  predicate SelfSized(f: bytes) {
    |f| >= 8 && |f| == Truncate(Uint32(f[..4]) + Uint32(f[4..8]))
  }

  // Every request that can be encoded at all is self-sized, whatever lengths
  // it claims: encoder and reader reduce the sum in the same way.
  lemma EncodedRequestIsSelfSized(q: Req, order: seq<bytes>)
    requires forall k <- order :: k in q.meta
    ensures EncodeReq(q, order).Some? ==> SelfSized(EncodeReq(q, order).value)
  {
    var r := EncodeReq(q, order);
    if r.Some? {
      PrefixFields(q.headLength, q.bodyLength, q.requestId, q.version, q.compresser, q.serializer, r.value[15..]);
      assert r.value == PrefixOf(q) + r.value[15..];
    }
  }

  lemma EncodedResponseIsSelfSized(p: Resp)
    ensures EncodeResp(p).Some? ==> SelfSized(EncodeResp(p).value)
  {
    var r := EncodeResp(p);
    if r.Some? {
      PrefixFields(p.headLength, p.bodyLength, p.requestId, p.version, p.compresser, p.serializer, r.value[15..]);
      assert r.value ==
        Prefix(p.headLength, p.bodyLength, p.requestId, p.version, p.compresser, p.serializer) + r.value[15..];
    }
  }

  // One call takes one frame off the stream exactly when both reads deliver all
  // they are asked for.
  lemma ReadsOneFrame(f: bytes, tail: bytes, first: nat, second: nat)
    requires SelfSized(f)
    ensures ReadMsg(f + tail, first, second) == (Message(f), tail) <==> first >= 8 && second >= |f| - 8
  {
    if first >= 8 && second >= |f| - 8 {
      FullReads(f, tail, first, second);
    } else if ReadMsg(f + tail, first, second) == (Message(f), tail) {
      ShortReads(f + tail, first, second);
    }
  }

  // What a call takes off the stream.
  lemma ShortReads(s: bytes, first: nat, second: nat)
    requires ReadMsg(s, first, second).0.Message?
    ensures var (r, rest) := ReadMsg(s, first, second);
            |s| - |rest| <= first + second && |s| - |rest| <= first + |r.data| - 8 && |s| - |rest| <= 8 + second
  {
    hide Fit, Uint32;
  }

  lemma FullReads(f: bytes, tail: bytes, first: nat, second: nat)
    requires SelfSized(f) && first >= 8 && second >= |f| - 8
    ensures ReadMsg(f + tail, first, second) == (Message(f), tail)
  {
    ReadsAll(f[..8], f[8..] + tail, first);
    ReadsAll(f[8..], tail, second);
    assert f + tail == f[..8] + (f[8..] + tail) && f == f[..8] + f[8..];
    assert f[..8][..4] == f[..4] && f[..8][4..] == f[4..8];
  }

  lemma ReadsAll(a: bytes, b: bytes, ready: nat)
    requires ready >= |a|
    ensures ReadSome(a + b, |a|, ready) == (a, b)
  {
    assert (a + b)[..|a|] == a && (a + b)[|a|..] == b && a[..|a|] == a;
  }

  function Concat(frames: seq<bytes>): bytes {
    if frames == [] then [] else frames[0] + Concat(frames[1..])
  }

  // A stream of self-sized frames is read back as exactly those frames.
  lemma {:induction false} StreamSplits(frames: seq<bytes>)
    requires forall f <- frames :: SelfSized(f)
    ensures ReadAll(Concat(frames)) == frames
    decreases |frames|
  {
    if frames != [] {
      ReadsOneFrame(frames[0], Concat(frames[1..]), |Concat(frames)|, |Concat(frames)|);
      StreamSplits(frames[1..]);
    }
  }

  // End to end: a client that measures and sends any number of clean requests
  // that fit is understood request by request, whatever orders its maps are
  // iterated in.
  lemma RequestStreamRoundTrip(qs: seq<Req>, counted: seq<seq<bytes>>, enc: seq<seq<bytes>>, frames: seq<bytes>)
    requires |qs| == |counted| == |enc| == |frames|
    requires forall i :: 0 <= i < |qs| ==>
      && Enumerates(counted[i], qs[i].meta) && Enumerates(enc[i], qs[i].meta)
      && Clean(qs[i]) && HeaderLength(qs[i], counted[i]) + |qs[i].data| < U32_LIMIT
      && EncodeReq(Measured(qs[i], counted[i]), enc[i]) == Some(frames[i])
    ensures |ReadAll(Concat(frames))| == |qs|
    ensures forall i :: 0 <= i < |qs| ==>
      Enumerates(counted[i], qs[i].meta) && DecodeReq(ReadAll(Concat(frames))[i]) == Some(Measured(qs[i], counted[i]))
  {
    forall i | 0 <= i < |qs| ensures SelfSized(frames[i]) && DecodeReq(frames[i]) == Some(Measured(qs[i], counted[i])) {
      EncodedRequestIsSelfSized(Measured(qs[i], counted[i]), enc[i]);
      RequestRoundTrip(qs[i], counted[i], enc[i]);
    }
    StreamSplits(frames);
  }
}
