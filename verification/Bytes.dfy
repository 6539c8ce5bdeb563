// Byte strings and the fixed-width integers of the wire format.
module Bytes {
  import opened Wrappers

  type byte = b: int | 0 <= b < 256
  type bytes = seq<byte>

  const U32_LIMIT := 0x1_0000_0000
  type u32 = n: int | 0 <= n < U32_LIMIT

  const NEWLINE: byte := 10
  const RETURN: byte := 13

  // uint32(n), and uint32 addition: reduction modulo 2^32.
  function Truncate(n: nat): u32 { n % U32_LIMIT }

  // binary.BigEndian
  function PutUint32(n: u32): (b: bytes)
    ensures |b| == 4
  {
    var (n1, n2, n3) := (n / 256, n / 256 / 256, n / 256 / 256 / 256);
    [n3, n2 % 256, n1 % 256, n % 256]
  }

  function Uint32(b: bytes): u32
    requires |b| == 4
  {
    (((b[0] as int) * 256 + b[1]) * 256 + b[2]) * 256 + b[3]
  }

  lemma Uint32RoundTrip(n: u32)
    ensures Uint32(PutUint32(n)) == n
  {}

  // bytes.IndexByte: the first position of `c`, or -1.
  function IndexByte(s: bytes, c: byte): (i: int)
    ensures -1 <= i < |s|
    ensures i == -1 ==> c !in s
    ensures i >= 0 ==> s[i] == c && c !in s[..i]
  {
    if s == [] then -1
    else if s[0] == c then 0
    else
      var i := IndexByte(s[1..], c);
      if i == -1 then -1 else
        assert s[..i + 1] == [s[0]] + s[1..][..i];
        i + 1
  }

  lemma IndexByteAfter(s: bytes, c: byte, rest: bytes)
    requires c !in s
    ensures IndexByte(s + [c] + rest, c) == |s|
  {
    var t := s + [c] + rest;
    var i := IndexByte(t, c);
    assert t[|s|] == c;
    assert forall k :: 0 <= k < i ==> t[k] == t[..i][k] && t[k] != c;
    assert forall k :: 0 <= k < |s| ==> t[k] == s[k] && s[k] in s;
  }

  function Zeros(n: nat): bytes {
    seq(n, _ => 0)
  }

  // What `n` bytes of zeroed memory hold after `s` is copied over them.
  function Fit(s: bytes, n: nat): (r: bytes)
    ensures |r| == n
  {
    if |s| >= n then s[..n] else s + Zeros(n - |s|)
  }

  // copy(bs[pos:], src): as many bytes as fit.
  method Copy(bs: array<byte>, pos: nat, src: bytes)
    requires pos <= bs.Length
    modifies bs
    ensures bs[..] == old(bs[..pos]) + OverlayAt(src, old(bs[pos..]))
  {
    var n := if |src| <= bs.Length - pos then |src| else bs.Length - pos;
    for i := 0 to n
      invariant forall k :: 0 <= k < bs.Length ==>
        bs[k] == if pos <= k < pos + i then src[k - pos] else old(bs[k])
    {
      bs[pos + i] := src[i];
    }
  }

  function OverlayAt(src: bytes, under: bytes): (r: bytes)
    ensures |r| == |under|
  {
    if |src| >= |under| then src[..|under|] else src + under[|src|..]
  }

  lemma OverlayZeros(src: bytes, n: nat)
    ensures OverlayAt(src, Zeros(n)) == Fit(src, n)
  {}
}
