// The STUN Binding responder (stun.go, stunBindingResponse; RFC 8489 sections 5,
// 6.3.1, 14.2, 14.7, 14.8 and 14.13): the attribute walk over a datagram and the
// response built byte by byte.

module Stun {
  import opened Wrappers

  type byte = x: int | 0 <= x < 0x100
  type uint16 = x: int | 0 <= x < 0x1_0000
  type uint32 = x: int | 0 <= x < 0x1_0000_0000
  type Bytes = seq<byte>

  /** CRC-32 as the standard library computes it; only where it is applied
      matters here. */
  type Checksum = Bytes -> uint32

  const COOKIE := 0x2112_a442
  const FINGERPRINT_XOR := 0x5354_554e

  const MAPPED := 0x0020
  const ERROR_CODE := 0x0009
  const UNKNOWN_ATTRIBUTES := 0x000a
  const FINGERPRINT := 0x8028
  const MESSAGE_INTEGRITY := 0x0008
  const MESSAGE_INTEGRITY_SHA256 := 0x001c

  // ----- big-endian integers and exclusive or -----

  function U16(b: Bytes, at: nat): uint16
    requires at + 2 <= |b|
  {
    var high: int := b[at];
    0x100 * high + b[at + 1]
  }

  function U32(b: Bytes, at: nat): uint32
    requires at + 4 <= |b|
  {
    var high: int := U16(b, at);
    0x1_0000 * high + U16(b, at + 2)
  }

  function Put16(n: uint16): (b: Bytes)
    ensures |b| == 2 && U16(b, 0) == n
  {
    [n / 0x100, n % 0x100]
  }

  function Put32(n: uint32): (b: Bytes)
    ensures |b| == 4 && U32(b, 0) == n
  {
    var high, low := Put16(n / 0x1_0000), Put16(n % 0x1_0000);
    assert U16(high + low, 0) == U16(high, 0) && U16(high + low, 2) == U16(low, 0);
    high + low
  }

  function Xor(a: nat, b: nat): nat
    decreases a + b
  {
    if a == 0 && b == 0 then 0 else (a + b) % 2 + 2 * Xor(a / 2, b / 2)
  }

  lemma XorBits(a: nat, p: nat, b: nat, q: nat)
    requires p < 2 && q < 2
    ensures Xor(2 * a + p, 2 * b + q) == (p + q) % 2 + 2 * Xor(a, b)
  {
    assert (2 * a + p) / 2 == a && (2 * b + q) / 2 == b;
  }

  lemma XorZero()
    ensures Xor(0, 0) == 0
  {
  }

  lemma {:induction false} XorUndoes(a: nat, b: nat)
    ensures Xor(Xor(a, b), b) == a
    decreases a + b
  {
    hide Xor;
    if a == 0 && b == 0 {
      XorZero();
    } else {
      var x, p, y, q := a / 2, a % 2, b / 2, b % 2;
      assert a == 2 * x + p && b == 2 * y + q;
      XorBits(x, p, y, q);
      XorBits(Xor(x, y), (p + q) % 2, y, q);
      XorUndoes(x, y);
    }
  }

  function Pow2(k: nat): nat {
    if k == 0 then 1 else 2 * Pow2(k - 1)
  }

  lemma {:induction false} XorBound(a: nat, b: nat, k: nat)
    requires a < Pow2(k) && b < Pow2(k)
    ensures Xor(a, b) < Pow2(k)
    decreases k
  {
    if k > 0 && (a != 0 || b != 0) {
      XorBound(a / 2, b / 2, k - 1);
    }
  }

  lemma Powers()
    ensures Pow2(8) == 0x100 && Pow2(16) == 0x1_0000 && Pow2(32) == 0x1_0000_0000
  {
    assert Pow2(8) == 0x100;
    assert Pow2(12) == 0x1000;
    assert Pow2(16) == 0x1_0000;
    assert Pow2(20) == 0x10_0000;
    assert Pow2(24) == 0x100_0000;
    assert Pow2(28) == 0x1000_0000;
    assert Pow2(32) == 0x1_0000_0000;
  }

  function Xor8(a: byte, b: byte): byte {
    Powers();
    XorBound(a, b, 8);
    Xor(a, b)
  }

  function Xor16(a: uint16, b: uint16): uint16 {
    Powers();
    XorBound(a, b, 16);
    Xor(a, b)
  }

  function Xor32(a: uint32, b: uint32): uint32 {
    Powers();
    XorBound(a, b, 32);
    Xor(a, b)
  }

  // ----- attributes -----

  datatype Attribute = Attribute(kind: uint16, value: Bytes)

  function Padding(n: nat): nat {
    (4 - n % 4) % 4
  }

  function Zeros(n: nat): (z: Bytes)
    ensures |z| == n
  {
    if n == 0 then [] else Zeros(n - 1) + [0]
  }

  /** An attribute on the wire. */
  function Tlv(a: Attribute): Bytes
    requires |a.value| < 0x1_0000
  {
    Put16(a.kind) + Put16(|a.value|) + a.value + Zeros(Padding(|a.value|))
  }

  /** The attributes of a message body, when headers, values and padding use it
      up exactly. */
  function Parse(body: Bytes): Option<seq<Attribute>>
    decreases |body|
  {
    if body == [] then Some([])
    else if |body| < 4 then None
    else
      var size := U16(body, 2);
      var end := 4 + size + Padding(size);
      if end > |body| then None
      else Prepend([Attribute(U16(body, 0), body[4..4 + size])], Parse(body[end..]))
  }

  function Prepend(front: seq<Attribute>, rest: Option<seq<Attribute>>): Option<seq<Attribute>> {
    if rest.None? then None else Some(front + rest.value)
  }

  lemma PrependTwice(a: seq<Attribute>, b: seq<Attribute>, rest: Option<seq<Attribute>>)
    ensures Prepend(a, Prepend(b, rest)) == Prepend(a + b, rest)
  {
    if rest.Some? {
      assert a + (b + rest.value) == a + b + rest.value;
    }
  }

  /** Parsing inverts writing, attribute by attribute. */
  lemma ParseTlv(a: Attribute, rest: Bytes)
    requires |a.value| < 0x1_0000
    ensures Parse(Tlv(a) + rest) == Prepend([a], Parse(rest))
  {
    var t, n := Tlv(a), |a.value|;
    var body := t + rest;
    var head, size := Put16(a.kind), Put16(n);
    assert t[..2] == head && t[2..4] == size && t[4..4 + n] == a.value;
    assert U16(body, 0) == U16(head, 0) by {
      assert body[0] == head[0] && body[1] == head[1];
    }
    assert U16(body, 2) == U16(size, 0) by {
      assert body[2] == t[2..4][0] && body[3] == t[2..4][1];
    }
    assert body[4..4 + n] == t[4..4 + n];
    assert |t| == 4 + n + Padding(n);
    assert body[|t|..] == rest;
  }

  ghost predicate Encodable(attrs: seq<Attribute>) {
    forall i :: 0 <= i < |attrs| ==> |attrs[i].value| < 0x1_0000
  }

  function Concat(attrs: seq<Attribute>): Bytes
    requires Encodable(attrs)
  {
    if attrs == [] then [] else Concat(attrs[..|attrs| - 1]) + Tlv(attrs[|attrs| - 1])
  }

  lemma ConcatSnoc(attrs: seq<Attribute>, a: Attribute)
    requires Encodable(attrs) && |a.value| < 0x1_0000
    ensures Encodable(attrs + [a]) && Concat(attrs + [a]) == Concat(attrs) + Tlv(a)
  {
    assert (attrs + [a])[..|attrs|] == attrs;
  }

  lemma ConcatTwo(a: Attribute, b: Attribute)
    requires |a.value| < 0x1_0000 && |b.value| < 0x1_0000
    ensures Encodable([a]) && Concat([a]) == Tlv(a)
    ensures Encodable([a, b]) && Concat([a, b]) == Tlv(a) + Tlv(b)
  {
    hide Tlv;
    ConcatSnoc([], a);
    ConcatSnoc([a], b);
    assert [] + [a] == [a] && [a] + [b] == [a, b];
  }

  lemma {:induction false} ParseConcat(attrs: seq<Attribute>, rest: Bytes)
    requires Encodable(attrs)
    ensures Parse(Concat(attrs) + rest) == Prepend(attrs, Parse(rest))
    decreases |attrs|
  {
    if attrs == [] {
      assert Concat(attrs) + rest == rest;
      if Parse(rest).Some? {
        assert [] + Parse(rest).value == Parse(rest).value;
      }
    } else {
      var front, last := attrs[..|attrs| - 1], attrs[|attrs| - 1];
      assert Concat(attrs) + rest == Concat(front) + (Tlv(last) + rest);
      ParseConcat(front, Tlv(last) + rest);
      ParseTlv(last, rest);
      PrependTwice(front, [last], Parse(rest));
      assert front + [last] == attrs;
    }
  }

  /** A message body is read back as the attributes it was written from. */
  lemma ParseInverts(attrs: seq<Attribute>)
    requires Encodable(attrs)
    ensures Parse(Concat(attrs)) == Some(attrs)
  {
    ParseConcat(attrs, []);
    assert Concat(attrs) + [] == Concat(attrs) && attrs + [] == attrs;
  }

  /** Every attribute takes at least its header. */
  lemma {:induction false} ParsedSize(body: Bytes)
    requires Parse(body).Some?
    ensures 4 * |Parse(body).value| <= |body|
    decreases |body|
  {
    if body != [] {
      var size := U16(body, 2);
      ParsedSize(body[4 + size + Padding(size)..]);
    }
  }

  /** The comprehension-required attributes this server has no handler for. */
  function Unhandled(attrs: seq<Attribute>): seq<uint16> {
    if attrs == [] then []
    else
      var a := attrs[|attrs| - 1];
      Unhandled(attrs[..|attrs| - 1]) + if a.kind < 0x8000 && !Integrity(a) then [a.kind] else []
  }

  predicate Integrity(a: Attribute) {
    a.kind == MESSAGE_INTEGRITY || a.kind == MESSAGE_INTEGRITY_SHA256
  }

  /** Every FINGERPRINT is the last attribute and covers all that precedes it. */
  ghost predicate Fingerprinted(message: Bytes, attrs: seq<Attribute>, crc: Checksum) {
    forall i :: 0 <= i < |attrs| && attrs[i].kind == 0x8028 ==>
      i == |attrs| - 1 && GoodFingerprint(message, attrs[i], crc)
  }

  ghost predicate GoodFingerprint(message: Bytes, a: Attribute, crc: Checksum) {
    && |a.value| == 4 && |message| >= 8
    && U32(a.value, 0) == Xor32(crc(message[..|message| - 8]), 0x5354_554e)
  }

  // ----- which requests are answered -----

  datatype Remote = Remote(ip: Bytes, port: int)

  predicate HeaderOk(request: Bytes) {
    && 20 <= |request| <= 1500 && U16(request, 0) == 1 && U32(request, 4) == 0x2112_a442
    && U16(request, 2) == |request| - 20 && |request| % 4 == 0
  }

  predicate Mapped4(ip: Bytes) {
    |ip| == 16 && ip[..10] == Zeros(10) && ip[10] == 0xff && ip[11] == 0xff
  }

  /** net.IP.To4, or else To16; None for a slice that is neither. */
  function Canonical(ip: Bytes): (r: Option<Bytes>)
    ensures r.Some? ==> |r.value| == 4 || |r.value| == 16
  {
    if |ip| == 4 then Some(ip)
    else if Mapped4(ip) then Some(ip[12..])
    else if |ip| == 16 then Some(ip)
    else None
  }

  predicate Reachable(remote: Option<Remote>) {
    remote.Some? && 1 <= remote.value.port <= 65535 && |remote.value.ip| in {4, 16}
  }

  /** What sixteen bytes that hold an IPv4 address start with. */
  const MAPPED_PREFIX: Bytes := [0, 0, 0, 0, 0, 0, 0, 0, 0, 0, 0xff, 0xff]

  /** The address the sender is told is its own: four bytes in family 1, also
      when they came mapped into sixteen, or sixteen that hold no IPv4 address
      in family 2. */
  predicate TellsSender(ip: Bytes, told: Bytes, family: byte) {
    || (family == 1 && |told| == 4 && (ip == told || ip == MAPPED_PREFIX + told))
    || (family == 2 && |told| == 16 && ip == told && told[..12] != MAPPED_PREFIX)
  }

  lemma CanonicalTells(ip: Bytes)
    ensures Canonical(ip).Some? <==> |ip| in {4, 16}
    ensures Canonical(ip).Some? ==>
              var told := Canonical(ip).value;
              TellsSender(ip, told, if |told| == 4 then 1 else 2)
  {
    TenZeros();
    if |ip| == 16 {
      assert ip[..12] == ip[..10] + [ip[10], ip[11]];
      assert MAPPED_PREFIX == MAPPED_PREFIX[..10] + [0xff, 0xff];
      assert ip == ip[..12] + ip[12..];
      if ip[..12] == MAPPED_PREFIX {
        assert ip[..10] == ip[..12][..10];
        assert ip[10] == ip[..12][10] && ip[11] == ip[..12][11];
      }
    }
  }

  lemma TenZeros()
    ensures Zeros(10) == MAPPED_PREFIX[..10]
  {
    assert Zeros(2) == [0, 0];
    assert Zeros(4) == [0, 0, 0, 0];
    assert Zeros(6) == [0, 0, 0, 0, 0, 0];
    assert Zeros(8) == [0, 0, 0, 0, 0, 0, 0, 0];
    assert Zeros(10) == [0, 0, 0, 0, 0, 0, 0, 0, 0, 0];
  }

  /** The body of a request without credentials, all of it attributes. */
  ghost predicate BodyOk(request: Bytes, crc: Checksum)
    requires |request| >= 20
  {
    && Parse(request[20..]).Some?
    && var attrs := Parse(request[20..]).value;
    && (forall i :: 0 <= i < |attrs| ==> !Integrity(attrs[i]))
    && Fingerprinted(request, attrs, crc)
  }

  function Unknown(request: Bytes): seq<uint16>
    requires |request| >= 20 && Parse(request[20..]).Some?
  {
    Unhandled(Parse(request[20..]).value)
  }

  // ----- what a response says -----

  /** The receiving end of XOR-MAPPED-ADDRESS; header is the cookie and the
      transaction id. */
  function DecodeAddress(value: Bytes, header: Bytes): Option<(Bytes, uint16)>
    requires |header| == 16
  {
    if |value| < 4 || value[0] != 0 then None
    else if !(value[1] == 1 && |value| == 8) && !(value[1] == 2 && |value| == 20) then None
    else Some((seq(|value| - 4, i requires 0 <= i < |value| - 4 => Xor8(value[4 + i], header[i])),
               Xor16(U16(value, 2), COOKIE / 0x1_0000)))
  }

  /** The receiving end of UNKNOWN-ATTRIBUTES. */
  function DecodeTypes(value: Bytes): seq<uint16> {
    if |value| < 2 then [] else [U16(value, 0)] + DecodeTypes(value[2..])
  }

  /** A message whose header and attributes agree with its bytes, closed by a
      fingerprint. */
  ghost predicate WellFormed(response: Bytes, attrs: seq<Attribute>, crc: Checksum) {
    && |response| >= 20 && |response| % 4 == 0 && |response| - 20 < 0x1_0000
    && U16(response, 2) == |response| - 20
    && Parse(response[20..]) == Some(attrs)
    && attrs != [] && attrs[|attrs| - 1].kind == 0x8028
    && Fingerprinted(response, attrs, crc)
  }

  // ----- the walk -----

  /** The size of the attribute at p with its padding, if the message holds it. */
  function Extent(message: Bytes, p: nat): Option<nat> {
    if p + 4 > |message| then None
    else
      var size := U16(message, p + 2);
      if p + 4 + size + Padding(size) > |message| then None else Some(4 + size + Padding(size))
  }

  lemma ParseHead(body: Bytes)
    requires body != []
    ensures |body| < 4 ==> Parse(body).None?
    ensures |body| >= 4 ==>
              var size := U16(body, 2);
              var end := 4 + size + Padding(size);
              Parse(body) == if end > |body| then None
                             else Prepend([Attribute(U16(body, 0), body[4..4 + size])], Parse(body[end..]))
  {
  }

  lemma ParseStep(message: Bytes, p: nat, front: seq<Attribute>)
    requires 20 <= p < |message| && Parse(message[20..]) == Prepend(front, Parse(message[p..]))
    ensures Extent(message, p).None? ==> Parse(message[20..]).None?
    ensures Extent(message, p).Some? ==>
              var next := p + Extent(message, p).value;
              var a := Attribute(U16(message, p), message[p + 4..p + 4 + U16(message, p + 2)]);
              Parse(message[20..]) == Prepend(front + [a], Parse(message[next..]))
  {
    hide Parse;
    var rest := message[p..];
    ParseHead(rest);
    if |rest| >= 4 {
      var size := U16(message, p + 2);
      assert U16(rest, 0) == U16(message, p) && U16(rest, 2) == size;
      if Extent(message, p).Some? {
        var end := 4 + size + Padding(size);
        assert rest[4..4 + size] == message[p + 4..p + 4 + size] && rest[end..] == message[p + end..];
        PrependTwice(front, [Attribute(U16(message, p), rest[4..4 + size])], Parse(rest[end..]));
      }
    }
  }

  /** Where a parse got to is part of every parse. */
  lemma InFront(message: Bytes, front: seq<Attribute>, a: Attribute, next: nat, all: seq<Attribute>)
    requires 20 <= next <= |message| && Parse(message[20..]) == Prepend(front + [a], Parse(message[next..])) == Some(all)
    ensures |front| < |all| && all[|front|] == a
    ensures next < |message| ==> |front| + 1 < |all|
  {
  }

  lemma IntegrityRefused(request: Bytes, front: seq<Attribute>, a: Attribute, next: nat, crc: Checksum)
    requires 20 <= next <= |request| && Integrity(a)
    requires Parse(request[20..]) == Prepend(front + [a], Parse(request[next..]))
    ensures !BodyOk(request, crc)
  {
    if Parse(request[20..]).Some? {
      InFront(request, front, a, next, Parse(request[20..]).value);
    }
  }

  lemma BadFingerprint(request: Bytes, front: seq<Attribute>, a: Attribute, next: nat, crc: Checksum)
    requires 20 <= next <= |request| && a.kind == FINGERPRINT
    requires Parse(request[20..]) == Prepend(front + [a], Parse(request[next..]))
    requires next == |request| ==> !GoodFingerprint(request, a, crc)
    ensures !BodyOk(request, crc)
  {
    if Parse(request[20..]).Some? {
      InFront(request, front, a, next, Parse(request[20..]).value);
    }
  }

  /** The unhandled types of a body are those of its attributes, in order. */
  lemma {:induction false} UnhandledSplits(xs: seq<Attribute>, ys: seq<Attribute>)
    ensures Unhandled(xs + ys) == Unhandled(xs) + Unhandled(ys)
    decreases |ys|
  {
    hide Unhandled;
    if ys == [] {
      assert xs + ys == xs;
      UnhandledNone();
      assert Unhandled(xs) + [] == Unhandled(xs);
    } else {
      var front, last := ys[..|ys| - 1], ys[|ys| - 1];
      UnhandledSplits(xs, front);
      UnhandledSnoc(xs + front, last);
      UnhandledSnoc(front, last);
      assert xs + ys == xs + front + [last] && ys == front + [last];
    }
  }

  /** An attribute is unhandled when its type is below 0x8000 and no message
      integrity. */
  lemma UnhandledOne(a: Attribute)
    ensures Unhandled([a]) == if a.kind < 0x8000 && a.kind != 0x0008 && a.kind != 0x001c then [a.kind] else []
  {
    UnhandledSnoc([], a);
    assert [] + [a] == [a];
  }

  lemma UnhandledNone()
    ensures Unhandled([]) == []
  {
  }

  lemma UnhandledSnoc(front: seq<Attribute>, a: Attribute)
    ensures Unhandled(front + [a]) == Unhandled(front) + if a.kind < 0x8000 && !Integrity(a) then [a.kind] else []
  {
    assert (front + [a])[..|front|] == front;
  }

  lemma StaysAligned(p: nat, size: nat)
    requires p % 4 == 0
    ensures (p + 4 + size + Padding(size)) % 4 == 0 && (size == 4 ==> Padding(size) == 0)
  {
  }

  /** The loop over a request's attributes; None wherever the code gives up. */
  method WalkAttributes(request: Bytes, crc: Checksum)
    returns (unknown: Option<seq<uint16>>)
    requires |request| >= 20 && |request| % 4 == 0
    ensures unknown.Some? <==> BodyOk(request, crc)
    ensures unknown.Some? ==> unknown.value == Unknown(request)
  {
    hide Parse, Unhandled, Xor, Xor32, U16, U32, Prepend, Padding;
    var seen: seq<uint16> := [];
    ghost var attrs: seq<Attribute> := [];
    var p := 20;
    WalkStarts(request);
    while p < |request|
      invariant 20 <= p <= |request| && p % 4 == 0
      invariant Parse(request[20..]) == Prepend(attrs, Parse(request[p..]))
      invariant seen == Unhandled(attrs)
      invariant forall i :: 0 <= i < |attrs| ==> !Integrity(attrs[i])
      invariant forall i :: 0 <= i < |attrs| && attrs[i].kind == FINGERPRINT ==>
                  p == |request| && i == |attrs| - 1 && GoodFingerprint(request, attrs[i], crc)
    {
      ParseStep(request, p, attrs);
      if p + 4 > |request| {
        return None;
      }
      var kind, size := U16(request, p), U16(request, p + 2);
      var end := p + 4 + size;
      StaysAligned(p, size);
      if end > |request| || p + 4 + size + Padding(size) > |request| {
        return None;
      }
      ghost var a := Attribute(kind, request[p + 4..end]);
      if kind == FINGERPRINT {
        SliceWord(request, p + 4, size);
        if size != 4 || end != |request| || U32(request, p + 4) != Xor32(crc(request[..p]), FINGERPRINT_XOR) {
          BadFingerprint(request, attrs, a, end + Padding(size), crc);
          return None;
        }
      } else if kind == MESSAGE_INTEGRITY || kind == MESSAGE_INTEGRITY_SHA256 {
        IntegrityRefused(request, attrs, a, end + Padding(size), crc);
        return None;
      } else if kind < 0x8000 {
        seen := seen + [kind];
      }
      UnhandledSnoc(attrs, a);
      attrs := attrs + [a];
      p := end + Padding(size);
    }
    WalkEnds(request, attrs);
    unknown := Some(seen);
  }

  lemma SliceWord(b: Bytes, at: nat, size: nat)
    requires at + size <= |b|
    ensures size == 4 ==> U32(b[at..at + size], 0) == U32(b, at)
  {
  }

  lemma WalkStarts(request: Bytes)
    requires |request| >= 20
    ensures Parse(request[20..]) == Prepend([], Parse(request[20..])) && Unhandled([]) == []
  {
    if Parse(request[20..]).Some? {
      assert [] + Parse(request[20..]).value == Parse(request[20..]).value;
    }
  }

  lemma WalkEnds(request: Bytes, attrs: seq<Attribute>)
    ensures Prepend(attrs, Parse(request[|request|..])) == Some(attrs)
  {
    assert request[|request|..] == [] && attrs + [] == attrs;
  }

  // ----- the response -----

  const REASON: Bytes :=
    [0x55, 0x6e, 0x6b, 0x6e, 0x6f, 0x77, 0x6e, 0x20, 0x41, 0x74, 0x74, 0x72, 0x69, 0x62, 0x75, 0x74, 0x65]

  /** 420 (Unknown Attribute): class 4, number 20, and the reason phrase. */
  const ERROR_420 := Attribute(ERROR_CODE, [0, 0, 4, 20] + REASON)

  /** The requests that get a response. */
  ghost predicate Answered(request: Bytes, remote: Option<Remote>, crc: Checksum) {
    HeaderOk(request) && BodyOk(request, crc) && (Unknown(request) != [] || Reachable(remote))
  }

  /** Class 4, number 20 and a reason. */
  predicate Refuses(value: Bytes) {
    |value| > 4 && value[..4] == [0, 0, 4, 20]
  }

  /** A well-formed response to the request: 420 with exactly the unhandled
      types in order, or the sender's own address and port. */
  ghost predicate Answers(r: Bytes, request: Bytes, remote: Option<Remote>, unknown: seq<uint16>, crc: Checksum)
    requires |request| >= 20
  {
    && |r| >= 40 && r[4..20] == request[4..20] && r[4..8] == [0x21, 0x12, 0xa4, 0x42]
    && Parse(r[20..]).Some?
    && var attrs := Parse(r[20..]).value;
    && WellFormed(r, attrs, crc)
    && if unknown != [] then
         && r[..2] == [0x01, 0x11] && |attrs| == 3 && attrs[0].kind == 0x0009 && Refuses(attrs[0].value)
         && attrs[1].kind == 0x000a && DecodeTypes(attrs[1].value) == unknown
       else
         && r[..2] == [0x01, 0x01] && |attrs| == 2 && Reachable(remote) && attrs[0].kind == 0x0020
         && var told := DecodeAddress(attrs[0].value, r[4..20]);
         && told.Some? && told.value.1 == remote.value.port
         && |attrs[0].value| >= 2 && TellsSender(remote.value.ip, told.value.0, attrs[0].value[1])
  }

  method AppendAttribute(response: Bytes, a: Attribute) returns (out: Bytes)
    requires |response| % 4 == 0 && |a.value| < 0x1_0000
    ensures out == response + Tlv(a) && |out| % 4 == 0
  {
    hide Put16, Padding;
    ghost var unpadded := response + (Put16(a.kind) + Put16(|a.value|) + a.value);
    out := response + Put16(a.kind) + Put16(|a.value|) + a.value;
    assert out == unpadded;
    ghost var n := 0;
    while |out| % 4 != 0
      invariant n <= Padding(|a.value|)
      invariant |out| == |unpadded| + n && out == unpadded + Zeros(n)
      decreases Padding(|a.value|) - n
    {
      PaddingLeft(|response|, |a.value|, n);
      out := out + [0];
      n := n + 1;
    }
    PaddingLeft(|response|, |a.value|, n);
  }

  /** The padding ends where the length is a multiple of four. */
  lemma PaddingLeft(start: nat, size: nat, n: nat)
    requires start % 4 == 0 && n <= Padding(size)
    ensures (start + 4 + size + n) % 4 == 0 <==> n == Padding(size)
  {
  }

  method EncodeTypes(unknown: seq<uint16>) returns (values: array<byte>)
    ensures values.Length == 2 * |unknown| && DecodeTypes(values[..]) == unknown
  {
    values := new byte[2 * |unknown|];
    var i := 0;
    while i < |unknown|
      invariant 0 <= i <= |unknown|
      invariant DecodeTypes(values[..2 * i]) == unknown[..i]
    {
      values[2 * i], values[2 * i + 1] := unknown[i] / 0x100, unknown[i] % 0x100;
      TypesSnoc(values[..2 * i], unknown[i]);
      assert values[..2 * (i + 1)] == values[..2 * i] + Put16(unknown[i]);
      assert unknown[..i + 1] == unknown[..i] + [unknown[i]];
      i := i + 1;
    }
    assert values[..2 * i] == values[..] && unknown[..i] == unknown;
  }

  lemma {:induction false} TypesSnoc(value: Bytes, t: uint16)
    requires |value| % 2 == 0
    ensures DecodeTypes(value + Put16(t)) == DecodeTypes(value) + [t]
    decreases |value|
  {
    var b := Put16(t);
    if value == [] {
      assert value + b == b && b[2..] == [];
    } else {
      TypesSnoc(value[2..], t);
      assert (value + b)[2..] == value[2..] + b;
      assert U16(value + b, 0) == U16(value, 0);
    }
  }

  /** The value of XOR-MAPPED-ADDRESS. */
  method MapAddress(request: Bytes, ip: Bytes, port: uint16) returns (mapped: array<byte>)
    requires |request| >= 20 && U32(request, 4) == COOKIE && (|ip| == 4 || |ip| == 16)
    ensures mapped.Length == 4 + |ip|
    ensures DecodeAddress(mapped[..], request[4..20]) == Some((ip, port)) && mapped[1] == (if |ip| == 4 then 1 else 2)
  {
    mapped := new byte[4 + |ip|];
    var masked := Xor16(port, COOKIE / 0x1_0000);
    mapped[0], mapped[1] := 0, if |ip| == 4 then 1 else 2;
    mapped[2], mapped[3] := masked / 0x100, masked % 0x100;
    var i := 0;
    while i < |ip|
      invariant 0 <= i <= |ip|
      invariant mapped[0] == 0 && mapped[1] == (if |ip| == 4 then 1 else 2)
      invariant mapped[2] == masked / 0x100 && mapped[3] == masked % 0x100
      invariant forall j :: 0 <= j < i ==> mapped[4 + j] == Xor8(ip[j], request[4 + j])
    {
      mapped[4 + i] := Xor8(ip[i], request[4 + i]);
      i := i + 1;
    }
    AddressDecodes(mapped[..], request[4..20], ip, port);
  }

  /** Masking an address and a port twice gives them back. */
  lemma AddressDecodes(value: Bytes, header: Bytes, ip: Bytes, port: uint16)
    requires |header| == 16 && (|ip| == 4 || |ip| == 16) && |value| == 4 + |ip|
    requires value[0] == 0 && value[1] == (if |ip| == 4 then 1 else 2)
    requires value[2] == Xor16(port, COOKIE / 0x1_0000) / 0x100 && value[3] == Xor16(port, COOKIE / 0x1_0000) % 0x100
    requires forall j :: 0 <= j < |ip| ==> value[4 + j] == Xor8(ip[j], header[j])
    ensures DecodeAddress(value, header) == Some((ip, port))
  {
    hide Xor;
    XorUndoes(port, COOKIE / 0x1_0000);
    assert U16(value, 2) == Xor16(port, COOKIE / 0x1_0000);
    forall j | 0 <= j < |ip| ensures Xor8(value[4 + j], header[j]) == ip[j] {
      XorUndoes(ip[j], header[j]);
    }
    assert DecodeAddress(value, header).value.0 == ip;
  }

  /** The fingerprint goes last, over everything before it with the final length
      already in the header. */
  method Seal(response: Bytes, crc: Checksum, ghost attrs: seq<Attribute>) returns (out: Bytes)
    requires 20 <= |response| < 0xfff0 && |response| % 4 == 0
    requires Encodable(attrs) && response[20..] == Concat(attrs)
    requires forall i :: 0 <= i < |attrs| ==> attrs[i].kind != FINGERPRINT
    ensures |out| == |response| + 8 && out[..2] == response[..2] && out[4..20] == response[4..20]
    ensures Parse(out[20..]).Some? && WellFormed(out, Parse(out[20..]).value, crc)
    ensures |Parse(out[20..]).value| == |attrs| + 1 && Parse(out[20..]).value[..|attrs|] == attrs
  {
    hide Xor, Xor32, Parse, Tlv, Put32, Put16, Concat;
    var size := Put16(|response| - 20 + 8);
    var head := response[..2] + size + response[4..];
    assert U16(head, 2) == U16(size, 0);
    var fingerprint := Attribute(FINGERPRINT, Put32(Xor32(crc(head), FINGERPRINT_XOR)));
    out := AppendAttribute(head, fingerprint);
    TlvSize(fingerprint);
    assert out[..|out| - 8] == head;
    assert U16(out, 2) == U16(head, 2);
    ConcatSnoc(attrs, fingerprint);
    assert head[20..] == response[20..];
    assert out[20..] == Concat(attrs + [fingerprint]);
    ParseInverts(attrs + [fingerprint]);
  }

  lemma TlvSize(a: Attribute)
    requires |a.value| < 0x1_0000
    ensures |Tlv(a)| == 4 + |a.value| + Padding(|a.value|)
  {
  }

  lemma CookieBytes(request: Bytes)
    requires HeaderOk(request)
    ensures request[4..20][..4] == [0x21, 0x12, 0xa4, 0x42]
  {
    var b := request[4..20];
    assert U32(request, 4) == 0x2112_a442;
    assert b[0] == request[4] && b[1] == request[5] && b[2] == request[6] && b[3] == request[7];
    assert U16(request, 4) == 0x2112 && U16(request, 6) == 0xa442;
  }

  lemma UnknownFit(request: Bytes, crc: Checksum)
    requires HeaderOk(request) && BodyOk(request, crc)
    ensures |Unknown(request)| <= 370
  {
    ParsedSize(request[20..]);
    FewUnhandled(Parse(request[20..]).value);
  }

  lemma {:induction false} FewUnhandled(attrs: seq<Attribute>)
    ensures |Unhandled(attrs)| <= |attrs|
    decreases |attrs|
  {
    if attrs != [] {
      FewUnhandled(attrs[..|attrs| - 1]);
    }
  }

  /** stunBindingResponse: exactly the answerable requests get a response, and
      the response is what RFC 8489 asks for. */
  method StunBindingResponse(request: Bytes, remote: Option<Remote>, crc: Checksum) returns (response: Option<Bytes>)
    ensures response.Some? <==> Answered(request, remote, crc)
    ensures response.Some? ==> Answers(response.value, request, remote, Unknown(request), crc)
  {
    hide Parse, Unhandled, Xor, Tlv, Put32, Put16, DecodeTypes, DecodeAddress, Concat, WellFormed, BodyOk, Canonical,
         TellsSender;
    if |request| < 20 || |request| > 1500 || U16(request, 0) != 1 || U32(request, 4) != COOKIE
       || U16(request, 2) != |request| - 20 || |request| % 4 != 0 {
      return None;
    }
    var walked := WalkAttributes(request, crc);
    if walked.None? {
      return None;
    }
    var unknown := walked.value;
    UnknownFit(request, crc);
    CookieBytes(request);
    var start := [1, 1, 0, 0] + request[4..20];
    assert start[4..20] == request[4..20];
    if unknown != [] {
      var built := RefuseUnknown(start, unknown, crc);
      assert built[4..8] == built[4..20][..4];
      return Some(built);
    }
    if remote.None? || remote.value.port < 1 || remote.value.port > 65535 {
      return None;
    }
    var ip := Canonical(remote.value.ip);
    CanonicalTells(remote.value.ip);
    if ip.None? {
      return None;
    }
    var built := TellAddress(start, request, ip.value, remote.value.port, crc);
    assert built[4..8] == built[4..20][..4];
    ghost var first := Parse(built[20..]).value[0];
    assert first.value[1] == if |ip.value| == 4 then 1 else 2;
    assert TellsSender(remote.value.ip, ip.value, first.value[1]);
    response := Some(built);
  }

  method RefuseUnknown(start: Bytes, unknown: seq<uint16>, crc: Checksum) returns (out: Bytes)
    requires |start| == 20 && 0 < |unknown| <= 370
    ensures |out| >= 40 && out[4..20] == start[4..20] && out[..2] == [0x01, 0x11]
    ensures Parse(out[20..]).Some? && WellFormed(out, Parse(out[20..]).value, crc)
    ensures var attrs := Parse(out[20..]).value;
            && |attrs| == 3 && attrs[0] == ERROR_420
            && attrs[1].kind == UNKNOWN_ATTRIBUTES && DecodeTypes(attrs[1].value) == unknown
  {
    hide Parse, Tlv, Put32, Put16, DecodeTypes, WellFormed, Concat, Encodable;
    var head := [1, 0x11] + start[2..];
    var first := AppendAttribute(head, ERROR_420);
    var values := EncodeTypes(unknown);
    var list := Attribute(UNKNOWN_ATTRIBUTES, values[..]);
    var both := AppendAttribute(first, list);
    TlvSize(ERROR_420);
    TlvSize(list);
    ConcatTwo(ERROR_420, list);
    assert both[20..] == Tlv(ERROR_420) + Tlv(list);
    out := Seal(both, crc, [ERROR_420, list]);
    assert Parse(out[20..]).value[..2] == [ERROR_420, list];
  }

  method TellAddress(start: Bytes, request: Bytes, ip: Bytes, port: uint16, crc: Checksum) returns (out: Bytes)
    requires |start| == 20 && start[..2] == [1, 1]
    requires |request| >= 20 && U32(request, 4) == COOKIE && (|ip| == 4 || |ip| == 16)
    ensures |out| >= 40 && out[4..20] == start[4..20] && out[..2] == [0x01, 0x01]
    ensures Parse(out[20..]).Some? && WellFormed(out, Parse(out[20..]).value, crc)
    ensures var attrs := Parse(out[20..]).value;
            && |attrs| == 2 && attrs[0].kind == MAPPED
            && DecodeAddress(attrs[0].value, request[4..20]) == Some((ip, port))
            && |attrs[0].value| >= 2 && attrs[0].value[1] == (if |ip| == 4 then 1 else 2)
  {
    hide Parse, Tlv, Put32, Put16, DecodeAddress, WellFormed, Concat, Encodable;
    var mapped := MapAddress(request, ip, port);
    var address := Attribute(MAPPED, mapped[..]);
    var first := AppendAttribute(start, address);
    TlvSize(address);
    ConcatTwo(address, address);
    assert first[20..] == Tlv(address);
    out := Seal(first, crc, [address]);
    assert Parse(out[20..]).value[..1] == [address];
  }
}
