/** The STUN codec: binding requests and the XOR-MAPPED-ADDRESS of a success response (RFC 5389, sections 6,
    15 and 15.2). */
module Stun {
  import opened Collections
  import opened Wire

  const COOKIE := 0x2112A442
  const COOKIE_BYTES: seq<Byte> := [0x21, 0x12, 0xA4, 0x42]
  const HEADER_LEN := 20
  const BINDING_REQUEST := 0x0001
  const BINDING_RESPONSE := 0x0101
  const XOR_MAPPED_ADDRESS := 0x0020
  const FAMILY_V4: Byte := 1
  const FAMILY_V6: Byte := 2

  type TxId = t: seq<Byte> | |t| == 12 witness [0, 0, 0, 0, 0, 0, 0, 0, 0, 0, 0, 0]
  type Ip = a: seq<Byte> | |a| == 4 || |a| == 16 witness [0, 0, 0, 0]
  type Port = p: int | 0 <= p < 0x1_0000

  datatype AddrPort = AddrPort(addr: Ip, port: Port)

  /** netip.Addr.Unmap: an IPv4-mapped IPv6 address becomes IPv4. */
  function Unmap(a: Ip): Ip {
    if |a| == 16 && a[..12] == [0, 0, 0, 0, 0, 0, 0, 0, 0, 0, 255, 255] then a[12..] else a
  }

  /** IPv4-mapped means ten zero bytes and two of 255 in front. */
  lemma UnmapExact(a: Ip)
    ensures Unmap(a) ==
            if |a| == 16 && (forall i | 0 <= i < 10 :: a[i] == 0) && a[10] == 255 && a[11] == 255 then a[12..] else a
  {
    if |a| == 16 {
      var head := a[..12];
      assert forall i | 0 <= i < 12 :: a[i] == head[i];
      assert head == [0, 0, 0, 0, 0, 0, 0, 0, 0, 0, 255, 255] <==>
             (forall i | 0 <= i < 10 :: head[i] == 0) && head[10] == 255 && head[11] == 255;
    }
  }

  // ------------------------------------------------------------------- xor

  /** Bitwise exclusive or of the low n bits. */
  function Xor(n: nat, a: nat, b: nat): nat {
    if n == 0 then 0 else (a + b) % 2 + 2 * Xor(n - 1, a / 2, b / 2)
  }

  function Pow2(n: nat): nat { if n == 0 then 1 else 2 * Pow2(n - 1) }

  lemma Parity(a: nat, b: nat, r: nat)
    ensures var x := (a + b) % 2 + 2 * r; x / 2 == r && (x + b) % 2 == a % 2
  {
    var x, q := (a + b) % 2 + 2 * r, (a + b) / 2;
    assert a + b == 2 * q + (a + b) % 2;
    assert x + b == a + 2 * (b - q + r);
  }

  lemma {:induction false} XorInvolution(n: nat, a: nat, b: nat)
    ensures Xor(n, a, b) < Pow2(n)
    ensures a < Pow2(n) ==> Xor(n, Xor(n, a, b), b) == a
  {
    if n > 0 {
      XorInvolution(n - 1, a / 2, b / 2);
      Parity(a, b, Xor(n - 1, a / 2, b / 2));
    }
  }

  /** Bit i, from the least significant. */
  function BitAt(n: nat, i: nat): nat
    decreases i
  {
    if i == 0 then n % 2 else BitAt(n / 2, i - 1)
  }

  /** A bit of the result is set exactly where the operands differ. */
  lemma {:induction false} XorBits(n: nat, a: nat, b: nat, i: nat)
    requires i < n
    ensures BitAt(Xor(n, a, b), i) == 1 <==> BitAt(a, i) != BitAt(b, i)
    decreases n
  {
    Parity(a, b, Xor(n - 1, a / 2, b / 2));
    if i > 0 {
      XorBits(n - 1, a / 2, b / 2, i - 1);
    }
  }

  lemma Pow2Values()
    ensures Pow2(8) == 256 && Pow2(16) == 0x1_0000
  {
    assert Pow2(4) == 16 && Pow2(8) == 16 * Pow2(4) && Pow2(12) == 16 * Pow2(8) && Pow2(16) == 16 * Pow2(12);
  }

  function XorByte(a: Byte, b: Byte): Byte {
    XorInvolution(8, a, b);
    Pow2Values();
    Xor(8, a, b)
  }

  function XorPort(p: Port): Port {
    XorInvolution(16, p, COOKIE / 0x1_0000);
    Pow2Values();
    Xor(16, p, COOKIE / 0x1_0000)
  }

  function XorBytes(a: seq<Byte>, m: seq<Byte>): (r: seq<Byte>)
    requires |a| <= |m|
    ensures |r| == |a|
    ensures forall i | 0 <= i < |a| :: r[i] == XorByte(a[i], m[i])
  {
    if a == [] then [] else XorBytes(a[..|a| - 1], m) + [XorByte(a[|a| - 1], m[|a| - 1])]
  }

  lemma XorBack(a: seq<Byte>, m: seq<Byte>, p: Port)
    requires |a| <= |m|
    ensures XorBytes(XorBytes(a, m), m) == a
    ensures XorPort(XorPort(p)) == p
  {
    Pow2Values();
    forall i | 0 <= i < |a| ensures XorByte(XorByte(a[i], m[i]), m[i]) == a[i] {
      XorInvolution(8, a[i], m[i]);
    }
    XorInvolution(16, p, COOKIE / 0x1_0000);
  }

  // -------------------------------------------------------------- messages

  function Header(msgType: nat, tx: TxId, attrsLen: nat): (r: seq<Byte>)
    ensures |r| == HEADER_LEN
  {
    Be(msgType, 2) + Be(attrsLen, 2) + COOKIE_BYTES + tx
  }

  predicate IsStun(pkt: seq<Byte>) { |pkt| >= HEADER_LEN && pkt[4..8] == COOKIE_BYTES }

  /** The mask an address is combined with: the cookie and, for IPv6, the transaction id. */
  function Mask(tx: TxId): seq<Byte> { COOKIE_BYTES + tx }

  /** The value of an XOR-MAPPED-ADDRESS attribute. */
  function XorValue(tx: TxId, ap: AddrPort): seq<Byte> {
    ValueHead(Unmap(ap.addr)) + Be(XorPort(ap.port), 2) + XorBytes(Unmap(ap.addr), Mask(tx))
  }

  /** A zero byte and the address family. */
  function ValueHead(ip: Ip): seq<Byte> { [0, if |ip| == 4 then FAMILY_V4 else FAMILY_V6] }

  function BindingRequest(tx: TxId): seq<Byte> { Header(BINDING_REQUEST, tx, 0) }

  /** xorMappedAddress: type, length, value. */
  function XorAttribute(tx: TxId, ap: AddrPort): seq<Byte> {
    Be(XOR_MAPPED_ADDRESS, 2) + Be(|XorValue(tx, ap)|, 2) + XorValue(tx, ap)
  }

  function BindingResponse(tx: TxId, ap: AddrPort): seq<Byte> {
    Header(BINDING_RESPONSE, tx, |XorAttribute(tx, ap)|) + XorAttribute(tx, ap)
  }

  /** parseXorMappedAddress. */
  function ParseXor(val: seq<Byte>, tx: TxId): Option<AddrPort> {
    if |val| < 8 then None
    else
      BeUnbe(val[2..4]);
      Widths();
      var port := XorPort(Unbe(val[2..4]));
      if val[1] == FAMILY_V4 then Some(AddrPort(XorBytes(val[4..8], Mask(tx)), port))
      else if val[1] == FAMILY_V6 && |val| >= 20 then Some(AddrPort(XorBytes(val[4..20], Mask(tx)), port))
      else None
  }

  function Padded(n: nat): nat { if n % 4 == 0 then n else n + 4 - n % 4 }

  /** The attribute loop of ParseBindingResponse. */
  function ParseAttrs(p: seq<Byte>, tx: TxId): Option<AddrPort>
    decreases |p|
  {
    if |p| < 4 then None
    else
      var alen := Unbe(p[2..4]);
      if 4 + alen > |p| then None
      else if Unbe(p[0..2]) == XOR_MAPPED_ADDRESS && ParseXor(p[4..4 + alen], tx).Some? then
        ParseXor(p[4..4 + alen], tx)
      else if Padded(4 + alen) > |p| then None
      else ParseAttrs(p[Padded(4 + alen)..], tx)
  }

  function ParseBindingResponse(pkt: seq<Byte>, want: TxId): Option<AddrPort> {
    if !IsStun(pkt) || Unbe(pkt[0..2]) != BINDING_RESPONSE || pkt[8..20] != want then None
    else
      var msgLen := Unbe(pkt[2..4]);
      if HEADER_LEN + msgLen > |pkt| then None else ParseAttrs(pkt[HEADER_LEN..HEADER_LEN + msgLen], want)
  }

  function IsBindingRequest(pkt: seq<Byte>): Option<TxId> {
    if !IsStun(pkt) || Unbe(pkt[0..2]) != BINDING_REQUEST then None else Some(pkt[8..20])
  }

  /** Only a success response to this request is looked into: at least a header, the cookie, type 0x0101, the request's
      transaction, and the whole of its attributes in the packet. */
  lemma ResponseGate(pkt: seq<Byte>, want: TxId)
    ensures ParseBindingResponse(pkt, want).Some? ==>
            && |pkt| >= 20 && pkt[4..8] == [0x21, 0x12, 0xa4, 0x42] && Unbe(pkt[0..2]) == 0x0101 && pkt[8..20] == want
            && 20 + Unbe(pkt[2..4]) <= |pkt|
            && ParseBindingResponse(pkt, want) == ParseAttrs(pkt[20..20 + Unbe(pkt[2..4])], want)
    ensures IsBindingRequest(pkt).Some? <==>
            |pkt| >= 20 && pkt[4..8] == [0x21, 0x12, 0xa4, 0x42] && Unbe(pkt[0..2]) == 0x0001
  {
  }

  /** An attribute's value decodes exactly if it is long enough for the family it names, and the family is known. */
  lemma DecodesExact(val: seq<Byte>, tx: TxId)
    ensures ParseXor(val, tx).Some? <==> |val| >= 8 && (val[1] == 1 || (val[1] == 2 && |val| >= 20))
  {
  }

  // ------------------------------------------------------- attribute lists

  /** An attribute on the wire: padding brings the value to a multiple of four; its content is arbitrary. */
  datatype Attr = Attr(typ: nat, value: seq<Byte>, pad: seq<Byte>)

  predicate WellFormed(a: Attr) {
    a.typ < 0x1_0000 && |a.value| < 0x1_0000 && |a.pad| < 4 && (|a.value| + |a.pad|) % 4 == 0
  }

  function EncodeAttr(a: Attr): seq<Byte> { Be(a.typ, 2) + Be(|a.value|, 2) + a.value + a.pad }

  function EncodeAttrs(s: seq<Attr>): seq<Byte> { if s == [] then [] else EncodeAttr(s[0]) + EncodeAttrs(s[1..]) }

  /** What the response says: its first XOR-MAPPED-ADDRESS that decodes. */
  function FirstDecodable(s: seq<Attr>, tx: TxId): Option<AddrPort> {
    if s == [] then None
    else if s[0].typ == XOR_MAPPED_ADDRESS && ParseXor(s[0].value, tx).Some? then ParseXor(s[0].value, tx)
    else FirstDecodable(s[1..], tx)
  }

  lemma AttrFields(a: Attr, rest: seq<Byte>)
    requires WellFormed(a)
    ensures var p := EncodeAttr(a) + rest;
            && |p| >= 4 && Unbe(p[0..2]) == a.typ && Unbe(p[2..4]) == |a.value|
            && 4 + |a.value| <= |p| && p[4..4 + |a.value|] == a.value
            && Padded(4 + |a.value|) == |EncodeAttr(a)| && p[|EncodeAttr(a)|..] == rest
  {
    Widths();
    UnbeBe(a.typ, 2);
    UnbeBe(|a.value|, 2);
    AttrSlices(Be(a.typ, 2), Be(|a.value|, 2), a.value, a.pad, rest);
    PaddedLen(|a.value|, |a.pad|);
  }

  lemma AttrSlices(t: seq<Byte>, l: seq<Byte>, v: seq<Byte>, pad: seq<Byte>, rest: seq<Byte>)
    requires |t| == 2 && |l| == 2
    ensures var p := t + l + v + pad + rest;
            p[0..2] == t && p[2..4] == l && p[4..4 + |v|] == v && p[4 + |v| + |pad|..] == rest
  {
    var p := t + l + v + pad + rest;
    assert p == t + l + (v + pad + rest);
    Split(t, l, v + pad + rest);
    assert p == (t + l) + v + (pad + rest);
    Split(t + l, v, pad + rest);
    Split(t + l + v, pad, rest);
  }

  lemma PaddedLen(n: nat, pad: nat)
    requires pad < 4 && (n + pad) % 4 == 0
    ensures Padded(4 + n) == 4 + n + pad
  {
  }

  /** On any well-formed list the loop ends with the first address that decodes. */
  lemma {:induction false} AttrsParse(s: seq<Attr>, tx: TxId)
    requires forall i | 0 <= i < |s| :: WellFormed(s[i])
    ensures ParseAttrs(EncodeAttrs(s), tx) == FirstDecodable(s, tx)
  {
    if s != [] {
      AttrFields(s[0], EncodeAttrs(s[1..]));
      AttrsParse(s[1..], tx);
    }
  }

  lemma HeaderFields(msgType: nat, tx: TxId, n: nat, rest: seq<Byte>)
    requires msgType < 0x1_0000 && n < 0x1_0000
    ensures var pkt := Header(msgType, tx, n) + rest;
            && IsStun(pkt) && Unbe(pkt[0..2]) == msgType && Unbe(pkt[2..4]) == n && pkt[8..20] == tx
            && pkt[HEADER_LEN..] == rest
  {
    Widths();
    UnbeBe(msgType, 2);
    UnbeBe(n, 2);
    HeaderSlices(Be(msgType, 2), Be(n, 2), COOKIE_BYTES, tx, rest);
  }

  lemma HeaderSlices(t: seq<Byte>, l: seq<Byte>, cookie: seq<Byte>, tx: seq<Byte>, rest: seq<Byte>)
    requires |t| == 2 && |l| == 2 && |cookie| == 4 && |tx| == 12
    ensures var p := t + l + cookie + tx + rest;
            p[0..2] == t && p[2..4] == l && p[4..8] == cookie && p[8..20] == tx && p[20..] == rest
  {
    AttrSlices(t, l, cookie, tx, rest);
    Split(t + l + cookie, tx, rest);
  }

  /** A success response to the request, whatever other attributes it carries and whatever follows it in the
      datagram, reports its first address that decodes; a response to another request reports nothing. */
  lemma ResponseParse(s: seq<Attr>, tx: TxId, want: TxId, trailing: seq<Byte>)
    requires forall i | 0 <= i < |s| :: WellFormed(s[i])
    requires |EncodeAttrs(s)| < 0x1_0000
    ensures ParseBindingResponse(Header(BINDING_RESPONSE, tx, |EncodeAttrs(s)|) + EncodeAttrs(s) + trailing, want) ==
            if tx == want then FirstDecodable(s, tx) else None
  {
    var body := EncodeAttrs(s);
    var head := Header(BINDING_RESPONSE, tx, |body|);
    HeaderFields(BINDING_RESPONSE, tx, |body|, body + trailing);
    assert head + body + trailing == head + (body + trailing);
    assert (head + body + trailing)[HEADER_LEN..HEADER_LEN + |body|] == body;
    AttrsParse(s, tx);
  }

  lemma ValueParse(tx: TxId, ap: AddrPort)
    ensures ParseXor(XorValue(tx, ap), tx) == Some(AddrPort(Unmap(ap.addr), ap.port))
  {
    var ip := Unmap(ap.addr);
    var mixed := XorBytes(ip, Mask(tx));
    ValueSlices(ValueHead(ip), Be(XorPort(ap.port), 2), mixed);
    ParsesTo(XorValue(tx, ap), tx, ValueHead(ip)[1], ap.port, mixed);
    XorBack(ip, Mask(tx), ap.port);
  }

  lemma ValueLen(tx: TxId, ap: AddrPort)
    ensures |XorValue(tx, ap)| % 4 == 0 && |XorValue(tx, ap)| <= 20
  {
  }

  lemma ParsesTo(v: seq<Byte>, tx: TxId, family: Byte, port: Port, mixed: seq<Byte>)
    requires |v| == 4 + |mixed| && v[1] == family && v[2..4] == Be(XorPort(port), 2) && v[4..4 + |mixed|] == mixed
    requires (family == FAMILY_V4 && |mixed| == 4) || (family == FAMILY_V6 && |mixed| == 16)
    ensures ParseXor(v, tx) == Some(AddrPort(XorBytes(mixed, Mask(tx)), port))
  {
    Widths();
    UnbeBe(XorPort(port), 2);
    XorBack([], [], port);
  }

  lemma ValueSlices(head: seq<Byte>, port: seq<Byte>, mixed: seq<Byte>)
    requires |head| == 2 && |port| == 2
    ensures var v := head + port + mixed;
            |v| == 4 + |mixed| && v[1] == head[1] && v[2..4] == port && v[4..4 + |mixed|] == mixed
  {
  }

  /** The address a server saw comes back, unmapped, for every address and port. */
  lemma ResponseRoundTrip(tx: TxId, ap: AddrPort)
    ensures ParseBindingResponse(BindingResponse(tx, ap), tx) == Some(AddrPort(Unmap(ap.addr), ap.port))
  {
    ValueLen(tx, ap);
    ValueParse(tx, ap);
    var a := Attr(XOR_MAPPED_ADDRESS, XorValue(tx, ap), []);
    OneAttr(tx, ap);
    var r := BindingResponse(tx, ap);
    assert r + [] == r;
    ResponseParse([a], tx, tx, []);
  }

  lemma OneAttr(tx: TxId, ap: AddrPort)
    ensures var a := Attr(XOR_MAPPED_ADDRESS, XorValue(tx, ap), []); EncodeAttrs([a]) == XorAttribute(tx, ap)
  {
    var a := Attr(XOR_MAPPED_ADDRESS, XorValue(tx, ap), []);
    assert [a][1..] == [];
    assert EncodeAttr(a) + [] == EncodeAttr(a) == XorAttribute(tx, ap);
  }

  /** The response on the wire, for every address and port: type 0x0101, length, cookie and transaction, then
      attribute 0x0020 with family 1 or 2, the port mixed with the cookie's upper half, and each address byte mixed with
      the cookie or, past the fourth, the transaction. */
  lemma ResponseLayout(tx: TxId, ap: AddrPort)
    ensures var r, ip := BindingResponse(tx, ap), Unmap(ap.addr);
            && |r| == 28 + |ip|
            && Unbe(r[0..2]) == 0x0101 && Unbe(r[2..4]) == 8 + |ip|
            && r[4..8] == [0x21, 0x12, 0xa4, 0x42] && r[8..20] == tx
            && Unbe(r[20..][0..2]) == 0x0020 && Unbe(r[20..][2..4]) == 4 + |ip|
            && ValueLayout(r[20..][4..], tx, ip, ap.port)
  {
    var attr, v := XorAttribute(tx, ap), XorValue(tx, ap);
    ValueLen(tx, ap);
    HeaderFields(BINDING_RESPONSE, tx, |attr|, attr);
    AttrSlices(Be(XOR_MAPPED_ADDRESS, 2), Be(|v|, 2), v, [], []);
    assert attr + [] + [] == attr;
    assert attr[4..] == attr[4..4 + |v|];
    Widths();
    UnbeBe(XOR_MAPPED_ADDRESS, 2);
    UnbeBe(|v|, 2);
    ValueIs(tx, ap);
  }

  predicate ValueLayout(v: seq<Byte>, tx: TxId, ip: Ip, port: Port) {
    && |v| == 4 + |ip| && v[0] == 0 && v[1] == (if |ip| == 4 then 1 else 2)
    && Unbe(v[2..4]) == Xor(16, port, 0x2112)
    && forall i | 0 <= i < |ip| ::
         v[4 + i] == Xor(8, ip[i], if i < 4 then [0x21, 0x12, 0xa4, 0x42][i] else tx[i - 4])
  }

  lemma ValueIs(tx: TxId, ap: AddrPort)
    ensures ValueLayout(XorValue(tx, ap), tx, Unmap(ap.addr), ap.port)
  {
    var ip := Unmap(ap.addr);
    var mixed := XorBytes(ip, Mask(tx));
    ValueSlices(ValueHead(ip), Be(XorPort(ap.port), 2), mixed);
    Widths();
    UnbeBe(XorPort(ap.port), 2);
    var v := XorValue(tx, ap);
    forall i | 0 <= i < |ip| ensures v[4 + i] == XorByte(ip[i], Mask(tx)[i]) {
      assert v[4..4 + |mixed|][i] == v[4 + i];
    }
  }

  /** Requests are recognised, responses are not requests. */
  lemma RequestRoundTrip(tx: TxId, ap: AddrPort)
    ensures IsBindingRequest(BindingRequest(tx)) == Some(tx)
    ensures IsBindingRequest(BindingResponse(tx, ap)) == None
  {
    HeaderFields(BINDING_REQUEST, tx, 0, []);
    assert BindingRequest(tx) + [] == BindingRequest(tx);
    ValueLen(tx, ap);
    HeaderFields(BINDING_RESPONSE, tx, |XorAttribute(tx, ap)|, XorAttribute(tx, ap));
  }

  // -------------------------------------------------------------- the loops

  /** The byte loop both directions share. */
  method XorInto(src: seq<Byte>, mask: seq<Byte>) returns (r: seq<Byte>)
    requires |src| <= |mask|
    ensures r == XorBytes(src, mask)
  {
    var buf := new Byte[|src|];
    for i := 0 to |src|
      invariant forall k | 0 <= k < i :: buf[k] == XorByte(src[k], mask[k])
    {
      buf[i] := XorByte(src[i], mask[i]);
    }
    r := buf[..];
    assert r == XorBytes(src, mask);
  }

  /** BindingResponse and xorMappedAddress. */
  method BuildResponse(tx: TxId, ap: AddrPort) returns (r: seq<Byte>)
    ensures r == BindingResponse(tx, ap)
  {
    var ip := Unmap(ap.addr);
    var mixed := XorInto(ip, Mask(tx));
    var val := ValueHead(ip) + Be(XorPort(ap.port), 2) + mixed;
    var attr := Be(XOR_MAPPED_ADDRESS, 2) + Be(|val|, 2) + val;
    r := Header(BINDING_RESPONSE, tx, |attr|) + attr;
  }

  /** The attribute loop over a shrinking slice. */
  method ParseResponse(pkt: seq<Byte>, want: TxId) returns (r: Option<AddrPort>)
    ensures r == ParseBindingResponse(pkt, want)
  {
    if !IsStun(pkt) || Unbe(pkt[0..2]) != BINDING_RESPONSE || pkt[8..20] != want {
      return None;
    }
    var msgLen := Unbe(pkt[2..4]);
    if HEADER_LEN + msgLen > |pkt| {
      return None;
    }
    var p := pkt[HEADER_LEN..HEADER_LEN + msgLen];
    while |p| >= 4
      invariant ParseAttrs(p, want) == ParseBindingResponse(pkt, want)
      decreases |p|
    {
      var atype, alen := Unbe(p[0..2]), Unbe(p[2..4]);
      if 4 + alen > |p| {
        break;
      }
      if atype == XOR_MAPPED_ADDRESS {
        var ap := ParseValue(p[4..4 + alen], want);
        if ap.Some? {
          return ap;
        }
      }
      var adv := 4 + alen;
      if adv % 4 != 0 {
        adv := adv + 4 - adv % 4;
      }
      if adv > |p| {
        break;
      }
      p := p[adv..];
    }
    return None;
  }

  method ParseValue(val: seq<Byte>, tx: TxId) returns (r: Option<AddrPort>)
    ensures r == ParseXor(val, tx)
  {
    if |val| < 8 {
      return None;
    }
    BeUnbe(val[2..4]);
    Widths();
    var port := XorPort(Unbe(val[2..4]));
    if val[1] == FAMILY_V4 {
      var ip := XorInto(val[4..8], Mask(tx));
      return Some(AddrPort(ip, port));
    }
    if val[1] == FAMILY_V6 && |val| >= 20 {
      var ip := XorInto(val[4..20], Mask(tx));
      return Some(AddrPort(ip, port));
    }
    return None;
  }
}
