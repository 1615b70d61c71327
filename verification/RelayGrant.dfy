/** Relay grants: the coordinator's signed statement that a node may use relays.

    Ed25519 is a parameter. Times are nanoseconds since the Unix epoch. */
module RelayGrants {
  import opened Collections
  import opened Wire
  import opened DerpFrames

  datatype RelayKind = Platform | SelfHosted

  const SCOPE_INVALID: Byte := 0
  const SCOPE_ALL: Byte := 1
  const SCOPE_SELF_HOSTED: Byte := 2

  /** A scope this relay does not know is not permission. */
  predicate Permits(scope: Byte, kind: RelayKind) {
    scope == SCOPE_ALL || (scope == SCOPE_SELF_HOSTED && kind == SelfHosted)
  }

  datatype Grant = Grant(node: Key, meshnet: int, scope: Byte, expiry: int)

  const SECOND := 1_000_000_000
  const ZERO_KEY: Key :=
    [0, 0, 0, 0, 0, 0, 0, 0, 0, 0, 0, 0, 0, 0, 0, 0, 0, 0, 0, 0, 0, 0, 0, 0, 0, 0, 0, 0, 0, 0, 0, 0]

  /** "calaG1". */
  const GRANT_MAGIC: seq<Byte> := [99, 97, 108, 97, 71, 49]
  const GRANT_VERSION: Byte := 1
  const SIGNED_LEN := 56
  const GRANT_LEN := 120

  datatype Ed25519 = Ed25519(
    sign: (seq<Byte>, seq<Byte>) -> seq<Byte>,
    verify: (seq<Byte>, seq<Byte>, seq<Byte>) -> bool)

  /** Signatures are 64 bytes and verify under the matching public key. */
  ghost predicate KeyPair(c: Ed25519, priv: seq<Byte>, pub: seq<Byte>) {
    && |priv| == 64 && |pub| == 32
    && forall m :: |c.sign(priv, m)| == 64 && c.verify(pub, m, c.sign(priv, m))
  }

  function SignedBytes(g: Grant): (r: seq<Byte>)
    ensures |r| == SIGNED_LEN
  {
    GRANT_MAGIC + [GRANT_VERSION] + g.node + Be(ToUint64(g.meshnet), 8) + [g.scope] + Be(ToUint64(g.expiry / SECOND), 8)
  }

  /** SignRelayGrant; None is one of its three refusals. */
  function Sign(c: Ed25519, priv: seq<Byte>, g: Grant): Option<seq<Byte>> {
    if |priv| != 64 || g.scope == SCOPE_INVALID || g.node == ZERO_KEY then None
    else Some(SignedBytes(g) + c.sign(priv, SignedBytes(g)))
  }

  /** ParseRelayGrant; None is ErrGrantMalformed. */
  function Parse(blob: seq<Byte>): Option<Grant> {
    if |blob| != GRANT_LEN || blob[0..6] != GRANT_MAGIC || blob[6] != GRANT_VERSION then None
    else
      Some(Grant(blob[7..39], ToInt64(Unbe(blob[39..47])), blob[47], ToInt64(Unbe(blob[48..56])) * SECOND))
  }

  datatype Verdict = Valid(grant: Grant) | Malformed | BadKeySize | BadSignature | Expired

  function Verify(c: Ed25519, pub: seq<Byte>, blob: seq<Byte>, now: int): Verdict {
    var g := Parse(blob);
    if g.None? then Malformed
    else if |pub| != 32 then BadKeySize
    else if !c.verify(pub, blob[..SIGNED_LEN], blob[SIGNED_LEN..]) then BadSignature
    else if now > g.value.expiry then Expired
    else Valid(g.value)
  }

  /** The grant as the wire carries it: the expiry loses its fraction of a second. */
  function WholeSeconds(g: Grant): Grant { g.(expiry := g.expiry / SECOND * SECOND) }

  predicate Encodable(g: Grant) { IsInt64(g.meshnet) && IsInt64(g.expiry / SECOND) }

  lemma PrefixSlice(b: seq<Byte>, p: seq<Byte>, i: nat, j: nat)
    requires i <= j <= |p| <= |b| && b[..|p|] == p
    ensures b[i..j] == p[i..j]
  {
    assert b[..|p|][i..j] == b[i..j];
  }

  /** Six fields of the grant's widths, one after the other, are found at the grant's offsets. */
  lemma Offsets(magic: seq<Byte>, version: seq<Byte>, node: seq<Byte>,
                mesh: seq<Byte>, scope: seq<Byte>, exp: seq<Byte>)
    requires |magic| == 6 && |version| == 1 && |node| == 32 && |mesh| == 8 && |scope| == 1 && |exp| == 8
    ensures var b := magic + version + node + mesh + scope + exp;
            && b[0..6] == magic && b[6..7] == version && b[7..39] == node && b[39..47] == mesh
            && b[47..48] == scope && b[48..56] == exp
  {
    var p2 := magic + version + node;
    var p4 := p2 + mesh + scope;
    var b := p4 + exp;
    Split(magic, version, node);
    Split(p2, mesh, scope);
    Split(p4, exp, []);
    assert b + [] == b;
    PrefixSlice(p4, p2, 0, 6);
    PrefixSlice(b, p4, 0, 6);
    PrefixSlice(p4, p2, 6, 7);
    PrefixSlice(b, p4, 6, 7);
    PrefixSlice(p4, p2, 7, 39);
    PrefixSlice(b, p4, 7, 39);
    PrefixSlice(b, p4, 39, 47);
    PrefixSlice(b, p4, 47, 48);
  }

  lemma SignedFields(g: Grant, tail: seq<Byte>)
    ensures var b := SignedBytes(g) + tail;
            && b[0..6] == GRANT_MAGIC && b[6] == GRANT_VERSION && b[7..39] == g.node && b[47] == g.scope
            && b[39..47] == Be(ToUint64(g.meshnet), 8) && b[48..56] == Be(ToUint64(g.expiry / SECOND), 8)
            && b[..SIGNED_LEN] == SignedBytes(g) && b[SIGNED_LEN..] == tail
  {
    var mesh, exp := Be(ToUint64(g.meshnet), 8), Be(ToUint64(g.expiry / SECOND), 8);
    Offsets(GRANT_MAGIC, [GRANT_VERSION], g.node, mesh, [g.scope], exp);
    Signed(SignedBytes(g), tail, g.scope, GRANT_VERSION);
  }

  lemma Signed(p: seq<Byte>, tail: seq<Byte>, scope: Byte, version: Byte)
    requires |p| == 56 && p[47..48] == [scope] && p[6..7] == [version]
    ensures var b := p + tail;
            && b[..56] == p && b[56..] == tail && b[6] == version && b[47] == scope
            && b[0..6] == p[0..6] && b[7..39] == p[7..39] && b[39..47] == p[39..47] && b[48..56] == p[48..56]
  {
    assert p[47..48][0] == p[47] && p[6..7][0] == p[6];
  }

  /** An int64 in the two's complement form it has on the wire. */
  function TwosComplement(n: int): int { if n >= 0 then n else n + 0x1_0000_0000_0000_0000 }

  /** The grant on the wire, byte by byte: "calaG1", version 1, the node key, then meshnet, scope and the expiry in
      whole seconds since 1970, integers big-endian. */
  lemma SignedLayout(g: Grant)
    requires Encodable(g)
    ensures var b := SignedBytes(g);
            && |b| == 56 && b[..6] == [99, 97, 108, 97, 71, 49] && b[6] == 1 && b[7..39] == g.node && b[47] == g.scope
            && Unbe(b[39..47]) == TwosComplement(g.meshnet)
            && Unbe(b[48..56]) == TwosComplement(g.expiry / 1_000_000_000)
  {
    var mesh, exp := Be(ToUint64(g.meshnet), 8), Be(ToUint64(g.expiry / SECOND), 8);
    Offsets(GRANT_MAGIC, [GRANT_VERSION], g.node, mesh, [g.scope], exp);
    OneByte(SignedBytes(g), 6, GRANT_VERSION);
    OneByte(SignedBytes(g), 47, g.scope);
    WireInt(g.meshnet);
    WireInt(g.expiry / SECOND);
  }

  lemma OneByte(b: seq<Byte>, i: nat, x: Byte)
    requires i < |b| && b[i..i + 1] == [x]
    ensures b[i] == x
  {
    assert b[i..i + 1][0] == b[i];
  }

  lemma WireInt(n: int)
    requires IsInt64(n)
    ensures Unbe(Be(ToUint64(n), 8)) == TwosComplement(n)
  {
    Widths();
    UnbeBe(ToUint64(n), 8);
  }

  /** The coordinator signs every grant that has a node and a scope, with a key of the right size, and no other. */
  lemma SignRefuses(c: Ed25519, priv: seq<Byte>, g: Grant)
    ensures Sign(c, priv, g).None? <==> |priv| != 64 || g.scope == 0 || (forall i | 0 <= i < 32 :: g.node[i] == 0)
  {
    if forall i | 0 <= i < 32 :: g.node[i] == 0 {
      assert g.node == ZERO_KEY;
    }
  }

  /** Whatever follows them, the signed bytes parse back to the grant. */
  lemma ParseSigned(g: Grant, sig: seq<Byte>)
    requires Encodable(g) && |sig| == 64
    ensures Parse(SignedBytes(g) + sig) == Some(WholeSeconds(g))
  {
    SignedFields(g, sig);
    Widths();
    UnbeBe(ToUint64(g.meshnet), 8);
    UnbeBe(ToUint64(g.expiry / SECOND), 8);
    Int64RoundTrip(g.meshnet, 0);
    Int64RoundTrip(g.expiry / SECOND, 0);
  }

  /** A blob that parses is the canonical encoding of what it parsed to, so the signature covers exactly what
      the relay acts on: no two grants share signed bytes. */
  lemma ParseCanonical(blob: seq<Byte>)
    ensures Parse(blob).Some? ==> SignedBytes(Parse(blob).value) == blob[..SIGNED_LEN] && Encodable(Parse(blob).value)
  {
    if Parse(blob).Some? {
      var g := Parse(blob).value;
      Widths();
      FieldCanonical(blob[39..47]);
      FieldCanonical(blob[48..56]);
      assert g.expiry / SECOND == ToInt64(Unbe(blob[48..56]));
      FieldsJoin(blob);
    }
  }

  lemma FieldCanonical(b: seq<Byte>)
    requires |b| == 8
    ensures IsInt64(ToInt64(Unbe(b))) && Be(ToUint64(ToInt64(Unbe(b))), 8) == b
  {
    Widths();
    BeUnbe(b);
    Int64RoundTrip(0, Unbe(b));
  }

  lemma FieldsJoin(b: seq<Byte>)
    requires |b| == GRANT_LEN
    ensures b[0..6] + [b[6]] + b[7..39] + b[39..47] + [b[47]] + b[48..56] == b[..SIGNED_LEN]
  {
  }

  /** A signed grant is valid under its key exactly until its expiry, to the second, and then carries what was
      granted. */
  lemma SignVerify(c: Ed25519, priv: seq<Byte>, pub: seq<Byte>, g: Grant, now: int)
    requires KeyPair(c, priv, pub) && Encodable(g) && g.scope != SCOPE_INVALID && g.node != ZERO_KEY
    ensures Sign(c, priv, g).Some?
    ensures Verify(c, pub, Sign(c, priv, g).value, now) ==
            if now <= WholeSeconds(g).expiry then Valid(WholeSeconds(g)) else Expired
  {
    var sig := c.sign(priv, SignedBytes(g));
    ParseSigned(g, sig);
    SignedFields(g, sig);
  }

  /** Verification yields a grant exactly if the blob is that grant's canonical bytes with a signature that verifies
      over them, under a key of the right size, before its expiry. */
  lemma VerifyExact(c: Ed25519, pub: seq<Byte>, blob: seq<Byte>, now: int, g: Grant)
    ensures Verify(c, pub, blob, now) == Valid(g) <==>
            && |blob| == 120 && |pub| == 32
            && blob[..56] == SignedBytes(g) && Encodable(g) && g.expiry % 1_000_000_000 == 0
            && c.verify(pub, blob[..56], blob[56..]) && now <= g.expiry
  {
    if |blob| == 120 {
      ParseExact(blob, g);
    }
  }

  lemma ParseExact(blob: seq<Byte>, g: Grant)
    requires |blob| == 120
    ensures Parse(blob) == Some(g) <==> blob[..56] == SignedBytes(g) && Encodable(g) && g.expiry % 1_000_000_000 == 0
  {
    ParsedWhole(blob);
    ParseCanonical(blob);
    if blob[..56] == SignedBytes(g) && Encodable(g) && g.expiry % 1_000_000_000 == 0 {
      ParseBack(blob, blob[56..], g);
    }
  }

  lemma ParseBack(blob: seq<Byte>, sig: seq<Byte>, g: Grant)
    requires |blob| == 120 && blob[..56] == SignedBytes(g) && blob[56..] == sig
    requires Encodable(g) && g.expiry % 1_000_000_000 == 0
    ensures Parse(blob) == Some(g)
  {
    ParseSigned(g, sig);
    assert blob == blob[..56] + blob[56..];
    assert WholeSeconds(g) == g;
  }

  lemma ParsedWhole(blob: seq<Byte>)
    ensures Parse(blob).Some? ==> Parse(blob).value.expiry % 1_000_000_000 == 0
  {
  }
}
