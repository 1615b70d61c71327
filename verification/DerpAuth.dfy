/** The four proofs of possession: relay (legacy and certificate-bound), registration and edge.

    NaCl box is a parameter with a symbolic law: a box opens to what was sealed, or not at all. */
module DerpAuth {
  import opened Collections
  import opened Wire
  import opened DerpFrames

  const NONCE_LEN := 24
  const OVERHEAD := 16

  datatype Challenge = Challenge(ephPub: Key, nonce: seq<Byte>)

  datatype Box = Box(
    seal: (seq<Byte>, seq<Byte>, Key, Key) -> seq<Byte>,
    open: (seq<Byte>, seq<Byte>, Key, Key) -> Option<seq<Byte>>,
    publicOf: Key -> Key)

  ghost predicate Lawful(x: Box) {
    && (forall m, n, pub, priv :: |x.seal(m, n, pub, priv)| == |m| + OVERHEAD)
    && (forall m, n, eph, priv :: x.open(x.seal(m, n, x.publicOf(eph), priv), n, x.publicOf(priv), eph) == Some(m))
    && (forall m, n, pub, priv, n', pub', priv' {:trigger x.open(x.seal(m, n, pub, priv), n', pub', priv')} ::
          var r := x.open(x.seal(m, n, pub, priv), n', pub', priv'); r == None || r == Some(m))
  }

  // ------------------------------------------------------------- plaintexts

  /** What a proof is for. A bound relay proof names the certificate the relay presented. */
  datatype Purpose = Relay | BoundRelay(binding: Key) | Register | Edge

  /** "calaP1", "calaP2", "calaR1", "calaE1". */
  function Magic(p: Purpose): (m: seq<Byte>)
    ensures |m| == 6
  {
    match p
    case Relay => [99, 97, 108, 97, 80, 49]
    case BoundRelay(_) => [99, 97, 108, 97, 80, 50]
    case Register => [99, 97, 108, 97, 82, 49]
    case Edge => [99, 97, 108, 97, 69, 49]
  }

  function Binding(p: Purpose): seq<Byte> { if p.BoundRelay? then p.binding else [] }

  function Plaintext(p: Purpose, self: Key, ephPub: Key): seq<Byte> { Magic(p) + self + ephPub + Binding(p) }

  /** Equal plaintexts are for one purpose, one key and one challenge. */
  lemma PlaintextInjective(p: Purpose, self: Key, eph: Key, p': Purpose, self': Key, eph': Key)
    requires Plaintext(p, self, eph) == Plaintext(p', self', eph')
    ensures p == p' && self == self' && eph == eph'
  {
    var a, b := Plaintext(p, self, eph), Plaintext(p', self', eph');
    assert Magic(p) == a[..6] == b[..6] == Magic(p');
    assert self == a[6..38] == b[6..38] == self';
    assert eph == a[38..70] == b[38..70] == eph';
    assert Binding(p) == a[70..] == b[70..] == Binding(p');
    assert Magic(p)[4] == Magic(p')[4] && Magic(p)[5] == Magic(p')[5];
  }

  // ------------------------------------------------------------ relay proofs

  predicate ForRelay(p: Purpose) { p.Relay? || p.BoundRelay? }

  function Cap(p: Purpose): int { MAX_FRAME_LEN - (70 + |Binding(p)| + OVERHEAD) - 2 }

  /** sealDERPProof; None is a grant too long for one frame. The length prefix is a uint16. */
  function SealRelay(x: Box, p: Purpose, ch: Challenge, self: Key, priv: Key, grant: seq<Byte>): Option<seq<Byte>>
    requires ForRelay(p)
  {
    if |grant| > Cap(p) then None
    else Some(Be(|grant|, 2) + grant + x.seal(Plaintext(p, self, ch.ephPub), ch.nonce, ch.ephPub, priv))
  }

  datatype Opened = Grant(blob: seq<Byte>) | Malformed | NotOpened | WrongPlaintext | WrongBinding

  function SealedPart(payload: seq<Byte>): seq<Byte>
    requires |payload| >= 2 && 2 + Unbe(payload[..2]) <= |payload|
  {
    payload[2 + Unbe(payload[..2])..]
  }

  /** openDERPProof. */
  function OpenRelay(x: Box, p: Purpose, ch: Challenge, ephPriv: Key, claimed: Key, payload: seq<Byte>): Opened
    requires ForRelay(p)
  {
    var want := Plaintext(p, claimed, ch.ephPub);
    if |payload| < 2 then Malformed
    else
      var grantLen := Unbe(payload[..2]);
      if |payload| != 2 + grantLen + |want| + OVERHEAD then Malformed
      else
        var found := x.open(payload[2 + grantLen..], ch.nonce, claimed, ephPriv);
        var head := |want| - |Binding(p)|;
        if found.None? then NotOpened
        else if |found.value| != |want| || found.value[..head] != want[..head] then WrongPlaintext
        else if found.value[head..] != want[head..] then WrongBinding
        else Grant(payload[2..2 + grantLen])
  }

  /** The four plaintexts, byte by byte: a magic of six, the claimed key, the challenge's key, and for a bound proof the
      certificate's hash. */
  lemma PlaintextLayout(p: Purpose, self: Key, eph: Key)
    ensures var b := Plaintext(p, self, eph);
            && |b| == (if p.BoundRelay? then 102 else 70)
            && b[..4] == [99, 97, 108, 97]
            && b[4..6] == (match p case Relay => [80, 49] case BoundRelay(_) => [80, 50]
                                   case Register => [82, 49] case Edge => [69, 49])
            && b[6..38] == self && b[38..70] == eph && (p.BoundRelay? ==> b[70..] == p.binding)
  {
    var b := Plaintext(p, self, eph);
    assert b[..6] == Magic(p);
    assert b[..4] == b[..6][..4] && b[4..6] == b[..6][4..];
  }

  lemma PlaintextLen(p: Purpose, self: Key, eph: Key)
    ensures |Plaintext(p, self, eph)| == 70 + |Binding(p)|
    ensures Plaintext(p, self, eph)[..70] == Magic(p) + self + eph
    ensures Plaintext(p, self, eph)[70..] == Binding(p)
  {
  }

  /** The head and the tail of the check together compare the whole plaintext. */
  lemma GrantMeansOpened(x: Box, p: Purpose, ch: Challenge, ephPriv: Key, claimed: Key, payload: seq<Byte>)
    requires ForRelay(p) && OpenRelay(x, p, ch, ephPriv, claimed, payload).Grant?
    ensures |payload| >= 2 && 2 + Unbe(payload[..2]) <= |payload|
    ensures x.open(SealedPart(payload), ch.nonce, claimed, ephPriv) == Some(Plaintext(p, claimed, ch.ephPub))
  {
    var want := Plaintext(p, claimed, ch.ephPub);
    var o := x.open(SealedPart(payload), ch.nonce, claimed, ephPriv).value;
    assert o == o[..70] + o[70..] && want == want[..70] + want[70..];
    PlaintextLen(p, claimed, ch.ephPub);
  }

  /** A proof is opened exactly if it is a two-byte length, that many bytes of grant, and a box of the exact size that
      opens to the plaintext the relay expects; it then yields those bytes of grant. */
  lemma OpenExact(x: Box, p: Purpose, ch: Challenge, ephPriv: Key, claimed: Key, payload: seq<Byte>, grant: seq<Byte>)
    requires ForRelay(p)
    ensures OpenRelay(x, p, ch, ephPriv, claimed, payload) == Grant(grant) <==>
            && |payload| == 2 + |grant| + (if p.BoundRelay? then 118 else 86)
            && Unbe(payload[..2]) == |grant| && payload[2..2 + |grant|] == grant
            && x.open(payload[2 + |grant|..], ch.nonce, claimed, ephPriv) == Some(Plaintext(p, claimed, ch.ephPub))
  {
    PlaintextLen(p, claimed, ch.ephPub);
    if OpenRelay(x, p, ch, ephPriv, claimed, payload) == Grant(grant) {
      GrantMeansOpened(x, p, ch, ephPriv, claimed, payload);
      assert |grant| == Unbe(payload[..2]);
    }
  }

  /** Every grant up to the cap seals into one frame with an exact length prefix, and nothing longer does. */
  lemma SealedFits(x: Box, p: Purpose, ch: Challenge, self: Key, priv: Key, grant: seq<Byte>)
    requires Lawful(x) && ForRelay(p)
    ensures var r := SealRelay(x, p, ch, self, priv, grant);
            && (r.None? <==> |grant| + 2 + (if p.BoundRelay? then 118 else 86) > 65536)
            && (r.Some? ==> Fits(Frame(AUTH_PROOF, r.value)) && |grant| < 0x1_0000 && Unbe(r.value[..2]) == |grant|
                            && SealedPart(r.value) == x.seal(Plaintext(p, self, ch.ephPub), ch.nonce, ch.ephPub, priv)
                            && r.value[2..2 + |grant|] == grant)
  {
    var sealed := x.seal(Plaintext(p, self, ch.ephPub), ch.nonce, ch.ephPub, priv);
    if |grant| <= Cap(p) {
      Widths();
      UnbeBe(|grant|, 2);
      var out := Be(|grant|, 2) + grant + sealed;
      assert out[..2] == Be(|grant|, 2);
      assert out[2..2 + |grant|] == grant;
      assert out[2 + |grant|..] == sealed;
    }
  }

  /** Sealed to a challenge and opened by the relay that issued it, a proof hands over its grant. */
  lemma SealOpen(x: Box, p: Purpose, nonce: seq<Byte>, eph: Key, priv: Key, grant: seq<Byte>)
    requires Lawful(x) && ForRelay(p) && |grant| <= Cap(p)
    ensures var ch := Challenge(x.publicOf(eph), nonce);
            OpenRelay(x, p, ch, eph, x.publicOf(priv), SealRelay(x, p, ch, x.publicOf(priv), priv, grant).value)
            == Grant(grant)
  {
    var ch := Challenge(x.publicOf(eph), nonce);
    SealedFits(x, p, ch, x.publicOf(priv), priv, grant);
    PlaintextLen(p, x.publicOf(priv), ch.ephPub);
  }

  /** A proof bound to another relay's certificate is refused, and for that reason. */
  lemma OtherRelayRefused(x: Box, b: Key, b': Key, nonce: seq<Byte>, eph: Key, priv: Key, grant: seq<Byte>)
    requires Lawful(x) && b != b' && |grant| <= Cap(BoundRelay(b))
    ensures var ch := Challenge(x.publicOf(eph), nonce);
            OpenRelay(x, BoundRelay(b'), ch, eph, x.publicOf(priv),
                      SealRelay(x, BoundRelay(b), ch, x.publicOf(priv), priv, grant).value) == WrongBinding
  {
    var ch := Challenge(x.publicOf(eph), nonce);
    SealedFits(x, BoundRelay(b), ch, x.publicOf(priv), priv, grant);
    PlaintextLen(BoundRelay(b), x.publicOf(priv), ch.ephPub);
    PlaintextLen(BoundRelay(b'), x.publicOf(priv), ch.ephPub);
  }

  // -------------------------------------------- registration and edge proofs

  /** SealRegisterProof, SealEdgeProof. */
  function SealBare(x: Box, p: Purpose, ch: Challenge, self: Key, priv: Key): seq<Byte> {
    x.seal(Plaintext(p, self, ch.ephPub), ch.nonce, ch.ephPub, priv)
  }

  /** OpenRegisterProof, OpenEdgeProof. */
  predicate OpenBare(x: Box, p: Purpose, ch: Challenge, ephPriv: Key, claimed: Key, proof: seq<Byte>) {
    |proof| == 70 + OVERHEAD && x.open(proof, ch.nonce, claimed, ephPriv) == Some(Plaintext(p, claimed, ch.ephPub))
  }

  lemma BareRoundTrip(x: Box, p: Purpose, nonce: seq<Byte>, eph: Key, priv: Key)
    requires Lawful(x) && (p.Register? || p.Edge?)
    ensures var ch := Challenge(x.publicOf(eph), nonce);
            OpenBare(x, p, ch, eph, x.publicOf(priv), SealBare(x, p, ch, x.publicOf(priv), priv))
  {
    PlaintextLen(p, x.publicOf(priv), x.publicOf(eph));
  }

  // ------------------------------------------------------- domain separation

  /** The opener of a purpose accepts a message and its box is the given one, however the rest was put together. */
  predicate AcceptsBox(x: Box, p: Purpose, ch: Challenge, ephPriv: Key, claimed: Key, msg: seq<Byte>, box: seq<Byte>) {
    if ForRelay(p) then
      && OpenRelay(x, p, ch, ephPriv, claimed, msg).Grant?
      && |msg| >= 2 && 2 + Unbe(msg[..2]) <= |msg| && SealedPart(msg) == box
    else
      OpenBare(x, p, ch, ephPriv, claimed, msg) && msg == box
  }

  /** No proof stands in for another: a box any of the four seal functions made is accepted, under any nonce and
      keys and in any wrapping, only by its own kind of opener, for the key it claims, the challenge it answers
      and the certificate it names. */
  lemma NoStandIn(x: Box, made: Purpose, self: Key, eph: Key, nonce: seq<Byte>, to: Key, priv: Key,
                  p: Purpose, ch: Challenge, ephPriv: Key, claimed: Key, msg: seq<Byte>)
    requires Lawful(x)
    requires AcceptsBox(x, p, ch, ephPriv, claimed, msg, x.seal(Plaintext(made, self, eph), nonce, to, priv))
    ensures made == p && self == claimed && eph == ch.ephPub
  {
    if ForRelay(p) {
      GrantMeansOpened(x, p, ch, ephPriv, claimed, msg);
    }
    PlaintextInjective(made, self, eph, p, claimed, ch.ephPub);
  }

  // ---------------------------------------------------------- the challenge

  function EncodeChallenge(ch: Challenge): seq<Byte> { ch.ephPub + ch.nonce }

  function ParseChallenge(b: seq<Byte>): Option<Challenge> {
    if |b| != KEY_LEN + NONCE_LEN then None else Some(Challenge(b[..KEY_LEN], b[KEY_LEN..]))
  }

  lemma ChallengeRoundTrip(ch: Challenge, b: seq<Byte>)
    ensures EncodeChallenge(ch)[..32] == ch.ephPub && EncodeChallenge(ch)[32..] == ch.nonce
    ensures ParseChallenge(b).None? <==> |b| != 56
    ensures |ch.nonce| == NONCE_LEN ==> ParseChallenge(EncodeChallenge(ch)) == Some(ch)
    ensures ParseChallenge(b).Some? ==> EncodeChallenge(ParseChallenge(b).value) == b
  {
    if |ch.nonce| == NONCE_LEN {
      var e := EncodeChallenge(ch);
      assert e[..KEY_LEN] == ch.ephPub && e[KEY_LEN..] == ch.nonce;
    }
  }
}
