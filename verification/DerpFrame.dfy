/** The relay wire frame: one type byte, a four-byte big-endian length, the payload. */
module DerpFrames {
  import opened Collections
  import opened Wire

  const KEY_LEN := 32
  const MAX_FRAME_LEN := 64 * 1024

  type Key = k: seq<Byte> | |k| == 32 witness
    [0, 0, 0, 0, 0, 0, 0, 0, 0, 0, 0, 0, 0, 0, 0, 0, 0, 0, 0, 0, 0, 0, 0, 0, 0, 0, 0, 0, 0, 0, 0, 0]

  const RECV_PACKET: Byte := 3
  const AUTH_PROOF: Byte := 7

  datatype Frame = Frame(typ: Byte, payload: seq<Byte>)

  predicate Fits(f: Frame) { |f.payload| <= MAX_FRAME_LEN }

  /** EncodeDERPFrame; None is ErrFrameTooLarge. */
  function Encode(f: Frame): Option<seq<Byte>> {
    if Fits(f) then Some([f.typ] + Be(|f.payload|, 4) + f.payload) else None
  }

  /** A frame; io.EOF before any byte of one; io.ErrUnexpectedEOF inside a header; ErrFrameTooLarge; or an
      error, wrapped, while the payload was being read. */
  datatype ReadResult = Got(frame: Frame) | Eof | UnexpectedEof | TooLarge | ShortPayload

  /** ReadDERPFrame on the bytes that are left: the result, and what stays unread. */
  function Read(s: seq<Byte>): (ReadResult, seq<Byte>) {
    if s == [] then (Eof, [])
    else if |s| < 5 then (UnexpectedEof, [])
    else
      var n := Unbe(s[1..5]);
      if n > MAX_FRAME_LEN then (TooLarge, s[5..])
      else if |s| < 5 + n then (ShortPayload, [])
      else (Got(Frame(s[0], s[5..5 + n])), s[5 + n..])
  }

  /** A reader that takes frames until one cannot be read: the frames, and why it stopped. */
  function ReadAll(s: seq<Byte>): (seq<Frame>, ReadResult)
    decreases |s|
  {
    var (r, rest) := Read(s);
    if !r.Got? then ([], r)
    else
      ReadConsumes(s);
      var (fs, stop) := ReadAll(rest);
      ([r.frame] + fs, stop)
  }

  lemma ReadConsumes(s: seq<Byte>)
    ensures Read(s).0.Got? ==> |Read(s).1| < |s|
  {
  }

  function Concat(fs: seq<Frame>): seq<Byte>
    requires forall i | 0 <= i < |fs| :: Fits(fs[i])
  {
    if fs == [] then [] else Encode(fs[0]).value + Concat(fs[1..])
  }

  /** The frame on the wire: its type, the payload's length in four bytes, most significant first, the payload; and
      no payload over 64 KiB. */
  lemma FrameLayout(f: Frame)
    ensures Encode(f).Some? <==> |f.payload| <= 65536
    ensures Encode(f).Some? ==>
              var b, n := Encode(f).value, |f.payload|;
              && |b| == 5 + n && b[0] == f.typ && b[5..] == f.payload
              && b[1] == n / 0x100_0000 && b[2] == n / 0x1_0000 % 256 && b[3] == n / 0x100 % 256 && b[4] == n % 256
  {
    if Fits(f) {
      Be4(|f.payload|);
      var b := Encode(f).value;
      assert b[5..] == f.payload;
    }
  }

  /** Why a read stops short: a clean end before the first byte, an end inside the header, a length over 64 KiB, an
      end inside the payload; and nothing else does. */
  lemma ReadStops(s: seq<Byte>)
    ensures Read(s).0.Eof? <==> s == []
    ensures Read(s).0.UnexpectedEof? <==> 0 < |s| < 5
    ensures Read(s).0.TooLarge? <==> |s| >= 5 && Unbe(s[1..5]) > 65536
    ensures Read(s).0.ShortPayload? <==> |s| >= 5 && Unbe(s[1..5]) <= 65536 && |s| < 5 + Unbe(s[1..5])
  {
  }

  /** A frame at the head of a stream is read back, and nothing after it is touched. */
  lemma ReadEncoded(f: Frame, rest: seq<Byte>)
    requires Fits(f)
    ensures Read(Encode(f).value + rest) == (Got(f), rest)
  {
    Widths();
    UnbeBe(|f.payload|, 4);
    var s := Encode(f).value + rest;
    assert s[1..5] == Be(|f.payload|, 4);
    assert s[5..5 + |f.payload|] == f.payload;
    assert s[5 + |f.payload|..] == rest;
  }

  lemma ReadOneMore(f: Frame, rest: seq<Byte>)
    requires Fits(f)
    ensures ReadAll(Encode(f).value + rest) == ([f] + ReadAll(rest).0, ReadAll(rest).1)
  {
    ReadEncoded(f, rest);
  }

  /** Any list of encoded frames reads back as that list, then a clean end of stream. */
  lemma {:induction false} StreamRoundTrip(fs: seq<Frame>)
    requires forall i | 0 <= i < |fs| :: Fits(fs[i])
    ensures ReadAll(Concat(fs)) == (fs, Eof)
  {
    if fs != [] {
      var tail := Concat(fs[1..]);
      StreamRoundTrip(fs[1..]);
      ReadOneMore(fs[0], tail);
      assert [fs[0]] + fs[1..] == fs;
    }
  }

  /** A frame that was read re-encodes to exactly the bytes consumed. */
  lemma ReadThenEncode(s: seq<Byte>)
    ensures var (r, rest) := Read(s); r.Got? ==> Fits(r.frame) && Encode(r.frame).value + rest == s
  {
    var (r, rest) := Read(s);
    if r.Got? {
      BeUnbe(s[1..5]);
      assert s == [s[0]] + s[1..5] + r.frame.payload + rest;
    }
  }

  /** What a reader may make of the first bytes of a stream of frames: it loses no frame before the cut and
      invents none, and sees a clean end exactly when the cut falls between frames. */
  predicate CutReads(fs: seq<Frame>, bytes: seq<Byte>, got: seq<Frame>, stop: ReadResult)
    requires forall i | 0 <= i < |fs| :: Fits(fs[i])
  {
    && got <= fs && !stop.Got? && !stop.TooLarge?
    && (stop == Eof <==> Concat(got) == bytes)
  }

  lemma {:induction false} CutStream(fs: seq<Frame>, cut: nat)
    requires forall i | 0 <= i < |fs| :: Fits(fs[i])
    requires cut <= |Concat(fs)|
    ensures CutReads(fs, Concat(fs)[..cut], ReadAll(Concat(fs)[..cut]).0, ReadAll(Concat(fs)[..cut]).1)
  {
    if cut > 0 {
      var head, tail := Encode(fs[0]).value, Concat(fs[1..]);
      if cut < |head| {
        CutHead(fs[0], cut);
        assert Concat(fs)[..cut] == head[..cut];
      } else {
        var more := tail[..cut - |head|];
        assert Concat(fs)[..cut] == head + more;
        CutStream(fs[1..], cut - |head|);
        ReadOneMore(fs[0], more);
        OneMore(fs, ReadAll(more).0, more);
      }
    }
  }

  lemma OneMore(fs: seq<Frame>, got: seq<Frame>, more: seq<Byte>)
    requires fs != [] && forall i | 0 <= i < |fs| :: Fits(fs[i])
    requires got <= fs[1..]
    ensures [fs[0]] + got <= fs
    ensures Concat([fs[0]] + got) == Encode(fs[0]).value + more <==> Concat(got) == more
  {
    assert fs == [fs[0]] + fs[1..];
    var all := [fs[0]] + got;
    assert all[1..] == got && all[0] == fs[0];
    var head := Encode(fs[0]).value;
    assert (head + Concat(got))[|head|..] == Concat(got) && (head + more)[|head|..] == more;
  }

  lemma CutHead(f: Frame, cut: nat)
    requires Fits(f) && 0 < cut < |Encode(f).value|
    ensures var r := Read(Encode(f).value[..cut]).0; r.UnexpectedEof? || r.ShortPayload?
  {
    Widths();
    UnbeBe(|f.payload|, 4);
    var s := Encode(f).value[..cut];
    if cut >= 5 {
      assert s[1..5] == Be(|f.payload|, 4);
    }
  }

  // --------------------------------------------------------- packet payloads

  function EncodePacket(peer: Key, ciphertext: seq<Byte>): seq<Byte> { peer + ciphertext }

  /** SplitPacket; None is ErrShortPacket. */
  function SplitPacket(payload: seq<Byte>): Option<(Key, seq<Byte>)> {
    if |payload| < KEY_LEN then None else Some((payload[..KEY_LEN], payload[KEY_LEN..]))
  }

  /** The peer's key is the first 32 bytes, the ciphertext the rest; anything shorter is no packet. */
  lemma PacketRoundTrip(peer: Key, ciphertext: seq<Byte>, payload: seq<Byte>)
    ensures EncodePacket(peer, ciphertext)[..32] == peer && EncodePacket(peer, ciphertext)[32..] == ciphertext
    ensures SplitPacket(payload).None? <==> |payload| < 32
    ensures SplitPacket(EncodePacket(peer, ciphertext)) == Some((peer, ciphertext))
    ensures SplitPacket(payload).Some? ==>
            EncodePacket(SplitPacket(payload).value.0, SplitPacket(payload).value.1) == payload
  {
    var p := EncodePacket(peer, ciphertext);
    assert p[..KEY_LEN] == peer && p[KEY_LEN..] == ciphertext;
  }

  /** A packet that was read off a link always fits when re-addressed to its destination, whoever sent it. */
  lemma ForwardFits(s: seq<Byte>, src: Key)
    ensures Read(s).0.Got? && SplitPacket(Read(s).0.frame.payload).Some? ==>
            Encode(Frame(RECV_PACKET, EncodePacket(src, SplitPacket(Read(s).0.frame.payload).value.1))).Some?
  {
    ReadThenEncode(s);
  }

  // ------------------------------------------------------------- the codec

  /** EncodeDERPFrame: a buffer filled by offset. */
  method EncodeFrame(f: Frame) returns (r: Option<seq<Byte>>)
    ensures r == Encode(f)
  {
    var n := |f.payload|;
    if n > MAX_FRAME_LEN {
      return None;
    }
    var buf := new Byte[5 + n];
    buf[0] := f.typ;
    PutUint32(buf, 1, n);
    for i := 0 to n
      invariant buf[0] == f.typ && buf[1..5] == Be(n, 4)
      invariant forall k | 0 <= k < i :: buf[5 + k] == f.payload[k]
    {
      ghost var before := buf[1..5];
      buf[5 + i] := f.payload[i];
      assert buf[1..5] == before;
    }
    assert buf[..] == [f.typ] + buf[1..5] + f.payload;
    return Some(buf[..]);
  }

  /** binary.BigEndian.PutUint32. */
  method PutUint32(buf: array<Byte>, at: nat, n: nat)
    requires at + 4 <= buf.Length && n < 0x1_0000_0000
    modifies buf
    ensures buf[at..at + 4] == Be(n, 4)
    ensures forall k | 0 <= k < buf.Length && !(at <= k < at + 4) :: buf[k] == old(buf[k])
  {
    buf[at], buf[at + 1] := n / 0x100_0000, n / 0x1_0000 % 256;
    buf[at + 2], buf[at + 3] := n / 0x100 % 256, n % 256;
    Be4(n);
    assert buf[at..at + 4] == [buf[at], buf[at + 1], buf[at + 2], buf[at + 3]];
  }

  lemma Be4(n: nat)
    requires n < 0x1_0000_0000
    ensures Be(n, 4) == [n / 0x100_0000, n / 0x1_0000 % 256, n / 0x100 % 256, n % 256]
  {
    assert Be(n / 0x100_0000, 1) == Be(n / 0x100_0000 / 256, 0) + [n / 0x100_0000 % 256];
    assert n / 256 / 256 == n / 0x1_0000 && n / 256 / 256 / 256 == n / 0x100_0000;
    assert Be(n, 4) == Be(n / 256, 3) + [n % 256];
    assert Be(n / 256, 3) == Be(n / 256 / 256, 2) + [n / 256 % 256];
    assert Be(n / 256 / 256, 2) == Be(n / 256 / 256 / 256, 1) + [n / 256 / 256 % 256];
  }

  /** A connection's unread bytes. */
  class Reader {
    var rest: seq<Byte>

    constructor (bytes: seq<Byte>)
      ensures rest == bytes
    {
      rest := bytes;
    }

    /** io.ReadFull: n bytes, or what kept it from getting them. */
    method ReadFull(n: nat) returns (err: Option<ReadResult>, b: seq<Byte>)
      modifies this
      ensures |old(rest)| >= n ==> err == None && b == old(rest)[..n] && rest == old(rest)[n..]
      ensures |old(rest)| < n ==>
                err == Some(if old(rest) == [] then Eof else UnexpectedEof) && b == old(rest) && rest == []
    {
      if |rest| < n {
        err, b, rest := Some(if |rest| == 0 then Eof else UnexpectedEof), rest, [];
      } else {
        err, b, rest := None, rest[..n], rest[n..];
      }
    }
  }

  /** ReadDERPFrame: the header, its length check, the payload. */
  method ReadFrame(r: Reader) returns (res: ReadResult)
    modifies r
    ensures (res, r.rest) == Read(old(r.rest))
  {
    var err, hdr := r.ReadFull(5);
    if err.Some? {
      return err.value;
    }
    var n := Unbe(hdr[1..]);
    assert hdr[1..] == old(r.rest)[1..5];
    if n > MAX_FRAME_LEN {
      return TooLarge;
    }
    var err', payload := r.ReadFull(n);
    if err'.Some? {
      return ShortPayload;
    }
    assert old(r.rest)[5..][..n] == old(r.rest)[5..5 + n];
    return Got(Frame(hdr[0], payload));
  }
}
