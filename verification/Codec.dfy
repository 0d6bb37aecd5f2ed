/** The length-header framer of include/codec/LengthHeaderCodec.h and the receive loop of
    include/codec/Codec.h, over the buffers of ByteBuffers. */
module Codecs {
  import opened Bytes
  import opened ByteOrder
  import opened ByteBuffers
  import opened Crc32

  // width is the header size in bytes; maxPayload <= 0 means no limit.
  datatype Config = Config(width: nat, checksum: bool, maxPayload: int) {
    predicate Valid() {
      width == 1 || width == 2 || width == 4 || width == 8
    }

    function ChecksumLength(): nat {
      if checksum then 4 else 0
    }
  }

  // ---------- What one call of decode sees at the front of the buffer ----------

  datatype Decoded = Bad | Incomplete | Message(payload: seq<byte>, size: nat)

  function Checksum(cfg: Config, p: seq<byte>): seq<byte> {
    if cfg.checksum then BigEndian(CrcValue(p), 4) else []
  }

  function Decode(cfg: Config, b: seq<byte>): (d: Decoded)
    requires cfg.Valid()
    ensures d.Message? ==> 0 < d.size <= |b|
  {
    if |b| < cfg.width then Incomplete else
    var length := Signed(b[..cfg.width]);
    if length < cfg.ChecksumLength() || (cfg.maxPayload > 0 && length > cfg.maxPayload) then Bad
    else if |b| < length + cfg.width then Incomplete
    else
      var end := cfg.width + length - cfg.ChecksumLength();
      var body := b[cfg.width..end];
      if cfg.checksum && Unsigned(b[end..end + 4]) != CrcValue(body) then Bad
      else Message(body, cfg.width + length)
  }

  // ---------- Frames ----------

  // The bytes encode writes for payload p.
  function Frame(cfg: Config, p: seq<byte>): (f: seq<byte>)
    ensures |f| == cfg.width + |p| + cfg.ChecksumLength()
  {
    BigEndian(|p| + cfg.ChecksumLength(), cfg.width) + p + Checksum(cfg, p)
  }

  // The header, which counts the checksum, is within the signed range of its width
  // and within the limit.
  predicate Carries(cfg: Config, p: seq<byte>) {
    var n := |p| + cfg.ChecksumLength();
    2 * n < Pow256(cfg.width) && (cfg.maxPayload <= 0 || n <= cfg.maxPayload)
  }

  lemma ChecksumRoundTrip(p: seq<byte>, s: seq<byte>)
    requires |s| == 4
    ensures Unsigned(s) == CrcValue(p) <==> s == BigEndian(CrcValue(p), 4)
  {
    hide CrcValue, BigEndian, Unsigned;
    UnsignedOfBigEndian(CrcValue(p), 4);
    assert Pow256(4) == 0x1_0000_0000;
    BigEndianOfUnsigned(s);
  }

  // decode accepts exactly the frames of payloads the header can carry.
  lemma DecodeAcceptsFrames(cfg: Config, b: seq<byte>, p: seq<byte>, n: nat)
    requires cfg.Valid()
    ensures Decode(cfg, b) == Message(p, n) <==> n <= |b| && b[..n] == Frame(cfg, p) && Carries(cfg, p)
  {
    hide CrcValue, BigEndian, Unsigned, Pow256;
    if Decode(cfg, b) == Message(p, n) {
      MessageIsFrame(cfg, b, p, n);
    }
    if n <= |b| && b[..n] == Frame(cfg, p) && Carries(cfg, p) {
      FrameIsMessage(cfg, b, p, n);
    }
  }

  lemma MessageIsFrame(cfg: Config, b: seq<byte>, p: seq<byte>, n: nat)
    requires cfg.Valid() && Decode(cfg, b) == Message(p, n)
    ensures n <= |b| && b[..n] == Frame(cfg, p) && Carries(cfg, p)
  {
    hide CrcValue, BigEndian, Unsigned, Pow256;
    var w, length := cfg.width, Signed(b[..cfg.width]);
    var end := n - cfg.ChecksumLength();
    assert length == |p| + cfg.ChecksumLength() && p == b[w..end];
    HeaderIsBigEndian(b[..w]);
    if cfg.checksum {
      ChecksumRoundTrip(p, b[end..n]);
    }
    assert b[end..n] == Checksum(cfg, p);
    SplitInThree(b, w, end, n);
  }

  lemma SplitInThree(b: seq<byte>, i: nat, j: nat, k: nat)
    requires i <= j <= k <= |b|
    ensures b[..k] == b[..i] + b[i..j] + b[j..k]
  {
    assert b[..j] == b[..i] + b[i..j];
    assert b[..k] == b[..j] + b[j..k];
  }

  // A non-negative signed header is its own big-endian encoding, and is in range.
  lemma HeaderIsBigEndian(h: seq<byte>)
    requires |h| > 0 && Signed(h) >= 0
    ensures h == BigEndian(Signed(h), |h|) && 2 * Signed(h) < Pow256(|h|)
  {
    BigEndianOfUnsigned(h);
  }

  lemma FrameIsMessage(cfg: Config, b: seq<byte>, p: seq<byte>, n: nat)
    requires cfg.Valid() && n <= |b| && b[..n] == Frame(cfg, p) && Carries(cfg, p)
    ensures Decode(cfg, b) == Message(p, n)
  {
    hide CrcValue, Frame, Unsigned, Signed, Pow256;
    var w, length, end := cfg.width, |p| + cfg.ChecksumLength(), cfg.width + |p|;
    ThreeParts(cfg, p);
    SignedRoundTrip(length, w);
    assert b == Frame(cfg, p) + b[n..];
    SliceOfFront(Frame(cfg, p), b[n..], 0, w);
    SliceOfFront(Frame(cfg, p), b[n..], w, end);
    SliceOfFront(Frame(cfg, p), b[n..], end, n);
    if cfg.checksum {
      ChecksumRoundTrip(p, b[end..n]);
    }
  }

  lemma ThreeParts(cfg: Config, p: seq<byte>)
    ensures var f, w, end := Frame(cfg, p), cfg.width, cfg.width + |p|;
      && |f| == end + cfg.ChecksumLength()
      && f[..w] == BigEndian(|p| + cfg.ChecksumLength(), w) && f[w..end] == p && f[end..] == Checksum(cfg, p)
  {
    hide CrcValue, BigEndian;
  }

  // More input never changes a verdict that has been reached.
  lemma DecodeStable(cfg: Config, a: seq<byte>, b: seq<byte>)
    requires cfg.Valid() && Decode(cfg, a) != Incomplete
    ensures Decode(cfg, a + b) == Decode(cfg, a)
  {
    hide CrcValue, Unsigned, Signed;
    var w := cfg.width;
    SliceOfFront(a, b, 0, w);
    var length := Signed(a[..w]);
    if length >= cfg.ChecksumLength() && |a| >= length + w {
      var end := w + length - cfg.ChecksumLength();
      SliceOfFront(a, b, w, end);
      SliceOfFront(a, b, end, w + length);
    }
  }

  lemma SliceOfFront(a: seq<byte>, b: seq<byte>, i: nat, j: nat)
    requires i <= j <= |a|
    ensures (a + b)[i..j] == a[i..j] && (a + b)[..j] == a[..j]
  {
  }

  // ---------- How long decode waits ----------

  // decode asks for more exactly while the header has not arrived, or it is the header of
  // an acceptable frame that is longer than what has arrived.
  lemma WaitsExactly(cfg: Config, b: seq<byte>)
    requires cfg.Valid()
    ensures Decode(cfg, b) == Incomplete <==>
            |b| < cfg.width ||
            exists p :: Carries(cfg, p) && Frame(cfg, p)[..cfg.width] == b[..cfg.width] && |b| < |Frame(cfg, p)|
  {
    hide CrcValue, BigEndian, Unsigned, Signed, Pow256, Frame;
    if |b| >= cfg.width {
      if Decode(cfg, b) == Incomplete {
        ZeroesCarried(cfg, b);
      }
      forall p | Carries(cfg, p) && Frame(cfg, p)[..cfg.width] == b[..cfg.width] && |b| < |Frame(cfg, p)|
        ensures Decode(cfg, b) == Incomplete
      {
        StartOfFrame(cfg, p, b);
      }
    }
  }

  // decode refuses exactly when the header has arrived and no acceptable frame that starts
  // with it is longer than, or at the front of, what has arrived.  A header of no
  // acceptable frame is refused at once.
  lemma RefusesExactly(cfg: Config, b: seq<byte>)
    requires cfg.Valid()
    ensures Decode(cfg, b) == Bad <==>
            |b| >= cfg.width &&
            forall p :: Carries(cfg, p) && Frame(cfg, p)[..cfg.width] == b[..cfg.width] ==>
              |Frame(cfg, p)| <= |b| && b[..|Frame(cfg, p)|] != Frame(cfg, p)
  {
    hide Decode, Frame, Carries;
    WaitsExactly(cfg, b);
    forall p | Carries(cfg, p) && |Frame(cfg, p)| <= |b| && b[..|Frame(cfg, p)|] == Frame(cfg, p)
      ensures Decode(cfg, b) == Message(p, |Frame(cfg, p)|)
    {
      DecodeAcceptsFrames(cfg, b, p, |Frame(cfg, p)|);
    }
    if Decode(cfg, b).Message? {
      var p, n := Decode(cfg, b).payload, Decode(cfg, b).size;
      DecodeAcceptsFrames(cfg, b, p, n);
      assert Frame(cfg, p)[..cfg.width] == b[..cfg.width];
    }
  }

  // A header that decode accepts is the header of a payload of zeroes.
  lemma ZeroesCarried(cfg: Config, b: seq<byte>)
    requires cfg.Valid() && |b| >= cfg.width && Decode(cfg, b) == Incomplete
    ensures var p := seq(Signed(b[..cfg.width]) - cfg.ChecksumLength(), _ => 0);
      Carries(cfg, p) && Frame(cfg, p)[..cfg.width] == b[..cfg.width] && |b| < |Frame(cfg, p)|
  {
    hide CrcValue, BigEndian, Unsigned, Pow256, Frame;
    var h := b[..cfg.width];
    HeaderIsBigEndian(h);
    ThreeParts(cfg, seq(Signed(h) - cfg.ChecksumLength(), _ => 0));
  }

  lemma StartOfFrame(cfg: Config, p: seq<byte>, b: seq<byte>)
    requires cfg.Valid() && Carries(cfg, p) && cfg.width <= |b| < |Frame(cfg, p)|
    requires Frame(cfg, p)[..cfg.width] == b[..cfg.width]
    ensures Decode(cfg, b) == Incomplete
  {
    hide CrcValue, BigEndian, Unsigned, Signed, Pow256, Frame;
    ThreeParts(cfg, p);
    SignedRoundTrip(|p| + cfg.ChecksumLength(), cfg.width);
  }

  // Where the payload of the frame that b starts with ends.
  function PayloadEnd(cfg: Config, b: seq<byte>): int
    requires cfg.width <= |b|
  {
    cfg.width + Signed(b[..cfg.width]) - cfg.ChecksumLength()
  }

  // What has arrived of the checksum is right.
  predicate Hopeful(cfg: Config, b: seq<byte>)
    requires cfg.width <= |b|
  {
    var end := PayloadEnd(cfg, b);
    cfg.width <= end < |b| ==> b[end..] <= Checksum(cfg, b[cfg.width..end])
  }

  // While decode waits, more bytes can still complete a message exactly when the part of
  // the checksum that has arrived is right.
  lemma CompletableExactly(cfg: Config, b: seq<byte>)
    requires cfg.Valid() && cfg.width <= |b| && Decode(cfg, b) == Incomplete
    ensures (exists c :: Decode(cfg, b + c).Message?) <==> Hopeful(cfg, b)
  {
    hide CrcValue, BigEndian, Unsigned, Signed, Decode, Frame, Carries, Checksum;
    if Hopeful(cfg, b) {
      var c := Completion(cfg, b);
      assert Decode(cfg, b + c).Message?;
    }
    forall c | Decode(cfg, b + c).Message? ensures Hopeful(cfg, b) {
      CompletedWasHopeful(cfg, b, c);
    }
  }

  lemma Completion(cfg: Config, b: seq<byte>) returns (c: seq<byte>)
    requires cfg.Valid() && cfg.width <= |b| && Decode(cfg, b) == Incomplete && Hopeful(cfg, b)
    ensures Decode(cfg, b + c).Message?
  {
    hide CrcValue, BigEndian, Unsigned, Pow256, Frame;
    var w, end := cfg.width, PayloadEnd(cfg, b);
    HeaderIsBigEndian(b[..w]);
    var p := if end <= |b| then b[w..end] else b[w..] + seq(end - |b|, _ => 0);
    var f := Frame(cfg, p);
    ThreeParts(cfg, p);
    if end <= |b| {
      PrefixOfParts(b, f, w, end);
    } else {
      PrefixOfTwo(b, f, w, end);
    }
    c := f[|b|..];
    assert b + c == f;
    assert f[..|f|] == f;
    FrameIsMessage(cfg, f, p, |f|);
  }

  lemma PrefixOfParts(b: seq<byte>, f: seq<byte>, w: nat, end: nat)
    requires w <= end <= |b| <= |f| && b[..w] == f[..w] && b[w..end] == f[w..end] && b[end..] <= f[end..]
    ensures b <= f
  {
    assert forall i :: 0 <= i < w ==> b[i] == b[..w][i] == f[i];
    assert forall i :: w <= i < end ==> b[i] == b[w..end][i - w] == f[i];
    assert forall i :: end <= i < |b| ==> b[i] == b[end..][i - end] == f[end..][i - end] == f[i];
  }

  lemma PrefixOfTwo(b: seq<byte>, f: seq<byte>, w: nat, end: nat)
    requires w <= |b| <= end <= |f| && b[..w] == f[..w] && b[w..] <= f[w..end]
    ensures b <= f
  {
    assert forall i :: 0 <= i < w ==> b[i] == b[..w][i] == f[i];
    assert forall i :: w <= i < |b| ==> b[i] == b[w..][i - w] == f[w..end][i - w] == f[i];
  }

  lemma CompletedWasHopeful(cfg: Config, b: seq<byte>, c: seq<byte>)
    requires cfg.Valid() && cfg.width <= |b| && Decode(cfg, b) == Incomplete && Decode(cfg, b + c).Message?
    ensures Hopeful(cfg, b)
  {
    hide CrcValue, BigEndian, Unsigned, Pow256, Frame, Checksum;
    var w, end := cfg.width, PayloadEnd(cfg, b);
    var p, n := Decode(cfg, b + c).payload, Decode(cfg, b + c).size;
    MessageIsFrame(cfg, b + c, p, n);
    ThreeParts(cfg, p);
    SliceOfFront(b, c, 0, w);
    if w <= end < |b| {
      SliceOfFront(b, c, w, end);
      SliceOfFront(b, c, end, |b|);
      assert (b + c)[end..n] == Frame(cfg, p)[end..];
      assert b[end..] == (b + c)[end..n][..|b| - end];
    }
  }

  // Otherwise it goes on waiting for a frame that it will refuse.
  lemma WaitsInVain(c: seq<byte>)
    ensures var cfg := Config(1, true, 0); Decode(cfg, [4, 1]) == Incomplete && !Decode(cfg, [4, 1] + c).Message?
  {
    var cfg, b := Config(1, true, 0), [4, 1];
    assert b[..1] == [4] && Signed([4]) == 4 by {
      assert [4][..0] == [];
    }
    EmptyChecksum();
    assert PayloadEnd(cfg, b) == 1 && b[1..1] == [];
    assert Checksum(cfg, []) == [0, 0, 0, 0];
    assert b[1..][0] != Checksum(cfg, [])[0];
    CompletableExactly(cfg, b);
  }

  lemma EmptyChecksum()
    ensures CrcValue([]) == 0 && BigEndian(0, 4) == [0, 0, 0, 0]
  {
  }

  // ---------- The one-shot parse of a whole stream ----------

  datatype Parsed = Parsed(messages: seq<seq<byte>>, rest: seq<byte>, bad: bool)

  function Parse(cfg: Config, b: seq<byte>): Parsed
    requires cfg.Valid()
    decreases |b|
  {
    match Decode(cfg, b)
    case Bad => Parsed([], b, true)
    case Incomplete => Parsed([], b, false)
    case Message(p, n) => var r := Parse(cfg, b[n..]); Parsed([p] + r.messages, r.rest, r.bad)
  }

  function Frames(cfg: Config, ps: seq<seq<byte>>): seq<byte> {
    if ps == [] then [] else Frame(cfg, ps[0]) + Frames(cfg, ps[1..])
  }

  predicate AllCarried(cfg: Config, ps: seq<seq<byte>>) {
    forall i :: 0 <= i < |ps| ==> Carries(cfg, ps[i])
  }

  // The parse is the only way to read the stream as frames followed by bytes that do
  // not start with a frame.
  lemma {:induction false} ParseIsFrames(cfg: Config, b: seq<byte>, ps: seq<seq<byte>>, rest: seq<byte>)
    requires cfg.Valid()
    ensures Parse(cfg, b).messages == ps && Parse(cfg, b).rest == rest <==>
            b == Frames(cfg, ps) + rest && AllCarried(cfg, ps) && !Decode(cfg, rest).Message?
    decreases |b| + |ps|
  {
    hide Frame, Carries, Decode;
    match Decode(cfg, b)
    case Message(p, n) =>
      DecodeAcceptsFrames(cfg, b, p, n);
      assert b == b[..n] + b[n..];
      if ps == [] {
        assert Frames(cfg, ps) + rest == rest;
      } else {
        ParseIsFrames(cfg, b[n..], ps[1..], rest);
        FirstFrame(cfg, b, ps, rest);
        assert ps == [ps[0]] + ps[1..];
      }
    case _ =>
      if ps == [] {
        assert Frames(cfg, ps) + rest == rest;
      } else if b == Frames(cfg, ps) + rest && AllCarried(cfg, ps) {
        FirstFrame(cfg, b, ps, rest);
      }
  }

  // A stream of frames decodes to its first one, and the rest follows.
  lemma FirstFrame(cfg: Config, b: seq<byte>, ps: seq<seq<byte>>, rest: seq<byte>)
    requires cfg.Valid() && ps != []
    ensures b == Frames(cfg, ps) + rest && AllCarried(cfg, ps) ==>
            Decode(cfg, b) == Message(ps[0], |Frame(cfg, ps[0])|) &&
            b[|Frame(cfg, ps[0])|..] == Frames(cfg, ps[1..]) + rest && AllCarried(cfg, ps[1..])
    ensures Decode(cfg, b) == Message(ps[0], |Frame(cfg, ps[0])|) && AllCarried(cfg, ps[1..]) &&
            b[|Frame(cfg, ps[0])|..] == Frames(cfg, ps[1..]) + rest ==>
            b == Frames(cfg, ps) + rest && AllCarried(cfg, ps)
  {
    hide Frame, Carries, Decode;
    var f := Frame(cfg, ps[0]);
    if b == Frames(cfg, ps) + rest && AllCarried(cfg, ps) {
      assert b == f + (Frames(cfg, ps[1..]) + rest);
      DecodeAcceptsFrames(cfg, b, ps[0], |f|);
    }
    if Decode(cfg, b) == Message(ps[0], |f|) && AllCarried(cfg, ps[1..]) &&
       b[|f|..] == Frames(cfg, ps[1..]) + rest {
      DecodeAcceptsFrames(cfg, b, ps[0], |f|);
      assert b == f + (Frames(cfg, ps[1..]) + rest);
      assert ps == [ps[0]] + ps[1..];
    }
  }

  // Parsing what has arrived, then continuing from the remainder when more arrives,
  // is parsing everything at once.
  lemma {:induction false} ParseResumes(cfg: Config, a: seq<byte>, b: seq<byte>)
    requires cfg.Valid()
    ensures var r := Parse(cfg, a); var s := Parse(cfg, r.rest + b);
      Parse(cfg, a + b) == Parsed(r.messages + s.messages, s.rest, s.bad) && (r.bad ==> s.bad && s.messages == [])
    decreases |a|
  {
    hide Decode, Parse;
    ParseOnce(cfg, a);
    match Decode(cfg, a)
    case Message(p, n) =>
      DecodeStable(cfg, a, b);
      ParseOnce(cfg, a + b);
      ParseResumes(cfg, a[n..], b);
      assert (a + b)[n..] == a[n..] + b;
      var r := Parse(cfg, a[n..]);
      var s := Parse(cfg, r.rest + b);
      assert [p] + (r.messages + s.messages) == ([p] + r.messages) + s.messages;
    case Bad =>
      DecodeStable(cfg, a, b);
      ParseOnce(cfg, a + b);
    case Incomplete =>
      assert [] + Parse(cfg, a + b).messages == Parse(cfg, a + b).messages;
  }

  // One round of the parse.
  lemma ParseOnce(cfg: Config, b: seq<byte>)
    requires cfg.Valid()
    ensures var d := Decode(cfg, b);
      if d.Message? then
        var r := Parse(cfg, b[d.size..]);
        Parse(cfg, b) == Parsed([d.payload] + r.messages, r.rest, r.bad)
      else Parse(cfg, b) == Parsed([], b, d.Bad?)
  {
    hide Decode;
  }

  // ---------- Exact size bound and round trips ----------

  // encode refuses an empty payload, and one over a positive limit; the checksum is not
  // counted and the range of the header is not looked at.
  predicate Encodable(cfg: Config, p: seq<byte>) {
    p != [] && (cfg.maxPayload <= 0 || |p| <= cfg.maxPayload)
  }

  // The header that decode reads back from the frame of p.
  function HeaderRead(cfg: Config, p: seq<byte>): int {
    Wrapped(|p| + cfg.ChecksumLength(), Pow256(cfg.width))
  }

  // The length of p is out of the range of the header, and decode finds an acceptable
  // frame of a shorter payload inside the frame of p.
  predicate Misread(cfg: Config, p: seq<byte>) {
    var n, ck, h := |p| + cfg.ChecksumLength(), cfg.ChecksumLength(), HeaderRead(cfg, p);
    && 2 * n >= Pow256(cfg.width)
    && ck <= h < n && (cfg.maxPayload <= 0 || h <= cfg.maxPayload)
    && (p + Checksum(cfg, p))[h - ck..h] == Checksum(cfg, p[..h - ck])
  }

  // What becomes of the frame of any payload, whatever follows it: the payload comes
  // back, or a proper prefix of it does, or the frame is refused.
  lemma FrameFate(cfg: Config, p: seq<byte>, tail: seq<byte>)
    requires cfg.Valid()
    ensures Decode(cfg, Frame(cfg, p) + tail) ==
      if Carries(cfg, p) then Message(p, |Frame(cfg, p)|)
      else if Misread(cfg, p) then
        Message(p[..HeaderRead(cfg, p) - cfg.ChecksumLength()], cfg.width + HeaderRead(cfg, p))
      else Bad
  {
    hide CrcValue, BigEndian, Unsigned, Signed, Pow256, Wrapped;
    if Carries(cfg, p) {
      CarriedIsDelivered(cfg, p, tail);
    } else {
      WrapsBelow(cfg, p);
      OutOfRange(cfg, p, tail);
    }
  }

  lemma CarriedIsDelivered(cfg: Config, p: seq<byte>, tail: seq<byte>)
    requires cfg.Valid()
    ensures Decode(cfg, Frame(cfg, p) + tail) == Message(p, |Frame(cfg, p)|) <==> Carries(cfg, p)
  {
    hide Frame, Carries, Decode;
    var f := Frame(cfg, p);
    assert (f + tail)[..|f|] == f;
    DecodeAcceptsFrames(cfg, f + tail, p, |f|);
  }

  // A header within range is read as written; any other is read as a smaller number.
  lemma WrapsBelow(cfg: Config, p: seq<byte>)
    ensures var n, m := |p| + cfg.ChecksumLength(), Pow256(cfg.width);
      if 2 * n < m then HeaderRead(cfg, p) == n else HeaderRead(cfg, p) < n
  {
    hide Pow256, Wrapped;
    var n, m := |p| + cfg.ChecksumLength(), Pow256(cfg.width);
    WrappedInRange(n, m);
    if 2 * n < m {
      WrappedInside(n, m);
    }
  }

  // The parts of a frame that decode looks at when the header says h.
  lemma PartsOfFrame(cfg: Config, p: seq<byte>, tail: seq<byte>, h: int)
    requires cfg.ChecksumLength() <= h < |p| + cfg.ChecksumLength()
    ensures var b, w, ck := Frame(cfg, p) + tail, cfg.width, cfg.ChecksumLength();
      && |b| >= w + h
      && b[w..w + h - ck] == p[..h - ck]
      && b[w + h - ck..w + h] == (p + Checksum(cfg, p))[h - ck..h]
  {
    hide CrcValue, BigEndian;
    var w, ck := cfg.width, cfg.ChecksumLength();
    var header, body := BigEndian(|p| + ck, w), p + Checksum(cfg, p);
    assert Frame(cfg, p) + tail == header + (body + tail);
    SliceBehind(header, body, tail, 0, h - ck);
    SliceBehind(header, body, tail, h - ck, h);
    assert body[0..h - ck] == p[..h - ck];
  }

  lemma SliceBehind(a: seq<byte>, b: seq<byte>, c: seq<byte>, i: nat, j: nat)
    requires i <= j <= |b|
    ensures (a + (b + c))[|a| + i..|a| + j] == b[i..j]
  {
  }

  lemma OutOfRange(cfg: Config, p: seq<byte>, tail: seq<byte>)
    requires cfg.Valid() && !Carries(cfg, p)
    requires 2 * (|p| + cfg.ChecksumLength()) < Pow256(cfg.width) ==>
             HeaderRead(cfg, p) == |p| + cfg.ChecksumLength()
    requires 2 * (|p| + cfg.ChecksumLength()) >= Pow256(cfg.width) ==>
             HeaderRead(cfg, p) < |p| + cfg.ChecksumLength()
    ensures Decode(cfg, Frame(cfg, p) + tail) ==
      if Misread(cfg, p)
      then Message(p[..HeaderRead(cfg, p) - cfg.ChecksumLength()], cfg.width + HeaderRead(cfg, p))
      else Bad
  {
    hide CrcValue, BigEndian, Unsigned, Signed, Pow256, Wrapped, Frame;
    var b, w, ck, h := Frame(cfg, p) + tail, cfg.width, cfg.ChecksumLength(), HeaderRead(cfg, p);
    ThreeParts(cfg, p);
    SliceOfFront(Frame(cfg, p), tail, 0, w);
    SignedOfBigEndian(|p| + ck, w);
    if ck <= h < |p| + ck {
      PartsOfFrame(cfg, p, tail, h);
      if cfg.checksum {
        ChecksumRoundTrip(p[..h - ck], b[w + h - ck..w + h]);
      }
    }
  }

  // encode takes the payload and decode gives it back exactly when it is not empty and
  // can be carried.
  lemma RoundTripBound(cfg: Config, p: seq<byte>, tail: seq<byte>)
    requires cfg.Valid()
    ensures Encodable(cfg, p) && Decode(cfg, Frame(cfg, p) + tail) == Message(p, |Frame(cfg, p)|) <==>
            p != [] && Carries(cfg, p)
  {
    hide Frame, Decode, Pow256;
    CarriedIsDelivered(cfg, p, tail);
  }

  // encode accepts these eight bytes, and decode refuses their frame.
  lemma AcceptedButRefused(p: seq<byte>, tail: seq<byte>)
    requires |p| == 8
    ensures var cfg := Config(4, true, 10);
      Encodable(cfg, p) && Decode(cfg, Frame(cfg, p) + tail) == Bad
  {
    hide Frame, Decode;
    assert Pow256(4) == 0x1_0000_0000;
    FrameFate(Config(4, true, 10), p, tail);
  }

  // encode accepts these 300 bytes, and decode delivers the first 44 of them.
  lemma AcceptedButCut(p: seq<byte>, tail: seq<byte>)
    requires |p| == 300
    ensures var cfg := Config(1, false, 0);
      Encodable(cfg, p) && Decode(cfg, Frame(cfg, p) + tail) == Message(p[..44], 45)
  {
    hide Frame, Decode;
    assert Pow256(1) == 256;
    FrameFate(Config(1, false, 0), p, tail);
  }

  // The encoded list comes back, with nothing left over, exactly when every payload
  // can be carried.
  lemma StreamRoundTrip(cfg: Config, ps: seq<seq<byte>>)
    requires cfg.Valid()
    ensures Parse(cfg, Frames(cfg, ps)) == Parsed(ps, [], false) <==> AllCarried(cfg, ps)
  {
    ParseIsFrames(cfg, Frames(cfg, ps), ps, []);
    assert Frames(cfg, ps) + [] == Frames(cfg, ps);
    assert Decode(cfg, []) == Incomplete;
    RestDecidesBad(cfg, Frames(cfg, ps));
  }

  // The payloads that reach the wire.
  function Sendable(cfg: Config, ps: seq<seq<byte>>): seq<seq<byte>> {
    if ps == [] then []
    else if ps[0] == [] then Sendable(cfg, ps[1..])
    else if !Encodable(cfg, ps[0]) then []
    else [ps[0]] + Sendable(cfg, ps[1..])
  }

  lemma FramesNone(cfg: Config)
    ensures Frames(cfg, Sendable(cfg, [])) == [] && Frames(cfg, []) == []
  {
  }

  // One more payload on the wire.
  lemma SendNext(cfg: Config, ps: seq<seq<byte>>, wire: seq<byte>)
    requires ps != []
    ensures wire + Frames(cfg, Sendable(cfg, ps)) ==
      if ps[0] == [] then wire + Frames(cfg, Sendable(cfg, ps[1..]))
      else if !Encodable(cfg, ps[0]) then wire
      else (wire + Frame(cfg, ps[0])) + Frames(cfg, Sendable(cfg, ps[1..]))
  {
    hide Frame;
    var sent := Sendable(cfg, ps);
    if Encodable(cfg, ps[0]) {
      assert sent[0] == ps[0] && sent[1..] == Sendable(cfg, ps[1..]);
    }
  }

  // Every payload left out makes the stream shorter.
  lemma {:induction false} SendableShorter(cfg: Config, ps: seq<seq<byte>>)
    requires cfg.Valid()
    ensures |Frames(cfg, Sendable(cfg, ps))| <= |Frames(cfg, ps)|
    ensures |Frames(cfg, Sendable(cfg, ps))| == |Frames(cfg, ps)| ==>
            Sendable(cfg, ps) == ps && forall i :: 0 <= i < |ps| ==> Encodable(cfg, ps[i])
  {
    hide Encodable, CrcValue, BigEndian;
    if ps != [] {
      SendableShorter(cfg, ps[1..]);
      SendNext(cfg, ps, []);
      if Sendable(cfg, ps[1..]) == ps[1..] {
        assert ps == [ps[0]] + ps[1..];
      }
    }
  }

  lemma {:induction false} SendableAll(cfg: Config, ps: seq<seq<byte>>)
    requires forall i :: 0 <= i < |ps| ==> Encodable(cfg, ps[i])
    ensures Sendable(cfg, ps) == ps
  {
    if ps != [] {
      SendableAll(cfg, ps[1..]);
      assert ps == [ps[0]] + ps[1..];
    }
  }

  // What was to be sent is what is received exactly when every payload is non-empty and
  // can be carried.
  lemma ExchangeExact(cfg: Config, ps: seq<seq<byte>>)
    requires cfg.Valid()
    ensures Parse(cfg, Frames(cfg, Sendable(cfg, ps))) == Parsed(ps, [], false) <==>
            forall i :: 0 <= i < |ps| ==> ps[i] != [] && Carries(cfg, ps[i])
  {
    hide Parse, Frames, Sendable, Decode, Pow256;
    var sent := Sendable(cfg, ps);
    if Parse(cfg, Frames(cfg, sent)) == Parsed(ps, [], false) {
      ParseIsFrames(cfg, Frames(cfg, sent), ps, []);
      SendableShorter(cfg, ps);
    }
    if forall i :: 0 <= i < |ps| ==> ps[i] != [] && Carries(cfg, ps[i]) {
      SendableAll(cfg, ps);
      StreamRoundTrip(cfg, ps);
    }
  }

  lemma {:induction false} RestDecidesBad(cfg: Config, b: seq<byte>)
    requires cfg.Valid()
    ensures Parse(cfg, b).bad <==> Decode(cfg, Parse(cfg, b).rest) == Bad
    decreases |b|
  {
    hide Decode;
    match Decode(cfg, b)
    case Message(_, n) => RestDecidesBad(cfg, b[n..]);
    case _ =>
  }

  // A frame whose payload was altered within four adjacent bytes is refused.
  lemma AlteredFrameRefused(cfg: Config, before: seq<byte>, u: seq<byte>, v: seq<byte>, after: seq<byte>, tail: seq<byte>)
    requires cfg.Valid() && cfg.checksum && |u| == |v| <= 4 && u != v
    requires Carries(cfg, before + u + after)
    ensures var p, q := before + u + after, before + v + after;
      Decode(cfg, BigEndian(|p| + 4, cfg.width) + q + Checksum(cfg, p) + tail) == Bad
  {
    hide CrcValue, BigEndian, Unsigned, Pow256;
    var p, q := before + u + after, before + v + after;
    var b := BigEndian(|p| + 4, cfg.width) + q + Checksum(cfg, p) + tail;
    var end := cfg.width + |p|;
    SignedRoundTrip(|p| + 4, cfg.width);
    assert b[..cfg.width] == BigEndian(|p| + 4, cfg.width);
    assert b[cfg.width..end] == q;
    assert b[end..end + 4] == Checksum(cfg, p);
    ChecksumRoundTrip(p, b[end..end + 4]);
    CrcValuesDiffer(before, u, v, after);
  }

  lemma CrcValuesDiffer(before: seq<byte>, u: seq<byte>, v: seq<byte>, after: seq<byte>)
    requires |u| == |v| <= 4 && u != v
    ensures CrcValue(before + u + after) != CrcValue(before + v + after)
  {
    hide Crc;
    if Crc(before + u + after) == Crc(before + v + after) {
      CrcDecidesBurst(before, u, v, after);
    }
    SameValueSameWord(Crc(before + u + after), Crc(before + v + after));
  }

  lemma SameValueSameWord(a: bv32, b: bv32)
    ensures a as int == b as int ==> a == b
  {
    assert (a as int) as bv32 == a && (b as int) as bv32 == b;
  }

  // ---------- The codec at work on buffers ----------

  class LengthHeaderCodec {
    const cfg: Config
    // How this platform lays out integers and reads plain char.
    const littleEndian: bool
    const signedChar: bool

    constructor (cfg: Config, littleEndian: bool, signedChar: bool)
      ensures this.cfg == cfg && this.littleEndian == littleEndian && this.signedChar == signedChar
    {
      this.cfg, this.littleEndian, this.signedChar := cfg, littleEndian, signedChar;
    }

    method ComputeCrc(data: seq<byte>) returns (n: nat)
      ensures n == CrcValue(data)
    {
      var crc: bv32;
      if |data| > 60 {
        crc := Crc32Long(data, signedChar);
      } else {
        crc := Crc32Short(data, signedChar);
      }
      n := crc as int;
    }

    // decode: 1 moves one message from buff to payload, 0 asks for more input,
    // -1 reports a bad frame; buff changes only on 1.
    method DecodeFrom(buff: ByteBuffer, payload: ByteBuffer) returns (rt: int)
      requires cfg.Valid() && buff.Valid() && payload.Valid() && buff != payload
      requires payload.maxSize == UNLIMITED
      modifies buff, payload
      ensures buff.Valid() && payload.Valid() && buff.maxSize == old(buff.maxSize) && payload.maxSize == UNLIMITED
      ensures match Decode(cfg, old(buff.Contents()))
        case Bad => rt == -1 && buff.Contents() == old(buff.Contents()) && payload.Contents() == old(payload.Contents())
        case Incomplete => rt == 0 && buff.Contents() == old(buff.Contents()) && payload.Contents() == old(payload.Contents())
        case Message(p, n) => rt == 1 && buff.Contents() == old(buff.Contents())[n..] &&
                              payload.Contents() == old(payload.Contents()) + p
    {
      hide CrcValue, Unsigned, Signed;
      rt := 0;
      var w, ck := cfg.width, cfg.ChecksumLength();
      if buff.ReadableBytes() >= w {
        var length := buff.PeekInt(w, littleEndian);
        if length < ck || (cfg.maxPayload > 0 && length > cfg.maxPayload) {
          rt := -1;
        } else if buff.ReadableBytes() >= length + w {
          rt := TakeFrame(buff, payload, length);
        }
      }
    }

    // A complete frame: check it, and move its payload.
    method TakeFrame(buff: ByteBuffer, payload: ByteBuffer, length: nat) returns (rt: int)
      requires buff.Valid() && payload.Valid() && buff != payload && payload.maxSize == UNLIMITED
      requires cfg.ChecksumLength() <= length && cfg.width + length <= |buff.Contents()|
      modifies buff, payload
      ensures buff.Valid() && payload.Valid() && buff.maxSize == old(buff.maxSize) && payload.maxSize == UNLIMITED
      ensures var b, end, n := old(buff.Contents()), cfg.width + length - cfg.ChecksumLength(), cfg.width + length;
        if cfg.checksum && Unsigned(b[end..n]) != CrcValue(b[cfg.width..end])
        then rt == -1 && buff.Contents() == b && payload.Contents() == old(payload.Contents())
        else rt == 1 && buff.Contents() == b[n..] && payload.Contents() == old(payload.Contents()) + b[cfg.width..end]
    {
      hide CrcValue, Unsigned;
      var w, ck := cfg.width, cfg.ChecksumLength();
      var expectsum, checksum := 0, 0;
      if ck > 0 {
        checksum := buff.PeekUnsigned(w + length - ck, ck, littleEndian);
        expectsum := ComputeCrc(buff.Peek(w, length - ck));
      }
      if expectsum == checksum {
        var ok := payload.Append(buff.Peek(w, length - ck));
        buff.HasRead(w + length);
        rt := 1;
      } else {
        rt := -1;
      }
    }

    // encode: payload is left as it is; buff grows only on 1.
    method EncodeInto(payload: ByteBuffer, buff: ByteBuffer) returns (rt: int)
      requires cfg.Valid() && buff.Valid() && payload.Valid() && buff != payload
      requires buff.maxSize == UNLIMITED
      modifies buff
      ensures buff.Valid() && buff.maxSize == UNLIMITED
      ensures rt == if |payload.Contents()| == 0 then 0
                    else if cfg.maxPayload > 0 && |payload.Contents()| > cfg.maxPayload then -1 else 1
      ensures buff.Contents() == old(buff.Contents()) + if rt == 1 then Frame(cfg, payload.Contents()) else []
    {
      hide CrcValue, BigEndian, Unsigned, Pow256;
      var length, ck := payload.ReadableBytes(), cfg.ChecksumLength();
      if length == 0 {
        return 0;
      } else if cfg.maxPayload > 0 && length > cfg.maxPayload {
        return -1;
      }
      AppendFrame(payload.Peek(0, length), buff);
      assert payload.Contents()[0..length] == payload.Contents();
      return 1;
    }

    // Header, payload and checksum, one after the other.
    method AppendFrame(data: seq<byte>, buff: ByteBuffer)
      requires buff.Valid() && buff.maxSize == UNLIMITED
      modifies buff
      ensures buff.Valid() && buff.maxSize == UNLIMITED
      ensures buff.Contents() == old(buff.Contents()) + Frame(cfg, data)
    {
      hide CrcValue, BigEndian, Unsigned, Pow256;
      ghost var before := buff.Contents();
      var header := |data| + cfg.ChecksumLength();
      var ok := buff.AppendInt(header, cfg.width, littleEndian);
      ok := buff.Append(data);
      if cfg.ChecksumLength() > 0 {
        var checksum := ComputeCrc(data);
        ok := buff.AppendInt(checksum, 4, littleEndian);
      }
      JoinFour(before, BigEndian(header, cfg.width), data, Checksum(cfg, data));
    }

    // recv: deliver messages until the buffer holds no complete good frame; the
    // connection is shut down when a bad one is met.
    method Recv(buff: ByteBuffer) returns (delivered: seq<seq<byte>>, shutdown: bool)
      requires cfg.Valid() && buff.Valid()
      modifies buff
      ensures buff.Valid() && buff.maxSize == old(buff.maxSize)
      ensures Parse(cfg, old(buff.Contents())) == Parsed(delivered, buff.Contents(), shutdown)
    {
      hide Decode, Parse, SoFar;
      delivered, shutdown := [], false;
      var rt := 1;
      ghost var all := buff.Contents();
      NoneSoFar(cfg, all);
      while rt == 1
        invariant buff.Valid() && buff.maxSize == old(buff.maxSize)
        invariant SoFar(cfg, all, delivered, buff.Contents())
        invariant rt == 1 ==> !shutdown
        invariant rt != 1 ==> Decode(cfg, buff.Contents()) == if shutdown then Bad else Incomplete
        decreases rt, |buff.Contents()|
      {
        var payload := new ByteBuffer();
        ghost var b := buff.Contents();
        OneMore(cfg, all, delivered, b);
        rt := DecodeFrom(buff, payload);
        if rt == 1 {
          var message := payload.TakenAsString();
          assert message == Decode(cfg, b).payload;
          delivered := delivered + [message];
        } else if rt == -1 {
          shutdown := true;
        }
      }
      NoMore(cfg, all, delivered, buff.Contents());
    }

    // A whole connection: each arrival is appended to the input buffer and handed to
    // recv, whether or not an earlier one was bad.
    method Session(buff: ByteBuffer, arrivals: seq<seq<byte>>) returns (delivered: seq<seq<byte>>, shutdown: bool)
      requires cfg.Valid() && buff.Valid() && buff.maxSize == UNLIMITED && buff.Contents() == []
      modifies buff
      ensures buff.Valid()
      ensures Parse(cfg, Concat(arrivals)) == Parsed(delivered, buff.Contents(), shutdown)
    {
      hide Decode;
      delivered, shutdown := [], false;
      assert Parse(cfg, []) == Parsed([], [], false) by { assert Decode(cfg, []) == Incomplete by { NothingYet(cfg); } }
      for i := 0 to |arrivals|
        invariant buff.Valid() && buff.maxSize == UNLIMITED
        invariant Parse(cfg, Concat(arrivals[..i])) == Parsed(delivered, buff.Contents(), shutdown)
      {
        ghost var sofar := Concat(arrivals[..i]);
        var ok := buff.Append(arrivals[i]);
        ParseResumes(cfg, sofar, arrivals[i]);
        ConcatSnoc(arrivals, i);
        var more, bad := Recv(buff);
        delivered := delivered + more;
        shutdown := bad;
      }
      assert arrivals[..|arrivals|] == arrivals;
    }

    // send, for one payload after the other: empty ones are skipped, and nothing is sent
    // after one that encode refuses.
    method SendAll(payloads: seq<seq<byte>>, wire: ByteBuffer)
      requires cfg.Valid() && wire.Valid() && wire.maxSize == UNLIMITED
      modifies wire
      ensures wire.Valid() && wire.maxSize == UNLIMITED
      ensures wire.Contents() == old(wire.Contents()) + Frames(cfg, Sendable(cfg, payloads))
    {
      hide Frame, Frames;
      var i, rt := 0, 1;
      ghost var before := wire.Contents();
      assert payloads[0..] == payloads;
      while i < |payloads| && rt != -1
        invariant 0 <= i <= |payloads| && wire.Valid() && wire.maxSize == UNLIMITED
        invariant rt == -1 ==> wire.Contents() == before + Frames(cfg, Sendable(cfg, payloads))
        invariant rt != -1 ==> wire.Contents() + Frames(cfg, Sendable(cfg, payloads[i..])) ==
                               before + Frames(cfg, Sendable(cfg, payloads))
      {
        var payload := new ByteBuffer();
        var ok := payload.Append(payloads[i]);
        ghost var now := wire.Contents();
        assert payload.Contents() == payloads[i];
        rt := EncodeInto(payload, wire);
        SendNext(cfg, payloads[i..], now);
        assert payloads[i..][1..] == payloads[i + 1..];
        i := i + 1;
      }
      FramesNone(cfg);
    }

    // A whole exchange: payloads are encoded, the bytes are cut into arrivals in any
    // way, and the arrivals are received.
    method Exchange(payloads: seq<seq<byte>>, cut: seq<byte> -> seq<seq<byte>>)
      returns (delivered: seq<seq<byte>>, left: seq<byte>, shutdown: bool)
      requires cfg.Valid() && forall b :: Concat(cut(b)) == b
      ensures Parse(cfg, Frames(cfg, Sendable(cfg, payloads))) == Parsed(delivered, left, shutdown)
      ensures delivered == payloads && left == [] && !shutdown <==>
              forall i :: 0 <= i < |payloads| ==> payloads[i] != [] && Carries(cfg, payloads[i])
    {
      hide Parse, Frames, Sendable, Carries;
      var wire := new ByteBuffer();
      SendAll(payloads, wire);
      var bytes := wire.TakenAsString();
      assert bytes == Frames(cfg, Sendable(cfg, payloads));
      var input := new ByteBuffer();
      delivered, shutdown := Session(input, cut(bytes));
      left := input.TakenAsString();
      ExchangeExact(cfg, payloads);
    }
  }

  // The messages delivered so far, and then the parse of what is left, are the parse of all.
  ghost predicate SoFar(cfg: Config, all: seq<byte>, delivered: seq<seq<byte>>, left: seq<byte>)
    requires cfg.Valid()
  {
    var r := Parse(cfg, left);
    Parse(cfg, all) == Parsed(delivered + r.messages, r.rest, r.bad)
  }

  lemma NoneSoFar(cfg: Config, all: seq<byte>)
    requires cfg.Valid()
    ensures SoFar(cfg, all, [], all)
  {
    hide Parse;
    assert [] + Parse(cfg, all).messages == Parse(cfg, all).messages;
  }

  lemma OneMore(cfg: Config, all: seq<byte>, delivered: seq<seq<byte>>, left: seq<byte>)
    requires cfg.Valid() && SoFar(cfg, all, delivered, left)
    ensures var d := Decode(cfg, left); d.Message? ==> SoFar(cfg, all, delivered + [d.payload], left[d.size..])
  {
    hide Parse, Decode;
    ParseOnce(cfg, left);
    var d := Decode(cfg, left);
    if d.Message? {
      var r := Parse(cfg, left[d.size..]);
      assert delivered + ([d.payload] + r.messages) == (delivered + [d.payload]) + r.messages;
    }
  }

  lemma NoMore(cfg: Config, all: seq<byte>, delivered: seq<seq<byte>>, left: seq<byte>)
    requires cfg.Valid() && SoFar(cfg, all, delivered, left) && !Decode(cfg, left).Message?
    ensures Parse(cfg, all) == Parsed(delivered, left, Decode(cfg, left).Bad?)
  {
    hide Parse, Decode;
    ParseOnce(cfg, left);
    assert delivered + [] == delivered;
  }

  lemma JoinFour(a: seq<byte>, b: seq<byte>, c: seq<byte>, d: seq<byte>)
    ensures ((a + b) + c) + d == a + ((b + c) + d)
    ensures (a + b) + c == a + ((b + c) + [])
  {}

  lemma NothingYet(cfg: Config)
    requires cfg.Valid()
    ensures Decode(cfg, []) == Incomplete
  {}

  function Concat(chunks: seq<seq<byte>>): seq<byte> {
    if chunks == [] then [] else Concat(chunks[..|chunks| - 1]) + chunks[|chunks| - 1]
  }

  lemma ConcatSnoc(chunks: seq<seq<byte>>, i: nat)
    requires i < |chunks|
    ensures Concat(chunks[..i + 1]) == Concat(chunks[..i]) + chunks[i]
  {
    assert chunks[..i + 1][..i] == chunks[..i];
  }
}
