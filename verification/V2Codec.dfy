/** The ZMTP 2.0 framing as machines for the drivers: what is encoded is what is decoded, however the bytes are cut
    on the way. */
module V2Codec {
  import opened YPipes
  import opened Codec
  import opened Encoding

  datatype Frame = Frame(more: bool, command: bool, body: Bytes)

  // ---- sizes on the wire ----

  /** The k low bytes of n, the most significant one first. */
  function ToBytes(n: nat, k: nat): (s: Bytes)
    ensures |s| == k
  {
    if k == 0 then [] else ToBytes(n / 256, k - 1) + [n % 256]
  }

  function FromBytes(s: Bytes): nat {
    if s == [] then 0 else FromBytes(s[..|s| - 1]) * 256 + s[|s| - 1]
  }

  function Pow256(k: nat): nat {
    if k == 0 then 1 else 256 * Pow256(k - 1)
  }

  lemma {:induction false} FromToBytes(n: nat, k: nat)
    requires n < Pow256(k)
    ensures FromBytes(ToBytes(n, k)) == n
  {
    if k > 0 {
      FromToBytes(n / 256, k - 1);
      assert ToBytes(n, k)[..k - 1] == ToBytes(n / 256, k - 1);
    }
  }

  // ---- encoding ----

  datatype EncodeState = MessageReady | SizeReady

  function Flags(f: Frame): Byte {
    (if f.more then 1 else 0) + (if |f.body| > 255 then 2 else 0) + (if f.command then 4 else 0)
  }

  function Size(f: Frame): Bytes {
    if |f.body| > 255 then ToBytes(|f.body|, 8) else [|f.body|]
  }

  function EncodeStep(q: EncodeState, f: Frame): Chunk<EncodeState> {
    if q == MessageReady then Chunk([Flags(f)] + Size(f), SizeReady, false)
    else Chunk(f.body, MessageReady, true)
  }

  function V2Encoder(): Steps<EncodeState, Frame> {
    Steps((q, f) => EncodeStep(q, f), q => if q == MessageReady then 1 else 0)
  }

  /** A frame on the wire. */
  function Wire(f: Frame): Bytes {
    [Flags(f)] + Size(f) + f.body
  }

  lemma {:induction false} FourBytes(s: Bytes)
    requires |s| >= 4
    ensures FromBytes(s) == 0x1_0000_0000 * FromBytes(s[..|s| - 4])
      + 0x100_0000 * (s[|s| - 4] as nat) + 0x1_0000 * (s[|s| - 3] as nat) + 0x100 * (s[|s| - 2] as nat) + s[|s| - 1]
  {
    var s1, s2, s3 := s[..|s| - 1], s[..|s| - 2], s[..|s| - 3];
    assert s1[..|s1| - 1] == s2 && s2[..|s2| - 1] == s3 && s3[..|s3| - 1] == s[..|s| - 4];
    assert FromBytes(s) == 256 * FromBytes(s1) + s[|s| - 1];
    assert FromBytes(s1) == 256 * FromBytes(s2) + s[|s| - 2];
    assert FromBytes(s2) == 256 * FromBytes(s3) + s[|s| - 3];
    assert FromBytes(s3) == 256 * FromBytes(s[..|s| - 4]) + s[|s| - 4];
    hide FromBytes;
  }

  /** The weights of the eight bytes of a size. */
  predicate BigEndian(n: nat, s: Bytes) {
    && |s| == 8
    && n == 0x1_0000_0000 * (0x100_0000 * (s[0] as nat) + 0x1_0000 * (s[1] as nat) + 0x100 * (s[2] as nat) + s[3])
      + 0x100_0000 * (s[4] as nat) + 0x1_0000 * (s[5] as nat) + 0x100 * (s[6] as nat) + s[7]
  }

  lemma SizeIsBigEndian(n: nat)
    requires n < Pow256(8)
    ensures BigEndian(n, ToBytes(n, 8))
  {
    var s := ToBytes(n, 8);
    FromToBytes(n, 8);
    FourBytes(s);
    FourBytes(s[..4]);
    assert s[..4][..0] == [];
    assert FromBytes([]) == 0;
    hide FromBytes, ToBytes, Pow256;
  }

  /** The first byte tells by its bits 0, 1 and 2 whether there is more, whether the size is large, and whether it is a
      command; the others are zero. */
  predicate FlagsAre(b: Byte, more: bool, large: bool, command: bool) {
    b < 8 && (b % 2 == 1 <==> more) && ((b / 2) % 2 == 1 <==> large) && ((b / 4) % 2 == 1 <==> command)
  }

  /** The wire format, byte by byte: the flags, the size in one byte or in eight with the most significant first, the body. */
  lemma WireIs(f: Frame)
    requires |f.body| < Pow256(8)
    ensures var w := Wire(f); var n := |f.body|;
      && |w| >= 2 && FlagsAre(w[0], f.more, n > 255, f.command)
      && (n <= 255 ==> w[1] == n && w[2..] == f.body)
      && (n > 255 ==> |w| >= 9 && BigEndian(n, w[1..9]) && w[9..] == f.body)
  {
    if |f.body| > 255 {
      SizeIsBigEndian(|f.body|);
    }
    hide BigEndian, ToBytes, Pow256;
    WireParts(f);
    hide Wire, Size, Flags;
    FlagsHold(f);
  }

  lemma FlagsHold(f: Frame)
    ensures FlagsAre(Flags(f), f.more, |f.body| > 255, f.command)
  {
  }

  lemma WireParts(f: Frame)
    ensures var w, k := Wire(f), |Size(f)|;
      && |w| == 1 + k + |f.body| && w[0] == Flags(f) && w[1..1 + k] == Size(f) && w[1 + k..] == f.body
  {
    hide Size, Flags;
  }

  function WireAll(fs: seq<Frame>): Bytes {
    if fs == [] then [] else Wire(fs[0]) + WireAll(fs[1..])
  }

  lemma EncoderEnds()
    ensures Ends(V2Encoder())
  {
  }

  lemma EncodesWire(f: Frame)
    ensures Ends(V2Encoder()) && Rest(V2Encoder(), MessageReady, f) == Wire(f) && After(V2Encoder(), MessageReady, f) == MessageReady
  {
    EncoderEnds();
    var m := V2Encoder();
    assert Rest(m, SizeReady, f) == f.body + [];
    assert After(m, SizeReady, f) == MessageReady;
  }

  lemma {:induction false} EncodesWireAll(fs: seq<Frame>)
    ensures Ends(V2Encoder()) && Stream(V2Encoder(), MessageReady, fs) == WireAll(fs)
  {
    EncoderEnds();
    if fs != [] {
      EncodesWire(fs[0]);
      EncodesWireAll(fs[1..]);
    }
  }

  // ---- decoding ----

  datatype DecodeState = FlagsReady | OneByteSize(more: bool, command: bool) | EightByteSize(more: bool, command: bool)
    | BodyReady(more: bool, command: bool)

  function Bit(b: Byte, weight: nat): bool
    requires weight > 0
  {
    (b / weight) % 2 == 1
  }

  /** `max` is the maximal size of a body, negative for none. */
  function DecodeStep(max: int, q: DecodeState, got: Bytes): Next<DecodeState, Frame> {
    match q
    case FlagsReady =>
      var b := if got == [] then 0 else got[0];
      if Bit(b, 2) then Read(EightByteSize(Bit(b, 1), Bit(b, 4)), 8) else Read(OneByteSize(Bit(b, 1), Bit(b, 4)), 1)
    case OneByteSize(more, command) => SizeRead(max, FromBytes(got), more, command)
    case EightByteSize(more, command) => SizeRead(max, FromBytes(got), more, command)
    case BodyReady(more, command) => Done(FlagsReady, 1, Frame(more, command, got))
  }

  /** The other five bits of the flags are ignored on reception. */
  lemma ReservedBitsIgnored(max: int, b: Byte)
    ensures DecodeStep(max, FlagsReady, [b]) == DecodeStep(max, FlagsReady, [b % 8])
  {
    var low, high := b % 8, b / 8;
    assert b == 8 * high + low;
    assert b / 2 == 4 * high + low / 2 && b / 4 == 2 * high + low / 4;
  }

  function SizeRead(max: int, n: nat, more: bool, command: bool): Next<DecodeState, Frame> {
    if max >= 0 && n > max then Fail else Read(BodyReady(more, command), n)
  }

  function Rank(q: DecodeState): nat {
    if q.FlagsReady? then 2 else if q.BodyReady? then 0 else 1
  }

  function V2Decoder(max: int): Machine<DecodeState, Frame> {
    Machine((q, got) => DecodeStep(max, q, got), q => Rank(q))
  }

  lemma DecoderLawful(max: int)
    ensures Lawful(V2Decoder(max))
  {
  }

  /** Between two frames. */
  predicate AtStart(d: Decoder<DecodeState, Frame>) {
    !d.dead && d.q == FlagsReady && d.got == [] && d.need == 1
  }

  predicate Fits(max: int, f: Frame) {
    max < 0 || |f.body| <= max
  }

  lemma SizeIs(f: Frame)
    requires |f.body| < Pow256(8)
    ensures FromBytes(Size(f)) == |f.body| && |Size(f)| == if |f.body| > 255 then 8 else 1
  {
    if |f.body| > 255 {
      FromToBytes(|f.body|, 8);
    } else {
      assert Size(f)[..0] == [];
    }
  }

  function SizeState(f: Frame): DecodeState {
    if |f.body| > 255 then EightByteSize(f.more, f.command) else OneByteSize(f.more, f.command)
  }

  lemma FlagsStep(max: int, f: Frame)
    requires |f.body| < Pow256(8)
    ensures DecodeStep(max, FlagsReady, [Flags(f)]) == Read(SizeState(f), |Size(f)|)
  {
    SizeIs(f);
    assert Bit(Flags(f), 1) == f.more && Bit(Flags(f), 2) == (|f.body| > 255) && Bit(Flags(f), 4) == f.command;
    hide Size;
  }

  /** After the flags. */
  lemma FlagsDecode(max: int, d: Decoder<DecodeState, Frame>, f: Frame)
    requires AtStart(d) && |f.body| < Pow256(8)
    ensures Lawful(V2Decoder(max))
    ensures var d' := Feed(V2Decoder(max), d, [Flags(f)]);
      !d'.dead && d'.q == SizeState(f) && d'.got == [] && d'.need == |Size(f)| && Messages(d'.log) == Messages(d.log)
  {
    var m := V2Decoder(max);
    DecoderLawful(max);
    SizeIs(f);
    FlagsStep(max, f);
    FeedCompletes(m, d, [Flags(f)]);
    var r := m.step(FlagsReady, [Flags(f)]);
    assert Store(d, [Flags(f)]).got == [Flags(f)];
    MessagesNext(d.log, Event(FlagsReady, [Flags(f)], r));
    hide Feed, Messages, Flags, Size, Lawful, DecodeStep, Pow256;
  }

  /** After the body, possibly empty, is there. */
  lemma BodySettles(max: int, d: Decoder<DecodeState, Frame>, f: Frame)
    requires d.q == BodyReady(f.more, f.command) && d.got == f.body
    ensures Lawful(V2Decoder(max))
    ensures var d' := Settle(V2Decoder(max), d); AtStart(d') && Messages(d'.log) == Messages(d.log) + [f]
  {
    var m := V2Decoder(max);
    DecoderLawful(max);
    var r := m.step(d.q, d.got);
    assert r == Done(FlagsReady, 1, f);
    MessagesNext(d.log, Event(d.q, d.got, r));
  }

  /** What the decoder is to be after the size: in error, past an empty frame, or waiting for the body. */
  ghost predicate SizeDone(max: int, f: Frame, d: Decoder<DecodeState, Frame>, d': Decoder<DecodeState, Frame>) {
    if !Fits(max, f) then d'.dead && Messages(d'.log) == Messages(d.log)
    else if f.body == [] then AtStart(d') && Messages(d'.log) == Messages(d.log) + [f]
    else !d'.dead && d'.q == BodyReady(f.more, f.command) && d'.got == [] && d'.need == |f.body| && Messages(d'.log) == Messages(d.log)
  }

  lemma SizeStep(max: int, f: Frame)
    requires |f.body| < Pow256(8)
    ensures DecodeStep(max, SizeState(f), Size(f)) == SizeRead(max, |f.body|, f.more, f.command)
  {
    SizeIs(f);
  }

  lemma SizeSettles(max: int, d: Decoder<DecodeState, Frame>, f: Frame)
    requires !d.dead && d.q == SizeState(f) && d.got == Size(f) && |f.body| < Pow256(8)
    ensures Lawful(V2Decoder(max)) && SizeDone(max, f, d, Settle(V2Decoder(max), d))
  {
    var m := V2Decoder(max);
    DecoderLawful(max);
    SizeStep(max, f);
    var r := m.step(d.q, d.got);
    assert r == SizeRead(max, |f.body|, f.more, f.command);
    hide DecodeStep, Pow256, FromBytes, Size, SizeState;
    var log := d.log + [Event(d.q, d.got, r)];
    MessagesNext(d.log, Event(d.q, d.got, r));
    hide Messages;
    if Fits(max, f) && f.body == [] {
      BodySettles(max, Decoder(false, r.state, [], 0, log), f);
      assert Settle(m, d) == Settle(m, Decoder(false, r.state, [], 0, log));
    }
    hide Lawful;
  }

  lemma SizeDecodes(max: int, d: Decoder<DecodeState, Frame>, f: Frame)
    requires !d.dead && d.q == SizeState(f) && d.got == [] && d.need == |Size(f)| && |f.body| < Pow256(8)
    ensures Lawful(V2Decoder(max)) && SizeDone(max, f, d, Feed(V2Decoder(max), d, Size(f)))
  {
    var d1 := Store(d, Size(f));
    assert d1.got == Size(f) && d1.log == d.log;
    SizeIs(f);
    hide Size, Pow256, SizeState;
    SizeSettles(max, d1, f);
    FeedCompletes(V2Decoder(max), d, Size(f));
    hide Feed, Settle, Lawful, V2Decoder;
  }

  /** A frame that fits is decoded to itself, whatever came before; a frame that does not fit is an error. */
  lemma FrameDecodes(max: int, d: Decoder<DecodeState, Frame>, f: Frame)
    requires AtStart(d) && |f.body| < Pow256(8)
    ensures Lawful(V2Decoder(max))
    ensures var d' := Feed(V2Decoder(max), d, Wire(f));
      if Fits(max, f) then AtStart(d') && Messages(d'.log) == Messages(d.log) + [f]
      else d'.dead && Messages(d'.log) == Messages(d.log)
  {
    var m := V2Decoder(max);
    DecoderLawful(max);
    FlagsDecode(max, d, f);
    var d1 := Feed(m, d, [Flags(f)]);
    SizeDecodes(max, d1, f);
    var d2 := Feed(m, d1, Size(f));
    FeedJoin(m, d, [Flags(f)], Size(f));
    FeedJoin(m, d, [Flags(f)] + Size(f), f.body);
    assert Feed(m, d, Wire(f)) == Feed(m, d2, f.body);
    if Fits(max, f) && f.body != [] {
      FeedCompletes(m, d2, f.body);
      assert Store(d2, f.body).got == f.body;
      BodySettles(max, Store(d2, f.body), f);
    }
    hide Settle, Messages, FromBytes, Size, Lawful;
  }

  /** The frames before the first one that does not fit. */
  function Accepted(max: int, fs: seq<Frame>): seq<Frame> {
    if fs == [] || !Fits(max, fs[0]) then [] else [fs[0]] + Accepted(max, fs[1..])
  }

  lemma {:induction false} AcceptedAll(max: int, fs: seq<Frame>)
    ensures Accepted(max, fs) == fs <==> forall i :: 0 <= i < |fs| ==> Fits(max, fs[i])
  {
    if fs != [] {
      AcceptedAll(max, fs[1..]);
      assert fs == [fs[0]] + fs[1..];
      assert Accepted(max, fs) == fs ==> Accepted(max, fs)[1..] == fs[1..];
    }
  }

  /** Frames one after the other: those before the first that does not fit come out, in order; that one is an error. */
  lemma {:induction false} FramesDecode(max: int, d: Decoder<DecodeState, Frame>, fs: seq<Frame>)
    requires AtStart(d) && forall i :: 0 <= i < |fs| ==> |fs[i].body| < Pow256(8)
    ensures Lawful(V2Decoder(max))
    ensures var d' := Feed(V2Decoder(max), d, WireAll(fs));
      && Messages(d'.log) == Messages(d.log) + Accepted(max, fs)
      && (if Accepted(max, fs) == fs then AtStart(d') else d'.dead)
    decreases |fs|
  {
    var m := V2Decoder(max);
    DecoderLawful(max);
    if fs == [] {
      assert Messages(d.log) + [] == Messages(d.log);
    } else {
      var d1 := Feed(m, d, Wire(fs[0]));
      FrameDecodes(max, d, fs[0]);
      FeedJoin(m, d, Wire(fs[0]), WireAll(fs[1..]));
      assert Feed(m, d, WireAll(fs)) == Feed(m, d1, WireAll(fs[1..]));
      assert d1.dead ==> Feed(m, d1, WireAll(fs[1..])) == d1;
      hide Lawful, Messages, Settle, Feed, Wire, WireAll, Pow256, V2Decoder, Fits;
      if Fits(max, fs[0]) {
        FramesDecode(max, d1, fs[1..]);
        AcceptedOne(max, fs);
        Regroup(Messages(d.log), fs[0], Accepted(max, fs[1..]));
        hide Accepted;
      } else {
        assert Messages(d1.log) + [] == Messages(d1.log);
      }
    }
  }

  lemma Regroup(a: seq<Frame>, f: Frame, b: seq<Frame>)
    ensures (a + [f]) + b == a + ([f] + b)
  {
  }

  lemma AcceptedOne(max: int, fs: seq<Frame>)
    requires fs != [] && Fits(max, fs[0])
    ensures Accepted(max, fs) == [fs[0]] + Accepted(max, fs[1..])
    ensures Accepted(max, fs) == fs <==> Accepted(max, fs[1..]) == fs[1..]
  {
    assert fs == [fs[0]] + fs[1..];
    assert Accepted(max, fs) == fs ==> Accepted(max, fs)[1..] == fs[1..];
  }

  /** Cut a stream into pieces of the given sizes, and a last one with the rest. */
  function Recut(s: Bytes, cuts: seq<nat>): seq<Bytes>
    decreases |cuts|
  {
    if cuts == [] || cuts[0] > |s| then [s] else [s[..cuts[0]]] + Recut(s[cuts[0]..], cuts[1..])
  }

  lemma {:induction false} RecutKeeps(s: Bytes, cuts: seq<nat>)
    ensures Concat(Recut(s, cuts)) == s
    decreases |cuts|
  {
    if cuts == [] || cuts[0] > |s| {
      ConcatOne(s);
    } else {
      var k := cuts[0];
      RecutKeeps(s[k..], cuts[1..]);
      ConcatOne(s[..k]);
      ConcatJoin([s[..k]], Recut(s[k..], cuts[1..]));
      hide Concat;
      assert s[..k] + s[k..] == s;
    }
  }

  lemma ConcatOne(s: Bytes)
    ensures Concat([s]) == s
  {
    assert [s][..0] == [];
    assert Concat([s]) == [] + s;
  }

  /** What the decoder hands out of the bytes of some frames. */
  lemma WholeStream(max: int, fs: seq<Frame>, s: Bytes)
    requires forall i :: 0 <= i < |fs| ==> |fs[i].body| < Pow256(8)
    requires Ends(V2Encoder()) && s == Stream(V2Encoder(), MessageReady, fs)
    ensures Lawful(V2Decoder(max)) && Messages(Feed(V2Decoder(max), Start(FlagsReady, 1), s).log) == Accepted(max, fs)
    ensures Accepted(max, fs) == fs <==> forall i :: 0 <= i < |fs| ==> Fits(max, fs[i])
  {
    EncodesWireAll(fs);
    FramesDecode(max, Start(FlagsReady, 1), fs);
    AcceptedAll(max, fs);
  }

  /** The round trip, through both objects: frames are encoded into batches of any sizes, the bytes are cut anew at any
      places and received with any buffer, and the decoder hands out exactly the frames, if and only if all of them are
      within the size limit; otherwise those before the first that is not. */
  method RoundTrip(fs: seq<Frame>, max: int, sizes: nat -> Option<nat>, encoderBuffer: nat, cuts: seq<nat>, decoderBuffer: nat)
    returns (received: seq<Frame>)
    requires forall i :: 0 <= i < |fs| ==> |fs[i].body| < Pow256(8)
    requires encoderBuffer > 0 && decoderBuffer > 0 && forall j :: sizes(j).Some? ==> sizes(j).value > 0
    ensures received == Accepted(max, fs)
    ensures received == fs <==> forall i :: 0 <= i < |fs| ==> Fits(max, fs[i])
  {
    EncoderEnds();
    DecoderLawful(max);
    var encoder := new EncoderBase(V2Encoder(), encoderBuffer, MessageReady);
    var batches := encoder.Transmit(fs, sizes);
    var pieces := Recut(Concat(batches), cuts);
    RecutKeeps(Concat(batches), cuts);
    WholeStream(max, fs, Concat(batches));
    hide Lawful, Ends, Feed, Stream, Accepted, Fits, Concat, Recut, V2Encoder, V2Decoder, Messages;
    var decoder := new DecoderBase(V2Decoder(max), decoderBuffer, FlagsReady, 1);
    decoder.Receive(pieces);
    received := Messages(decoder.log);
  }
}
