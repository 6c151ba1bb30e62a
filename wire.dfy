/** The wire format of the TLS gossip transport: a 4-byte little-endian length
    followed by a `MemberlistMessage` envelope carrying a version, a kind, the sender's
    address and the payload. The protobuf encoding of the envelope is a `Codec`
    supplied from outside; everything around it is modelled byte for byte. */
module Wire {
  import opened Base
  import opened Net

  /** The version string every envelope written by this node carries. */
  const Version: string := "v1.0.0"

  /** Size of the length prefix (`uint32length`). */
  const LengthPrefixSize: nat := 4

  /** Enum numbers of `MemberlistMessage_Kind` other than STREAM (0) and PACKET (1). */
  type OtherKindCode = c: int | c != 0 && c != 1 witness 2

  /** `MemberlistMessage_Kind`: the two declared kinds, or any other enum number a
      peer may have put on the wire. */
  datatype Kind = StreamKind | PacketKind | UnknownKind(code: OtherKindCode)

  /** `clusterpb.MemberlistMessage`. */
  datatype Envelope = Envelope(version: string, kind: Kind, fromAddr: string, msg: seq<uint8>)

  function PacketEnvelope(fromAddr: string, b: seq<uint8>): Envelope {
    Envelope(Version, PacketKind, fromAddr, b)
  }

  /** The stream signal: no sender address, no payload. */
  function StreamEnvelope(): Envelope {
    Envelope(Version, StreamKind, "", [])
  }

  /** `proto.Marshal` and `proto.Unmarshal` for envelopes. */
  datatype Codec = Codec(
    marshal: Envelope -> Result<seq<uint8>>,
    unmarshal: seq<uint8> -> Result<Envelope>)

  /** What the protobuf library guarantees: whatever marshals unmarshals back to itself. */
  ghost predicate RoundTrips(codec: Codec) {
    forall e :: codec.marshal(e).Ok? ==> codec.unmarshal(codec.marshal(e).value) == Ok(e)
  }

  /** `binary.LittleEndian.PutUint32`. */
  function PutUint32LE(n: int): (b: seq<uint8>)
    requires 0 <= n < TwoPow32
    ensures |b| == LengthPrefixSize
  {
    [n % 256, n / 0x100 % 256, n / 0x1_0000 % 256, n / 0x100_0000]
  }

  /** `binary.LittleEndian.Uint32`. */
  function Uint32LE(b: seq<uint8>): (n: nat)
    requires |b| == LengthPrefixSize
    ensures n < TwoPow32
  {
    b[0] as int + 0x100 * (b[1] as int + 0x100 * (b[2] as int + 0x100 * b[3] as int))
  }

  lemma Uint32OfPut(n: int)
    requires 0 <= n < TwoPow32
    ensures Uint32LE(PutUint32LE(n)) == n
  {
    var q1 := n / 0x100;
    var q2 := q1 / 0x100;
    var q3 := q2 / 0x100;
    assert n == n % 256 + 0x100 * q1;
    assert q1 == q1 % 256 + 0x100 * q2;
    assert q2 == q2 % 256 + 0x100 * q3;
    assert q1 % 256 == n / 0x100 % 256;
    assert q2 == n / 0x1_0000;
    assert q3 == n / 0x100_0000;
  }

  lemma PutOfUint32(b: seq<uint8>)
    requires |b| == LengthPrefixSize
    ensures PutUint32LE(Uint32LE(b)) == b
  {
    var n := Uint32LE(b);
    var q1 := b[1] as int + 0x100 * (b[2] as int + 0x100 * b[3] as int);
    var q2 := b[2] as int + 0x100 * b[3] as int;
    assert n % 256 == b[0] && n / 0x100 == q1;
    assert q1 % 256 == b[1] && q1 / 0x100 == q2;
    assert n / 0x1_0000 == q1 / 0x100;
    assert q2 % 256 == b[2] && q2 / 0x100 == b[3];
    assert n / 0x100_0000 == q2 / 0x100;
  }

  /** The bytes handed to `Write` for an encoded envelope `msg`: its length, truncated
      to 32 bits as `uint32(len(msg))` does, then the envelope itself. */
  function Frame(msg: seq<uint8>): (f: seq<uint8>)
    ensures |f| == LengthPrefixSize + |msg|
    ensures Uint32LE(f[..LengthPrefixSize]) == |msg| % TwoPow32
    ensures f[LengthPrefixSize..] == msg
  {
    var header := PutUint32LE(|msg| % TwoPow32);
    Uint32OfPut(|msg| % TwoPow32);
    assert (header + msg)[..LengthPrefixSize] == header;
    header + msg
  }

  /** What `writePacket(fromAddr, b)` hands to `Write`, or the marshalling error it
      returns instead. */
  function EncodePacket(codec: Codec, fromAddr: string, b: seq<uint8>): (r: Result<seq<uint8>>)
    ensures r.Ok? <==> codec.marshal(PacketEnvelope(fromAddr, b)).Ok?
    ensures r.Ok? ==>
              var msg := codec.marshal(PacketEnvelope(fromAddr, b)).value;
              && |r.value| == LengthPrefixSize + |msg|
              && Uint32LE(r.value[..LengthPrefixSize]) == |msg| % TwoPow32
              && r.value[LengthPrefixSize..] == msg
    ensures r.Err? ==> r.error == Wrap(codec.marshal(PacketEnvelope(fromAddr, b)).error, "unable to marshal memeberlist packet message")
  {
    match codec.marshal(PacketEnvelope(fromAddr, b))
    case Err(e) => Err(Wrap(e, "unable to marshal memeberlist packet message"))
    case Ok(msg) => Ok(Frame(msg))
  }

  /** What `writeStream()` hands to `Write`, or the marshalling error it returns instead. */
  function EncodeStream(codec: Codec): (r: Result<seq<uint8>>)
    ensures r.Ok? <==> codec.marshal(StreamEnvelope()).Ok?
    ensures r.Ok? ==>
              var msg := codec.marshal(StreamEnvelope()).value;
              && |r.value| == LengthPrefixSize + |msg|
              && Uint32LE(r.value[..LengthPrefixSize]) == |msg| % TwoPow32
              && r.value[LengthPrefixSize..] == msg
    ensures r.Err? ==> r.error == Wrap(codec.marshal(StreamEnvelope()).error, "unable to marshal memeberlist stream message")
  {
    match codec.marshal(StreamEnvelope())
    case Err(e) => Err(Wrap(e, "unable to marshal memeberlist stream message"))
    case Ok(msg) => Ok(Frame(msg))
  }

  /** `memberlist.Packet`. */
  datatype Packet = Packet(buf: seq<uint8>, from: TcpAddr, timestamp: int)

  /** The outcome of `read`: a packet, "no packet and no error" for a stream
      connection, or an error. */
  datatype ReadResult = PacketRead(packet: Packet) | StreamSignal | ReadError(error: string)

  /** `toPacket`: resolve the sender address and stamp the packet with the time `now`. */
  function ToPacket(pb: Envelope, resolve: Resolver, now: int): (r: ReadResult)
    ensures r.PacketRead? <==> resolve(pb.fromAddr).Ok?
    ensures r.PacketRead? ==> r.packet == Packet(pb.msg, resolve(pb.fromAddr).value, now)
    ensures resolve(pb.fromAddr).Err? ==>
              r == ReadError(Wrap(resolve(pb.fromAddr).error, "error parsing packet sender address"))
  {
    match resolve(pb.fromAddr)
    case Err(e) => ReadError(Wrap(e, "error parsing packet sender address"))
    case Ok(addr) => PacketRead(Packet(pb.msg, addr, now))
  }

  /** The switch on the envelope's kind at the end of `read`. */
  function Dispatch(pb: Envelope, resolve: Resolver, now: int): (r: ReadResult)
    ensures r.StreamSignal? <==> pb.kind == StreamKind
    ensures r.PacketRead? ==> pb.kind == PacketKind
    ensures pb.kind == PacketKind ==> r == ToPacket(pb, resolve, now)
    ensures pb.kind.UnknownKind? ==> r == ReadError("could not read from either stream or packet channel")
  {
    match pb.kind
    case StreamKind => StreamSignal
    case PacketKind => ToPacket(pb, resolve, now)
    case UnknownKind(_) => ReadError("could not read from either stream or packet channel")
  }

  /** The input begins with a length prefix and at least as many bytes as it declares. */
  predicate HasFrame(input: seq<uint8>) {
    LengthPrefixSize <= |input| &&
    Uint32LE(input[..LengthPrefixSize]) <= |input| - LengthPrefixSize
  }

  /** The envelope bytes of the frame at the front of `input`. */
  function FrameBody(input: seq<uint8>): (body: seq<uint8>)
    requires HasFrame(input)
    ensures |body| == Uint32LE(input[..LengthPrefixSize])
  {
    input[LengthPrefixSize..LengthPrefixSize + Uint32LE(input[..LengthPrefixSize])]
  }

  /** What `read` returns on a connection whose peer sent `input` (reads as far as the
      stream goes): two exact-length reads, then the envelope is parsed and dispatched. */
  function DecodeFrame(codec: Codec, resolve: Resolver, now: int, input: seq<uint8>): (r: ReadResult)
    ensures !HasFrame(input) ==> r.ReadError?
    ensures |input| < LengthPrefixSize ==>
              r == ReadError(Wrap(ReadFullError(|input|), "error reading message length"))
    ensures LengthPrefixSize <= |input| && !HasFrame(input) ==>
              r == ReadError(Wrap(ReadFullError(|input| - LengthPrefixSize), "error reading message"))
    ensures HasFrame(input) && codec.unmarshal(FrameBody(input)).Err? ==>
              r == ReadError(Wrap(codec.unmarshal(FrameBody(input)).error, "error parsing message"))
    ensures HasFrame(input) && codec.unmarshal(FrameBody(input)).Ok? ==>
              r == Dispatch(codec.unmarshal(FrameBody(input)).value, resolve, now)
  {
    if |input| < LengthPrefixSize then
      ReadError(Wrap(ReadFullError(|input|), "error reading message length"))
    else if !HasFrame(input) then
      ReadError(Wrap(ReadFullError(|input| - LengthPrefixSize), "error reading message"))
    else
      match codec.unmarshal(FrameBody(input))
      case Err(e) => ReadError(Wrap(e, "error parsing message"))
      case Ok(pb) => Dispatch(pb, resolve, now)
  }

  /** Decoding never yields a partial packet: a packet comes only from a complete frame
      whose envelope is a PACKET with a resolvable sender, and carries exactly that
      envelope's payload; a stream signal comes only from a complete STREAM frame. */
  lemma DecodedPacketIsWhole(codec: Codec, resolve: Resolver, now: int, input: seq<uint8>)
    requires !DecodeFrame(codec, resolve, now, input).ReadError?
    ensures HasFrame(input)
    ensures var pb := codec.unmarshal(FrameBody(input));
            && pb.Ok?
            && (DecodeFrame(codec, resolve, now, input).StreamSignal? <==> pb.value.kind == StreamKind)
            && (DecodeFrame(codec, resolve, now, input).PacketRead? ==>
                  && pb.value.kind == PacketKind
                  && resolve(pb.value.fromAddr).Ok?
                  && DecodeFrame(codec, resolve, now, input).packet
                     == Packet(pb.value.msg, resolve(pb.value.fromAddr).value, now))
  {
  }

  /** `read` consumes exactly one frame: bytes after it never change the outcome. */
  lemma DecodeIgnoresTrailingBytes(codec: Codec, resolve: Resolver, now: int, input: seq<uint8>, rest: seq<uint8>)
    requires HasFrame(input)
    ensures HasFrame(input + rest) && FrameBody(input + rest) == FrameBody(input)
    ensures DecodeFrame(codec, resolve, now, input + rest) == DecodeFrame(codec, resolve, now, input)
  {
  }

  /** A frame cut short anywhere, in its length prefix or in its envelope, is an error
      and never a packet or a stream signal. */
  lemma TruncatedFrameFails(codec: Codec, resolve: Resolver, now: int, msg: seq<uint8>, k: nat)
    requires |msg| < TwoPow32
    requires k < |Frame(msg)|
    ensures DecodeFrame(codec, resolve, now, Frame(msg)[..k]).ReadError?
  {
  }

  /** Round trip of a packet: the frame `writePacket(fromAddr, b)` writes, followed by
      anything, reads back as a packet carrying exactly `b` from the resolved
      `fromAddr`; when `fromAddr` does not resolve it is an error even though the whole
      frame was read. */
  lemma PacketRoundTrip(codec: Codec, resolve: Resolver, now: int, fromAddr: string, b: seq<uint8>, rest: seq<uint8>)
    requires RoundTrips(codec)
    requires EncodePacket(codec, fromAddr, b).Ok?
    requires |EncodePacket(codec, fromAddr, b).value| < LengthPrefixSize + TwoPow32
    ensures var r := DecodeFrame(codec, resolve, now, EncodePacket(codec, fromAddr, b).value + rest);
            match resolve(fromAddr)
            case Ok(addr) => r == PacketRead(Packet(b, addr, now))
            case Err(e) => r == ReadError(Wrap(e, "error parsing packet sender address"))
  {
    var frame := EncodePacket(codec, fromAddr, b).value;
    var msg := codec.marshal(PacketEnvelope(fromAddr, b)).value;
    assert frame[LengthPrefixSize..] == msg;
    assert HasFrame(frame) && FrameBody(frame) == msg;
    DecodeIgnoresTrailingBytes(codec, resolve, now, frame, rest);
    assert codec.unmarshal(msg) == Ok(PacketEnvelope(fromAddr, b));
  }

  /** Round trip of the stream signal: it reads back as "no packet, no error", whatever
      the stream carries after it. */
  lemma StreamRoundTrip(codec: Codec, resolve: Resolver, now: int, rest: seq<uint8>)
    requires RoundTrips(codec)
    requires EncodeStream(codec).Ok?
    requires |EncodeStream(codec).value| < LengthPrefixSize + TwoPow32
    ensures DecodeFrame(codec, resolve, now, EncodeStream(codec).value + rest) == StreamSignal
  {
  }

  /** An envelope of 2^32 bytes or more gets a length prefix that understates it, so
      the reader stops inside the envelope: the prefix records the length modulo 2^32. */
  lemma OversizedEnvelopeHeaderWraps(msg: seq<uint8>)
    requires |msg| >= TwoPow32
    ensures Uint32LE(Frame(msg)[..LengthPrefixSize]) == |msg| - TwoPow32 * (|msg| / TwoPow32)
    ensures Uint32LE(Frame(msg)[..LengthPrefixSize]) < |msg|
  {
  }
}
