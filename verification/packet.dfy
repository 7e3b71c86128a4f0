/** Packets and payloads (src/protocol/packet.rs and payload.rs) and their wire format. */
module Packets {
  import opened Wrappers
  import opened Bytes

  const CURRENT_VERSION: nat := 1
  const HEADER_BYTES := 28
  const PAYLOAD_HEADER_BYTES := 35

  type U8 = n: nat | n < 0x100
  type U64 = n: nat | n < Pow256(8) witness (assert Pow256(8) > 0; 0)
  type U128 = n: nat | n < Pow256(16) witness (assert Pow256(16) > 0; 0)

  // -------- flags --------

  datatype PacketFlag = AckRequired | Ack | Fragmented | LastFragment

  /** A flag's bit, by its weight. */
  function FlagToInt(flag: PacketFlag): (w: U32) {
    match flag
    case AckRequired => 1
    case Ack => 2
    case Fragmented => 4
    case LastFragment => 8
  }

  /** The bit of a flag. */
  function Bit(flags: U32, flag: PacketFlag): (b: nat)
    ensures b < 2
  {
    match flag
    case AckRequired => flags % 2
    case Ack => flags / 2 % 2
    case Fragmented => flags / 4 % 2
    case LastFragment => flags / 8 % 2
  }

  /** `flags & w != 0`, for the weight w of the flag. */
  predicate HasFlag(flags: U32, flag: PacketFlag) {
    Bit(flags, flag) == 1
  }

  /** `flags | w`. */
  function WithFlag(flags: U32, flag: PacketFlag): U32 {
    WithFlagFits(flags, flag);
    if HasFlag(flags, flag) then flags else flags + FlagToInt(flag)
  }

  lemma WithFlagFits(flags: U32, flag: PacketFlag)
    ensures Bit(flags, flag) == 0 ==> flags + FlagToInt(flag) < 0x1_0000_0000
  {
    match flag
    case AckRequired =>
    case Ack => assert flags / 2 < 0x8000_0000;
    case Fragmented => assert flags / 4 < 0x4000_0000;
    case LastFragment => assert flags / 8 < 0x2000_0000;
  }

  class PacketFlags {
    var flags: U32

    constructor (flags: U32)
      ensures this.flags == flags
    {
      this.flags := flags;
    }

    method Set(flag: PacketFlag)
      modifies this
      ensures forall f :: HasFlag(flags, f) <==> f == flag || HasFlag(old(flags), f)
      ensures flags / 16 == old(flags) / 16
    {
      SetOneFlag(flags, flag);
      flags := WithFlag(flags, flag);
    }
  }

  function FromBits(h: nat, a: nat, b: nat, c: nat, d: nat): nat {
    16 * h + 8 * d + 4 * c + 2 * b + a
  }

  lemma BitsOf(h: nat, a: nat, b: nat, c: nat, d: nat)
    requires a < 2 && b < 2 && c < 2 && d < 2
    ensures var f := FromBits(h, a, b, c, d);
            f % 2 == a && f / 2 % 2 == b && f / 4 % 2 == c && f / 8 % 2 == d && f / 16 == h
  {
    var f := FromBits(h, a, b, c, d);
    assert f / 2 == 8 * h + 4 * d + 2 * c + b;
    assert f / 4 == 4 * h + 2 * d + c;
    assert f / 8 == 2 * h + d;
  }

  lemma BitsBack(f: nat)
    ensures f == FromBits(f / 16, f % 2, f / 2 % 2, f / 4 % 2, f / 8 % 2)
  {
    assert f == 2 * (f / 2) + f % 2;
    assert f / 2 == 2 * (f / 4) + f / 2 % 2;
    assert f / 4 == 2 * (f / 8) + f / 4 % 2;
    assert f / 8 == 2 * (f / 16) + f / 8 % 2;
  }

  function BitAfter(flags: U32, flag: PacketFlag, f: PacketFlag): (b: nat)
    ensures b < 2
  {
    if f == flag then 1 else Bit(flags, f)
  }

  lemma WithFlagBits(flags: U32, flag: PacketFlag)
    ensures WithFlag(flags, flag) ==
              FromBits(flags / 16, BitAfter(flags, flag, AckRequired), BitAfter(flags, flag, Ack),
                       BitAfter(flags, flag, Fragmented), BitAfter(flags, flag, LastFragment))
  {
    BitsBack(flags);
  }

  /** Setting a flag turns on that flag and touches no other bit. */
  lemma SetOneFlag(flags: U32, flag: PacketFlag)
    ensures forall f :: HasFlag(WithFlag(flags, flag), f) <==> f == flag || HasFlag(flags, f)
    ensures WithFlag(flags, flag) / 16 == flags / 16
  {
    WithFlagBits(flags, flag);
    BitsOf(flags / 16, BitAfter(flags, flag, AckRequired), BitAfter(flags, flag, Ack),
           BitAfter(flags, flag, Fragmented), BitAfter(flags, flag, LastFragment));
  }

  // -------- payloads --------

  datatype PayloadTag = Handshake | Message | DhtQuery | DhtResponse | RelayFrame | FileChunk | KeepAlive | Dummy | DhtOperation

  function TagFromByte(b: byte): Option<PayloadTag> {
    match b
    case 1 => Some(Handshake)
    case 2 => Some(Message)
    case 3 => Some(DhtQuery)
    case 4 => Some(DhtResponse)
    case 5 => Some(RelayFrame)
    case 6 => Some(FileChunk)
    case 7 => Some(KeepAlive)
    case 8 => Some(Dummy)
    case 9 => Some(DhtOperation)
    case _ => None
  }

  function TagToByte(tag: PayloadTag): byte {
    match tag
    case Handshake => 1
    case Message => 2
    case DhtQuery => 3
    case DhtResponse => 4
    case RelayFrame => 5
    case FileChunk => 6
    case KeepAlive => 7
    case Dummy => 8
    case DhtOperation => 9
  }

  lemma TagBytesMatch(b: byte, tag: PayloadTag)
    ensures TagFromByte(b) == Some(tag) <==> b == TagToByte(tag)
  {
  }

  datatype Payload = Payload(
    tag: PayloadTag,
    connectionId: ConnectionId,
    data: bytes,
    fragmentId: U128,
    fragmentIndex: U8,
    fragmentTotal: U8)

  function NoConnection(): ConnectionId {
    seq(16, _ => 0)
  }

  function PlainPayload(tag: PayloadTag, data: bytes): Payload {
    Payload(tag, NoConnection(), data, 0, 0, 0)
  }

  function FragmentPayload(tag: PayloadTag, data: bytes, id: U128, index: U8, total: U8): Payload {
    Payload(tag, NoConnection(), data, id, index, total)
  }

  function SerializePayload(p: Payload): (s: bytes)
    ensures |s| == PAYLOAD_HEADER_BYTES + |p.data|
  {
    [TagToByte(p.tag)] + p.connectionId + BigEndian(p.fragmentId, 16)
    + BigEndian(p.fragmentIndex, 1) + BigEndian(p.fragmentTotal, 1) + p.data
  }

  function ParsePayload(s: bytes): Result<Payload, string> {
    if |s| < PAYLOAD_HEADER_BYTES then Failure("payload too short")
    else
      match TagFromByte(s[0])
      case None => Failure("unknown payload tag")
      case Some(tag) =>
        OneByte(s, 33);
        OneByte(s, 34);
        Success(Payload(tag, s[1..17], s[35..], FromBigEndian(s[17..33]), FromBigEndian(s[33..34]), FromBigEndian(s[34..35])))
  }

  lemma OneByte(s: bytes, i: nat)
    requires i < |s|
    ensures FromBigEndian(s[i..i + 1]) < 256
  {
    assert Pow256(1) == 256 * Pow256(0);
  }

  /** The fields of a payload sit at these offsets of its encoding. */
  lemma PayloadLayout(p: Payload)
    ensures var s := SerializePayload(p);
            && s[0] == TagToByte(p.tag)
            && s[1..17] == p.connectionId
            && s[17..33] == BigEndian(p.fragmentId, 16)
            && s[33..34] == BigEndian(p.fragmentIndex, 1)
            && s[34..35] == BigEndian(p.fragmentTotal, 1)
            && s[35..] == p.data
  {
  }

  lemma PayloadRoundTrip(p: Payload)
    ensures ParsePayload(SerializePayload(p)) == Success(p)
  {
    PayloadLayout(p);
    TagBytesMatch(TagToByte(p.tag), p.tag);
    assert Pow256(1) == 256 * Pow256(0);
    BigEndianRoundTrip(p.fragmentId, 16);
    BigEndianRoundTrip(p.fragmentIndex, 1);
    BigEndianRoundTrip(p.fragmentTotal, 1);
  }

  lemma SixParts(s: bytes)
    requires |s| >= 35
    ensures s[..1] + s[1..17] + s[17..33] + s[33..34] + s[34..35] + s[35..] == s
  {
  }

  lemma ParsedPayloadIsEncoding(s: bytes)
    ensures ParsePayload(s).Success? ==> SerializePayload(ParsePayload(s).value) == s
  {
    if ParsePayload(s).Success? {
      TagBytesMatch(s[0], TagFromByte(s[0]).value);
      FromBigEndianRoundTrip(s[17..33]);
      FromBigEndianRoundTrip(s[33..34]);
      FromBigEndianRoundTrip(s[34..35]);
      assert s[..1] == [s[0]];
      SixParts(s);
    }
  }

  // -------- packets --------

  datatype Header = Header(version: U64, flags: U32, id: U128)
  datatype Packet = Packet(header: Header, payload: Payload)

  function NewPacket(flags: U32, id: U128, payload: Payload): Packet {
    assert CURRENT_VERSION < 256 * Pow256(7);
    Packet(Header(CURRENT_VERSION, flags, id), payload)
  }

  lemma FourBytes()
    ensures Pow256(4) == 0x1_0000_0000
  {
    assert Pow256(2) == 0x1_0000 && Pow256(3) == 0x100_0000;
  }

  function SerializePacket(p: Packet): (s: bytes)
    ensures |s| == HEADER_BYTES + PAYLOAD_HEADER_BYTES + |p.payload.data|
  {
    BigEndian(p.header.version, 8) + BigEndian(p.header.flags, 4) + BigEndian(p.header.id, 16) + SerializePayload(p.payload)
  }

  function ParsePacket(s: bytes): Result<Packet, string> {
    FourBytes();
    var (version, afterVersion) :- TakeBytes(s, 8);
    var (flags, afterFlags) :- TakeBytes(afterVersion, 4);
    var (id, afterId) :- TakeBytes(afterFlags, 16);
    match ParsePayload(afterId)
    case Success(payload) => Success(Packet(Header(FromBigEndian(version), FromBigEndian(flags), FromBigEndian(id)), payload))
    case Failure(_) => Failure("Failed to parse payload")
  }

  /** The header fields come off the front of an encoding one after the other. */
  lemma HeaderComesOff(version: bytes, flags: bytes, id: bytes, payload: bytes)
    requires |version| == 8 && |flags| == 4 && |id| == 16
    ensures TakeBytes(version + flags + id + payload, 8) == Success((version, flags + id + payload))
    ensures TakeBytes(flags + id + payload, 4) == Success((flags, id + payload))
    ensures TakeBytes(id + payload, 16) == Success((id, payload))
  {
    assert version + flags + id + payload == version + (flags + id + payload);
    assert flags + id + payload == flags + (id + payload);
    TakeBytesAppend(version, flags + id + payload);
    TakeBytesAppend(flags, id + payload);
    TakeBytesAppend(id, payload);
  }

  /** Every packet survives the wire. */
  lemma PacketRoundTrip(p: Packet)
    ensures ParsePacket(SerializePacket(p)) == Success(p)
  {
    HeaderComesOff(BigEndian(p.header.version, 8), BigEndian(p.header.flags, 4), BigEndian(p.header.id, 16), SerializePayload(p.payload));
    BigEndianRoundTrip(p.header.version, 8);
    FourBytes();
    BigEndianRoundTrip(p.header.flags, 4);
    BigEndianRoundTrip(p.header.id, 16);
    PayloadRoundTrip(p.payload);
  }

  /** What the parser accepts is exactly the encoding of what it returns. */
  lemma ParsedPacketIsEncoding(s: bytes)
    ensures ParsePacket(s).Success? ==> SerializePacket(ParsePacket(s).value) == s
  {
    if ParsePacket(s).Success? {
      var version, flags, id, payload := s[..8], s[8..12], s[12..28], s[28..];
      assert s == version + flags + id + payload;
      HeaderComesOff(version, flags, id, payload);
      FromBigEndianRoundTrip(version);
      FromBigEndianRoundTrip(flags);
      FromBigEndianRoundTrip(id);
      ParsedPayloadIsEncoding(payload);
    }
  }
}
