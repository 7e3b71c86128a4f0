/** Where each field sits in what goes over the wire, and the numbers that name kinds, tags and flags. */
module WireLayout {
  import opened Wrappers
  import opened Bytes
  import opened NodeIds
  import opened Contacts
  import opened Crypto
  import opened Ratchets
  import opened Packets
  import opened Sessions
  import opened Runtimes
  import D = DhtProtocol

  /** The first byte of an operation. */
  lemma OperationNumbers(op: D.DhtOperation)
    ensures D.Encode(op)[0] ==
              match op
              case Ping(_) => 1
              case Pong(_) => 2
              case FindNode(_, _) => 3
              case Nodes(_, _) => 4
              case Store(_, _, _, _) => 5
              case StoreAck(_, _) => 6
              case FindValue(_, _) => 7
              case Value(_, _, _, _) => 8
    ensures D.Encode(op)[1..33] == op.senderId
  {
  }

  /** What follows the sender, for the operations without a node list. */
  lemma OperationFields(op: D.DhtOperation)
    ensures op.FindNode? ==> D.Encode(op)[33..] == op.targetId
    ensures op.FindValue? || op.StoreAck? ==> D.Encode(op)[33..] == op.key
    ensures op.Ping? || op.Pong? ==> |D.Encode(op)| == 33
    ensures op.Nodes? ==> D.Encode(op)[33..] == D.WriteNodes(op.nodes)
  {
    AfterSender(op);
  }

  lemma AfterSender(op: D.DhtOperation)
    ensures |D.Encode(op)| >= 33 && D.Encode(op)[33..] == D.WriteBody(op)
  {
  }

  lemma StoreLayout(op: D.DhtOperation)
    requires op.Store?
    ensures var b := D.Encode(op)[33..];
            && |b| == 38 + |op.value|
            && b[..32] == op.key && b[32..36] == BigEndian(op.ttlSeconds, 4)
            && b[36..38] == BigEndian(|op.value| % 65536, 2) && b[38..] == op.value
  {
    AfterSender(op);
  }

  lemma ThreeParts(a: bytes, b: bytes, c: bytes)
    ensures var s := a + (b + c); s[..|a|] == a && s[|a|..] == b + c
  {
  }

  /** A value answer: the key, then whether there is a value, the value behind its length, and the nodes. */
  lemma ValueLayout(op: D.DhtOperation)
    requires op.Value?
    ensures var b := D.Encode(op)[33..];
            |b| >= 33 && b[..32] == op.key && b[32..] == D.WriteValue(op.found) + D.WriteNodes(op.closestNodes)
  {
    AfterSender(op);
    ThreeParts(op.key, D.WriteValue(op.found), D.WriteNodes(op.closestNodes));
  }

  lemma FoundLayout(v: bytes)
    ensures D.WriteValue(None) == [0]
    ensures var b := D.WriteValue(Some(v)); |b| == 3 + |v| && b[0] == 1 && b[1..3] == BigEndian(|v| % 65536, 2) && b[3..] == v
  {
  }

  /** A node list: the count, then each node's id and address. */
  lemma NodesLayout(nodes: seq<Contact>)
    ensures var b := D.WriteNodes(nodes); b[..2] == BigEndian(|nodes| % 65536, 2) && b[2..] == D.WriteContacts(nodes)
    ensures nodes != [] ==> D.WriteContacts(nodes)[..32] == nodes[0].id
  {
  }

  /** An address: its kind, the octets, the port, most significant byte first. */
  lemma AddressLayout(a: SocketAddr)
    ensures var b := D.WriteAddress(a);
            match a
            case V4(ip, port) => |b| == 7 && b[0] == 4 && b[1..5] == ip && b[5..] == BigEndian(port, 2)
            case V6(ip, port, _, _) => |b| == 19 && b[0] == 6 && b[1..17] == ip && b[17..] == BigEndian(port, 2)
  {
  }

  /** Most significant byte first. */
  lemma ByteOrder(n: nat)
    requires n < 65536
    ensures BigEndian(n, 2) == [(n / 256) as byte, (n % 256) as byte]
  {
    assert n / 256 % 256 == n / 256;
    assert BigEndian(n / 256, 1) == BigEndian(n / 256 / 256, 0) + [(n / 256 % 256) as byte];
  }

  lemma PayloadTagNumbers()
    ensures TagToByte(Handshake) == 1 && TagToByte(Message) == 2 && TagToByte(DhtQuery) == 3 && TagToByte(DhtResponse) == 4
    ensures TagToByte(RelayFrame) == 5 && TagToByte(FileChunk) == 6 && TagToByte(KeepAlive) == 7 && TagToByte(Dummy) == 8
    ensures TagToByte(DhtOperation) == 9
  {
  }

  /** Which bit each flag is. */
  lemma FlagNumbers(flags: U32)
    ensures HasFlag(flags, PacketFlag.AckRequired) <==> flags % 2 == 1
    ensures HasFlag(flags, PacketFlag.Ack) <==> flags / 2 % 2 == 1
    ensures HasFlag(flags, PacketFlag.Fragmented) <==> flags / 4 % 2 == 1
    ensures HasFlag(flags, PacketFlag.LastFragment) <==> flags / 8 % 2 == 1
    ensures NewPacket(flags, 0, PlainPayload(KeepAlive, [])).header.version == 1
  {
  }

  lemma PacketLayout(p: Packet)
    ensures var b := SerializePacket(p);
            && b[..8] == BigEndian(p.header.version, 8) && b[8..12] == BigEndian(p.header.flags, 4)
            && b[12..28] == BigEndian(p.header.id, 16) && b[28..] == SerializePayload(p.payload)
  {
    FourParts(BigEndian(p.header.version, 8), BigEndian(p.header.flags, 4), BigEndian(p.header.id, 16), SerializePayload(p.payload));
  }

  lemma FourParts(a: bytes, b: bytes, c: bytes, d: bytes)
    requires |a| == 8 && |b| == 4 && |c| == 16
    ensures var s := a + b + c + d; s[..8] == a && s[8..12] == b && s[12..28] == c && s[28..] == d
  {
  }

  /** A certificate: both device keys, then the signature, which is over exactly the bytes in front of it. */
  lemma CertificateLayout(s: Suite, identity: Key32, c: Certificate)
    ensures var b := WriteCertificate(c);
            && b[..32] == c.ed25519 && b[32..64] == c.x25519 && b[64..] == c.signature
            && (Verifies(s, identity, c) <==> s.verify(identity, b[..64], b[64..]))
  {
    var b := WriteCertificate(c);
    assert b[..64] == c.ed25519 + c.x25519 && b[64..] == c.signature;
  }

  lemma FrameLayout(e: Envelope)
    ensures var b := Frame(e);
            b[..12] == e.nonce && b[12..44] == e.dhPub && b[44..48] == BigEndian(e.number, 4) && b[48..] == e.ciphertext
  {
  }

  lemma BodyLayout(s: Suite, key: Key32, nonce: Nonce, message: bytes)
    ensures var b := MessageBody(s, key, nonce, message);
            |b| >= 44 && b[..32] == key && b[32..44] == nonce && b[44..] == s.seal(key, nonce, message)
  {
  }
}
