/** src/dht/protocol.rs: the DHT operations and their wire format. */
module DhtProtocol {
  import opened Wrappers
  import opened Bytes
  import opened NodeIds
  import opened Contacts

  const U16_LIMIT := 0x1_0000
  const U32_LIMIT := 0x1_0000_0000

  type Key = NodeId

  datatype DhtOperation =
    | Ping(senderId: NodeId)
    | Pong(senderId: NodeId)
    | FindNode(senderId: NodeId, targetId: NodeId)
    | Nodes(senderId: NodeId, nodes: seq<Contact>)
    | Store(senderId: NodeId, key: Key, value: bytes, ttlSeconds: U32)
    | StoreAck(senderId: NodeId, key: Key)
    | FindValue(senderId: NodeId, key: Key)
    | Value(senderId: NodeId, key: Key, found: Option<bytes>, closestNodes: seq<Contact>)

  /** The nodes a response brings. */
  function NodesIn(op: DhtOperation): seq<Contact> {
    match op
    case Nodes(_, nodes) => nodes
    case Value(_, _, _, nodes) => nodes
    case _ => []
  }

  // -------- writing --------

  /** `(n as u16).to_be_bytes()`: the length is cut to sixteen bits. */
  function WriteLength(n: nat): (s: bytes)
    ensures |s| == 2
  {
    BigEndian(n % U16_LIMIT, 2)
  }

  function WriteAddress(a: SocketAddr): bytes {
    match a
    case V4(ip, port) => [4] + (ip + BigEndian(port, 2))
    case V6(ip, port, _, _) => [6] + (ip + BigEndian(port, 2))
  }

  function WriteContacts(nodes: seq<Contact>): bytes {
    if nodes == [] then [] else nodes[0].id + (WriteAddress(nodes[0].addr) + WriteContacts(nodes[1..]))
  }

  function WriteNodes(nodes: seq<Contact>): bytes {
    WriteLength(|nodes|) + WriteContacts(nodes)
  }

  function WriteValue(found: Option<bytes>): bytes {
    match found
    case Some(v) => [1] + (WriteLength(|v|) + v)
    case None => [0]
  }

  function Tag(op: DhtOperation): byte {
    match op
    case Ping(_) => 1
    case Pong(_) => 2
    case FindNode(_, _) => 3
    case Nodes(_, _) => 4
    case Store(_, _, _, _) => 5
    case StoreAck(_, _) => 6
    case FindValue(_, _) => 7
    case Value(_, _, _, _) => 8
  }

  function WriteBody(op: DhtOperation): bytes {
    match op
    case Ping(_) => []
    case Pong(_) => []
    case FindNode(_, target) => target
    case Nodes(_, nodes) => WriteNodes(nodes)
    case Store(_, key, value, ttl) => key + (BigEndian(ttl, 4) + (WriteLength(|value|) + value))
    case StoreAck(_, key) => key
    case FindValue(_, key) => key
    case Value(_, key, found, nodes) => key + (WriteValue(found) + WriteNodes(nodes))
  }

  /** The encoding `serialize` produces. */
  function Encode(op: DhtOperation): bytes {
    [Tag(op)] + (op.senderId + WriteBody(op))
  }

  // -------- reading --------

  /** A value and the bytes after it; or an error result; or a panic on an empty vector. */
  datatype Parse<+T> = Parsed(value: T, rest: bytes) | Rejected | Panicked {
    predicate IsFailure() {
      !Parsed?
    }

    function PropagateFailure<U>(): Parse<U>
      requires IsFailure()
    {
      if Rejected? then Rejected else Panicked
    }

    function Extract(): (T, bytes)
      requires Parsed?
    {
      (value, rest)
    }
  }

  function Read(s: bytes, n: nat): (p: Parse<bytes>)
    ensures p.Parsed? ==> |p.value| == n
  {
    match TakeBytes(s, n)
    case Success((a, rest)) => Parsed(a, rest)
    case Failure(_) => Rejected
  }

  function ReadId(s: bytes): (p: Parse<NodeId>) {
    match Read(s, ID_BYTES)
    case Parsed(id, rest) => Parsed(id, rest)
    case _ => Rejected
  }

  function ReadNumber(s: bytes, n: nat): (p: Parse<nat>)
    ensures p.Parsed? ==> p.value < Pow256(n)
  {
    match Read(s, n)
    case Parsed(a, rest) => Parsed(FromBigEndian(a), rest)
    case _ => Rejected
  }

  function ReadAddress(s: bytes): Parse<SocketAddr> {
    if s == [] then Rejected
    else if s[0] == 4 then
      var (body, rest) :- Read(s[1..], 6);
      Widths();
      Parsed(V4(body[..4], FromBigEndian(body[4..])), rest)
    else if s[0] == 6 then
      var (body, rest) :- Read(s[1..], 18);
      Widths();
      Parsed(V6(body[..16], FromBigEndian(body[16..]), 0, 0), rest)
    else Rejected
  }

  function ReadContact(s: bytes): Parse<Contact> {
    var (id, afterId) :- ReadId(s);
    var (addr, rest) :- ReadAddress(afterId);
    Parsed(Contact(id, addr), rest)
  }

  function ReadContacts(s: bytes, count: nat): (p: Parse<seq<Contact>>)
    ensures p.Parsed? ==> |p.value| == count
  {
    if count == 0 then Parsed([], s)
    else
      var (c, afterContact) :- ReadContact(s);
      var (more, rest) :- ReadContacts(afterContact, count - 1);
      Parsed([c] + more, rest)
  }

  function ReadNodes(s: bytes): Parse<seq<Contact>> {
    var (count, rest) :- ReadNumber(s, 2);
    ReadContacts(rest, count)
  }

  function ReadSized(s: bytes): Parse<bytes> {
    var (len, rest) :- ReadNumber(s, 2);
    Read(rest, len)
  }

  function ReadStore(sender: NodeId, s: bytes): Parse<DhtOperation> {
    var (key, afterKey) :- ReadId(s);
    var (ttl, afterTtl) :- ReadNumber(afterKey, 4);
    Widths();
    // The two length bytes are removed without a check.
    if |afterTtl| < 2 then Panicked
    else
      var (value, rest) :- ReadSized(afterTtl);
      Parsed(Store(sender, key, value, ttl), rest)
  }

  function ReadFound(s: bytes): Parse<Option<bytes>> {
    if s == [] then Rejected
    else if s[0] == 1 then
      var (v, rest) :- ReadSized(s[1..]);
      Parsed(Some(v), rest)
    else Parsed(None, s[1..])
  }

  function ReadValue(sender: NodeId, s: bytes): Parse<DhtOperation> {
    var (key, afterKey) :- ReadId(s);
    var (found, afterFound) :- ReadFound(afterKey);
    var (nodes, rest) :- ReadNodes(afterFound);
    Parsed(Value(sender, key, found, nodes), rest)
  }

  function ReadBody(tag: byte, sender: NodeId, s: bytes): Parse<DhtOperation> {
    if tag == 1 then Parsed(Ping(sender), s)
    else if tag == 2 then Parsed(Pong(sender), s)
    else if tag == 3 then
      var (target, rest) :- ReadId(s);
      Parsed(FindNode(sender, target), rest)
    else if tag == 4 then
      var (nodes, rest) :- ReadNodes(s);
      Parsed(Nodes(sender, nodes), rest)
    else if tag == 5 then ReadStore(sender, s)
    else if tag == 6 then
      var (key, rest) :- ReadId(s);
      Parsed(StoreAck(sender, key), rest)
    else if tag == 7 then
      var (key, rest) :- ReadId(s);
      Parsed(FindValue(sender, key), rest)
    else if tag == 8 then ReadValue(sender, s)
    else Rejected
  }

  /** What `from_serialized` makes of a byte string, and what it leaves unread. */
  function Decode(s: bytes): Parse<DhtOperation> {
    if s == [] || !(1 <= s[0] <= 8) then Rejected
    else
      var (sender, rest) :- ReadId(s[1..]);
      ReadBody(s[0], sender, rest)
  }

  lemma Widths()
    ensures Pow256(2) == U16_LIMIT && Pow256(4) == U32_LIMIT
  {
    assert Pow256(1) == 256;
    assert Pow256(3) == 256 * Pow256(2);
  }

  // -------- reading back what was written --------

  ghost predicate WireAddress(a: SocketAddr) {
    a.V6? ==> a.flow == 0 && a.scope == 0
  }

  ghost predicate WireNodes(nodes: seq<Contact>) {
    |nodes| < U16_LIMIT && AllWire(nodes)
  }

  ghost predicate AllWire(nodes: seq<Contact>) {
    forall i :: 0 <= i < |nodes| ==> WireAddress(nodes[i].addr)
  }

  /** The wire format can carry op: sixteen-bit lengths, and no IPv6 flow label or scope. */
  ghost predicate Encodable(op: DhtOperation) {
    match op
    case Nodes(_, nodes) => WireNodes(nodes)
    case Store(_, _, value, _) => |value| < U16_LIMIT
    case Value(_, _, found, nodes) => (found.Some? ==> |found.value| < U16_LIMIT) && WireNodes(nodes)
    case _ => true
  }

  lemma ReadBack(front: bytes, rest: bytes)
    ensures Read(front + rest, |front|) == Parsed(front, rest)
  {
    TakeBytesAppend(front, rest);
  }

  lemma ReadIdBack(id: NodeId, rest: bytes)
    ensures ReadId(id + rest) == Parsed(id, rest)
  {
    ReadBack(id, rest);
  }

  lemma ReadNumberBack(n: nat, len: nat, rest: bytes)
    requires n < Pow256(len)
    ensures ReadNumber(BigEndian(n, len) + rest, len) == Parsed(n, rest)
  {
    ReadBack(BigEndian(n, len), rest);
    BigEndianRoundTrip(n, len);
  }

  /** Address bytes and a port, written one after the other, come apart again. */
  lemma ReadHostBack(ip: bytes, port: Port, rest: bytes)
    ensures var body := ip + BigEndian(port, 2);
            && Read(body + rest, |ip| + 2) == Parsed(body, rest)
            && body[..|ip|] == ip && FromBigEndian(body[|ip|..]) == port
  {
    Widths();
    var body := ip + BigEndian(port, 2);
    ReadBack(body, rest);
    BigEndianRoundTrip(port, 2);
    assert body[..|ip|] == ip && body[|ip|..] == BigEndian(port, 2);
  }

  lemma HeadAndTail(b: byte, body: bytes, rest: bytes)
    ensures var s := [b] + body + rest; s != [] && s[0] == b && s[1..] == body + rest
  {
  }

  lemma ReadAddress4Back(ip: Ip4, port: Port, rest: bytes)
    ensures ReadAddress([4] + (ip + BigEndian(port, 2)) + rest) == Parsed(V4(ip, port), rest)
  {
    HeadAndTail(4, ip + BigEndian(port, 2), rest);
    ReadHostBack(ip, port, rest);
  }

  lemma ReadAddress6Back(ip: Ip6, port: Port, rest: bytes)
    ensures ReadAddress([6] + (ip + BigEndian(port, 2)) + rest) == Parsed(V6(ip, port, 0, 0), rest)
  {
    HeadAndTail(6, ip + BigEndian(port, 2), rest);
    ReadHostBack(ip, port, rest);
  }

  lemma ReadAddressBack(a: SocketAddr, rest: bytes)
    requires WireAddress(a)
    ensures ReadAddress(WriteAddress(a) + rest) == Parsed(a, rest)
  {
    match a
    case V4(ip, port) => ReadAddress4Back(ip, port, rest);
    case V6(ip, port, _, _) => ReadAddress6Back(ip, port, rest);
  }

  lemma {:induction false} ReadContactsBack(nodes: seq<Contact>, rest: bytes)
    requires AllWire(nodes)
    ensures ReadContacts(WriteContacts(nodes) + rest, |nodes|) == Parsed(nodes, rest)
  {
    if nodes == [] {
      assert WriteContacts(nodes) + rest == rest;
    } else {
      var c, more := nodes[0], WriteContacts(nodes[1..]);
      assert WriteContacts(nodes) + rest == c.id + (WriteAddress(c.addr) + (more + rest));
      ReadIdBack(c.id, WriteAddress(c.addr) + (more + rest));
      ReadAddressBack(c.addr, more + rest);
      ReadContactsBack(nodes[1..], rest);
      assert nodes == [Contact(c.id, c.addr)] + nodes[1..];
    }
  }

  lemma ReadNodesBack(nodes: seq<Contact>, rest: bytes)
    requires WireNodes(nodes)
    ensures ReadNodes(WriteNodes(nodes) + rest) == Parsed(nodes, rest)
  {
    Widths();
    AppendThree(WriteLength(|nodes|), WriteContacts(nodes), rest);
    ReadLengthBack(|nodes|, WriteContacts(nodes) + rest);
    ReadContactsBack(nodes, rest);
  }

  lemma ReadLengthBack(n: nat, rest: bytes)
    requires n < U16_LIMIT
    ensures ReadNumber(WriteLength(n) + rest, 2) == Parsed(n, rest)
  {
    Widths();
    ReadNumberBack(n, 2, rest);
  }

  lemma ReadSizedBack(v: bytes, rest: bytes)
    requires |v| < U16_LIMIT
    ensures ReadSized(WriteLength(|v|) + (v + rest)) == Parsed(v, rest)
  {
    ReadLengthBack(|v|, v + rest);
    ReadBack(v, rest);
  }

  lemma ReadStoreBack(op: DhtOperation, rest: bytes)
    requires op.Store? && Encodable(op)
    ensures ReadStore(op.senderId, WriteBody(op) + rest) == Parsed(op, rest)
  {
    Widths();
    var tail := WriteLength(|op.value|) + (op.value + rest);
    assert WriteBody(op) + rest == op.key + (BigEndian(op.ttlSeconds, 4) + tail);
    ReadIdBack(op.key, BigEndian(op.ttlSeconds, 4) + tail);
    ReadNumberBack(op.ttlSeconds, 4, tail);
    ReadSizedBack(op.value, rest);
  }

  lemma ReadFoundBack(found: Option<bytes>, rest: bytes)
    requires found.Some? ==> |found.value| < U16_LIMIT
    ensures ReadFound(WriteValue(found) + rest) == Parsed(found, rest)
  {
    match found
    case None =>
    case Some(v) =>
      assert (WriteValue(found) + rest)[1..] == WriteLength(|v|) + (v + rest);
      ReadSizedBack(v, rest);
  }

  lemma ReadValueBack(op: DhtOperation, rest: bytes)
    requires op.Value? && Encodable(op)
    ensures ReadValue(op.senderId, WriteBody(op) + rest) == Parsed(op, rest)
  {
    var nodes := WriteNodes(op.closestNodes);
    assert WriteBody(op) + rest == op.key + (WriteValue(op.found) + (nodes + rest));
    ReadIdBack(op.key, WriteValue(op.found) + (nodes + rest));
    ReadFoundBack(op.found, nodes + rest);
    ReadNodesBack(op.closestNodes, rest);
  }

  lemma ReadShortBodyBack(op: DhtOperation, rest: bytes)
    requires !op.Nodes? && !op.Store? && !op.Value?
    ensures ReadBody(Tag(op), op.senderId, WriteBody(op) + rest) == Parsed(op, rest)
  {
    match op
    case Ping(_) => assert [] + rest == rest;
    case Pong(_) => assert [] + rest == rest;
    case FindNode(_, target) => ReadIdBack(target, rest);
    case StoreAck(_, key) => ReadIdBack(key, rest);
    case FindValue(_, key) => ReadIdBack(key, rest);
  }

  lemma ReadLongBodyBack(op: DhtOperation, rest: bytes)
    requires Encodable(op)
    ensures op.Nodes? ==> ReadBody(4, op.senderId, WriteBody(op) + rest) == Parsed(op, rest)
    ensures op.Store? ==> ReadBody(5, op.senderId, WriteBody(op) + rest) == Parsed(op, rest)
    ensures op.Value? ==> ReadBody(8, op.senderId, WriteBody(op) + rest) == Parsed(op, rest)
  {
    if op.Nodes? {
      ReadNodesBack(op.nodes, rest);
    } else if op.Store? {
      ReadStoreBack(op, rest);
    } else if op.Value? {
      ReadValueBack(op, rest);
    }
  }

  lemma ReadBodyBack(op: DhtOperation, rest: bytes)
    requires Encodable(op)
    ensures ReadBody(Tag(op), op.senderId, WriteBody(op) + rest) == Parsed(op, rest)
  {
    if op.Nodes? || op.Store? || op.Value? {
      ReadLongBodyBack(op, rest);
    } else {
      ReadShortBodyBack(op, rest);
    }
  }

  /** An encoding and what follows it, from the second byte on. */
  lemma AfterTag(op: DhtOperation, rest: bytes)
    ensures var s := Encode(op) + rest;
            s != [] && s[0] == Tag(op) && s[1..] == op.senderId + (WriteBody(op) + rest)
  {
    AppendThree([Tag(op)], op.senderId + WriteBody(op), rest);
    AppendThree(op.senderId, WriteBody(op), rest);
  }

  lemma DecodeEncode(op: DhtOperation, rest: bytes)
    requires Encodable(op)
    ensures Decode(Encode(op) + rest) == Parsed(op, rest)
  {
    AfterTag(op, rest);
    ReadIdBack(op.senderId, WriteBody(op) + rest);
    ReadBodyBack(op, rest);
  }

  // -------- what can come out of the parser --------

  lemma {:induction false} ContactsReadAreWire(s: bytes, count: nat)
    ensures ReadContacts(s, count).Parsed? ==> AllWire(ReadContacts(s, count).value)
  {
    if count > 0 {
      match ReadContact(s)
      case Parsed(c, rest) =>
        ContactsReadAreWire(rest, count - 1);
        ContactReadIsWire(s);
        ReadContactsUnfold(s, count);
        if ReadContacts(rest, count - 1).Parsed? {
          OneMoreWire(c, ReadContacts(rest, count - 1).value);
        }
      case _ =>
    }
  }

  lemma OneMoreWire(c: Contact, more: seq<Contact>)
    requires WireAddress(c.addr) && AllWire(more)
    ensures AllWire([c] + more)
  {
  }

  lemma ReadContactsUnfold(s: bytes, count: nat)
    requires count > 0 && ReadContact(s).Parsed?
    ensures var c, rest := ReadContact(s).value, ReadContact(s).rest;
            match ReadContacts(rest, count - 1)
            case Parsed(more, after) => ReadContacts(s, count) == Parsed([c] + more, after)
            case _ => !ReadContacts(s, count).Parsed?
  {
  }

  lemma ContactReadIsWire(s: bytes)
    ensures ReadContact(s).Parsed? ==> WireAddress(ReadContact(s).value.addr)
  {
  }

  lemma NodesReadAreWire(s: bytes)
    ensures ReadNodes(s).Parsed? ==> WireNodes(ReadNodes(s).value)
  {
    Widths();
    match ReadNumber(s, 2)
    case Parsed(count, rest) => ContactsReadAreWire(rest, count);
    case _ =>
  }

  lemma SizedReadIsShort(s: bytes)
    ensures ReadSized(s).Parsed? ==> |ReadSized(s).value| < U16_LIMIT
  {
    Widths();
  }

  lemma DecodedIsEncodable(s: bytes)
    ensures Decode(s).Parsed? ==> Encodable(Decode(s).value)
  {
    if s != [] && 1 <= s[0] <= 8 {
      match ReadId(s[1..])
      case Parsed(sender, rest) => BodyIsEncodable(s[0], sender, rest);
      case _ =>
    }
  }

  lemma BodyIsEncodable(tag: byte, sender: NodeId, s: bytes)
    ensures var p := ReadBody(tag, sender, s); p.Parsed? ==> Encodable(p.value)
  {
    NodesReadAreWire(s);
    match ReadId(s)
    case Parsed(_, afterKey) =>
      match ReadNumber(afterKey, 4) {
        case Parsed(_, afterTtl) => SizedReadIsShort(afterTtl);
        case _ =>
      }
      match ReadFound(afterKey) {
        case Parsed(_, afterFound) =>
          SizedReadIsShort(afterKey[1..]);
          NodesReadAreWire(afterFound);
        case _ =>
      }
    case _ =>
  }

  /**
   * Parsing an encoding, whatever bytes follow it, gives the operation back if and only if its lengths fit
   * sixteen bits and its IPv6 addresses carry no flow label or scope.
   */
  lemma RoundTripIff(op: DhtOperation, rest: bytes)
    ensures Decode(Encode(op) + rest) == Parsed(op, rest) <==> Encodable(op)
  {
    if Encodable(op) {
      DecodeEncode(op, rest);
    }
    DecodedIsEncodable(Encode(op) + rest);
  }

  /** No encoding is a proper prefix of another operation's encoding. */
  lemma PrefixFree(a: DhtOperation, b: DhtOperation)
    requires Encodable(a) && Encodable(b) && Encode(a) <= Encode(b)
    ensures a == b
  {
    var rest := Encode(b)[|Encode(a)|..];
    assert Encode(b) == Encode(a) + rest && Encode(b) == Encode(b) + [];
    DecodeEncode(a, rest);
    DecodeEncode(b, []);
  }

  /** The parser panics exactly on a store operation cut inside its two length bytes; never on an encoding. */
  lemma PanicsIff(s: bytes)
    ensures Decode(s) == Panicked <==> |s| > 0 && s[0] == 5 && 69 <= |s| < 71
  {
    if s != [] && 1 <= s[0] <= 8 {
      match ReadId(s[1..])
      case Parsed(sender, rest) =>
        BodyPanicsIff(s[0], sender, rest);
      case _ =>
    }
  }

  lemma BodyPanicsIff(tag: byte, sender: NodeId, s: bytes)
    ensures ReadBody(tag, sender, s) == Panicked <==> tag == 5 && 36 <= |s| < 38
  {
    if tag == 4 {
      NeverPanic(s);
    } else if tag == 5 {
      StorePanicsIff(sender, s);
    } else if tag == 8 {
      ValueNeverPanics(sender, s);
    }
  }

  lemma StorePanicsIff(sender: NodeId, s: bytes)
    ensures ReadStore(sender, s) == Panicked <==> 36 <= |s| < 38
  {
    match ReadId(s)
    case Parsed(_, afterKey) =>
      match ReadNumber(afterKey, 4) {
        case Parsed(_, afterTtl) => NeverPanic(afterTtl);
        case _ =>
      }
    case _ =>
  }

  lemma ValueNeverPanics(sender: NodeId, s: bytes)
    ensures ReadValue(sender, s) != Panicked
  {
    match ReadId(s)
    case Parsed(_, afterKey) =>
      NeverPanic(afterKey);
      match ReadFound(afterKey) {
        case Parsed(_, afterFound) => NeverPanic(afterFound);
        case _ =>
      }
    case _ =>
  }

  lemma NeverPanic(s: bytes)
    ensures ReadNodes(s) != Panicked && ReadSized(s) != Panicked && ReadFound(s) != Panicked
  {
    match ReadNumber(s, 2)
    case Parsed(count, rest) => ContactsNeverPanic(rest, count);
    case _ =>
  }

  lemma ContactsNeverPanic(s: bytes, count: nat)
    ensures ReadContacts(s, count) != Panicked
  {
    if count > 0 {
      match ReadContact(s)
      case Parsed(_, rest) => ContactsNeverPanic(rest, count - 1);
      case _ =>
    }
  }

  // -------- the readers and writers themselves --------

  /** The vector the readers drain from the front. */
  class Cursor {
    var data: bytes

    constructor (data: bytes)
      ensures this.data == data
    {
      this.data := data;
    }

    method Take(n: nat) returns (r: Option<bytes>)
      modifies this
      ensures match Read(old(data), n)
              case Parsed(a, rest) => r == Some(a) && data == rest
              case _ => r == None && data == old(data)
    {
      if |data| < n {
        return None;
      }
      r := Some(data[..n]);
      data := data[n..];
    }

    /** `remove(0)`, which the caller must not use on an empty vector. */
    method RemoveFirst() returns (b: byte)
      requires data != []
      modifies this
      ensures b == old(data)[0] && data == old(data)[1..]
    {
      b := data[0];
      data := data[1..];
    }

    method TakeAddress() returns (r: Option<SocketAddr>)
      modifies this
      ensures match ReadAddress(old(data))
              case Parsed(a, rest) => r == Some(a) && data == rest
              case _ => r == None
    {
      Widths();
      if data == [] {
        return None;
      }
      var kind := RemoveFirst();
      if kind == 4 {
        var body := Take(6);
        if body.None? {
          return None;
        }
        return Some(V4(body.value[..4], FromBigEndian(body.value[4..])));
      } else if kind == 6 {
        var body := Take(18);
        if body.None? {
          return None;
        }
        return Some(V6(body.value[..16], FromBigEndian(body.value[16..]), 0, 0));
      }
      return None;
    }

    method TakeLength() returns (r: Option<nat>)
      modifies this
      ensures match ReadNumber(old(data), 2)
              case Parsed(n, rest) => r == Some(n) && data == rest
              case _ => r == None
    {
      if |data| < 2 {
        return None;
      }
      var high := RemoveFirst();
      var low := RemoveFirst();
      assert [high, low] == old(data)[..2];
      return Some(FromBigEndian([high, low]));
    }

    method TakeNodes() returns (r: Option<seq<Contact>>)
      modifies this
      ensures match ReadNodes(old(data))
              case Parsed(nodes, rest) => r == Some(nodes) && data == rest
              case _ => r == None
    {
      var count := TakeLength();
      if count.None? {
        return None;
      }
      r := TakeContacts(count.value);
    }

    method TakeSized() returns (r: Option<bytes>)
      modifies this
      ensures match ReadSized(old(data))
              case Parsed(v, rest) => r == Some(v) && data == rest
              case _ => r == None
    {
      var len := TakeLength();
      if len.None? {
        return None;
      }
      r := Take(len.value);
    }

    method TakeStore(sender: NodeId) returns (r: Option<DhtOperation>)
      requires ReadStore(sender, data) != Panicked
      modifies this
      ensures match ReadStore(sender, old(data))
              case Parsed(op, _) => r == Some(op)
              case _ => r == None
    {
      var key := Take(ID_BYTES);
      if key.None? {
        return None;
      }
      var ttl := Take(4);
      if ttl.None? {
        return None;
      }
      Widths();
      var value := TakeSized();
      if value.None? {
        return None;
      }
      return Some(Store(sender, key.value, value.value, FromBigEndian(ttl.value)));
    }

    method TakeFound() returns (r: Option<Option<bytes>>)
      modifies this
      ensures match ReadFound(old(data))
              case Parsed(v, rest) => r == Some(v) && data == rest
              case _ => r == None
    {
      if data == [] {
        return None;
      }
      var hasValue := RemoveFirst();
      if hasValue == 1 {
        var v := TakeSized();
        if v.None? {
          return None;
        }
        return Some(Some(v.value));
      }
      return Some(None);
    }

    method TakeValue(sender: NodeId) returns (r: Option<DhtOperation>)
      modifies this
      ensures match ReadValue(sender, old(data))
              case Parsed(op, _) => r == Some(op)
              case _ => r == None
    {
      var key := Take(ID_BYTES);
      if key.None? {
        return None;
      }
      var found := TakeFound();
      if found.None? {
        return None;
      }
      var nodes := TakeNodes();
      if nodes.None? {
        return None;
      }
      return Some(Value(sender, key.value, found.value, nodes.value));
    }

    method TakeBody(tag: byte, sender: NodeId) returns (r: Option<DhtOperation>)
      requires ReadBody(tag, sender, data) != Panicked
      modifies this
      ensures match ReadBody(tag, sender, old(data))
              case Parsed(op, _) => r == Some(op)
              case _ => r == None
    {
      if tag == 1 {
        return Some(Ping(sender));
      } else if tag == 2 {
        return Some(Pong(sender));
      } else if tag == 4 {
        var nodes := TakeNodes();
        return if nodes.Some? then Some(Nodes(sender, nodes.value)) else None;
      } else if tag == 5 {
        r := TakeStore(sender);
        return;
      } else if tag == 8 {
        r := TakeValue(sender);
        return;
      } else if tag == 3 || tag == 6 || tag == 7 {
        var id := Take(ID_BYTES);
        if id.None? {
          return None;
        }
        return Some(if tag == 3 then FindNode(sender, id.value)
                    else if tag == 6 then StoreAck(sender, id.value) else FindValue(sender, id.value));
      }
      return None;
    }

    /** The node loop. */
    method TakeContacts(count: nat) returns (r: Option<seq<Contact>>)
      modifies this
      ensures match ReadContacts(old(data), count)
              case Parsed(nodes, rest) => r == Some(nodes) && data == rest
              case _ => r == None
    {
      ghost var all := ReadContacts(data, count);
      var nodes := [];
      PrependNothing(all);
      for i := 0 to count
        invariant all == Prepend(nodes, ReadContacts(data, count - i))
      {
        ReadContactsStep(nodes, data, count - i);
        var c := TakeContact();
        if c.None? {
          return None;
        }
        nodes := nodes + [c.value];
      }
      assert nodes + [] == nodes;
      return Some(nodes);
    }

    /** The body of the node loop: an id, then an address. */
    method TakeContact() returns (r: Option<Contact>)
      modifies this
      ensures match ReadContact(old(data))
              case Parsed(c, rest) => r == Some(c) && data == rest
              case _ => r == None
    {
      var id := Take(ID_BYTES);
      if id.None? {
        return None;
      }
      var addr := TakeAddress();
      if addr.None? {
        return None;
      }
      return Some(Contact(id.value, addr.value));
    }
  }

  /** A list already read, put in front of what the rest of the parse yields. */
  ghost function Prepend(done: seq<Contact>, p: Parse<seq<Contact>>): Parse<seq<Contact>> {
    match p
    case Parsed(more, rest) => Parsed(done + more, rest)
    case _ => p
  }

  lemma PrependNothing(p: Parse<seq<Contact>>)
    ensures Prepend([], p) == p
  {
    if p.Parsed? {
      assert [] + p.value == p.value;
    }
  }

  lemma ReadContactsStep(done: seq<Contact>, s: bytes, count: nat)
    requires count > 0
    ensures match ReadContact(s)
            case Parsed(c, rest) => Prepend(done, ReadContacts(s, count)) == Prepend(done + [c], ReadContacts(rest, count - 1))
            case _ => !Prepend(done, ReadContacts(s, count)).Parsed?
  {
    match ReadContact(s)
    case Parsed(c, rest) =>
      match ReadContacts(rest, count - 1) {
        case Parsed(more, _) => assert done + ([c] + more) == done + [c] + more;
        case _ =>
      }
    case _ =>
  }

  lemma {:induction false} WriteContactsAppend(a: seq<Contact>, c: Contact)
    ensures WriteContacts(a + [c]) == WriteContacts(a) + (c.id + WriteAddress(c.addr))
  {
    if a == [] {
      assert a + [c] == [c];
    } else {
      assert (a + [c])[1..] == a[1..] + [c];
      WriteContactsAppend(a[1..], c);
    }
  }

  method SerializeNodes(nodes: seq<Contact>) returns (buf: bytes)
    ensures buf == WriteNodes(nodes)
  {
    buf := WriteLength(|nodes|);
    for i := 0 to |nodes|
      invariant buf == WriteNodesPrefix(nodes, i)
    {
      WriteNodesStep(nodes, i);
      buf := buf + nodes[i].id;
      buf := buf + WriteAddress(nodes[i].addr);
    }
    assert nodes[..|nodes|] == nodes;
  }

  /** The buffer once i nodes are written. */
  ghost function WriteNodesPrefix(nodes: seq<Contact>, i: nat): bytes
    requires i <= |nodes|
  {
    WriteLength(|nodes|) + WriteContacts(nodes[..i])
  }

  lemma WriteNodesStep(nodes: seq<Contact>, i: nat)
    requires i < |nodes|
    ensures WriteNodesPrefix(nodes, i + 1) == WriteNodesPrefix(nodes, i) + nodes[i].id + WriteAddress(nodes[i].addr)
  {
    var id, addr := nodes[i].id, WriteAddress(nodes[i].addr);
    WriteContactsAppend(nodes[..i], nodes[i]);
    assert nodes[..i + 1] == nodes[..i] + [nodes[i]];
    AppendThree(WriteLength(|nodes|), WriteContacts(nodes[..i]), id + addr);
    AppendThree(WriteNodesPrefix(nodes, i), id, addr);
  }

  lemma AppendFour(a: bytes, b: bytes, c: bytes, d: bytes)
    ensures a + b + c + d == a + (b + (c + d))
  {
  }

  method Serialize(op: DhtOperation) returns (buf: bytes)
    ensures buf == Encode(op)
  {
    buf := [Tag(op)];
    buf := buf + op.senderId;
    var body := SerializeBody(op);
    AppendThree([Tag(op)], op.senderId, body);
    buf := buf + body;
  }

  /** What follows the tag and the sender. */
  method SerializeBody(op: DhtOperation) returns (body: bytes)
    ensures body == WriteBody(op)
  {
    match op
    case Ping(_) => return [];
    case Pong(_) => return [];
    case FindNode(_, target) => return target;
    case Nodes(_, nodes) => body := SerializeNodes(nodes);
    case Store(_, key, value, ttl) =>
      AppendFour(key, BigEndian(ttl, 4), WriteLength(|value|), value);
      return key + BigEndian(ttl, 4) + WriteLength(|value|) + value;
    case StoreAck(_, key) => return key;
    case FindValue(_, key) => return key;
    case Value(_, key, found, nodes) =>
      var list := SerializeNodes(nodes);
      AppendThree(key, WriteValue(found), list);
      return key + WriteValue(found) + list;
  }

  /** `from_serialized`; the caller's bytes must not be a store operation cut inside its length field. */
  method Deserialize(s: bytes) returns (r: Option<DhtOperation>)
    requires Decode(s) != Panicked
    ensures match Decode(s)
            case Parsed(op, _) => r == Some(op)
            case _ => r == None
  {
    if s == [] {
      return None;
    }
    var cursor := new Cursor(s);
    var tag := cursor.RemoveFirst();
    if !(1 <= tag <= 8) {
      return None;
    }
    var sender := cursor.Take(ID_BYTES);
    if sender.None? {
      return None;
    }
    r := cursor.TakeBody(tag, sender.value);
  }
}
