/** src/dht/node.rs: the server side of the DHT, a store with expiry and answers from the routing table. */
module DhtNodes {
  import opened Wrappers
  import opened Bytes
  import opened NodeIds
  import opened Contacts
  import opened Routing
  import opened DhtProtocol
  import R = RoutingRuns
  import E = RoutingEffects
  import T = ClosestNodesTheorems

  type Store = map<Key, (bytes, nat)>

  /** The stored value of a key that has not expired. */
  function Lookup(store: Store, key: Key, now: nat): Option<bytes> {
    if key in store && store[key].1 > now then Some(store[key].0) else None
  }

  function WithoutId(s: seq<Contact>, id: NodeId): (r: seq<Contact>)
    ensures forall c :: c in r <==> c in s && c.id != id
    ensures |r| <= |s|
  {
    if s == [] then []
    else
      var init := WithoutId(s[..|s| - 1], id);
      if s[|s| - 1].id != id then init + [s[|s| - 1]] else init
  }

  /** The nodes offered to `requester`: the K closest the table finds, without the requester. */
  function Offered(t: Table, target: NodeId, requester: NodeId): seq<Contact>
    requires Shaped(t)
  {
    WithoutId(ClosestNodes(t, target, K), requester)
  }

  function TableAfter(t: Table, op: DhtOperation, sender: SocketAddr, now: nat): (r: Table)
    requires Shaped(t)
    ensures Shaped(r)
  {
    AddAll(AddNode(t, op.senderId, sender, now).0, NodesIn(op), now)
  }

  function StoreAfter(store: Store, op: DhtOperation, now: nat): Store {
    match op
    case Store(_, key, value, ttl) => store[key := (value, now + ttl * SECOND)]
    case _ => store
  }

  /** The answer to a request; the table is consulted before it learns the requester. */
  function Answer(id: NodeId, store: Store, t: Table, op: DhtOperation, now: nat): Option<DhtOperation>
    requires Shaped(t)
  {
    match op
    case Ping(_) => Some(Pong(id))
    case FindNode(from, target) => Some(Nodes(id, Offered(t, target, from)))
    case FindValue(from, key) => Some(Value(id, key, Lookup(store, key, now), Offered(t, key, from)))
    case Store(_, key, _, _) => Some(StoreAck(id, key))
    case _ => None
  }

  class DhtNode {
    const id: NodeId
    var store: Store

    constructor (id: NodeId)
      ensures this.id == id && store == map[]
    {
      this.id := id;
      store := map[];
    }

    method ProcessOp(op: DhtOperation, sender: SocketAddr, routing: RoutingTable, now: nat) returns (r: Option<(DhtOperation, SocketAddr)>)
      requires routing.Valid()
      modifies this`store, routing
      ensures routing.Valid() && routing.State() == TableAfter(old(routing.State()), op, sender, now)
      ensures store == StoreAfter(old(store), op, now)
      ensures match Answer(id, old(store), old(routing.State()), op, now)
              case Some(a) => r == Some((a, sender))
              case None => r == None
    {
      var from := op.senderId;
      match op
      case Ping(_) =>
        var _ := routing.Add(from, sender, now);
        return Some((Pong(id), sender));
      case FindNode(_, target) =>
        var closest := routing.Closest(target, K);
        var _ := routing.Add(from, sender, now);
        return Some((Nodes(id, WithoutId(closest, from)), sender));
      case FindValue(_, key) =>
        var found := if key in store && store[key].1 > now then Some(store[key].0) else None;
        var closest := routing.Closest(key, K);
        var _ := routing.Add(from, sender, now);
        return Some((Value(id, key, found, WithoutId(closest, from)), sender));
      case Store(_, key, value, ttl) =>
        var _ := routing.Add(from, sender, now);
        store := store[key := (value, now + ttl * SECOND)];
        return Some((StoreAck(id, key), sender));
      case Pong(_) =>
        var _ := routing.Add(from, sender, now);
        return None;
      case Nodes(_, nodes) =>
        var _ := routing.Add(from, sender, now);
        LearnAll(routing, nodes, now);
        return None;
      case StoreAck(_, _) =>
        var _ := routing.Add(from, sender, now);
        return None;
      case Value(_, _, _, nodes) =>
        var _ := routing.Add(from, sender, now);
        LearnAll(routing, nodes, now);
        return None;
    }

    static method LearnAll(routing: RoutingTable, nodes: seq<Contact>, now: nat)
      requires routing.Valid()
      modifies routing
      ensures routing.Valid() && routing.State() == AddAll(old(routing.State()), nodes, now)
    {
      for i := 0 to |nodes|
        invariant routing.Valid() && routing.State() == AddAll(old(routing.State()), nodes[..i], now)
      {
        assert nodes[..i + 1][..i] == nodes[..i];
        var _ := routing.Add(nodes[i].id, nodes[i].addr, now);
      }
      assert nodes[..|nodes|] == nodes;
    }
  }

  // -------- runs of the server --------

  /** One operation received at some time. */
  datatype Request = Request(op: DhtOperation, sender: SocketAddr, now: nat)

  datatype Server = Server(id: NodeId, store: Store, table: Table)

  function Serve(sv: Server, q: Request): (r: Server)
    requires Shaped(sv.table)
    ensures Shaped(r.table) && r.id == sv.id
  {
    Server(sv.id, StoreAfter(sv.store, q.op, q.now), TableAfter(sv.table, q.op, q.sender, q.now))
  }

  function ServeAll(sv: Server, qs: seq<Request>): (r: Server)
    requires Shaped(sv.table)
    ensures Shaped(r.table) && r.id == sv.id
  {
    if qs == [] then sv else Serve(ServeAll(sv, qs[..|qs| - 1]), qs[|qs| - 1])
  }

  predicate Stores(q: Request, key: Key) {
    q.op.Store? && q.op.key == key
  }

  lemma {:induction false} EntryStays(sv: Server, qs: seq<Request>, key: Key)
    requires Shaped(sv.table) && forall i :: 0 <= i < |qs| ==> !Stores(qs[i], key)
    ensures (key in ServeAll(sv, qs).store) == (key in sv.store)
    ensures key in sv.store ==> ServeAll(sv, qs).store[key] == sv.store[key]
  {
    if qs != [] {
      EntryStays(sv, qs[..|qs| - 1], key);
    }
  }

  /**
   * A stored value is found, by anyone and whatever else is served in between, exactly until its time to live
   * runs out or another store replaces it.
   */
  lemma StoredUntilExpiry(sv: Server, from: NodeId, key: Key, value: bytes, ttl: U32, sender: SocketAddr, stored: nat,
                          qs: seq<Request>, asker: NodeId, now: nat)
    requires Shaped(sv.table) && forall i :: 0 <= i < |qs| ==> !Stores(qs[i], key)
    ensures var sv1 := ServeAll(Serve(sv, Request(Store(from, key, value, ttl), sender, stored)), qs);
            var a := Answer(sv1.id, sv1.store, sv1.table, FindValue(asker, key), now);
            a.Some? && a.value.Value? && a.value.key == key
            && a.value.found == if now < stored + ttl * SECOND then Some(value) else None
  {
    EntryStays(Serve(sv, Request(Store(from, key, value, ttl), sender, stored)), qs, key);
  }

  lemma SortedAppend(target: NodeId, s: seq<Contact>, c: Contact)
    requires Sorted(target, s) && forall x :: x in s ==> Dist(target, x.id) <= Dist(target, c.id)
    ensures Sorted(target, s + [c])
  {
  }

  lemma LastIsFarthest(target: NodeId, s: seq<Contact>, x: Contact)
    requires s != [] && Sorted(target, s) && x in s
    ensures Dist(target, x.id) <= Dist(target, s[|s| - 1].id)
  {
    var k :| 0 <= k < |s| && s[k] == x;
  }

  lemma SortedFront(target: NodeId, s: seq<Contact>)
    requires s != [] && Sorted(target, s)
    ensures Sorted(target, s[..|s| - 1])
  {
  }

  lemma {:induction false} WithoutIdKeepsOrder(target: NodeId, s: seq<Contact>, id: NodeId)
    requires Sorted(target, s)
    ensures Sorted(target, WithoutId(s, id))
  {
    if s != [] {
      var init, last := s[..|s| - 1], s[|s| - 1];
      SortedFront(target, s);
      WithoutIdKeepsOrder(target, init, id);
      forall x | x in WithoutId(init, id) ensures Dist(target, x.id) <= Dist(target, last.id) {
        LastIsFarthest(target, s, x);
      }
      SortedAppend(target, WithoutId(init, id), last);
    }
  }

  /** What is offered for a target: of the K nodes the table finds nearest to it, all but the requester, nearest first. */
  lemma OfferedNodes(t: Table, target: NodeId, requester: NodeId, c: Contact)
    requires R.Inv(t)
    ensures Sorted(target, Offered(t, target, requester))
    ensures c in Offered(t, target, requester) <==> c in ClosestNodes(t, target, K) && c.id != requester
    ensures c in Offered(t, target, requester) ==> T.IsActive(t, c)
  {
    T.InvMeansWellPlaced(t);
    T.ResultShape(t, target, K);
    WithoutIdKeepsOrder(target, ClosestNodes(t, target, K), requester);
  }

  /**
   * Requests and only requests are answered, each by its own kind, under the server's id: a node lookup with the
   * nodes offered for its target, a value lookup with what the store has and the nodes offered for the key.
   */
  lemma AnswerShape(sv: Server, op: DhtOperation, now: nat)
    requires Shaped(sv.table)
    ensures Answer(sv.id, sv.store, sv.table, op, now) ==
              match op
              case Ping(_) => Some(Pong(sv.id))
              case Store(_, key, _, _) => Some(StoreAck(sv.id, key))
              case FindNode(from, target) => Some(Nodes(sv.id, Offered(sv.table, target, from)))
              case FindValue(from, key) =>
                Some(Value(sv.id, key, if key in sv.store && now < sv.store[key].1 then Some(sv.store[key].0) else None,
                           Offered(sv.table, key, from)))
              case _ => None
  {
  }

  /** No answer offers more than K nodes, or the requester. */
  lemma AnswerNodes(sv: Server, op: DhtOperation, now: nat)
    requires Shaped(sv.table)
    ensures var a := Answer(sv.id, sv.store, sv.table, op, now);
            a.Some? ==> |NodesIn(a.value)| <= K && forall c :: c in NodesIn(a.value) ==> c.id != op.senderId
  {
  }

  // -------- what the server learns --------

  /** The calls on the routing table one request amounts to: its sender, then the nodes it carries. */
  function LearnEvents(q: Request): seq<R.Event> {
    [R.Event(R.Add(q.op.senderId, q.sender), q.now)] + E.AddEvents(NodesIn(q.op), q.now)
  }

  function AllLearnEvents(qs: seq<Request>): seq<R.Event> {
    if qs == [] then [] else AllLearnEvents(qs[..|qs| - 1]) + LearnEvents(qs[|qs| - 1])
  }

  lemma ServeLearns(sv: Server, q: Request)
    requires Shaped(sv.table)
    ensures Serve(sv, q).table == R.Run(sv.table, LearnEvents(q))
  {
    var first := [R.Event(R.Add(q.op.senderId, q.sender), q.now)];
    E.RunAppend(sv.table, first, E.AddEvents(NodesIn(q.op), q.now));
    assert first[..0] == [];
    assert R.Run(sv.table, first) == AddNode(sv.table, q.op.senderId, q.sender, q.now).0;
    E.AddAllIsRun(AddNode(sv.table, q.op.senderId, q.sender, q.now).0, NodesIn(q.op), q.now);
  }

  /** Over any requests the table learns every sender under the address it wrote from, and every node carried, in order. */
  lemma {:induction false} ServerLearns(sv: Server, qs: seq<Request>)
    requires Shaped(sv.table)
    ensures ServeAll(sv, qs).table == R.Run(sv.table, AllLearnEvents(qs))
  {
    if qs != [] {
      var init := qs[..|qs| - 1];
      ServerLearns(sv, init);
      ServeLearns(ServeAll(sv, init), qs[|qs| - 1]);
      E.RunAppend(sv.table, AllLearnEvents(init), LearnEvents(qs[|qs| - 1]));
    }
  }

  lemma {:induction false} AddAllKeepsInv(t: Table, nodes: seq<Contact>, now: nat)
    requires R.Inv(t)
    ensures R.Inv(AddAll(t, nodes, now)) && AddAll(t, nodes, now).localId == t.localId
  {
    if nodes != [] {
      var init, last := AddAll(t, nodes[..|nodes| - 1], now), nodes[|nodes| - 1];
      AddAllKeepsInv(t, nodes[..|nodes| - 1], now);
      R.StepKeepsInv(init, R.Event(R.Add(last.id, last.addr), now));
    }
  }

  /** Serving any requests keeps the routing table's invariant. */
  lemma {:induction false} ServingKeepsTable(sv: Server, qs: seq<Request>)
    requires R.Inv(sv.table)
    ensures R.Inv(ServeAll(sv, qs).table)
  {
    if qs != [] {
      var q := qs[|qs| - 1];
      var before := ServeAll(sv, qs[..|qs| - 1]);
      ServingKeepsTable(sv, qs[..|qs| - 1]);
      R.StepKeepsInv(before.table, R.Event(R.Add(q.op.senderId, q.sender), q.now));
      AddAllKeepsInv(AddNode(before.table, q.op.senderId, q.sender, q.now).0, NodesIn(q.op), q.now);
    }
  }
}
