/** src/dht/client.rs: the iterative lookup, and the query loop of src/runtime.rs that drives it. */
module DhtClients {
  import opened Wrappers
  import opened Bytes
  import opened NodeIds
  import opened Contacts
  import opened Routing
  import opened DhtProtocol

  /** The value of a pending lookup. */
  datatype Lookup = Lookup(
    target: NodeId,
    findValueKey: Option<Key>,
    shortlist: seq<Contact>,
    queried: set<NodeId>,
    foundValue: Option<bytes>)

  /** The first of the closest contacts not queried yet (`filter` then `min_by_key`). */
  function ClosestUnqueried(t: NodeId, s: seq<Contact>, queried: set<NodeId>): (r: Option<Contact>)
    ensures r.None? <==> forall c :: c in s ==> c.id in queried
    ensures r.Some? ==> r.value in s && r.value.id !in queried
    ensures r.Some? ==> forall c :: c in s && c.id !in queried ==> Dist(t, r.value.id) <= Dist(t, c.id)
  {
    if s == [] then None
    else
      var last := s[|s| - 1];
      assert s == s[..|s| - 1] + [last];
      var p := ClosestUnqueried(t, s[..|s| - 1], queried);
      if last.id !in queried && (p.None? || Dist(t, last.id) < Dist(t, p.value.id)) then Some(last) else p
  }

  /** `next_query`: choose, and mark as queried. */
  function NextQuery(p: Lookup): (Lookup, Option<Contact>) {
    match ClosestUnqueried(p.target, p.shortlist, p.queried)
    case Some(c) => (p.(queried := p.queried + {c.id}), Some(c))
    case None => (p, None)
  }

  predicate BringsValue(op: DhtOperation) {
    op.Value? && op.found.Some?
  }

  /** What `handle_response` does to the lookup: the new lookup, the next contact to ask, and whether to stop. */
  function Absorb(p: Lookup, op: DhtOperation): (Lookup, Option<Contact>, bool) {
    var longer := p.(shortlist := p.shortlist + NodesIn(op));
    if BringsValue(op) then (longer.(foundValue := op.found), None, true)
    else
      var (q, next) := NextQuery(longer.(shortlist := Take(K, SortByDistance(p.target, longer.shortlist))));
      (q, next, next.None?)
  }

  function Skip(p: Lookup): (Lookup, Option<Contact>, bool) {
    var (q, next) := NextQuery(p);
    (q, next, next.None?)
  }

  /** The request that goes to the next contact. */
  function Request(id: NodeId, p: Lookup): DhtOperation {
    match p.findValueKey
    case Some(key) => FindValue(id, key)
    case None => FindNode(id, p.target)
  }

  class PendingLookup {
    var target: NodeId
    var findValueKey: Option<Key>
    var shortlist: seq<Contact>
    var queried: set<NodeId>
    var foundValue: Option<bytes>

    function State(): Lookup
      reads this
    {
      Lookup(target, findValueKey, shortlist, queried, foundValue)
    }

    constructor (target: NodeId, findValueKey: Option<Key>, shortlist: seq<Contact>)
      ensures State() == Lookup(target, findValueKey, shortlist, {}, None)
    {
      this.target := target;
      this.findValueKey := findValueKey;
      this.shortlist := shortlist;
      queried := {};
      foundValue := None;
    }

    method Next() returns (next: Option<Contact>)
      modifies this
      ensures (State(), next) == NextQuery(old(State()))
    {
      next := ClosestUnqueried(target, shortlist, queried);
      if next.Some? {
        queried := queried + {next.value.id};
      }
    }
  }

  datatype Outgoing = Outgoing(op: DhtOperation, dest: SocketAddr)

  class DhtClient {
    const id: NodeId
    var pending: PendingLookup?

    constructor (id: NodeId)
      ensures this.id == id && pending == null
    {
      this.id := id;
      pending := null;
    }

    ghost predicate Holds(p: Lookup)
      reads this, pending
    {
      pending != null && pending.State() == p
    }

    method Begin(target: NodeId, findValueKey: Option<Key>, shortlist: seq<Contact>, request: DhtOperation)
      returns (out: Option<Outgoing>)
      modifies this
      ensures pending != null && fresh(pending)
      ensures var (q, next) := NextQuery(Lookup(target, findValueKey, shortlist, {}, None));
              Holds(q) && out == if next.Some? then Some(Outgoing(request, next.value.addr)) else None
    {
      pending := new PendingLookup(target, findValueKey, shortlist);
      var next := pending.Next();
      out := if next.Some? then Some(Outgoing(request, next.value.addr)) else None;
    }

    /** Seeds have addresses only, so all of them enter the shortlist under the zero id. */
    method StartJoin(seeds: seq<SocketAddr>) returns (out: Option<Outgoing>)
      modifies this
      ensures pending != null && fresh(pending)
      ensures var (q, next) := NextQuery(Lookup(id, None, Seeds(seeds), {}, None));
              Holds(q) && out == if next.Some? then Some(Outgoing(FindNode(id, id), next.value.addr)) else None
    {
      var shortlist := [];
      for i := 0 to |seeds|
        invariant shortlist == Seeds(seeds[..i])
      {
        assert seeds[..i + 1] == seeds[..i] + [seeds[i]];
        shortlist := shortlist + [Contact(ZeroId(), seeds[i])];
      }
      assert seeds[..|seeds|] == seeds;
      out := Begin(id, None, shortlist, FindNode(id, id));
    }

    method StartLookupNode(target: NodeId, routing: RoutingTable) returns (out: Option<Outgoing>)
      requires routing.Valid()
      modifies this
      ensures pending != null && fresh(pending)
      ensures var (q, next) := NextQuery(Lookup(target, None, ClosestNodes(routing.State(), target, K), {}, None));
              Holds(q) && out == if next.Some? then Some(Outgoing(FindNode(id, target), next.value.addr)) else None
    {
      var shortlist := routing.Closest(target, K);
      out := Begin(target, None, shortlist, FindNode(id, target));
    }

    method StartFindValue(key: Key, routing: RoutingTable) returns (out: Option<Outgoing>)
      requires routing.Valid()
      modifies this
      ensures pending != null && fresh(pending)
      ensures var (q, next) := NextQuery(Lookup(key, Some(key), ClosestNodes(routing.State(), key, K), {}, None));
              Holds(q) && out == if next.Some? then Some(Outgoing(FindValue(id, key), next.value.addr)) else None
    {
      var shortlist := routing.Closest(key, K);
      out := Begin(key, Some(key), shortlist, FindValue(id, key));
    }

    /** The loop that teaches the routing table and the shortlist the nodes of one response. */
    method LearnNodes(nodes: seq<Contact>, routing: RoutingTable, now: nat)
      requires pending != null && routing.Valid()
      modifies pending, routing
      ensures routing.Valid() && routing.State() == AddAll(old(routing.State()), nodes, now)
      ensures pending.State() == old(pending.State()).(shortlist := old(pending.shortlist) + nodes)
    {
      for i := 0 to |nodes|
        invariant routing.Valid() && routing.State() == AddAll(old(routing.State()), nodes[..i], now)
        invariant pending.State() == old(pending.State()).(shortlist := old(pending.shortlist) + nodes[..i])
      {
        assert nodes[..i + 1][..i] == nodes[..i];
        var _ := routing.Add(nodes[i].id, nodes[i].addr, now);
        pending.shortlist := pending.shortlist + [nodes[i]];
      }
      assert nodes[..|nodes|] == nodes;
    }

    method HandleResponse(op: DhtOperation, routing: RoutingTable, now: nat) returns (out: Option<Outgoing>, done: bool)
      requires routing.Valid()
      modifies this, pending, routing
      ensures pending == old(pending) && routing.Valid()
      ensures old(pending) == null ==> out == None && done && routing.State() == old(routing.State())
      ensures old(pending) != null ==>
                var p := old(pending.State());
                var (q, next, stop) := Absorb(p, op);
                && Holds(q) && done == stop
                && out == (if next.Some? then Some(Outgoing(Request(id, p), next.value.addr)) else None)
                && routing.State() == AddAll(old(routing.State()), NodesIn(op), now)
    {
      if pending == null {
        return None, true;
      }
      ghost var p := pending.State();
      LearnNodes(NodesIn(op), routing, now);
      if BringsValue(op) {
        pending.foundValue := op.found;
        return None, true;
      }
      pending.shortlist := SortByDistance(pending.target, pending.shortlist);
      pending.shortlist := Take(K, pending.shortlist);
      assert Request(id, pending.State()) == Request(id, p);
      out, done := AskNext();
    }

    method SkipNode() returns (out: Option<Outgoing>, done: bool)
      modifies pending
      ensures old(pending) == null ==> out == None && done
      ensures old(pending) != null ==> Asked(old(pending.State()), out, done)
    {
      if pending == null {
        return None, true;
      }
      out, done := AskNext();
    }

    /** The request, if any, that follows from looking for the next contact in lookup p. */
    ghost predicate Asked(p: Lookup, out: Option<Outgoing>, done: bool)
      reads this, pending
    {
      var (q, next, stop) := Skip(p);
      Holds(q) && done == stop && out == if next.Some? then Some(Outgoing(Request(id, p), next.value.addr)) else None
    }

    /** Picks the next contact and builds the request for it; without one the lookup is over. */
    method AskNext() returns (out: Option<Outgoing>, done: bool)
      requires pending != null
      modifies pending
      ensures Asked(old(pending.State()), out, done)
    {
      var next := pending.Next();
      match next
      case Some(c) =>
        return Some(Outgoing(Request(id, pending.State()), c.addr)), false;
      case None =>
        return None, true;
    }
  }

  function ZeroId(): NodeId {
    seq(ID_BYTES, _ => 0)
  }

  function Seeds(seeds: seq<SocketAddr>): (r: seq<Contact>)
    ensures |r| == |seeds| && forall i :: 0 <= i < |seeds| ==> r[i] == Contact(ZeroId(), seeds[i])
  {
    seq(|seeds|, i requires 0 <= i < |seeds| => Contact(ZeroId(), seeds[i]))
  }
}
