/** Whole lookups: truncation loses nothing, nothing is asked twice, and every lookup ends. */
module LookupRuns {
  import opened Wrappers
  import opened Bytes
  import opened NodeIds
  import opened Contacts
  import opened Routing
  import opened DhtProtocol
  import opened DhtClients

  /** What a query brings: a parsed response and who sent it, or nothing in time. */
  datatype Reply = Answer(op: DhtOperation, sender: SocketAddr) | Timeout

  datatype Progress = Progress(lookup: Lookup, asked: seq<Contact>, done: bool)

  function Optional(next: Option<Contact>): seq<Contact> {
    if next.Some? then [next.value] else []
  }

  function Begin(p: Lookup): Progress {
    var (q, next) := NextQuery(p);
    Progress(q, Optional(next), next.None?)
  }

  function React(p: Lookup, r: Reply): (Lookup, Option<Contact>, bool) {
    match r
    case Answer(op, _) => Absorb(p, op)
    case Timeout => Skip(p)
  }

  function Advance(g: Progress, r: Reply): Progress {
    var (q, next, stop) := React(g.lookup, r);
    Progress(q, g.asked + Optional(next), stop)
  }

  /** The lookup after the given replies; once it is done, further replies are not consumed. */
  function Run(p: Lookup, rs: seq<Reply>): Progress {
    if rs == [] then Begin(p)
    else
      var g := Run(p, rs[..|rs| - 1]);
      if g.done then g else Advance(g, rs[|rs| - 1])
  }

  /** Absorbing replies one after the other, whether or not the lookup would have stopped. */
  function Fold(p: Lookup, rs: seq<Reply>): Lookup {
    if rs == [] then Begin(p).lookup else React(Fold(p, rs[..|rs| - 1]), rs[|rs| - 1]).0
  }

  /** Every node ever returned, in order of arrival. */
  function Learned(rs: seq<Reply>): seq<Contact> {
    if rs == [] then []
    else
      Learned(rs[..|rs| - 1]) + NewNodes(rs[|rs| - 1])
  }

  ghost predicate NoValue(rs: seq<Reply>) {
    forall i :: 0 <= i < |rs| && rs[i].Answer? ==> !BringsValue(rs[i].op)
  }

  ghost predicate Answered(rs: seq<Reply>) {
    exists i :: 0 <= i < |rs| && rs[i].Answer?
  }

  // -------- incremental equals one-shot --------

  lemma ReactTarget(p: Lookup, r: Reply)
    ensures React(p, r).0.target == p.target
    ensures r.Timeout? ==> React(p, r).0.shortlist == p.shortlist
    ensures r.Answer? && !BringsValue(r.op) ==>
              React(p, r).0.shortlist == Take(K, SortByDistance(p.target, p.shortlist + NodesIn(r.op)))
              && React(p, r).0.foundValue == p.foundValue
  {
  }

  lemma {:induction false} FoldTarget(p: Lookup, rs: seq<Reply>)
    ensures Fold(p, rs).target == p.target
  {
    if rs != [] {
      FoldTarget(p, rs[..|rs| - 1]);
      ReactTarget(Fold(p, rs[..|rs| - 1]), rs[|rs| - 1]);
    }
  }

  lemma {:induction false} UnansweredFold(p: Lookup, rs: seq<Reply>)
    requires !Answered(rs)
    ensures Fold(p, rs).shortlist == p.shortlist && Learned(rs) == []
  {
    if rs != [] {
      var init := rs[..|rs| - 1];
      assert !Answered(init) by {
        assert forall i :: 0 <= i < |init| ==> init[i] == rs[i];
      }
      UnansweredFold(p, init);
      assert rs[|rs| - 1].Timeout?;
      ReactTarget(Fold(p, init), rs[|rs| - 1]);
    }
  }

  /**
   * Sorting and truncating after every response gives the same shortlist as one stable sort of the initial
   * list and everything ever returned, truncated once at the end.
   */
  lemma {:induction false} ShortlistIsOneShot(p: Lookup, rs: seq<Reply>)
    requires NoValue(rs) && Answered(rs)
    ensures Fold(p, rs).shortlist == Take(K, SortByDistance(p.target, p.shortlist + Learned(rs)))
  {
    var init, r := rs[..|rs| - 1], rs[|rs| - 1];
    assert NoValue(init);
    StepBack(p, rs);
    if Answered(init) {
      ShortlistIsOneShot(p, init);
      LaterReply(p, init, r);
    } else {
      LastAnswers(rs);
      FirstAnswer(p, init, r);
    }
  }

  function NewNodes(r: Reply): seq<Contact> {
    if r.Answer? then NodesIn(r.op) else []
  }

  lemma StepBack(p: Lookup, rs: seq<Reply>)
    requires rs != []
    ensures Fold(p, rs) == React(Fold(p, rs[..|rs| - 1]), rs[|rs| - 1]).0
    ensures Learned(rs) == Learned(rs[..|rs| - 1]) + NewNodes(rs[|rs| - 1])
  {
  }

  lemma LastAnswers(rs: seq<Reply>)
    requires Answered(rs) && !Answered(rs[..|rs| - 1])
    ensures rs != [] && rs[|rs| - 1].Answer?
  {
    forall k | 0 <= k < |rs| - 1 ensures !rs[k].Answer? {
      assert rs[..|rs| - 1][k] == rs[k];
    }
  }

  lemma FirstAnswer(p: Lookup, init: seq<Reply>, r: Reply)
    requires !Answered(init) && r.Answer? && !BringsValue(r.op)
    ensures React(Fold(p, init), r).0.shortlist == Take(K, SortByDistance(p.target, p.shortlist + (Learned(init) + NewNodes(r))))
  {
    UnansweredFold(p, init);
    FoldTarget(p, init);
    ReactTarget(Fold(p, init), r);
    assert [] + NodesIn(r.op) == NodesIn(r.op);
  }

  lemma LaterReply(p: Lookup, init: seq<Reply>, r: Reply)
    requires r.Answer? ==> !BringsValue(r.op)
    requires Fold(p, init).shortlist == Take(K, SortByDistance(p.target, p.shortlist + Learned(init)))
    ensures React(Fold(p, init), r).0.shortlist == Take(K, SortByDistance(p.target, p.shortlist + (Learned(init) + NewNodes(r))))
  {
    FoldTarget(p, init);
    Associative(p.shortlist, Learned(init), NewNodes(r));
    OneShotStep(Fold(p, init), p.shortlist + Learned(init), p.shortlist + (Learned(init) + NewNodes(r)), r);
  }

  lemma Associative(a: seq<Contact>, b: seq<Contact>, c: seq<Contact>)
    ensures a + b + c == a + (b + c)
  {
  }

  lemma OneShotStep(f: Lookup, before: seq<Contact>, after: seq<Contact>, r: Reply)
    requires r.Answer? ==> !BringsValue(r.op)
    requires f.shortlist == Take(K, SortByDistance(f.target, before)) && after == before + NewNodes(r)
    ensures React(f, r).0.shortlist == Take(K, SortByDistance(f.target, after))
  {
    ReactTarget(f, r);
    if r.Timeout? {
      assert after == before;
    } else {
      IncrementalSort(f.target, K, before, NodesIn(r.op));
    }
  }

  /** While the lookup goes on, and at the reply that ends it, its state is the fold of the replies. */
  lemma {:induction false} RunIsFold(p: Lookup, rs: seq<Reply>)
    requires forall k :: 0 <= k < |rs| ==> !Run(p, rs[..k]).done
    ensures Run(p, rs).lookup == Fold(p, rs)
  {
    if rs != [] {
      var init := rs[..|rs| - 1];
      assert forall k :: 0 <= k < |init| ==> init[..k] == rs[..k];
      RunIsFold(p, init);
    }
  }

  // -------- queries --------

  function IdSet(s: seq<Contact>): (r: set<NodeId>)
    ensures forall c :: c in s ==> c.id in r
  {
    set i | 0 <= i < |s| :: s[i].id
  }

  /** The bookkeeping of a lookup: queried is exactly the ids asked, each asked once, all of them known. */
  ghost predicate Booked(g: Progress, known: set<NodeId>) {
    && Distinct(Ids(g.asked))
    && IdSet(g.asked) == g.lookup.queried
    && g.lookup.queried <= known
    && forall c :: c in g.lookup.shortlist ==> c.id in known
  }

  lemma AskKeepsBooked(p: Lookup, asked: seq<Contact>, known: set<NodeId>)
    requires Booked(Progress(p, asked, false), known)
    ensures var (q, next) := NextQuery(p); Booked(Progress(q, asked + Optional(next), next.None?), known)
    ensures var (q, next) := NextQuery(p); next.Some? ==> |q.queried| == |p.queried| + 1
  {
    var (q, next) := NextQuery(p);
    if next.Some? {
      IdSetAppend(asked, next.value);
      NewIdDistinct(asked, next.value);
    } else {
      assert asked + [] == asked;
    }
  }

  lemma NewIdDistinct(asked: seq<Contact>, c: Contact)
    requires Distinct(Ids(asked)) && c.id !in IdSet(asked)
    ensures Distinct(Ids(asked + [c]))
  {
    var more := Ids(asked + [c]);
    forall i, j | 0 <= i < j < |more| ensures more[i] != more[j] {
      assert more[i] == Ids(asked)[i] && asked[i] in asked;
      assert j < |asked| ==> more[j] == Ids(asked)[j];
    }
  }

  lemma IdSetAppend(s: seq<Contact>, c: Contact)
    ensures IdSet(s + [c]) == IdSet(s) + {c.id}
  {
    forall id ensures id in IdSet(s + [c]) <==> id in IdSet(s) + {c.id} {
      if id in IdSet(s) {
        var i :| 0 <= i < |s| && s[i].id == id;
        assert (s + [c])[i].id == id;
      }
      assert (s + [c])[|s|].id == c.id;
    }
  }

  /** Everything the lookup has heard of: the initial shortlist and the nodes of the responses. */
  function KnownIds(p: Lookup, rs: seq<Reply>): set<NodeId> {
    IdSet(p.shortlist + Learned(rs))
  }

  lemma KnownGrows(p: Lookup, rs: seq<Reply>)
    requires rs != []
    ensures KnownIds(p, rs[..|rs| - 1]) <= KnownIds(p, rs)
    ensures forall c :: rs[|rs| - 1].Answer? && c in NodesIn(rs[|rs| - 1].op) ==> c.id in KnownIds(p, rs)
  {
    var small, big := p.shortlist + Learned(rs[..|rs| - 1]), p.shortlist + Learned(rs);
    assert small <= big;
    forall id | id in IdSet(small) ensures id in IdSet(big) {
      var i :| 0 <= i < |small| && small[i].id == id;
      assert big[i].id == id;
    }
    forall c | rs[|rs| - 1].Answer? && c in NodesIn(rs[|rs| - 1].op) ensures c.id in IdSet(big) {
      assert c in big;
    }
  }

  lemma SortedTakeMembers(t: NodeId, s: seq<Contact>, c: Contact)
    requires c in Take(K, SortByDistance(t, s))
    ensures c in s
  {
    assert c in SortByDistance(t, s);
    assert c in multiset(SortByDistance(t, s));
  }

  lemma ReactKeepsBooked(g: Progress, r: Reply, known: set<NodeId>)
    requires Booked(g, known)
    requires r.Answer? ==> forall c :: c in NodesIn(r.op) ==> c.id in known
    ensures Booked(Advance(g, r), known)
    ensures !Advance(g, r).done ==> |Advance(g, r).lookup.queried| == |g.lookup.queried| + 1
  {
    match r
    case Timeout => AskKeepsBooked(g.lookup, g.asked, known);
    case Answer(op, _) =>
      if BringsValue(op) {
        assert g.asked + [] == g.asked;
      } else {
        var longer := g.lookup.shortlist + NodesIn(op);
        var short := Take(K, SortByDistance(g.lookup.target, longer));
        forall c | c in short ensures c.id in known {
          SortedTakeMembers(g.lookup.target, longer, c);
        }
        AskKeepsBooked(g.lookup.(shortlist := short), g.asked, known);
      }
  }

  lemma BookedMonotone(g: Progress, small: set<NodeId>, big: set<NodeId>)
    requires Booked(g, small) && small <= big
    ensures Booked(g, big)
  {
  }

  lemma {:induction false} RunIsBooked(p: Lookup, rs: seq<Reply>)
    requires p.queried == {}
    ensures Booked(Run(p, rs), KnownIds(p, rs))
  {
    if rs == [] {
      assert p.shortlist + Learned(rs) == p.shortlist;
      assert Booked(Progress(p, [], false), KnownIds(p, rs));
      AskKeepsBooked(p, [], KnownIds(p, rs));
      assert [] + Optional(NextQuery(p).1) == Optional(NextQuery(p).1);
    } else {
      var init := rs[..|rs| - 1];
      RunIsBooked(p, init);
      KnownGrows(p, rs);
      BookedMonotone(Run(p, init), KnownIds(p, init), KnownIds(p, rs));
      if !Run(p, init).done {
        ReactKeepsBooked(Run(p, init), rs[|rs| - 1], KnownIds(p, rs));
      }
    }
  }

  lemma {:induction false} AskedCount(asked: seq<Contact>)
    requires Distinct(Ids(asked))
    ensures |IdSet(asked)| == |asked|
  {
    if asked != [] {
      var init, last := asked[..|asked| - 1], asked[|asked| - 1];
      assert asked == init + [last];
      assert forall i :: 0 <= i < |init| ==> Ids(asked)[i] == Ids(init)[i];
      AskedCount(init);
      IdSetAppend(init, last);
      forall i | 0 <= i < |init| ensures init[i].id != last.id {
        assert Ids(asked)[i] != Ids(asked)[|init|];
      }
      assert last.id !in IdSet(init);
    }
  }

  /** In any lookup, whatever the answers and timeouts, no id is asked twice and no more ids are asked than were ever heard of. */
  lemma NothingAskedTwice(p: Lookup, rs: seq<Reply>)
    requires p.queried == {}
    ensures Distinct(Ids(Run(p, rs).asked))
    ensures IdSet(Run(p, rs).asked) <= KnownIds(p, rs)
    ensures |Run(p, rs).asked| <= |KnownIds(p, rs)|
  {
    RunIsBooked(p, rs);
    AskedCount(Run(p, rs).asked);
    SubsetSize(Run(p, rs).lookup.queried, KnownIds(p, rs));
  }

  // -------- completeness --------

  ghost predicate Exhausted(p: Lookup) {
    forall c :: c in p.shortlist ==> c.id in p.queried
  }

  lemma {:induction false} DoneMeansExhausted(p: Lookup, rs: seq<Reply>)
    requires Run(p, rs).done && NoValue(rs)
    ensures Exhausted(Run(p, rs).lookup)
  {
    if rs != [] {
      var init := rs[..|rs| - 1];
      assert NoValue(init);
      if Run(p, init).done {
        DoneMeansExhausted(p, init);
      }
    }
  }

  /**
   * When a lookup ends without a value after at least one response, the K nearest of everything it started
   * with or was ever told about have all been asked.
   */
  lemma NearestAllAsked(p: Lookup, rs: seq<Reply>, c: Contact)
    requires p.queried == {} && NoValue(rs) && Answered(rs)
    requires forall k :: 0 <= k < |rs| ==> !Run(p, rs[..k]).done
    requires Run(p, rs).done
    requires c in Take(K, SortByDistance(p.target, p.shortlist + Learned(rs)))
    ensures c.id in IdSet(Run(p, rs).asked)
  {
    RunIsFold(p, rs);
    ShortlistIsOneShot(p, rs);
    DoneMeansExhausted(p, rs);
    RunIsBooked(p, rs);
  }

  // -------- the value --------

  /** The reply is an answer that carries the value v. */
  predicate Brings(r: Reply, v: bytes) {
    r.Answer? && r.op.Value? && r.op.found == Some(v)
  }

  lemma {:induction false} NothingFoundYet(p: Lookup, rs: seq<Reply>)
    requires p.foundValue == None && !Run(p, rs).done
    ensures Run(p, rs).lookup.foundValue == None
  {
    if rs != [] {
      NothingFoundYet(p, rs[..|rs| - 1]);
    }
  }

  /** What one reply does to the value found and, if it brings one, to the shortlist. */
  lemma ReactFound(p: Lookup, r: Reply)
    requires p.foundValue == None
    ensures var (q, _, stop) := React(p, r);
            && q.foundValue == (if r.Answer? && r.op.Value? then r.op.found else None)
            && (q.foundValue.Some? ==> stop && q.shortlist == p.shortlist + r.op.closestNodes)
  {
  }

  lemma RunLast(p: Lookup, rs: seq<Reply>)
    requires rs != []
    ensures var g := Run(p, rs[..|rs| - 1]); Run(p, rs) == if g.done then g else Advance(g, rs[|rs| - 1])
  {
  }

  ghost predicate BroughtAt(p: Lookup, rs: seq<Reply>, k: nat, v: bytes) {
    k < |rs| && !Run(p, rs[..k]).done && Brings(rs[k], v)
  }

  lemma BroughtStep(p: Lookup, rs: seq<Reply>, k: nat, v: bytes)
    requires rs != []
    ensures BroughtAt(p, rs, k, v) <==>
              BroughtAt(p, rs[..|rs| - 1], k, v) || (k == |rs| - 1 && !Run(p, rs[..|rs| - 1]).done && Brings(rs[|rs| - 1], v))
  {
    if k < |rs| - 1 {
      assert rs[..|rs| - 1][..k] == rs[..k];
    }
  }

  ghost predicate BroughtIn(p: Lookup, rs: seq<Reply>, v: bytes) {
    exists k: nat :: BroughtAt(p, rs, k, v)
  }

  lemma BroughtInStep(p: Lookup, rs: seq<Reply>, v: bytes)
    requires rs != []
    ensures BroughtIn(p, rs, v) <==>
              BroughtIn(p, rs[..|rs| - 1], v) || (!Run(p, rs[..|rs| - 1]).done && Brings(rs[|rs| - 1], v))
  {
    BroughtStep(p, rs, |rs| - 1, v);
    if BroughtIn(p, rs, v) {
      var k: nat :| BroughtAt(p, rs, k, v);
      BroughtStep(p, rs, k, v);
    }
    if BroughtIn(p, rs[..|rs| - 1], v) {
      var k: nat :| BroughtAt(p, rs[..|rs| - 1], k, v);
      BroughtStep(p, rs, k, v);
    }
  }

  lemma {:induction false} NothingBroughtYet(p: Lookup, rs: seq<Reply>, v: bytes)
    requires p.foundValue == None && !Run(p, rs).done
    ensures !BroughtIn(p, rs, v)
  {
    if rs != [] {
      var init := rs[..|rs| - 1];
      RunLast(p, rs);
      NothingBroughtYet(p, init, v);
      NothingFoundYet(p, init);
      ReactFound(Run(p, init).lookup, rs[|rs| - 1]);
      BroughtInStep(p, rs, v);
    }
  }

  /** A lookup has found v if and only if one of the replies it waited for carried it. */
  lemma {:induction false} FoundValueIff(p: Lookup, rs: seq<Reply>, v: bytes)
    requires p.foundValue == None
    ensures Run(p, rs).lookup.foundValue == Some(v) <==> BroughtIn(p, rs, v)
  {
    if rs != [] {
      var init := rs[..|rs| - 1];
      RunLast(p, rs);
      BroughtInStep(p, rs, v);
      if Run(p, init).done {
        FoundValueIff(p, init, v);
      } else {
        NothingFoundYet(p, init);
        NothingBroughtYet(p, init, v);
        ReactFound(Run(p, init).lookup, rs[|rs| - 1]);
      }
    }
  }

  /** If the lookup waited for every reply, only the last can have brought a value; then its nodes are appended as they came. */
  lemma FoundInLast(p: Lookup, rs: seq<Reply>)
    requires p.foundValue == None && rs != [] && !Run(p, rs[..|rs| - 1]).done
    ensures var last, q := rs[|rs| - 1], Run(p, rs).lookup;
            && q.foundValue == (if last.Answer? && last.op.Value? then last.op.found else None)
            && (q.foundValue.Some? ==>
                  Run(p, rs).done && q.shortlist == Run(p, rs[..|rs| - 1]).lookup.shortlist + last.op.closestNodes)
  {
    NothingFoundYet(p, rs[..|rs| - 1]);
    RunLast(p, rs);
    ReactFound(Run(p, rs[..|rs| - 1]).lookup, rs[|rs| - 1]);
  }

  // -------- seeds --------

  /** All seeds of a join share the zero id, so whichever way the first query goes, no other seed is ever asked. */
  lemma OneSeedPerJoin(id: NodeId, seeds: seq<SocketAddr>, rs: seq<Reply>)
    requires seeds != []
    ensures var g := Run(Lookup(id, None, Seeds(seeds), {}, None), rs);
            g.asked != [] && g.asked[0] == Contact(ZeroId(), seeds[0])
            && forall i :: 0 < i < |g.asked| ==> g.asked[i].id != ZeroId()
  {
    var p := Lookup(id, None, Seeds(seeds), {}, None);
    FirstAsked(p, rs);
    FirstSeed(id, Seeds(seeds));
    NothingAskedTwice(p, rs);
    var asked := Run(p, rs).asked;
    forall i | 0 < i < |asked| ensures asked[i].id != ZeroId() {
      assert Ids(asked)[0] != Ids(asked)[i];
    }
  }

  lemma {:induction false} FirstSeed(t: NodeId, s: seq<Contact>)
    requires s != [] && forall i :: 0 <= i < |s| ==> s[i].id == s[0].id
    ensures ClosestUnqueried(t, s, {}) == Some(s[0])
  {
    if |s| > 1 {
      FirstSeed(t, s[..|s| - 1]);
    }
  }

  lemma {:induction false} FirstAsked(p: Lookup, rs: seq<Reply>)
    requires NextQuery(p).1.Some?
    ensures Run(p, rs).asked != [] && Run(p, rs).asked[0] == NextQuery(p).1.value
  {
    if rs != [] {
      FirstAsked(p, rs[..|rs| - 1]);
    }
  }

  // -------- termination --------

  lemma {:induction false} BoundedIds(s: set<NodeId>, limit: nat)
    requires forall id :: id in s ==> FromBigEndian(id) < limit
    ensures |s| <= limit
  {
    if limit == 0 {
      assert forall id :: id !in s;
    } else if exists id :: id in s && FromBigEndian(id) == limit - 1 {
      var top :| top in s && FromBigEndian(top) == limit - 1;
      forall id | id in s - {top} ensures FromBigEndian(id) < limit - 1 {
        if FromBigEndian(id) == limit - 1 {
          ValueInjective(id, top);
        }
      }
      BoundedIds(s - {top}, limit - 1);
    } else {
      BoundedIds(s, limit - 1);
    }
  }

  /** There are only 256^32 identifiers. */
  lemma FinitelyManyIds(s: set<NodeId>)
    ensures |s| <= Pow256(ID_BYTES)
  {
    BoundedIds(s, Pow256(ID_BYTES));
  }

  function Replies(answers: nat -> Reply, n: nat): (rs: seq<Reply>)
    ensures |rs| == n
  {
    seq(n, i requires 0 <= i < n => answers(i))
  }

  /** The request of lookup p, to each contact asked. */
  function Requests(id: NodeId, p: Lookup, asked: seq<Contact>): (r: seq<Outgoing>)
    ensures |r| == |asked|
  {
    seq(|asked|, i requires 0 <= i < |asked| => Outgoing(Request(id, p), asked[i].addr))
  }

  function ToAsk(id: NodeId, p: Lookup, next: Option<Contact>): Option<Outgoing> {
    if next.Some? then Some(Outgoing(Request(id, p), next.value.addr)) else None
  }

  /** What has been sent, and what is about to be, are the requests to everyone chosen so far. */
  ghost predicate Sending(id: NodeId, p: Lookup, asked: seq<Contact>, sent: seq<Outgoing>, next: Option<Outgoing>) {
    Requests(id, p, asked) == sent + if next.Some? then [next.value] else []
  }

  lemma SendingStep(id: NodeId, p: Lookup, asked: seq<Contact>, sent: seq<Outgoing>, now: Outgoing, next: Option<Contact>)
    requires Sending(id, p, asked, sent, Some(now))
    ensures Sending(id, p, asked + Optional(next), sent + [now], ToAsk(id, p, next))
  {
    assert Requests(id, p, asked + Optional(next)) == Requests(id, p, asked) + Requests(id, p, Optional(next));
  }

  /**
   * The loop `join`, `lookup_node` and `find_value` share: it ends for every sequence of answers and
   * timeouts the network can produce, in the state the run describes, having sent the lookup's request to
   * everyone asked.
   */
  method QueryLoop(client: DhtClient, routing: RoutingTable, first: Option<Outgoing>, answers: nat -> Reply, clock: nat -> nat,
                   ghost p: Lookup)
    returns (rounds: nat, sent: seq<Outgoing>)
    requires routing.Valid() && p.queried == {}
    requires client.Holds(Begin(p).lookup) && first == ToAsk(client.id, p, NextQuery(p).1)
    modifies client, client.pending, routing
    ensures routing.Valid() && client.pending == old(client.pending)
    ensures Run(p, Replies(answers, rounds)).done && client.Holds(Run(p, Replies(answers, rounds)).lookup)
    ensures LiveUntil(p, answers, rounds)
    ensures sent == Requests(client.id, p, Run(p, Replies(answers, rounds)).asked)
  {
    rounds, sent := 0, [];
    var next := first;
    ghost var g := Begin(p);
    FinitelyManyIds(client.pending.queried);
    while next.Some?
      invariant client.pending == old(client.pending) && routing.Valid()
      invariant g == Run(p, Replies(answers, rounds)) && client.Holds(g.lookup)
      invariant next.Some? <==> !g.done
      invariant Sending(client.id, p, g.asked, sent, next)
      invariant LiveUntil(p, answers, rounds)
      decreases Pow256(ID_BYTES) - |client.pending.queried|, next.Some?
    {
      var reply := answers(rounds);
      RunStep(p, answers, rounds);
      LiveStep(p, answers, rounds);
      QueriedGrows(p, answers, rounds);
      SameRequest(client.id, p, Replies(answers, rounds));
      SendingStep(client.id, p, g.asked, sent, next.value, React(g.lookup, reply).1);
      sent := sent + [next.value];
      next := OneRound(client, routing, reply, clock(rounds));
      g := Advance(g, reply);
      rounds := rounds + 1;
      FinitelyManyIds(client.pending.queried);
    }
  }

  lemma ReactRequest(id: NodeId, p: Lookup, r: Reply)
    ensures Request(id, React(p, r).0) == Request(id, p)
  {
  }

  lemma {:induction false} SameRequest(id: NodeId, p: Lookup, rs: seq<Reply>)
    ensures Request(id, Run(p, rs).lookup) == Request(id, p)
  {
    if rs != [] {
      SameRequest(id, p, rs[..|rs| - 1]);
      RunLast(p, rs);
      ReactRequest(id, Run(p, rs[..|rs| - 1]).lookup, rs[|rs| - 1]);
    }
  }

  /** The lookup was not over before any of the first n replies. */
  ghost predicate LiveUntil(p: Lookup, answers: nat -> Reply, n: nat) {
    forall k :: 0 <= k < n ==> !Run(p, Replies(answers, k)).done
  }

  lemma LiveStep(p: Lookup, answers: nat -> Reply, n: nat)
    requires LiveUntil(p, answers, n) && !Run(p, Replies(answers, n)).done
    ensures LiveUntil(p, answers, n + 1)
  {
  }

  /** One turn of the loop: a timeout skips, a response also teaches the sender to the routing table. */
  method OneRound(client: DhtClient, routing: RoutingTable, reply: Reply, now: nat) returns (next: Option<Outgoing>)
    requires routing.Valid() && client.pending != null
    modifies client, client.pending, routing
    ensures client.pending == old(client.pending) && routing.Valid()
    ensures var (q, contact, stop) := React(old(client.pending.State()), reply);
            && client.Holds(q) && (next.Some? <==> !stop)
            && next == ToAsk(client.id, old(client.pending.State()), contact)
    ensures routing.State() ==
              match reply
              case Timeout => old(routing.State())
              case Answer(op, sender) => AddAll(AddNode(old(routing.State()), op.senderId, sender, now).0, NodesIn(op), now)
  {
    var done: bool;
    match reply
    case Timeout =>
      next, done := client.SkipNode();
    case Answer(op, sender) =>
      var ping := routing.Add(op.senderId, sender, now);
      next, done := client.HandleResponse(op, routing, now);
  }

  lemma RunStep(p: Lookup, answers: nat -> Reply, n: nat)
    requires !Run(p, Replies(answers, n)).done
    ensures Run(p, Replies(answers, n + 1)) == Advance(Run(p, Replies(answers, n)), answers(n))
  {
    RepliesStep(answers, n);
  }

  lemma RepliesStep(answers: nat -> Reply, n: nat)
    ensures var rs := Replies(answers, n + 1);
            rs != [] && rs[..|rs| - 1] == Replies(answers, n) && rs[|rs| - 1] == answers(n)
  {
  }

  lemma QueriedGrows(p: Lookup, answers: nat -> Reply, n: nat)
    requires p.queried == {} && !Run(p, Replies(answers, n)).done
    ensures var g := Run(p, Replies(answers, n));
            !Advance(g, answers(n)).done ==> |Advance(g, answers(n)).lookup.queried| == |g.lookup.queried| + 1
    ensures var g := Run(p, Replies(answers, n));
            |Advance(g, answers(n)).lookup.queried| >= |g.lookup.queried|
  {
    var rs := Replies(answers, n + 1);
    assert rs[..n] == Replies(answers, n);
    RunIsBooked(p, Replies(answers, n));
    KnownGrows(p, rs);
    BookedMonotone(Run(p, Replies(answers, n)), KnownIds(p, Replies(answers, n)), KnownIds(p, rs));
    ReactKeepsBooked(Run(p, Replies(answers, n)), answers(n), KnownIds(p, rs));
  }

  // -------- the three lookups --------

  /** The value the last of the replies brought, if any. */
  function Brought(rs: seq<Reply>): Option<bytes> {
    if rs != [] && rs[|rs| - 1].Answer? && rs[|rs| - 1].op.Value? then rs[|rs| - 1].op.found else None
  }

  lemma FoundIsBrought(p: Lookup, answers: nat -> Reply, n: nat)
    requires p.foundValue == None && LiveUntil(p, answers, n)
    ensures Run(p, Replies(answers, n)).lookup.foundValue == Brought(Replies(answers, n))
  {
    var rs := Replies(answers, n);
    if n > 0 {
      RepliesStep(answers, n - 1);
      FoundInLast(p, rs);
    }
  }

  /** `find_value`: the value the last reply brought, if it brought one, after asking each contact for the value of the key. */
  method FindTheValue(client: DhtClient, routing: RoutingTable, key: Key, answers: nat -> Reply, clock: nat -> nat)
    returns (found: Option<bytes>, shortlist: seq<Contact>, rounds: nat, sent: seq<Outgoing>)
    requires routing.Valid()
    modifies client, routing
    ensures routing.Valid()
    ensures var p := Lookup(key, Some(key), ClosestNodes(old(routing.State()), key, K), {}, None);
            var g := Run(p, Replies(answers, rounds));
            && g.done && LiveUntil(p, answers, rounds) && shortlist == g.lookup.shortlist
            && found == Brought(Replies(answers, rounds))
            && |sent| == |g.asked| && forall i :: 0 <= i < |sent| ==> sent[i] == Outgoing(FindValue(client.id, key), g.asked[i].addr)
  {
    ghost var p := Lookup(key, Some(key), ClosestNodes(routing.State(), key, K), {}, None);
    var first := client.StartFindValue(key, routing);
    rounds, sent := QueryLoop(client, routing, first, answers, clock, p);
    FoundIsBrought(p, answers, rounds);
    found, shortlist := client.pending.foundValue, client.pending.shortlist;
  }

  /** `lookup_node`: the shortlist at the end, after asking each contact for the nodes nearest the target. */
  method LookupNode(client: DhtClient, routing: RoutingTable, target: NodeId, answers: nat -> Reply, clock: nat -> nat)
    returns (shortlist: seq<Contact>, rounds: nat, sent: seq<Outgoing>)
    requires routing.Valid()
    modifies client, routing
    ensures routing.Valid()
    ensures var p := Lookup(target, None, ClosestNodes(old(routing.State()), target, K), {}, None);
            var g := Run(p, Replies(answers, rounds));
            && g.done && LiveUntil(p, answers, rounds) && shortlist == g.lookup.shortlist
            && |sent| == |g.asked| && forall i :: 0 <= i < |sent| ==> sent[i] == Outgoing(FindNode(client.id, target), g.asked[i].addr)
  {
    ghost var p := Lookup(target, None, ClosestNodes(routing.State(), target, K), {}, None);
    var first := client.StartLookupNode(target, routing);
    rounds, sent := QueryLoop(client, routing, first, answers, clock, p);
    shortlist := client.pending.shortlist;
  }

  /** `join`: asks seeds, and whoever they name, for the nodes nearest the client itself. */
  method Join(client: DhtClient, routing: RoutingTable, seeds: seq<SocketAddr>, answers: nat -> Reply, clock: nat -> nat)
    returns (rounds: nat, sent: seq<Outgoing>)
    requires routing.Valid()
    modifies client, routing
    ensures routing.Valid()
    ensures var p := Lookup(client.id, None, Seeds(seeds), {}, None);
            var g := Run(p, Replies(answers, rounds));
            && g.done && LiveUntil(p, answers, rounds)
            && |sent| == |g.asked| && forall i :: 0 <= i < |sent| ==> sent[i] == Outgoing(FindNode(client.id, client.id), g.asked[i].addr)
  {
    ghost var p := Lookup(client.id, None, Seeds(seeds), {}, None);
    var first := client.StartJoin(seeds);
    rounds, sent := QueryLoop(client, routing, first, answers, clock, p);
  }

  /** `store`: after a lookup of the key, the value goes to every node of the shortlist, or the call fails if there is none. */
  method StoreValue(client: DhtClient, routing: RoutingTable, key: Key, value: bytes, ttl: U32, answers: nat -> Reply, clock: nat -> nat)
    returns (r: Result<seq<Outgoing>, string>, rounds: nat)
    requires routing.Valid()
    modifies client, routing
    ensures routing.Valid()
    ensures var p := Lookup(key, None, ClosestNodes(old(routing.State()), key, K), {}, None);
            var nodes := Run(p, Replies(answers, rounds)).lookup.shortlist;
            && Run(p, Replies(answers, rounds)).done && LiveUntil(p, answers, rounds)
            && (r.Success? <==> nodes != [])
            && (r.Success? ==>
                  && |r.value| == |nodes|
                  && forall i :: 0 <= i < |nodes| ==> r.value[i] == Outgoing(Store(client.id, key, value, ttl), nodes[i].addr))
  {
    var nodes, n, _ := LookupNode(client, routing, key, answers, clock);
    rounds := n;
    if nodes == [] {
      return Failure("store failed: no nodes known to store to"), rounds;
    }
    var stores: seq<Outgoing> := [];
    for i := 0 to |nodes|
      invariant |stores| == i && forall j :: 0 <= j < i ==> stores[j] == Outgoing(Store(client.id, key, value, ttl), nodes[j].addr)
    {
      stores := stores + [Outgoing(Store(client.id, key, value, ttl), nodes[i].addr)];
    }
    return Success(stores), rounds;
  }
}
