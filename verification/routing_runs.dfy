/** What every run of routing-table operations keeps: placement, uniqueness, capacity, and the ping cooldown. */
module RoutingRuns {
  import opened Wrappers
  import opened NodeIds
  import opened Contacts
  import opened Routing

  // -------- invariants --------

  function Entries(b: Bucket): multiset<Entry> {
    multiset(b.active) + multiset(b.candidates)
  }

  /** No two entries share an id, and no entry occurs twice. */
  ghost predicate UniqueIds(m: multiset<Entry>) {
    forall e, f :: e in m && f in m && e.id == f.id ==> e == f && m[e] == 1
  }

  ghost predicate BucketOk(local: NodeId, i: nat, b: Bucket) {
    && |b.active| <= K
    && |b.candidates| <= K
    && UniqueIds(Entries(b))
    && forall e :: e in Entries(b) ==> e.id != local && BucketIndex(local, e.id) == i
  }

  ghost predicate Inv(t: Table) {
    Shaped(t) && forall i :: 0 <= i < BUCKETS ==> BucketOk(t.localId, i, t.buckets[i])
  }

  ghost predicate FullOrNoCandidates(b: Bucket) {
    b.candidates != [] ==> |b.active| == K
  }

  // -------- list lemmas --------

  lemma UniqueSubset(small: multiset<Entry>, big: multiset<Entry>)
    requires small <= big && UniqueIds(big)
    ensures UniqueIds(small)
  {
  }

  lemma {:induction false} FilterPartition(s: seq<Entry>, p: Entry -> bool, q: Entry -> bool)
    requires forall e :: q(e) == !p(e)
    ensures multiset(Filter(s, p)) + multiset(Filter(s, q)) == multiset(s)
  {
    if s != [] {
      FilterPartition(s[..|s| - 1], p, q);
      assert s == s[..|s| - 1] + [s[|s| - 1]];
    }
  }

  lemma {:induction false} FilterSub(s: seq<Entry>, p: Entry -> bool)
    ensures multiset(Filter(s, p)) <= multiset(s)
  {
    if s != [] {
      FilterSub(s[..|s| - 1], p);
      assert s == s[..|s| - 1] + [s[|s| - 1]];
    }
  }

  lemma SetAt(s: seq<Entry>, i: nat, e: Entry)
    requires i < |s|
    ensures multiset(s[i := e]) == multiset(s) - multiset{s[i]} + multiset{e}
  {
  }

  // -------- what eviction conserves --------

  lemma {:induction false} PromoteConserves(active: seq<Entry>, candidates: seq<Entry>)
    ensures var r := Promote(active, candidates);
            && Entries(r) == multiset(active) + multiset(candidates)
            && |r.candidates| <= |candidates|
            && (|active| <= K ==> |r.active| <= K)
            && (r.candidates == [] || |r.active| >= K)
    decreases |candidates|
  {
    if |active| < K && candidates != [] {
      var i := Freshest(candidates);
      PromoteConserves(active + [candidates[i]], RemoveAt(candidates, i));
    }
  }

  lemma {:induction false} PromoteFreshestFirst(active: seq<Entry>, candidates: seq<Entry>)
    ensures var r := Promote(active, candidates);
            && active <= r.active
            && (forall k, e :: |active| <= k < |r.active| && e in r.candidates ==> e.lastSeen <= r.active[k].lastSeen)
            && (forall e :: e in r.candidates ==> e in candidates)
    decreases |candidates|
  {
    if |active| < K && candidates != [] {
      var i := Freshest(candidates);
      var rest := RemoveAt(candidates, i);
      PromoteFreshestFirst(active + [candidates[i]], rest);
      var r := Promote(active + [candidates[i]], rest);
      assert r.active[|active|] == candidates[i];
      assert forall e :: e in r.candidates ==> e in candidates && e.lastSeen <= candidates[i].lastSeen;
    }
  }

  /** Promotion only moves entries up: nothing is lost, the active list keeps its front, the freshest go first. */
  lemma PromoteMoves(active: seq<Entry>, candidates: seq<Entry>)
    ensures var r := Promote(active, candidates);
            && Entries(r) == multiset(active) + multiset(candidates)
            && active <= r.active
            && |r.candidates| <= |candidates|
            && (|active| <= K ==> |r.active| <= K)
            && (r.candidates == [] || |r.active| >= K)
            && (forall k, e :: |active| <= k < |r.active| && e in r.candidates ==> e.lastSeen <= r.active[k].lastSeen)
            && (forall e :: e in r.candidates ==> e in candidates)
  {
    PromoteConserves(active, candidates);
    PromoteFreshestFirst(active, candidates);
  }

  /** The candidates that have not been seen for the stale threshold. */
  function Expired(b: Bucket, now: nat): seq<Entry> {
    Filter(b.candidates, (e: Entry) => Elapsed(now, e.lastSeen) >= STALE_THRESHOLD)
  }

  /** The stale active entries that meet a full candidate list. */
  function Crowded(b: Bucket, now: nat): seq<Entry> {
    Filter(b.active, StaleAt(now))[|Demoted(b, now)|..]
  }

  /**
   * Eviction loses exactly the expired candidates and the stale active entries without room: every live
   * active entry stays active, in order and in front; the bucket ends with K active entries or no candidates.
   */
  lemma EvictConserves(b: Bucket, now: nat)
    ensures var r := EvictBucket(b, now);
            && Entries(b) == Entries(r) + multiset(Expired(b, now)) + multiset(Crowded(b, now))
            && Filter(b.active, LiveAt(now)) <= r.active
            && (Crowded(b, now) != [] ==> |Filter(b.candidates, FreshAt(now)) + Demoted(b, now)| >= K)
            && (|b.active| <= K ==> |r.active| <= K)
            && (|b.candidates| <= K ==> |r.candidates| <= K)
            && (r.candidates == [] || |r.active| >= K)
  {
    var live, kept, demoted := Filter(b.active, LiveAt(now)), Filter(b.candidates, FreshAt(now)), Demoted(b, now);
    EvictSplit(b, now);
    PromoteMoves(live, kept + demoted);
    assert multiset(kept + demoted) == multiset(kept) + multiset(demoted);
  }

  /** Before anything is promoted: who stays, who is demoted and who is lost. */
  lemma EvictSplit(b: Bucket, now: nat)
    ensures multiset(b.active) == multiset(Filter(b.active, LiveAt(now))) + multiset(Demoted(b, now)) + multiset(Crowded(b, now))
    ensures multiset(b.candidates) == multiset(Filter(b.candidates, FreshAt(now))) + multiset(Expired(b, now))
  {
    FilterPartition(b.active, LiveAt(now), StaleAt(now));
    FilterPartition(b.candidates, FreshAt(now), (e: Entry) => Elapsed(now, e.lastSeen) >= STALE_THRESHOLD);
    assert Filter(b.active, StaleAt(now)) == Demoted(b, now) + Crowded(b, now);
  }

  /** An active entry that was never pinged, or was seen since its ping, or was pinged recently, is still active afterwards. */
  lemma LiveEntriesStay(b: Bucket, e: Entry, now: nat)
    requires e in b.active
    requires e.lastPinged.None? || e.lastSeen >= e.lastPinged.value || Elapsed(now, e.lastPinged.value) <= STALE_THRESHOLD
    ensures e in EvictBucket(b, now).active
  {
    EvictConserves(b, now);
    var live := Filter(b.active, LiveAt(now));
    assert e in live;
  }

  // -------- every operation keeps the invariant --------

  lemma ReplaceKeeps(local: NodeId, i: nat, b: Bucket, r: Bucket, e: Entry, f: Entry)
    requires BucketOk(local, i, b) && e in Entries(b) && f.id == e.id
    requires Entries(r) == Entries(b) - multiset{e} + multiset{f}
    requires |r.active| <= K && |r.candidates| <= K
    ensures BucketOk(local, i, r)
  {
    assert Entries(b)[e] == 1;
  }

  lemma InsertKeeps(local: NodeId, i: nat, b: Bucket, r: Bucket, f: Entry)
    requires BucketOk(local, i, b) && forall e :: e in Entries(b) ==> e.id != f.id
    requires Entries(r) == Entries(b) + multiset{f}
    requires f.id != local && BucketIndex(local, f.id) == i
    requires |r.active| <= K && |r.candidates| <= K
    ensures BucketOk(local, i, r)
  {
  }

  lemma ShrinkKeeps(local: NodeId, i: nat, b: Bucket, r: Bucket)
    requires BucketOk(local, i, b) && Entries(r) <= Entries(b)
    requires |r.active| <= K && |r.candidates| <= K
    ensures BucketOk(local, i, r)
  {
    UniqueSubset(Entries(r), Entries(b));
  }

  lemma PingKeeps(local: NodeId, i: nat, b: Bucket, now: nat)
    requires BucketOk(local, i, b)
    ensures BucketOk(local, i, b.(active := PingOldest(b.active, now).0))
  {
    match OldestDue(b.active, now)
    case None =>
    case Some(k) =>
      var e := b.active[k];
      var f := e.(lastPinged := Some(now));
      var r := b.(active := b.active[k := f]);
      SetAt(b.active, k, f);
      assert Entries(r) == Entries(b) - multiset{e} + multiset{f};
      ReplaceKeeps(local, i, b, r, e, f);
  }

  lemma RefreshActiveKeeps(local: NodeId, i: nat, b: Bucket, p: nat, f: Entry)
    requires BucketOk(local, i, b) && p < |b.active| && f.id == b.active[p].id
    ensures BucketOk(local, i, b.(active := RemoveAt(b.active, p) + [f]))
  {
    var r := b.(active := RemoveAt(b.active, p) + [f]);
    assert Entries(r) == Entries(b) - multiset{b.active[p]} + multiset{f};
    ReplaceKeeps(local, i, b, r, b.active[p], f);
  }

  lemma RefreshCandidateKeeps(local: NodeId, i: nat, b: Bucket, p: nat, f: Entry)
    requires BucketOk(local, i, b) && p < |b.candidates| && f.id == b.candidates[p].id
    ensures BucketOk(local, i, b.(candidates := RemoveAt(b.candidates, p) + [f]))
  {
    var r := b.(candidates := RemoveAt(b.candidates, p) + [f]);
    assert Entries(r) == Entries(b) - multiset{b.candidates[p]} + multiset{f};
    ReplaceKeeps(local, i, b, r, b.candidates[p], f);
  }

  lemma NewcomerKeeps(local: NodeId, i: nat, b: Bucket, f: Entry)
    requires BucketOk(local, i, b) && forall e :: e in Entries(b) ==> e.id != f.id
    requires f.id != local && BucketIndex(local, f.id) == i
    ensures |b.active| < K ==> BucketOk(local, i, b.(active := b.active + [f]))
    ensures |b.candidates| < K ==> BucketOk(local, i, b.(candidates := b.candidates + [f]))
  {
    if |b.active| < K {
      InsertKeeps(local, i, b, b.(active := b.active + [f]), f);
    }
    if |b.candidates| < K {
      InsertKeeps(local, i, b, b.(candidates := b.candidates + [f]), f);
    }
  }

  lemma AddKeeps(local: NodeId, i: nat, b: Bucket, node: NodeId, addr: SocketAddr, now: nat)
    requires BucketOk(local, i, b) && node != local && BucketIndex(local, node) == i
    ensures BucketOk(local, i, AddToBucket(b, node, addr, now).0)
  {
    var f := Entry(node, addr, now, None);
    match (Position(b.active, node), Position(b.candidates, node))
    case (Some(p), _) => RefreshActiveKeeps(local, i, b, p, f);
    case (None, Some(p)) => RefreshCandidateKeeps(local, i, b, p, f);
    case (None, None) =>
      var pinged := b.(active := PingOldest(b.active, now).0);
      PingKeeps(local, i, b, now);
      NoSuchId(b, node);
      NoSuchId(pinged, node);
      NewcomerKeeps(local, i, b, f);
      NewcomerKeeps(local, i, pinged, f);
  }

  lemma NoSuchId(b: Bucket, node: NodeId)
    requires forall k :: 0 <= k < |b.active| ==> b.active[k].id != node
    requires forall k :: 0 <= k < |b.candidates| ==> b.candidates[k].id != node
    ensures forall e :: e in Entries(b) ==> e.id != node
  {
  }

  lemma EvictKeeps(local: NodeId, i: nat, b: Bucket, now: nat)
    requires BucketOk(local, i, b)
    ensures BucketOk(local, i, EvictBucket(b, now))
  {
    EvictConserves(b, now);
    ShrinkKeeps(local, i, b, EvictBucket(b, now));
  }

  lemma RemoveKeeps(local: NodeId, i: nat, b: Bucket, node: NodeId)
    requires BucketOk(local, i, b)
    ensures BucketOk(local, i, RemoveFromBucket(b, node))
  {
    FilterSub(b.active, Other(node));
    FilterSub(b.candidates, Other(node));
    ShrinkKeeps(local, i, b, RemoveFromBucket(b, node));
  }

  // -------- runs --------

  datatype Op = Add(node: NodeId, addr: SocketAddr) | Remove(node: NodeId) | Ping(target: NodeId) | EvictStale

  datatype Event = Event(op: Op, now: nat)

  function Empty(local: NodeId): Table {
    Table(local, seq(BUCKETS, _ => Bucket([], [])))
  }

  /** One call: the new table and the node handed out to be pinged, if any. */
  function Step(t: Table, ev: Event): (r: (Table, Option<Contact>))
    requires Shaped(t)
    ensures Shaped(r.0) && r.0.localId == t.localId
  {
    match ev.op
    case Add(node, addr) => AddNode(t, node, addr, ev.now)
    case Remove(node) => (RemoveNode(t, node), None)
    case Ping(target) => NeedsPing(t, target, ev.now)
    case EvictStale => (Evict(t, ev.now), None)
  }

  function Run(t: Table, evs: seq<Event>): (r: Table)
    requires Shaped(t)
    ensures Shaped(r) && r.localId == t.localId
  {
    if evs == [] then t else Step(Run(t, evs[..|evs| - 1]), evs[|evs| - 1]).0
  }

  /** What a call does to one bucket. */
  lemma StepAt(t: Table, ev: Event, i: nat)
    requires Shaped(t) && i < BUCKETS
    ensures var b, r := t.buckets[i], Step(t, ev).0.buckets[i];
            match ev.op
            case Add(node, addr) =>
              if node != t.localId && BucketIndex(t.localId, node) == i then r == AddToBucket(b, node, addr, ev.now).0 else r == b
            case Remove(node) => r == if BucketIndex(t.localId, node) == i then RemoveFromBucket(b, node) else b
            case Ping(target) =>
              r == if BucketIndex(t.localId, target) == i then b.(active := PingOldest(b.active, ev.now).0) else b
            case EvictStale => r == EvictBucket(b, ev.now)
  {
  }

  lemma StepKeepsBucket(t: Table, ev: Event, i: nat)
    requires Inv(t) && i < BUCKETS
    ensures BucketOk(t.localId, i, Step(t, ev).0.buckets[i])
  {
    var b := t.buckets[i];
    assert BucketOk(t.localId, i, b);
    StepAt(t, ev, i);
    match ev.op
    case Add(node, addr) =>
      if node != t.localId && i == BucketIndex(t.localId, node) {
        AddKeeps(t.localId, i, b, node, addr, ev.now);
      }
    case Remove(node) => RemoveKeeps(t.localId, i, b, node);
    case Ping(target) => PingKeeps(t.localId, i, b, ev.now);
    case EvictStale => EvictKeeps(t.localId, i, b, ev.now);
  }

  lemma StepKeepsInv(t: Table, ev: Event)
    requires Inv(t)
    ensures Inv(Step(t, ev).0)
  {
    forall i | 0 <= i < BUCKETS ensures BucketOk(t.localId, i, Step(t, ev).0.buckets[i]) {
      StepKeepsBucket(t, ev, i);
    }
  }

  /** Every reachable table places each id in its bucket, holds no id twice and not the local one, and respects the capacities. */
  lemma {:induction false} RunKeepsInv(local: NodeId, evs: seq<Event>)
    ensures Inv(Run(Empty(local), evs))
  {
    if evs == [] {
      assert forall i :: 0 <= i < BUCKETS ==> Entries(Empty(local).buckets[i]) == multiset{};
    } else {
      RunKeepsInv(local, evs[..|evs| - 1]);
      StepKeepsInv(Run(Empty(local), evs[..|evs| - 1]), evs[|evs| - 1]);
    }
  }

  /** Across all 256 buckets and both lists of each, an id has one place. */
  lemma OnePlacePerId(t: Table, i: nat, p: nat, j: nat, q: nat)
    requires Inv(t) && i < BUCKETS && j < BUCKETS
    requires p < |t.buckets[i].active + t.buckets[i].candidates|
    requires q < |t.buckets[j].active + t.buckets[j].candidates|
    requires (t.buckets[i].active + t.buckets[i].candidates)[p].id == (t.buckets[j].active + t.buckets[j].candidates)[q].id
    ensures i == j && p == q
  {
    var s, u := t.buckets[i].active + t.buckets[i].candidates, t.buckets[j].active + t.buckets[j].candidates;
    assert BucketOk(t.localId, i, t.buckets[i]) && BucketOk(t.localId, j, t.buckets[j]);
    assert multiset(s) == Entries(t.buckets[i]) && multiset(u) == Entries(t.buckets[j]);
    assert s[p] in multiset(s) && u[q] in multiset(u);
    if p < q {
      TwiceInList(s, p, q);
    } else if q < p {
      TwiceInList(s, q, p);
    }
  }

  lemma TwiceInList(s: seq<Entry>, p: nat, q: nat)
    requires p < q < |s|
    requires UniqueIds(multiset(s))
    ensures s[p].id != s[q].id
  {
    var front := multiset(s[..q]);
    assert s == s[..q] + [s[q]] + s[q + 1..];
    assert multiset(s) == front + multiset{s[q]} + multiset(s[q + 1..]);
    assert s[..q][p] in front;
  }

  // -------- candidates wait only behind a full active list --------

  lemma AddKeepsFull(b: Bucket, node: NodeId, addr: SocketAddr, now: nat)
    requires FullOrNoCandidates(b) && |b.active| <= K
    ensures FullOrNoCandidates(AddToBucket(b, node, addr, now).0)
  {
  }

  lemma StepKeepsFull(t: Table, ev: Event, i: nat)
    requires Inv(t) && !ev.op.Remove? && i < BUCKETS
    requires FullOrNoCandidates(t.buckets[i])
    ensures FullOrNoCandidates(Step(t, ev).0.buckets[i])
  {
    var b := t.buckets[i];
    assert BucketOk(t.localId, i, b);
    StepAt(t, ev, i);
    match ev.op
    case Add(node, addr) => AddKeepsFull(b, node, addr, ev.now);
    case Ping(target) =>
    case EvictStale => EvictConserves(b, ev.now);
  }

  /** Without removals, a bucket with waiting candidates always has K active entries. */
  lemma {:induction false} CandidatesOnlyWhenFull(local: NodeId, evs: seq<Event>, i: nat)
    requires forall k :: 0 <= k < |evs| ==> !evs[k].op.Remove?
    requires i < BUCKETS
    ensures FullOrNoCandidates(Run(Empty(local), evs).buckets[i])
  {
    if evs != [] {
      var prefix := evs[..|evs| - 1];
      CandidatesOnlyWhenFull(local, prefix, i);
      RunKeepsInv(local, prefix);
      StepKeepsFull(Run(Empty(local), prefix), evs[|evs| - 1], i);
    }
  }

  /** After removals, the next eviction restores it in every bucket. */
  lemma EvictionRefills(t: Table, now: nat, i: nat)
    requires Inv(t) && i < BUCKETS
    ensures FullOrNoCandidates(Step(t, Event(EvictStale, now)).0.buckets[i])
  {
    assert BucketOk(t.localId, i, t.buckets[i]);
    StepAt(t, Event(EvictStale, now), i);
    EvictConserves(t.buckets[i], now);
  }

  // -------- the ping cooldown --------

  /** Every entry for this id was pinged at or after `since`. */
  ghost predicate PingedSince(t: Table, id: NodeId, since: nat)
    requires Shaped(t)
  {
    forall i, e :: 0 <= i < BUCKETS && e in Entries(t.buckets[i]) && e.id == id ==>
      e.lastPinged.Some? && e.lastPinged.value >= since
  }

  ghost predicate HandsOut(t: Table, ev: Event, id: NodeId)
    requires Shaped(t)
  {
    Step(t, ev).1.Some? && Step(t, ev).1.value.id == id
  }

  /** The bucket and position of the entry a call hands out: the oldest one due a ping. */
  ghost predicate HandedFrom(t: Table, ev: Event, i: nat, k: nat)
    requires Shaped(t) && i < BUCKETS
  {
    && OldestDue(t.buckets[i].active, ev.now) == Some(k)
    && Step(t, ev).1 == Some(ContactOf(t.buckets[i].active[k]))
    && Step(t, ev).0.buckets[i].active == t.buckets[i].active[k := t.buckets[i].active[k].(lastPinged := Some(ev.now))]
  }

  lemma AddHandsOut(t: Table, ev: Event)
    requires Shaped(t) && ev.op.Add? && Step(t, ev).1.Some?
    ensures var i := BucketIndex(t.localId, ev.op.node);
            OldestDue(t.buckets[i].active, ev.now).Some? && HandedFrom(t, ev, i, OldestDue(t.buckets[i].active, ev.now).value)
    ensures forall e :: e in t.buckets[BucketIndex(t.localId, ev.op.node)].active ==> e.id != ev.op.node
  {
  }

  lemma PingHandsOut(t: Table, ev: Event)
    requires Shaped(t) && ev.op.Ping? && Step(t, ev).1.Some?
    ensures var i := BucketIndex(t.localId, ev.op.target);
            OldestDue(t.buckets[i].active, ev.now).Some? && HandedFrom(t, ev, i, OldestDue(t.buckets[i].active, ev.now).value)
  {
  }

  lemma HandedOutEntry(t: Table, ev: Event, id: NodeId) returns (i: nat, k: nat)
    requires Inv(t) && HandsOut(t, ev, id)
    ensures i < BUCKETS && HandedFrom(t, ev, i, k) && t.buckets[i].active[k].id == id
    ensures ev.op.Add? ==> ev.op.node != id
  {
    match ev.op
    case Add(node, _) =>
      i := BucketIndex(t.localId, node);
      AddHandsOut(t, ev);
      k := OldestDue(t.buckets[i].active, ev.now).value;
    case Ping(target) =>
      i := BucketIndex(t.localId, target);
      PingHandsOut(t, ev);
      k := OldestDue(t.buckets[i].active, ev.now).value;
  }

  lemma HandingOutMarks(t: Table, ev: Event, id: NodeId)
    requires Inv(t) && HandsOut(t, ev, id)
    ensures PingedSince(Step(t, ev).0, id, ev.now)
  {
    var r := Step(t, ev).0;
    var i, k := HandedOutEntry(t, ev, id);
    StepKeepsInv(t, ev);
    var marked := r.buckets[i].active[k];
    assert marked.id == id && marked.lastPinged == Some(ev.now) && marked in Entries(r.buckets[i]);
    forall j, e | 0 <= j < BUCKETS && e in Entries(r.buckets[j]) && e.id == id
      ensures e.lastPinged.Some? && e.lastPinged.value >= ev.now
    {
      assert BucketOk(r.localId, j, r.buckets[j]) && BucketOk(r.localId, i, r.buckets[i]);
    }
  }

  lemma PingKeepsMark(b: Bucket, now: nat, e: Entry)
    requires e in Entries(b.(active := PingOldest(b.active, now).0))
    ensures e in Entries(b) || (e.lastPinged == Some(now))
  {
    match OldestDue(b.active, now)
    case None =>
    case Some(k) => SetAt(b.active, k, b.active[k].(lastPinged := Some(now)));
  }

  lemma RefreshOnlyAdds(list: seq<Entry>, p: nat, f: Entry)
    requires p < |list|
    ensures multiset(RemoveAt(list, p) + [f]) <= multiset(list) + multiset{f}
  {
  }

  /** A newcomer at a full bucket brings itself and at most one new ping mark. */
  lemma NewcomerKeepsMark(b: Bucket, f: Entry, now: nat, e: Entry)
    requires e in multiset(PingOldest(b.active, now).0) + multiset(b.candidates + [f]) && e != f
    ensures e in Entries(b) || e.lastPinged == Some(now)
  {
    PingKeepsMark(b, now, e);
  }

  lemma AddKeepsMark(b: Bucket, node: NodeId, addr: SocketAddr, now: nat, e: Entry)
    requires e in Entries(AddToBucket(b, node, addr, now).0) && e.id != node
    ensures e in Entries(b) || e.lastPinged == Some(now)
  {
    var f := Entry(node, addr, now, None);
    match (Position(b.active, node), Position(b.candidates, node))
    case (Some(p), _) => RefreshOnlyAdds(b.active, p, f);
    case (None, Some(p)) => RefreshOnlyAdds(b.candidates, p, f);
    case (None, None) =>
      if |b.active| >= K && |b.candidates| < K {
        NewcomerKeepsMark(b, f, now, e);
      }
  }

  lemma StepKeepsEntry(t: Table, ev: Event, i: nat, e: Entry)
    requires Shaped(t) && i < BUCKETS && e in Entries(Step(t, ev).0.buckets[i])
    requires !(ev.op.Add? && ev.op.node == e.id)
    ensures e in Entries(t.buckets[i]) || e.lastPinged == Some(ev.now)
  {
    var b := t.buckets[i];
    StepAt(t, ev, i);
    match ev.op
    case Add(node, addr) =>
      if node != t.localId && BucketIndex(t.localId, node) == i {
        AddKeepsMark(b, node, addr, ev.now, e);
      }
    case Remove(node) =>
      FilterSub(b.active, Other(node));
      FilterSub(b.candidates, Other(node));
    case Ping(target) =>
      if BucketIndex(t.localId, target) == i {
        PingKeepsMark(b, ev.now, e);
      }
    case EvictStale => EvictConserves(b, ev.now);
  }

  lemma StepKeepsMark(t: Table, ev: Event, id: NodeId, since: nat)
    requires Shaped(t) && PingedSince(t, id, since) && ev.now >= since
    requires !(ev.op.Add? && ev.op.node == id)
    ensures PingedSince(Step(t, ev).0, id, since)
  {
    var r := Step(t, ev).0;
    forall i, e | 0 <= i < BUCKETS && e in Entries(r.buckets[i]) && e.id == id
      ensures e.lastPinged.Some? && e.lastPinged.value >= since
    {
      StepKeepsEntry(t, ev, i, e);
    }
  }

  ghost predicate Clocked(evs: seq<Event>) {
    forall i, j :: 0 <= i <= j < |evs| ==> evs[i].now <= evs[j].now
  }

  lemma RunExtends(t: Table, evs: seq<Event>, j: nat)
    requires Shaped(t) && j < |evs|
    ensures Run(t, evs[..j + 1]) == Step(Run(t, evs[..j]), evs[j]).0
  {
    assert evs[..j + 1][..j] == evs[..j];
  }

  lemma {:induction false} MarkSurvives(local: NodeId, evs: seq<Event>, i: nat, j: nat, id: NodeId)
    requires i < j <= |evs| && Clocked(evs)
    requires HandsOut(Run(Empty(local), evs[..i]), evs[i], id)
    requires forall k :: i < k < j ==> !(evs[k].op.Add? && evs[k].op.node == id)
    ensures PingedSince(Run(Empty(local), evs[..j]), id, evs[i].now)
    decreases j
  {
    var before := Run(Empty(local), evs[..j - 1]);
    RunExtends(Empty(local), evs, j - 1);
    if j == i + 1 {
      RunKeepsInv(local, evs[..i]);
      HandingOutMarks(before, evs[i], id);
    } else {
      MarkSurvives(local, evs, i, j - 1, id);
      StepKeepsMark(before, evs[j - 1], id, evs[i].now);
    }
  }

  /**
   * In every run, a node is handed out for pinging twice only if more than a minute passed in between, or
   * it was added again in between; demotions, promotions and removals do not reset the cooldown.
   */
  lemma PingCooldown(local: NodeId, evs: seq<Event>, i: nat, j: nat, id: NodeId)
    requires i < j < |evs| && Clocked(evs)
    requires HandsOut(Run(Empty(local), evs[..i]), evs[i], id)
    requires HandsOut(Run(Empty(local), evs[..j]), evs[j], id)
    requires forall k :: i < k < j ==> !(evs[k].op.Add? && evs[k].op.node == id)
    ensures evs[j].now > evs[i].now + PING_COOLDOWN
  {
    MarkSurvives(local, evs, i, j, id);
    RunKeepsInv(local, evs[..j]);
    var t := Run(Empty(local), evs[..j]);
    var b, k := HandedOutEntry(t, evs[j], id);
    assert t.buckets[b].active[k] in Entries(t.buckets[b]);
  }
}
