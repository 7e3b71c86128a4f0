/** What single calls on the routing table change, and what the table then remembers of each node over runs. */
module RoutingEffects {
  import opened Wrappers
  import opened NodeIds
  import opened Contacts
  import opened Routing
  import opened RoutingRuns
  import opened ClosestNodesTheorems

  predicate HasId(s: seq<Entry>, id: NodeId) {
    exists k :: 0 <= k < |s| && s[k].id == id
  }

  predicate Known(b: Bucket, id: NodeId) {
    HasId(b.active, id) || HasId(b.candidates, id)
  }

  /** The same node, address and time; at most a new ping mark. */
  predicate SameNode(e: Entry, f: Entry, now: nat) {
    f.id == e.id && f.addr == e.addr && f.lastSeen == e.lastSeen && (f.lastPinged == e.lastPinged || f.lastPinged == Some(now))
  }

  /** Apart from entries with this id, both lists hold the same nodes. */
  ghost predicate OthersKept(s: seq<Entry>, r: seq<Entry>, id: NodeId, now: nat) {
    && (forall f :: f in r && f.id != id ==> exists e :: e in s && SameNode(e, f, now))
    && (forall e :: e in s && e.id != id ==> exists f :: f in r && SameNode(e, f, now))
  }

  /** Every entry of the list with the id of e is e itself. */
  ghost predicate OnlyAs(s: seq<Entry>, e: Entry) {
    forall f :: f in s && f.id == e.id ==> f == e
  }

  lemma KeptAsIs(s: seq<Entry>, id: NodeId, now: nat)
    ensures OthersKept(s, s, id, now)
  {
    forall f | f in s && f.id != id ensures exists e :: e in s && SameNode(e, f, now) {
      assert SameNode(f, f, now);
    }
  }

  lemma AbsentAs(s: seq<Entry>, e: Entry)
    requires !HasId(s, e.id)
    ensures OnlyAs(s, e) && e !in s
  {
    forall f | f in s ensures f.id != e.id {
      var k :| 0 <= k < |s| && s[k] == f;
    }
  }

  lemma RemovedMembers(s: seq<Entry>, p: nat, f: Entry)
    requires p < |s|
    ensures f in RemoveAt(s, p) ==> f in s
    ensures f in s && f != s[p] ==> f in RemoveAt(s, p)
  {
    var r := RemoveAt(s, p);
    if f in s && f != s[p] {
      var k :| 0 <= k < |s| && s[k] == f;
      assert r[if k < p then k else k - 1] == f;
    }
  }

  lemma GoneById(s: seq<Entry>, p: nat, f: Entry)
    requires p < |s| && UniqueIds(multiset(s)) && f in RemoveAt(s, p)
    ensures f.id != s[p].id && f in s
  {
    var gone := RemoveAt(s, p);
    var k :| 0 <= k < |gone| && gone[k] == f;
    if k < p {
      TwiceInList(s, k, p);
    } else {
      TwiceInList(s, p, k + 1);
    }
  }

  lemma OthersStay(s: seq<Entry>, p: nat, e: Entry, now: nat)
    requires p < |s| && s[p].id == e.id && forall f :: f in RemoveAt(s, p) ==> f in s
    ensures OthersKept(s, RemoveAt(s, p) + [e], e.id, now)
  {
    var r := RemoveAt(s, p) + [e];
    forall f | f in r && f.id != e.id ensures exists g :: g in s && SameNode(g, f, now) {
      assert f in s && SameNode(f, f, now);
    }
    forall f | f in s && f.id != e.id ensures exists g :: g in r && SameNode(f, g, now) {
      RemovedMembers(s, p, f);
      assert f in r && SameNode(f, f, now);
    }
  }

  /** Taking an entry out and pushing its replacement. */
  lemma Refreshed(s: seq<Entry>, p: nat, e: Entry, now: nat)
    requires p < |s| && s[p].id == e.id && UniqueIds(multiset(s))
    ensures var r := RemoveAt(s, p) + [e]; e in r && OnlyAs(r, e) && OthersKept(s, r, e.id, now)
  {
    forall f | f in RemoveAt(s, p) ensures f.id != e.id && f in s {
      GoneById(s, p, f);
    }
    OthersStay(s, p, e, now);
  }

  lemma Pushed(s: seq<Entry>, e: Entry, now: nat)
    requires !HasId(s, e.id)
    ensures var r := s + [e]; e in r && OnlyAs(r, e) && OthersKept(s, r, e.id, now)
  {
    AbsentAs(s, e);
    forall f | f in s ensures SameNode(f, f, now) {
    }
  }

  /** Position by position the same nodes, but for ping marks. */
  ghost predicate Pointwise(s: seq<Entry>, r: seq<Entry>, now: nat) {
    |s| == |r| && forall k :: 0 <= k < |s| ==> SameNode(s[k], r[k], now)
  }

  lemma PointwiseKeeps(s: seq<Entry>, r: seq<Entry>, id: NodeId, now: nat)
    requires Pointwise(s, r, now)
    ensures OthersKept(s, r, id, now) && (HasId(r, id) <==> HasId(s, id))
  {
    forall f | f in r && f.id != id ensures exists e :: e in s && SameNode(e, f, now) {
      var k :| 0 <= k < |r| && r[k] == f;
      assert s[k] in s && SameNode(s[k], f, now);
    }
    forall e | e in s && e.id != id ensures exists f :: f in r && SameNode(e, f, now) {
      var k :| 0 <= k < |s| && s[k] == e;
      assert r[k] in r && SameNode(e, r[k], now);
    }
  }

  /** Pinging changes at most one mark. */
  lemma PingIsPointwise(s: seq<Entry>, now: nat)
    ensures Pointwise(s, PingOldest(s, now).0, now)
  {
  }

  // -------- adding --------

  /** What adding e leaves in a bucket: e where its id was, or where there is room, and nothing else under its id. */
  ghost predicate AddedTo(b: Bucket, r: Bucket, e: Entry, now: nat) {
    && (e in r.active <==> HasId(b.active, e.id) || (!Known(b, e.id) && |b.active| < K))
    && (e in r.candidates <==>
          !HasId(b.active, e.id) && (HasId(b.candidates, e.id) || (|b.active| >= K && |b.candidates| < K)))
    && OnlyAs(r.active, e) && OnlyAs(r.candidates, e)
    && OthersKept(b.active, r.active, e.id, now) && OthersKept(b.candidates, r.candidates, e.id, now)
  }

  lemma OneList(b: Bucket, id: NodeId)
    requires UniqueIds(Entries(b)) && HasId(b.active, id)
    ensures !HasId(b.candidates, id)
  {
    var j :| 0 <= j < |b.active| && b.active[j].id == id;
    var e := b.active[j];
    assert e in multiset(b.active) && e in Entries(b);
    assert multiset(b.candidates)[e] == 0;
    forall k | 0 <= k < |b.candidates| ensures b.candidates[k].id != id {
      assert b.candidates[k] in multiset(b.candidates) && b.candidates[k] in Entries(b);
    }
  }

  lemma HasPosition(s: seq<Entry>, id: NodeId)
    ensures HasId(s, id) <==> Position(s, id).Some?
  {
  }

  lemma AddRefreshesActive(b: Bucket, node: NodeId, addr: SocketAddr, now: nat)
    requires UniqueIds(Entries(b)) && HasId(b.active, node)
    ensures AddedTo(b, AddToBucket(b, node, addr, now).0, Entry(node, addr, now, None), now)
  {
    var e := Entry(node, addr, now, None);
    HasPosition(b.active, node);
    OneList(b, node);
    UniqueSubset(multiset(b.active), Entries(b));
    Refreshed(b.active, Position(b.active, node).value, e, now);
    AbsentAs(b.candidates, e);
    KeptAsIs(b.candidates, node, now);
  }

  lemma AddRefreshesCandidate(b: Bucket, node: NodeId, addr: SocketAddr, now: nat)
    requires UniqueIds(Entries(b)) && !HasId(b.active, node) && HasId(b.candidates, node)
    ensures AddedTo(b, AddToBucket(b, node, addr, now).0, Entry(node, addr, now, None), now)
  {
    var e := Entry(node, addr, now, None);
    HasPosition(b.active, node);
    HasPosition(b.candidates, node);
    UniqueSubset(multiset(b.candidates), Entries(b));
    Refreshed(b.candidates, Position(b.candidates, node).value, e, now);
    AbsentAs(b.active, e);
    KeptAsIs(b.active, node, now);
  }

  lemma AddUnknownNode(b: Bucket, node: NodeId, addr: SocketAddr, now: nat)
    requires !Known(b, node)
    ensures AddedTo(b, AddToBucket(b, node, addr, now).0, Entry(node, addr, now, None), now)
  {
    var e := Entry(node, addr, now, None);
    HasPosition(b.active, node);
    HasPosition(b.candidates, node);
    AbsentAs(b.active, e);
    AbsentAs(b.candidates, e);
    KeptAsIs(b.active, node, now);
    KeptAsIs(b.candidates, node, now);
    if |b.active| < K {
      Pushed(b.active, e, now);
    } else if |b.candidates| < K {
      Pushed(b.candidates, e, now);
      PingIsPointwise(b.active, now);
      PointwiseKeeps(b.active, PingOldest(b.active, now).0, node, now);
      AbsentAs(PingOldest(b.active, now).0, e);
    }
  }

  lemma AddBucketEffect(b: Bucket, node: NodeId, addr: SocketAddr, now: nat)
    requires UniqueIds(Entries(b))
    ensures AddedTo(b, AddToBucket(b, node, addr, now).0, Entry(node, addr, now, None), now)
  {
    if HasId(b.active, node) {
      AddRefreshesActive(b, node, addr, now);
    } else if HasId(b.candidates, node) {
      AddRefreshesCandidate(b, node, addr, now);
    } else {
      AddUnknownNode(b, node, addr, now);
    }
  }

  lemma UniqueAt(t: Table, i: nat)
    requires Inv(t) && i < BUCKETS
    ensures UniqueIds(Entries(t.buckets[i]))
  {
    assert BucketOk(t.localId, i, t.buckets[i]);
  }

  lemma AddTouchesOne(t: Table, node: NodeId, addr: SocketAddr, now: nat)
    requires Shaped(t) && node != t.localId
    ensures var i, r := BucketIndex(t.localId, node), AddNode(t, node, addr, now).0;
            && r.buckets[i] == AddToBucket(t.buckets[i], node, addr, now).0
            && r.localId == t.localId && forall j :: 0 <= j < BUCKETS && j != i ==> r.buckets[j] == t.buckets[j]
  {
  }

  /**
   * Adding a node: whatever was known of it is replaced by the new address, the present time and no ping mark;
   * an unknown node gets in while there is room, active first; other nodes change at most a ping mark, and other
   * buckets nothing.
   */
  lemma AddEffect(t: Table, node: NodeId, addr: SocketAddr, now: nat)
    requires Inv(t) && node != t.localId
    ensures var i, r := BucketIndex(t.localId, node), AddNode(t, node, addr, now).0;
            && AddedTo(t.buckets[i], r.buckets[i], Entry(node, addr, now, None), now)
            && r.localId == t.localId && forall j :: 0 <= j < BUCKETS && j != i ==> r.buckets[j] == t.buckets[j]
  {
    var i := BucketIndex(t.localId, node);
    UniqueAt(t, i);
    AddTouchesOne(t, node, addr, now);
    AddBucketEffect(t.buckets[i], node, addr, now);
  }

  /** The local node is never added. */
  lemma AddSelf(t: Table, addr: SocketAddr, now: nat)
    requires Shaped(t)
    ensures AddNode(t, t.localId, addr, now) == (t, None)
  {
  }

  /** Adding asks for a ping exactly when an unknown node takes the last kind of place and someone active is due. */
  lemma AddPingsIff(t: Table, node: NodeId, addr: SocketAddr, now: nat)
    requires Shaped(t)
    ensures var b := t.buckets[BucketIndex(t.localId, node)];
            AddNode(t, node, addr, now).1.Some? <==>
              && node != t.localId && !Known(b, node) && |b.active| >= K && |b.candidates| < K
              && exists k :: 0 <= k < |b.active| && PingDue(b.active[k], now)
  {
    var b := t.buckets[BucketIndex(t.localId, node)];
    HasPosition(b.active, node);
    HasPosition(b.candidates, node);
  }

  /** `needs_ping` names someone exactly when someone active in the bucket is due. */
  lemma NeedsPingIff(t: Table, target: NodeId, now: nat)
    requires Shaped(t)
    ensures var b := t.buckets[BucketIndex(t.localId, target)];
            NeedsPing(t, target, now).1.Some? <==> exists k :: 0 <= k < |b.active| && PingDue(b.active[k], now)
  {
  }

  // -------- removing --------

  /** Removing a node takes out every entry with its id, and no other, and leaves the other buckets alone. */
  lemma RemoveEffect(t: Table, node: NodeId, e: Entry, i: nat)
    requires Inv(t) && i < BUCKETS
    ensures var b, r := t.buckets[i], RemoveNode(t, node).buckets[i];
            && (e in r.active <==> e in b.active && e.id != node)
            && (e in r.candidates <==> e in b.candidates && e.id != node)
  {
    var b := t.buckets[i];
    assert BucketOk(t.localId, i, b);
    if e in b.active {
      assert e in Entries(b);
    }
    if e in b.candidates {
      assert e in Entries(b);
    }
  }

  // -------- evicting --------

  /** How many of s were seen after time t. */
  function SeenAfter(s: seq<Entry>, t: nat): (k: nat)
    ensures k <= |s|
  {
    if s == [] then 0 else SeenAfter(s[..|s| - 1], t) + if s[|s| - 1].lastSeen > t then 1 else 0
  }

  /** What promotion adds are the freshest candidates: whoever has enough fresher ones stays down. */
  lemma {:induction false} PassedOver(active: seq<Entry>, candidates: seq<Entry>, e: Entry)
    requires |active| <= K && e !in active && multiset(candidates)[e] <= 1
    requires |active| + SeenAfter(candidates, e.lastSeen) >= K
    ensures e !in Promote(active, candidates).active
    decreases |candidates|
  {
    if |active| < K && candidates != [] {
      var i := Freshest(candidates);
      var rest := RemoveAt(candidates, i);
      SeenAfterRemoved(candidates, i, e.lastSeen);
      if candidates[i].lastSeen <= e.lastSeen {
        NoneSeenAfter(candidates, e.lastSeen);
      }
      PassedOver(active + [candidates[i]], rest, e);
    }
  }

  lemma {:induction false} NoneSeenAfter(s: seq<Entry>, t: nat)
    requires forall k :: 0 <= k < |s| ==> s[k].lastSeen <= t
    ensures SeenAfter(s, t) == 0
  {
    if s != [] {
      NoneSeenAfter(s[..|s| - 1], t);
    }
  }

  lemma {:induction false} SeenAfterAppend(a: seq<Entry>, b: seq<Entry>, t: nat)
    ensures SeenAfter(a + b, t) == SeenAfter(a, t) + SeenAfter(b, t)
  {
    if b == [] {
      assert a + b == a;
    } else {
      assert (a + b)[..|a + b| - 1] == a + b[..|b| - 1];
      SeenAfterAppend(a, b[..|b| - 1], t);
    }
  }

  lemma SeenAfterRemoved(s: seq<Entry>, i: nat, t: nat)
    requires i < |s|
    ensures SeenAfter(RemoveAt(s, i), t) == SeenAfter(s, t) - if s[i].lastSeen > t then 1 else 0
  {
    assert s == s[..i] + ([s[i]] + s[i + 1..]);
    SeenAfterAppend(s[..i], [s[i]] + s[i + 1..], t);
    SeenAfterAppend([s[i]], s[i + 1..], t);
    SeenAfterAppend(s[..i], s[i + 1..], t);
  }

  /**
   * An active entry that was pinged more than 120 s ago and has not been seen since loses its place, if the live
   * entries and the candidates seen after it fill the bucket. (Otherwise it may be demoted and promoted again.)
   */
  lemma StaleEntryReplaced(local: NodeId, i: nat, b: Bucket, e: Entry, now: nat)
    requires BucketOk(local, i, b) && e in b.active
    requires e.lastPinged.Some? && now > e.lastPinged.value + 120 * SECOND && e.lastSeen < e.lastPinged.value
    requires |Filter(b.active, LiveAt(now))| + SeenAfter(Filter(b.candidates, FreshAt(now)), e.lastSeen) >= K
    ensures e !in EvictBucket(b, now).active
  {
    var live, kept := Filter(b.active, LiveAt(now)), Filter(b.candidates, FreshAt(now));
    StaleIsDemotedOnce(b, e, now);
    SeenAfterAppend(kept, Demoted(b, now), e.lastSeen);
    PassedOver(live, kept + Demoted(b, now), e);
  }

  lemma StaleIsDemotedOnce(b: Bucket, e: Entry, now: nat)
    requires UniqueIds(Entries(b)) && e in b.active && Stale(e, now)
    ensures e !in Filter(b.active, LiveAt(now))
    ensures multiset(Filter(b.candidates, FreshAt(now)) + Demoted(b, now))[e] <= 1
  {
    EvictSplit(b, now);
    var kept := Filter(b.candidates, FreshAt(now));
    assert multiset(kept + Demoted(b, now)) == multiset(kept) + multiset(Demoted(b, now));
    assert e in Entries(b) && Entries(b)[e] == 1;
  }

  // -------- what the table remembers over runs --------

  /** evs[k] is the last call that adds id. */
  ghost predicate LastAdd(evs: seq<Event>, k: nat, id: NodeId) {
    && k < |evs| && evs[k].op.Add? && evs[k].op.node == id
    && forall j :: k < j < |evs| ==> !(evs[j].op.Add? && evs[j].op.node == id)
  }

  /** The same node was in the bucket before, but for the ping mark. */
  ghost predicate WasThere(b: Bucket, e: Entry, now: nat) {
    exists f :: f in Entries(b) && SameNode(f, e, now)
  }

  lemma StillThere(b: Bucket, e: Entry, now: nat)
    requires e in Entries(b)
    ensures WasThere(b, e, now)
  {
    assert SameNode(e, e, now);
  }

  lemma KeptWasThere(b: Bucket, s: seq<Entry>, r: seq<Entry>, id: NodeId, now: nat, e: Entry)
    requires OthersKept(s, r, id, now) && multiset(s) <= Entries(b) && e in r && e.id != id
    ensures WasThere(b, e, now)
  {
    var f :| f in s && SameNode(f, e, now);
    assert f in multiset(s);
  }

  lemma AddedWasThere(b: Bucket, r: Bucket, x: Entry, now: nat, e: Entry)
    requires AddedTo(b, r, x, now) && e in Entries(r) && e.id != x.id
    ensures WasThere(b, e, now)
  {
    if e in r.active {
      KeptWasThere(b, b.active, r.active, x.id, now, e);
    } else {
      KeptWasThere(b, b.candidates, r.candidates, x.id, now, e);
    }
  }

  lemma AddKeepsNode(b: Bucket, node: NodeId, addr: SocketAddr, now: nat, e: Entry)
    requires UniqueIds(Entries(b)) && e in Entries(AddToBucket(b, node, addr, now).0) && e.id != node
    ensures WasThere(b, e, now)
  {
    AddBucketEffect(b, node, addr, now);
    AddedWasThere(b, AddToBucket(b, node, addr, now).0, Entry(node, addr, now, None), now, e);
  }

  lemma PingKeepsNode(b: Bucket, now: nat, e: Entry)
    requires e in Entries(b.(active := PingOldest(b.active, now).0))
    ensures WasThere(b, e, now)
  {
    var r := PingOldest(b.active, now).0;
    PingIsPointwise(b.active, now);
    if e in r {
      var k :| 0 <= k < |r| && r[k] == e;
      assert b.active[k] in Entries(b) && SameNode(b.active[k], e, now);
    } else {
      assert e in b.candidates;
      StillThere(b, e, now);
    }
  }

  lemma FilteredWasThere(b: Bucket, node: NodeId, now: nat, e: Entry)
    requires e in Entries(RemoveFromBucket(b, node))
    ensures WasThere(b, e, now)
  {
    FilterSub(b.active, Other(node));
    FilterSub(b.candidates, Other(node));
    StillThere(b, e, now);
  }

  lemma EvictedWasThere(b: Bucket, now: nat, e: Entry)
    requires e in Entries(EvictBucket(b, now))
    ensures WasThere(b, e, now)
  {
    EvictConserves(b, now);
    StillThere(b, e, now);
  }

  /** An entry after a call that does not add its id was there before, but for the ping mark. */
  lemma StepKeepsNode(t: Table, ev: Event, i: nat, e: Entry)
    requires Shaped(t) && i < BUCKETS && UniqueIds(Entries(t.buckets[i])) && e in Entries(Step(t, ev).0.buckets[i])
    requires !(ev.op.Add? && ev.op.node == e.id)
    ensures WasThere(t.buckets[i], e, ev.now)
  {
    var b := t.buckets[i];
    StepAt(t, ev, i);
    match ev.op
    case Add(node, addr) =>
      if node != t.localId && BucketIndex(t.localId, node) == i {
        AddKeepsNode(b, node, addr, ev.now, e);
      } else {
        StillThere(b, e, ev.now);
      }
    case Remove(node) =>
      if BucketIndex(t.localId, node) == i {
        FilteredWasThere(b, node, ev.now, e);
      } else {
        StillThere(b, e, ev.now);
      }
    case Ping(target) =>
      if BucketIndex(t.localId, target) == i {
        PingKeepsNode(b, ev.now, e);
      } else {
        StillThere(b, e, ev.now);
      }
    case EvictStale => EvictedWasThere(b, ev.now, e);
  }

  lemma AddedEntryIsNew(b: Bucket, node: NodeId, addr: SocketAddr, now: nat, e: Entry)
    requires UniqueIds(Entries(b)) && e in Entries(AddToBucket(b, node, addr, now).0) && e.id == node
    ensures e == Entry(node, addr, now, None)
  {
    AddBucketEffect(b, node, addr, now);
  }

  lemma AddedIsNew(local: NodeId, t: Table, ev: Event, i: nat, e: Entry)
    requires Shaped(t) && t.localId == local && i < BUCKETS && BucketOk(local, i, t.buckets[i])
    requires ev.op.Add? && ev.op.node == e.id && e in Entries(Step(t, ev).0.buckets[i])
    ensures e.addr == ev.op.addr && e.lastSeen == ev.now
  {
    StepAt(t, ev, i);
    if ev.op.node != local && BucketIndex(local, ev.op.node) == i {
      AddedEntryIsNew(t.buckets[i], e.id, ev.op.addr, ev.now, e);
    }
  }

  lemma BucketAfterRun(local: NodeId, evs: seq<Event>, i: nat)
    requires i < BUCKETS
    ensures BucketOk(local, i, Run(Empty(local), evs).buckets[i])
  {
    RunKeepsInv(local, evs);
  }

  lemma RunLast(t: Table, evs: seq<Event>)
    requires Shaped(t) && evs != []
    ensures Run(t, evs) == Step(Run(t, evs[..|evs| - 1]), evs[|evs| - 1]).0
  {
  }

  lemma LastAddGoesOn(evs: seq<Event>, k: nat, id: NodeId)
    requires evs != [] && LastAdd(evs[..|evs| - 1], k, id) && !(evs[|evs| - 1].op.Add? && evs[|evs| - 1].op.node == id)
    ensures LastAdd(evs, k, id) && evs[k] == evs[..|evs| - 1][k]
  {
  }

  /** In every reachable table an entry carries the address and the time of the last call that added its id. */
  lemma {:induction false} LastAddWins(local: NodeId, evs: seq<Event>, i: nat, e: Entry) returns (k: nat)
    requires i < BUCKETS && e in Entries(Run(Empty(local), evs).buckets[i])
    ensures LastAdd(evs, k, e.id) && evs[k].op.addr == e.addr && evs[k].now == e.lastSeen
  {
    k := 0;
    if evs != [] {
      var init, last := evs[..|evs| - 1], evs[|evs| - 1];
      var t := Run(Empty(local), init);
      BucketAfterRun(local, init, i);
      RunLast(Empty(local), evs);
      if last.op.Add? && last.op.node == e.id {
        AddedIsNew(local, t, last, i, e);
        k := |evs| - 1;
      } else {
        StepKeepsNode(t, last, i, e);
        var f :| f in Entries(t.buckets[i]) && SameNode(f, e, last.now);
        k := LastAddWins(local, init, i, f);
        LastAddGoesOn(evs, k, e.id);
      }
    }
  }

  /** `closest_nodes` names each node under the address it was last added with. */
  lemma ClosestAddresses(local: NodeId, evs: seq<Event>, target: NodeId, n: nat, c: Contact) returns (k: nat)
    requires c in ClosestNodes(Run(Empty(local), evs), target, n)
    ensures LastAdd(evs, k, c.id) && evs[k].op.addr == c.addr
  {
    var t := Run(Empty(local), evs);
    ReachableIsWellPlaced(local, evs);
    ResultShape(t, target, n);
    var i := BucketIndex(t.localId, c.id);
    var j :| 0 <= j < |t.buckets[i].active| && ContactOf(t.buckets[i].active[j]) == c;
    k := LastAddWins(local, evs, i, t.buckets[i].active[j]);
  }

  // -------- lists of nodes --------

  function AddEvents(nodes: seq<Contact>, now: nat): (r: seq<Event>)
    ensures |r| == |nodes|
  {
    seq(|nodes|, i requires 0 <= i < |nodes| => Event(Add(nodes[i].id, nodes[i].addr), now))
  }

  lemma {:induction false} RunAppend(t: Table, a: seq<Event>, b: seq<Event>)
    requires Shaped(t)
    ensures Run(t, a + b) == Run(Run(t, a), b)
  {
    if b == [] {
      assert a + b == a;
    } else {
      assert (a + b)[..|a + b| - 1] == a + b[..|b| - 1];
      RunAppend(t, a, b[..|b| - 1]);
    }
  }

  /** Learning the nodes of a response is adding each of them, in order. */
  lemma {:induction false} AddAllIsRun(t: Table, nodes: seq<Contact>, now: nat)
    requires Shaped(t)
    ensures AddAll(t, nodes, now) == Run(t, AddEvents(nodes, now))
  {
    if nodes != [] {
      var evs := AddEvents(nodes, now);
      assert evs[..|evs| - 1] == AddEvents(nodes[..|nodes| - 1], now);
      AddAllIsRun(t, nodes[..|nodes| - 1], now);
    }
  }
}
