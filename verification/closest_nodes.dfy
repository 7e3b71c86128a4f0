/** What `closest_nodes` promises: where it is exact, and where the outward scan can miss a closer node. */
module ClosestNodesTheorems {
  import opened Wrappers
  import opened Bytes
  import opened NodeIds
  import opened Contacts
  import opened Routing
  import opened RoutingRuns

  function Start(t: Table, target: NodeId): nat {
    BucketIndex(t.localId, target)
  }

  function Scanned(t: Table, target: NodeId, n: nat): seq<Contact>
    requires Shaped(t)
  {
    Gather(t.buckets, Start(t, target), Reach(t, target, n))
  }

  /** c is an active entry of the table (of the one bucket that could hold its id). */
  ghost predicate IsActive(t: Table, c: Contact)
    requires Shaped(t)
  {
    c in ContactsOf(t.buckets[BucketIndex(t.localId, c.id)].active)
  }

  /** The part of the routing invariant that matters here: active entries sit in their buckets, without repeats. */
  ghost predicate WellPlaced(t: Table) {
    && Shaped(t)
    && (forall i, c :: c in ActiveAt(t.buckets, i) ==> BucketIndex(t.localId, c.id) == i && c.id != t.localId)
    && (forall i :: Distinct(Ids(ActiveAt(t.buckets, i))))
  }

  predicate Within(i: int, start: nat, d: nat) {
    start - d <= i <= start + d
  }

  // -------- what the scan gathers --------

  lemma InvMeansWellPlaced(t: Table)
    requires Inv(t)
    ensures WellPlaced(t)
  {
    forall i, c | c in ActiveAt(t.buckets, i) ensures BucketIndex(t.localId, c.id) == i && c.id != t.localId {
      assert BucketOk(t.localId, i, t.buckets[i]);
      var k :| 0 <= k < |t.buckets[i].active| && ContactOf(t.buckets[i].active[k]) == c;
      assert t.buckets[i].active[k] in Entries(t.buckets[i]);
    }
    forall i ensures Distinct(Ids(ActiveAt(t.buckets, i))) {
      if 0 <= i < BUCKETS {
        assert BucketOk(t.localId, i, t.buckets[i]);
        ActiveIdsDistinct(t.buckets[i]);
      }
    }
  }

  lemma ActiveIdsDistinct(b: Bucket)
    requires UniqueIds(Entries(b))
    ensures Distinct(Ids(ContactsOf(b.active)))
  {
    UniqueSubset(multiset(b.active), Entries(b));
    forall p, q | 0 <= p < q < |b.active| ensures b.active[p].id != b.active[q].id {
      TwiceInList(b.active, p, q);
    }
  }

  /** Every table a run of operations reaches is one the theorems below speak about. */
  lemma ReachableIsWellPlaced(local: NodeId, evs: seq<Event>)
    ensures WellPlaced(Run(Empty(local), evs))
  {
    RunKeepsInv(local, evs);
    InvMeansWellPlaced(Run(Empty(local), evs));
  }

  lemma ActiveAtPlaced(t: Table, i: int, c: Contact)
    requires WellPlaced(t) && c in ActiveAt(t.buckets, i)
    ensures 0 <= i < BUCKETS && BucketIndex(t.localId, c.id) == i && IsActive(t, c) && c.id != t.localId
  {
  }

  lemma ActiveAtMembers(t: Table, i: int, c: Contact)
    requires WellPlaced(t)
    ensures c in ActiveAt(t.buckets, i) <==> IsActive(t, c) && BucketIndex(t.localId, c.id) == i
  {
    if c in ActiveAt(t.buckets, i) {
      ActiveAtPlaced(t, i, c);
    }
  }

  /** c is an active contact of a bucket at most d away from start. */
  ghost predicate ActiveWithin(t: Table, start: nat, d: nat, c: Contact)
    requires Shaped(t)
  {
    IsActive(t, c) && Within(BucketIndex(t.localId, c.id), start, d)
  }

  lemma {:induction false} GatherMembers(t: Table, start: nat, d: nat, c: Contact)
    requires WellPlaced(t) && start < BUCKETS
    ensures c in Gather(t.buckets, start, d) <==> ActiveWithin(t, start, d, c)
  {
    if d == 0 {
      ActiveAtMembers(t, start, c);
    } else {
      GatherMembers(t, start, d - 1, c);
      GatherStepMembers(t.buckets, start, d, c);
      ActiveWithinStep(t, start, d, c);
    }
  }

  lemma ActiveWithinStep(t: Table, start: nat, d: nat, c: Contact)
    requires WellPlaced(t) && d > 0
    ensures ActiveWithin(t, start, d, c) <==>
              ActiveWithin(t, start, d - 1, c) || c in ActiveAt(t.buckets, start - d) || c in ActiveAt(t.buckets, start + d)
  {
    ActiveAtMembers(t, start - d, c);
    ActiveAtMembers(t, start + d, c);
    WidenWithin(BucketIndex(t.localId, c.id), start, d);
  }

  lemma GatherStepMembers(bs: seq<Bucket>, start: nat, d: nat, c: Contact)
    requires |bs| == BUCKETS && start < BUCKETS && d > 0
    ensures c in Gather(bs, start, d) <==>
              c in Gather(bs, start, d - 1) || c in ActiveAt(bs, start - d) || c in ActiveAt(bs, start + d)
  {
    GatherStep(bs, start, d - 1);
    InConcatenation(Gather(bs, start, d - 1), ActiveAt(bs, start - d), ActiveAt(bs, start + d), c);
  }

  lemma InConcatenation(a: seq<Contact>, b: seq<Contact>, d: seq<Contact>, c: Contact)
    ensures c in a + b + d <==> c in a || c in b || c in d
  {
  }

  lemma WidenWithin(i: nat, start: nat, d: nat)
    requires d > 0
    ensures Within(i, start, d) <==> Within(i, start, d - 1) || i == start - d || i == start + d
  {
  }

  lemma DistinctAppend(a: seq<Contact>, b: seq<Contact>)
    requires Distinct(Ids(a)) && Distinct(Ids(b))
    requires forall x, y :: x in a && y in b ==> x.id != y.id
    ensures Distinct(Ids(a + b))
  {
    forall p, q | 0 <= p < q < |a + b| ensures Ids(a + b)[p] != Ids(a + b)[q] {
      if p < |a| <= q {
        assert a[p] in a && b[q - |a|] in b;
      } else if q < |a| {
        assert Ids(a)[p] != Ids(a)[q];
      } else {
        assert Ids(b)[p - |a|] != Ids(b)[q - |a|];
      }
    }
  }

  /** Adding one more bucket's contacts to contacts of other buckets keeps ids distinct. */
  lemma DistinctLayer(t: Table, inner: seq<Contact>, i: int)
    requires WellPlaced(t) && Distinct(Ids(inner))
    requires forall c :: c in inner ==> BucketIndex(t.localId, c.id) != i
    ensures Distinct(Ids(inner + ActiveAt(t.buckets, i)))
  {
    forall x, y | x in inner && y in ActiveAt(t.buckets, i) ensures x.id != y.id {
      ActiveAtPlaced(t, i, y);
    }
    DistinctAppend(inner, ActiveAt(t.buckets, i));
  }

  lemma {:induction false} GatherDistinct(t: Table, start: nat, d: nat)
    requires WellPlaced(t) && start < BUCKETS
    ensures Distinct(Ids(Gather(t.buckets, start, d)))
  {
    if d == 0 {
    } else {
      GatherDistinct(t, start, d - 1);
      GatherStepDistinct(t, start, d);
    }
  }

  lemma InnerIsElsewhere(t: Table, start: nat, d: nat, c: Contact)
    requires WellPlaced(t) && start < BUCKETS && d > 0
    requires c in Gather(t.buckets, start, d - 1)
    ensures BucketIndex(t.localId, c.id) != start - d && BucketIndex(t.localId, c.id) != start + d
  {
    GatherMembers(t, start, d - 1, c);
  }

  lemma GatherAt(bs: seq<Bucket>, start: nat, d: nat)
    requires |bs| == BUCKETS && start < BUCKETS && d > 0
    ensures Gather(bs, start, d) == Gather(bs, start, d - 1) + ActiveAt(bs, start - d) + ActiveAt(bs, start + d)
  {
  }

  lemma DistinctTwoLayers(t: Table, inner: seq<Contact>, i: int, j: int)
    requires WellPlaced(t) && Distinct(Ids(inner)) && i != j
    requires forall c :: c in inner ==> BucketIndex(t.localId, c.id) != i && BucketIndex(t.localId, c.id) != j
    ensures Distinct(Ids(inner + ActiveAt(t.buckets, i) + ActiveAt(t.buckets, j)))
  {
    DistinctLayer(t, inner, i);
    forall c | c in ActiveAt(t.buckets, i) ensures BucketIndex(t.localId, c.id) != j {
      ActiveAtPlaced(t, i, c);
    }
    DistinctLayer(t, inner + ActiveAt(t.buckets, i), j);
  }

  lemma GatherStepDistinct(t: Table, start: nat, d: nat)
    requires WellPlaced(t) && start < BUCKETS && d > 0
    requires Distinct(Ids(Gather(t.buckets, start, d - 1)))
    ensures Distinct(Ids(Gather(t.buckets, start, d)))
  {
    var inner := Gather(t.buckets, start, d - 1);
    forall c | c in inner
      ensures BucketIndex(t.localId, c.id) != start - d && BucketIndex(t.localId, c.id) != start + d
    {
      InnerIsElsewhere(t, start, d, c);
    }
    DistinctTwoLayers(t, inner, start - d, start + d);
    GatherAt(t.buckets, start, d);
  }

  // -------- sorting keeps members and distinctness --------

  lemma SameMembers(a: seq<Contact>, b: seq<Contact>, c: Contact)
    requires multiset(a) == multiset(b)
    ensures c in a <==> c in b
  {
    assert c in a <==> c in multiset(a);
  }

  lemma DistinctCounts(a: seq<Contact>, c: Contact)
    requires Distinct(Ids(a)) && c in a
    ensures multiset(a)[c] == 1
  {
    var i :| 0 <= i < |a| && a[i] == c;
    assert a == a[..i] + [c] + a[i + 1..];
    assert forall k :: 0 <= k < |a| && k != i ==> Ids(a)[k] != Ids(a)[i];
    assert c !in a[..i] && c !in a[i + 1..];
  }

  lemma SameIdSameContact(a: seq<Contact>, x: Contact, y: Contact)
    requires Distinct(Ids(a)) && x in a && y in a
    ensures x.id == y.id ==> x == y
  {
    var i :| 0 <= i < |a| && a[i] == x;
    var j :| 0 <= j < |a| && a[j] == y;
    if i < j {
      assert Ids(a)[i] != Ids(a)[j];
    } else if j < i {
      assert Ids(a)[j] != Ids(a)[i];
    }
  }

  lemma TwiceCounts(b: seq<Contact>, p: nat, q: nat)
    requires p < q < |b|
    ensures b[p] == b[q] ==> multiset(b)[b[p]] >= 2
  {
    assert b == b[..q] + [b[q]] + b[q + 1..];
    assert b[..q][p] in multiset(b[..q]);
    assert multiset(b) == multiset(b[..q]) + multiset{b[q]} + multiset(b[q + 1..]);
  }

  lemma DistinctPermutation(a: seq<Contact>, b: seq<Contact>)
    requires Distinct(Ids(a)) && multiset(a) == multiset(b)
    ensures Distinct(Ids(b))
  {
    forall p, q | 0 <= p < q < |b| ensures Ids(b)[p] != Ids(b)[q] {
      SameMembers(a, b, b[p]);
      SameMembers(a, b, b[q]);
      DistinctCounts(a, b[p]);
      TwiceCounts(b, p, q);
      SameIdSameContact(a, b[p], b[q]);
    }
  }

  // -------- the result --------

  lemma SortedScan(t: Table, target: NodeId, n: nat)
    requires WellPlaced(t)
    ensures var s := SortByDistance(target, Scanned(t, target, n));
            Sorted(target, s) && Distinct(Ids(s)) && |s| == |Scanned(t, target, n)|
    ensures forall c :: c in SortByDistance(target, Scanned(t, target, n)) <==>
              IsActive(t, c) && Within(BucketIndex(t.localId, c.id), Start(t, target), Reach(t, target, n))
  {
    var g := Scanned(t, target, n);
    var s := SortByDistance(target, g);
    SortIntoSorted(target, [], g);
    GatherDistinct(t, Start(t, target), Reach(t, target, n));
    DistinctPermutation(g, s);
    forall c ensures c in s <==> IsActive(t, c) && Within(BucketIndex(t.localId, c.id), Start(t, target), Reach(t, target, n)) {
      SameMembers(s, g, c);
      GatherMembers(t, Start(t, target), Reach(t, target, n), c);
    }
  }

  /** The answer is sorted by distance, holds no id twice and not the local one, at most n long, and only active entries. */
  lemma ResultShape(t: Table, target: NodeId, n: nat)
    requires WellPlaced(t)
    ensures var r := ClosestNodes(t, target, n);
            && Sorted(target, r)
            && Distinct(Ids(r))
            && |r| <= n
            && |r| == |Take(n, Scanned(t, target, n))|
    ensures forall c :: c in ClosestNodes(t, target, n) ==> IsActive(t, c) && c.id != t.localId
  {
    SortedScan(t, target, n);
    var s, r := SortByDistance(target, Scanned(t, target, n)), ClosestNodes(t, target, n);
    assert forall i :: 0 <= i < |r| ==> Ids(r)[i] == Ids(s)[i];
    forall c | c in r ensures IsActive(t, c) && c.id != t.localId {
      assert c in s;
      ActiveAtPlaced(t, BucketIndex(t.localId, c.id), c);
    }
  }

  /** Whatever the scan saw and did not return is no closer than anything returned, and then the answer is full. */
  lemma ScannedButOmitted(t: Table, target: NodeId, n: nat, c: Contact, x: Contact)
    requires WellPlaced(t) && IsActive(t, c) && c !in ClosestNodes(t, target, n)
    requires Within(BucketIndex(t.localId, c.id), Start(t, target), Reach(t, target, n))
    ensures |ClosestNodes(t, target, n)| == n
    ensures x in ClosestNodes(t, target, n) ==> Dist(target, x.id) <= Dist(target, c.id)
  {
    SortedScan(t, target, n);
    TakenFirst(target, SortByDistance(target, Scanned(t, target, n)), n, c, x);
  }

  /** Of a sorted list, what is cut off is no closer than what is kept. */
  lemma TakenFirst(target: NodeId, s: seq<Contact>, n: nat, c: Contact, x: Contact)
    requires Sorted(target, s) && c in s && c !in Take(n, s)
    ensures |Take(n, s)| == n
    ensures x in Take(n, s) ==> Dist(target, x.id) <= Dist(target, c.id)
  {
    var r := Take(n, s);
    var i :| 0 <= i < |s| && s[i] == c;
    assert i >= |r| by {
      forall k | 0 <= k < |r| ensures s[k] != c {
        assert r[k] == s[k];
      }
    }
    if x in r {
      var j :| 0 <= j < |r| && r[j] == x;
      assert s[j] == x;
    }
  }

  lemma BucketIsBit(local: NodeId, x: NodeId)
    requires x != local
    ensures FirstDifferingBit(local, x) == Some(BucketIndex(local, x))
  {
  }

  /** The distances dx and dc, placed by the bits at which x and c leave the local id, against the target's bit s. */
  lemma BandOrder(dx: nat, dc: nat, i: nat, j: nat, s: nat)
    requires i < s < ID_BITS && i < j < ID_BITS
    requires Pow2(255 - i) <= dc
    requires j < s ==> dx < Pow2(256 - j)
    requires j == s ==> dx < Pow2(255 - s)
    requires j > s ==> dx < Pow2(256 - s)
    ensures dx < dc
  {
    if j < s {
      Pow2Monotone(256 - j, 255 - i);
    } else if j == s {
      Pow2Monotone(255 - s, 255 - i);
    } else {
      Pow2Monotone(256 - s, 255 - i);
    }
  }

  lemma FartherId(local: NodeId, target: NodeId, c: NodeId, x: NodeId)
    requires target != local && c != local && x != local
    requires BucketIndex(local, c) < BucketIndex(local, target) && BucketIndex(local, c) < BucketIndex(local, x)
    ensures Dist(target, x) < Dist(target, c)
  {
    var i, j, s := BucketIndex(local, c), BucketIndex(local, x), BucketIndex(local, target);
    BucketIsBit(local, c);
    BucketIsBit(local, x);
    BucketIsBit(local, target);
    DistanceBySplit(local, target, c, s, i);
    DistanceBySplit(local, target, x, s, j);
    BandOrder(Dist(target, x), Dist(target, c), i, j, s);
  }

  lemma FartherFromLocal(local: NodeId, c: NodeId, x: NodeId)
    requires c != local && x != local && BucketIndex(local, c) < BucketIndex(local, x)
    ensures Dist(local, x) < Dist(local, c)
  {
    var i, j := BucketIndex(local, c), BucketIndex(local, x);
    BucketIsBit(local, c);
    BucketIsBit(local, x);
    DistanceBand(local, c);
    DistanceBand(local, x);
    Pow2Monotone(256 - j, 255 - i);
  }

  /** A node that leaves the local id's prefix before the target and before x does is farther than x. */
  lemma FartherBucket(t: Table, target: NodeId, c: Contact, x: Contact)
    requires WellPlaced(t) && IsActive(t, c) && IsActive(t, x)
    requires BucketIndex(t.localId, c.id) < Start(t, target) && BucketIndex(t.localId, c.id) < BucketIndex(t.localId, x.id)
    ensures Dist(target, x.id) < Dist(target, c.id)
  {
    ActiveAtPlaced(t, BucketIndex(t.localId, c.id), c);
    ActiveAtPlaced(t, BucketIndex(t.localId, x.id), x);
    if target == t.localId {
      FartherFromLocal(target, c.id, x.id);
    } else {
      FartherId(t.localId, target, c.id, x.id);
    }
  }

  /** A node in the target's own bucket is strictly closer to it than a node in any other bucket. */
  lemma OwnBucketCloser(t: Table, target: NodeId, c: Contact, x: Contact)
    requires WellPlaced(t) && IsActive(t, c) && IsActive(t, x)
    requires BucketIndex(t.localId, x.id) == Start(t, target) && BucketIndex(t.localId, c.id) != Start(t, target)
    ensures Dist(target, x.id) < Dist(target, c.id)
  {
    var i, s := BucketIndex(t.localId, c.id), Start(t, target);
    if i < s {
      FartherBucket(t, target, c, x);
    } else {
      ActiveAtPlaced(t, i, c);
      ActiveAtPlaced(t, s, x);
      BucketIsBit(t.localId, c.id);
      BucketIsBit(t.localId, x.id);
      BucketIsBit(t.localId, target);
      DistanceBySplit(t.localId, target, c.id, s, i);
      DistanceBySplit(t.localId, target, x.id, s, s);
    }
  }

  /**
   * An active node that is left out although a farther one is returned lies in a bucket deeper than the
   * scan reached; nothing nearer is ever missed on the other side.
   */
  lemma OnlyDeeperNodesAreMissed(t: Table, target: NodeId, n: nat, c: Contact, x: Contact)
    requires WellPlaced(t) && IsActive(t, c) && c !in ClosestNodes(t, target, n)
    requires x in ClosestNodes(t, target, n) && Dist(target, c.id) < Dist(target, x.id)
    ensures BucketIndex(t.localId, c.id) > Start(t, target) + Reach(t, target, n)
  {
    SortedScan(t, target, n);
    var i := BucketIndex(t.localId, c.id);
    assert x in SortByDistance(target, Scanned(t, target, n));
    if Within(i, Start(t, target), Reach(t, target, n)) {
      ScannedButOmitted(t, target, n, c, x);
    } else if i < Start(t, target) {
      FartherBucket(t, target, c, x);
    }
  }

  // -------- the target's own bucket comes first --------

  lemma {:induction false} SortIntoPastCloser(target: NodeId, near: seq<Contact>, s: seq<Contact>, more: seq<Contact>)
    requires forall x, y :: x in near && y in more ==> Dist(target, x.id) < Dist(target, y.id)
    ensures SortInto(target, near + s, more) == near + SortInto(target, s, more)
    decreases |more|
  {
    if more != [] {
      InsertPastCloser(target, near, s, more[0]);
      SortIntoPastCloser(target, near, Insert(target, more[0], s), more[1..]);
    }
  }

  lemma {:induction false} InsertPastCloser(target: NodeId, near: seq<Contact>, s: seq<Contact>, c: Contact)
    requires forall x :: x in near ==> Dist(target, x.id) < Dist(target, c.id)
    ensures Insert(target, c, near + s) == near + Insert(target, c, s)
  {
    if s == [] {
      assert near + s == near;
    } else {
      var init, last := s[..|s| - 1], s[|s| - 1];
      assert (near + s)[..|near + s| - 1] == near + init && (near + s)[|near + s| - 1] == last;
      if Dist(target, last.id) <= Dist(target, c.id) {
        assert near + s + [c] == near + (s + [c]);
      } else {
        InsertPastCloser(target, near, init, c);
        assert near + Insert(target, c, init) + [last] == near + (Insert(target, c, init) + [last]);
      }
    }
  }

  lemma {:induction false} GatherStartsWithOwn(bs: seq<Bucket>, start: nat, d: nat)
    requires |bs| == BUCKETS && start < BUCKETS
    ensures ActiveAt(bs, start) <= Gather(bs, start, d)
  {
    if d > 0 {
      GatherStartsWithOwn(bs, start, d - 1);
      GatherAt(bs, start, d);
      PrefixStays(ActiveAt(bs, start), Gather(bs, start, d - 1), ActiveAt(bs, start - d), ActiveAt(bs, start + d));
    }
  }

  lemma PrefixStays(a: seq<Contact>, b: seq<Contact>, x: seq<Contact>, y: seq<Contact>)
    requires a <= b
    ensures a <= b + x + y
  {
  }

  /** Whenever n can hold it, the answer begins with the whole of the target's own bucket, sorted. */
  lemma OwnBucketFirst(t: Table, target: NodeId, n: nat)
    requires WellPlaced(t) && n >= |t.buckets[Start(t, target)].active|
    ensures SortByDistance(target, ContactsOf(t.buckets[Start(t, target)].active)) <= ClosestNodes(t, target, n)
  {
    var own := ActiveAt(t.buckets, Start(t, target));
    var rest := OwnComesFirst(t, target, n);
    forall x, y | x in own && y in rest ensures Dist(target, x.id) < Dist(target, y.id) {
      OwnAndRest(t, target, n, x, y, rest);
    }
    NearPartFirst(target, own, rest);
    TakeKeepsPrefix(SortByDistance(target, own), SortByDistance(target, own + rest), n);
  }

  lemma OwnComesFirst(t: Table, target: NodeId, n: nat) returns (rest: seq<Contact>)
    requires WellPlaced(t)
    ensures Scanned(t, target, n) == ActiveAt(t.buckets, Start(t, target)) + rest
  {
    var own, g := ActiveAt(t.buckets, Start(t, target)), Scanned(t, target, n);
    GatherStartsWithOwn(t.buckets, Start(t, target), Reach(t, target, n));
    PrefixAndRest(own, g);
    rest := g[|own|..];
  }

  lemma PrefixAndRest(a: seq<Contact>, b: seq<Contact>)
    requires a <= b
    ensures b == a + b[|a|..]
  {
  }

  lemma TakeKeepsPrefix(a: seq<Contact>, b: seq<Contact>, n: nat)
    requires a <= b && |a| <= n
    ensures a <= Take(n, b)
  {
  }

  lemma NearPartFirst(target: NodeId, own: seq<Contact>, rest: seq<Contact>)
    requires forall x, y :: x in own && y in rest ==> Dist(target, x.id) < Dist(target, y.id)
    ensures SortByDistance(target, own) <= SortByDistance(target, own + rest)
  {
    var near := SortByDistance(target, own);
    forall x, y | x in near && y in rest ensures Dist(target, x.id) < Dist(target, y.id) {
      SameMembers(near, own, x);
    }
    SortIntoAppend(target, [], own, rest);
    SortIntoPastCloser(target, near, [], rest);
    assert near + [] == near;
  }

  lemma DistinctParts(a: seq<Contact>, b: seq<Contact>, y: Contact)
    requires Distinct(Ids(a + b)) && y in b
    ensures y !in a
  {
    var j :| 0 <= j < |b| && b[j] == y;
    forall k | 0 <= k < |a| ensures a[k] != y {
      assert Ids(a + b)[k] != Ids(a + b)[|a| + j];
    }
  }

  lemma OwnAndRest(t: Table, target: NodeId, n: nat, x: Contact, y: Contact, rest: seq<Contact>)
    requires WellPlaced(t)
    requires Scanned(t, target, n) == ActiveAt(t.buckets, Start(t, target)) + rest
    requires x in ActiveAt(t.buckets, Start(t, target)) && y in rest
    ensures Dist(target, x.id) < Dist(target, y.id)
  {
    var s := Start(t, target);
    GatherDistinct(t, s, Reach(t, target, n));
    ActiveAtPlaced(t, s, x);
    assert y in Scanned(t, target, n);
    GatherMembers(t, s, Reach(t, target, n), y);
    DistinctParts(ActiveAt(t.buckets, s), rest, y);
    ActiveAtMembers(t, s, y);
    OwnBucketCloser(t, target, y, x);
  }

  // -------- exactness --------

  /** r is the n closest active nodes, nearest first (all of them when there are fewer). */
  ghost predicate ExactlyClosest(t: Table, target: NodeId, n: nat, r: seq<Contact>)
    requires Shaped(t)
  {
    && Sorted(target, r)
    && Distinct(Ids(r))
    && |r| <= n
    && (forall c :: c in r ==> IsActive(t, c))
    && (forall c :: IsActive(t, c) && c !in r ==> |r| == n && forall x :: x in r ==> Dist(target, x.id) <= Dist(target, c.id))
  }

  ghost predicate DeeperThanScan(t: Table, target: NodeId, n: nat, c: Contact)
    requires Shaped(t)
  {
    IsActive(t, c) && BucketIndex(t.localId, c.id) > Start(t, target) + Reach(t, target, n)
  }

  /** No active node below the last bucket scanned beats a node the scan saw among its n nearest. */
  ghost predicate NothingCloserBelow(t: Table, target: NodeId, n: nat)
    requires Shaped(t)
  {
    forall c, x :: DeeperThanScan(t, target, n, c) && x in ClosestNodes(t, target, n) ==> Dist(target, x.id) <= Dist(target, c.id)
  }

  lemma UnscannedMeansFull(t: Table, target: NodeId, n: nat, c: Contact)
    requires WellPlaced(t) && IsActive(t, c) && !Within(BucketIndex(t.localId, c.id), Start(t, target), Reach(t, target, n))
    ensures |ClosestNodes(t, target, n)| == n && |Scanned(t, target, n)| >= n
  {
    assert !GoesOn(t.buckets, Start(t, target), n, Reach(t, target, n));
  }

  lemma OmittedIsFarther(t: Table, target: NodeId, n: nat, c: Contact)
    requires WellPlaced(t) && NothingCloserBelow(t, target, n) && IsActive(t, c) && c !in ClosestNodes(t, target, n)
    ensures |ClosestNodes(t, target, n)| == n
    ensures forall x :: x in ClosestNodes(t, target, n) ==> Dist(target, x.id) <= Dist(target, c.id)
  {
    if Within(BucketIndex(t.localId, c.id), Start(t, target), Reach(t, target, n)) {
      forall x ensures x in ClosestNodes(t, target, n) ==> Dist(target, x.id) <= Dist(target, c.id) {
        ScannedButOmitted(t, target, n, c, x);
      }
      ScannedButOmitted(t, target, n, c, c);
    } else {
      UnscannedMeansFull(t, target, n, c);
      forall x | x in ClosestNodes(t, target, n) ensures Dist(target, x.id) <= Dist(target, c.id) {
        if Dist(target, c.id) < Dist(target, x.id) {
          OnlyDeeperNodesAreMissed(t, target, n, c, x);
        }
      }
    }
  }

  lemma DeeperIsOmitted(t: Table, target: NodeId, n: nat, c: Contact)
    requires WellPlaced(t) && DeeperThanScan(t, target, n, c)
    ensures c !in ClosestNodes(t, target, n)
  {
    SortedScan(t, target, n);
    assert c !in SortByDistance(target, Scanned(t, target, n));
  }

  lemma ExactIffNothingCloser(t: Table, target: NodeId, n: nat)
    requires WellPlaced(t)
    ensures ExactlyClosest(t, target, n, ClosestNodes(t, target, n)) <==> NothingCloserBelow(t, target, n)
  {
    var r := ClosestNodes(t, target, n);
    ResultShape(t, target, n);
    if NothingCloserBelow(t, target, n) {
      forall c | IsActive(t, c) && c !in r
        ensures |r| == n && forall x :: x in r ==> Dist(target, x.id) <= Dist(target, c.id)
      {
        OmittedIsFarther(t, target, n, c);
      }
    }
    forall c | DeeperThanScan(t, target, n, c) ensures c !in r {
      DeeperIsOmitted(t, target, n, c);
    }
  }

  // -------- how many scanned nodes are near enough --------

  /** The active contacts of the buckets from the target's own down to the last one scanned. */
  ghost function ScannedBelow(t: Table, target: NodeId, n: nat): set<Contact>
    requires Shaped(t)
  {
    set i, x | Start(t, target) <= i <= Start(t, target) + Reach(t, target, n) && i < BUCKETS && x in ContactsOf(t.buckets[i].active) :: x
  }

  /** Those of them that are no farther from the target than c. */
  ghost function NoFarther(t: Table, target: NodeId, n: nat, c: Contact): set<Contact>
    requires Shaped(t)
  {
    set x | x in ScannedBelow(t, target, n) && Dist(target, x.id) <= Dist(target, c.id)
  }

  lemma ScannedBelowMembers(t: Table, target: NodeId, n: nat, x: Contact)
    requires WellPlaced(t)
    ensures x in ScannedBelow(t, target, n) <==>
              IsActive(t, x) && Start(t, target) <= BucketIndex(t.localId, x.id) <= Start(t, target) + Reach(t, target, n)
  {
    var lo, hi := Start(t, target), Start(t, target) + Reach(t, target, n);
    if x in ScannedBelow(t, target, n) {
      var i :| lo <= i <= hi && i < BUCKETS && x in ContactsOf(t.buckets[i].active);
      assert x in ActiveAt(t.buckets, i);
      ActiveAtPlaced(t, i, x);
    }
  }

  lemma {:induction false} MembersBounded(s: seq<Contact>)
    ensures |set x | x in s| <= |s|
  {
    if s != [] {
      var init := s[..|s| - 1];
      MembersBounded(init);
      assert (set x | x in s) == (set x | x in init) + {s[|s| - 1]};
    }
  }

  /** In a sorted list, what lies within d comes before anything that does not. */
  lemma WithinComeFirst(target: NodeId, s: seq<Contact>, i: nat, d: nat, near: set<Contact>)
    requires Sorted(target, s) && i < |s| && Dist(target, s[i].id) > d
    requires forall x :: x in near ==> x in s && Dist(target, x.id) <= d
    ensures |near| <= i
  {
    var front := set x | x in s[..i];
    forall x | x in near ensures x in front {
      var j :| 0 <= j < |s| && s[j] == x;
      assert j < i;
      assert s[..i][j] == x;
    }
    SubsetSize(near, front);
    MembersBounded(s[..i]);
  }

  /** For every active node deeper than the scan, n scanned nodes from the target's bucket on down are no farther. */
  ghost predicate EnoughNearer(t: Table, target: NodeId, n: nat)
    requires Shaped(t)
  {
    forall c :: DeeperThanScan(t, target, n, c) ==> |NoFarther(t, target, n, c)| >= n
  }

  ghost predicate NoneFarther(t: Table, target: NodeId, n: nat, c: Contact)
    requires Shaped(t)
  {
    forall x :: x in ClosestNodes(t, target, n) ==> Dist(target, x.id) <= Dist(target, c.id)
  }

  lemma NoneFartherMeansEnough(t: Table, target: NodeId, n: nat, c: Contact)
    requires WellPlaced(t) && DeeperThanScan(t, target, n, c) && NoneFarther(t, target, n, c)
    ensures |NoFarther(t, target, n, c)| >= n
  {
    var r := ClosestNodes(t, target, n);
    ResultShape(t, target, n);
    UnscannedMeansFull(t, target, n, c);
    var members := set x | x in r;
    forall x | x in members ensures x in NoFarther(t, target, n, c) {
      ReturnedIsBelow(t, target, n, c, x);
    }
    DistinctCard(r);
    SubsetSize(members, NoFarther(t, target, n, c));
  }

  /** A returned node that is no farther than a deeper one lies in the target's bucket or below it. */
  lemma ReturnedIsBelow(t: Table, target: NodeId, n: nat, c: Contact, x: Contact)
    requires WellPlaced(t) && DeeperThanScan(t, target, n, c) && x in ClosestNodes(t, target, n)
    requires Dist(target, x.id) <= Dist(target, c.id)
    ensures x in ScannedBelow(t, target, n)
  {
    SortedScan(t, target, n);
    assert x in SortByDistance(target, Scanned(t, target, n));
    ScannedBelowMembers(t, target, n, x);
    if BucketIndex(t.localId, x.id) < Start(t, target) {
      FartherBucket(t, target, x, c);
    }
  }

  lemma EnoughMeansNoneFarther(t: Table, target: NodeId, n: nat, c: Contact)
    requires WellPlaced(t) && DeeperThanScan(t, target, n, c) && |NoFarther(t, target, n, c)| >= n
    ensures NoneFarther(t, target, n, c)
  {
    var s := SortByDistance(target, Scanned(t, target, n));
    SortedScan(t, target, n);
    forall x | x in NoFarther(t, target, n, c) ensures x in s {
      ScannedBelowMembers(t, target, n, x);
    }
    forall i | 0 <= i < |ClosestNodes(t, target, n)| ensures Dist(target, s[i].id) <= Dist(target, c.id) {
      if Dist(target, s[i].id) > Dist(target, c.id) {
        WithinComeFirst(target, s, i, Dist(target, c.id), NoFarther(t, target, n, c));
      }
    }
  }

  /**
   * When `closest_nodes` is exact, by a condition on the table: the buckets from the target's own down to the
   * last one scanned hold, for every active node deeper still, n active nodes that are no farther than it.
   */
  lemma ExactIff(t: Table, target: NodeId, n: nat)
    requires WellPlaced(t)
    ensures ExactlyClosest(t, target, n, ClosestNodes(t, target, n)) <==> EnoughNearer(t, target, n)
  {
    ExactIffNothingCloser(t, target, n);
    forall c | DeeperThanScan(t, target, n, c) ensures NoneFarther(t, target, n, c) <==> |NoFarther(t, target, n, c)| >= n {
      if NoneFarther(t, target, n, c) {
        NoneFartherMeansEnough(t, target, n, c);
      } else if |NoFarther(t, target, n, c)| >= n {
        EnoughMeansNoneFarther(t, target, n, c);
      }
    }
    NothingCloserIs(t, target, n);
  }

  lemma NothingCloserIs(t: Table, target: NodeId, n: nat)
    requires Shaped(t)
    ensures NothingCloserBelow(t, target, n) <==> forall c :: DeeperThanScan(t, target, n, c) ==> NoneFarther(t, target, n, c)
  {
  }

  /** By counting alone: if those buckets hold fewer than n active nodes, exactness means nothing active is deeper. */
  lemma ExactIffNothingDeeper(t: Table, target: NodeId, n: nat)
    requires WellPlaced(t) && |ScannedBelow(t, target, n)| < n
    ensures ExactlyClosest(t, target, n, ClosestNodes(t, target, n)) <==>
              forall i :: Start(t, target) + Reach(t, target, n) < i < BUCKETS ==> t.buckets[i].active == []
  {
    ExactIff(t, target, n);
    if EnoughNearer(t, target, n) {
      forall i | Start(t, target) + Reach(t, target, n) < i < BUCKETS ensures t.buckets[i].active == [] {
        DeeperBucketEmpty(t, target, n, i);
      }
    }
  }

  lemma DeeperBucketEmpty(t: Table, target: NodeId, n: nat, i: nat)
    requires WellPlaced(t) && |ScannedBelow(t, target, n)| < n && EnoughNearer(t, target, n)
    requires Start(t, target) + Reach(t, target, n) < i < BUCKETS
    ensures t.buckets[i].active == []
  {
    if |t.buckets[i].active| > 0 {
      var c := ActiveAt(t.buckets, i)[0];
      ActiveAtPlaced(t, i, c);
      SubsetSize(NoFarther(t, target, n, c), ScannedBelow(t, target, n));
      assert DeeperThanScan(t, target, n, c);
    }
  }

  /** Exact for the local id: it has no deeper buckets. */
  lemma ExactForLocalId(t: Table, n: nat)
    requires WellPlaced(t)
    ensures ExactlyClosest(t, t.localId, n, ClosestNodes(t, t.localId, n))
  {
    ExactIffNothingCloser(t, t.localId, n);
  }

  /** Exact when the target's own bucket already holds n active entries. */
  lemma ExactFromOwnBucket(t: Table, target: NodeId, n: nat)
    requires WellPlaced(t) && |t.buckets[Start(t, target)].active| >= n
    ensures ExactlyClosest(t, target, n, ClosestNodes(t, target, n))
  {
    assert !GoesOn(t.buckets, Start(t, target), n, 0);
    assert Reach(t, target, n) == 0;
    SortedScan(t, target, n);
    forall c, x | DeeperThanScan(t, target, n, c) && x in ClosestNodes(t, target, n)
      ensures Dist(target, x.id) <= Dist(target, c.id)
    {
      assert x in SortByDistance(target, Scanned(t, target, n));
      OwnBucketCloser(t, target, c, x);
    }
    ExactIffNothingCloser(t, target, n);
  }

  ghost function AllActive(t: Table): set<Contact> {
    set i, c | 0 <= i < |t.buckets| && c in ContactsOf(t.buckets[i].active) :: c
  }

  lemma {:induction false} DistinctCard(s: seq<Contact>)
    requires Distinct(Ids(s))
    ensures |set c | c in s| == |s|
  {
    if s != [] {
      var init, last := s[..|s| - 1], s[|s| - 1];
      assert forall k :: 0 <= k < |init| ==> Ids(init)[k] == Ids(s)[k];
      DistinctCard(init);
      forall k | 0 <= k < |init| ensures init[k] != last {
        assert Ids(s)[k] != Ids(s)[|s| - 1];
      }
      assert (set c | c in s) == (set c | c in init) + {last};
    }
  }

  /** Exact when the table holds at most n active nodes: then all of them are returned. */
  lemma ExactForSmallTable(t: Table, target: NodeId, n: nat)
    requires WellPlaced(t) && |AllActive(t)| <= n
    ensures ExactlyClosest(t, target, n, ClosestNodes(t, target, n))
    ensures forall c :: IsActive(t, c) ==> c in ClosestNodes(t, target, n)
  {
    var r := ClosestNodes(t, target, n);
    ResultShape(t, target, n);
    forall c | IsActive(t, c) ensures c in r {
      if c !in r {
        OmittedMeansFull(t, target, n, c);
        MoreActiveThan(t, r, c);
      }
    }
  }

  lemma OmittedMeansFull(t: Table, target: NodeId, n: nat, c: Contact)
    requires WellPlaced(t) && IsActive(t, c) && c !in ClosestNodes(t, target, n)
    ensures |ClosestNodes(t, target, n)| == n
  {
    if Within(BucketIndex(t.localId, c.id), Start(t, target), Reach(t, target, n)) {
      ScannedButOmitted(t, target, n, c, c);
    } else {
      UnscannedMeansFull(t, target, n, c);
    }
  }

  lemma MoreActiveThan(t: Table, r: seq<Contact>, c: Contact)
    requires WellPlaced(t) && Distinct(Ids(r)) && IsActive(t, c) && c !in r
    requires forall x :: x in r ==> IsActive(t, x)
    ensures |AllActive(t)| > |r|
  {
    DistinctCard(r);
    var members := set x | x in r;
    var all := AllActive(t);
    forall x | x in members + {c} ensures x in all {
      ActiveInAll(t, x);
    }
    SubsetSize(members + {c}, all);
    assert |members + {c}| == |members| + 1;
  }

  lemma ActiveInAll(t: Table, c: Contact)
    requires Shaped(t) && IsActive(t, c)
    ensures c in AllActive(t)
  {
    var i := BucketIndex(t.localId, c.id);
    assert c in ContactsOf(t.buckets[i].active);
  }

  // -------- a table where the nearest node is missed --------

  /** The id whose first byte is b and whose other bytes are zero. */
  function IdOf(b: byte): NodeId {
    [b] + seq(ID_BYTES - 1, _ => 0)
  }

  function Home(): SocketAddr {
    V4([127, 0, 0, 1], 9000)
  }

  function EntryOf(b: byte): Entry {
    Entry(IdOf(b), Home(), 0, None)
  }

  /** n entries that leave the zero id at bit 1, and one that leaves it at bit 2. */
  function CrowdedTable(n: nat): Table
    requires n <= K
  {
    Table(IdOf(0), Empty(IdOf(0)).buckets[1 := Bucket(Crowd(n), [])][2 := Bucket([EntryOf(0x20)], [])])
  }

  lemma BucketOfByte(b: byte)
    requires b != 0
    ensures BucketIndex(IdOf(0), IdOf(b)) == ByteLeadingZeros(b)
  {
    assert 0 ^ b == b;
    assert Xor(IdOf(0), IdOf(b))[0] == b;
    assert IdOf(0)[0] != IdOf(b)[0];
    HeadZeros(Xor(IdOf(0), IdOf(b)));
  }

  function SecondBitByte(k: nat): (b: byte)
    requires k < K
    ensures ByteLeadingZeros(b) == 1 && 0x80 ^ b >= 0xC0 && b as nat == 0x40 + k
  {
    ByteRoundTrip(0x40 + k);
    var b := (0x40 + k) as byte;
    ByteCompare(b, 64);
    ByteCompare(b, 128);
    SecondBit(b);
    b
  }

  lemma ByteCompare(b: byte, c: byte)
    ensures b >= c <==> b as nat >= c as nat
  {
  }

  lemma SecondBit(b: byte)
    requires 64 <= b < 128
    ensures ByteLeadingZeros(b) == 1 && 0x80 ^ b >= 0xC0
  {
  }

  lemma CrowdedIsWellPlaced(n: nat)
    requires n <= K
    ensures WellPlaced(CrowdedTable(n))
  {
    var t := CrowdedTable(n);
    forall i, c | c in ActiveAt(t.buckets, i) ensures BucketIndex(t.localId, c.id) == i && c.id != t.localId {
      CrowdedContact(n, i, c);
    }
    forall i ensures Distinct(Ids(ActiveAt(t.buckets, i))) {
      if i == 1 {
        CrowdedDistinct(n);
      }
    }
  }

  /** Who is active where in the crowded table. */
  lemma CrowdedActive(n: nat, i: int)
    requires n <= K
    ensures var a := ActiveAt(CrowdedTable(n).buckets, i);
            && (i == 1 ==> |a| == n && forall k :: 0 <= k < n ==> a[k] == Contact(IdOf(SecondBitByte(k)), Home()))
            && (i == 2 ==> a == [Contact(IdOf(0x20), Home())])
            && (i != 1 && i != 2 ==> a == [])
  {
  }

  lemma CrowdedDistinct(n: nat)
    requires n <= K
    ensures Distinct(Ids(ActiveAt(CrowdedTable(n).buckets, 1)))
  {
    CrowdedActive(n, 1);
    var a := ActiveAt(CrowdedTable(n).buckets, 1);
    forall p, q | 0 <= p < q < n ensures Ids(a)[p] != Ids(a)[q] {
      assert a[p].id[0] == SecondBitByte(p) && a[q].id[0] == SecondBitByte(q);
    }
  }

  /** The first byte of a contact of the crowded table. */
  lemma CrowdedByte(n: nat, i: int, c: Contact) returns (b: byte)
    requires n <= K && c in ActiveAt(CrowdedTable(n).buckets, i)
    ensures c.id == IdOf(b) && b != 0
    ensures (i == 1 && ByteLeadingZeros(b) == 1 && 0x80 ^ b >= 0xC0) || (i == 2 && b == 0x20)
  {
    CrowdedActive(n, i);
    var a := ActiveAt(CrowdedTable(n).buckets, i);
    var k :| 0 <= k < |a| && a[k] == c;
    b := if i == 1 then SecondBitByte(k) else 0x20;
  }

  lemma CrowdedContact(n: nat, i: int, c: Contact)
    requires n <= K && c in ActiveAt(CrowdedTable(n).buckets, i)
    ensures BucketIndex(IdOf(0), c.id) == i && c.id != IdOf(0)
    ensures i == 1 ==> Dist(IdOf(0x80), IdOf(0x20)) < Dist(IdOf(0x80), c.id)
    ensures i == 1 || i == 2
  {
    var b := CrowdedByte(n, i, c);
    BucketOfByte(b);
    assert IdOf(b)[0] != IdOf(0)[0];
    if i == 1 {
      NearerHead(b);
    }
  }

  lemma NearerHead(b: byte)
    requires 0x80 ^ b >= 0xC0
    ensures Dist(IdOf(0x80), IdOf(0x20)) < Dist(IdOf(0x80), IdOf(b))
  {
    var near, far := Xor(IdOf(0x80), IdOf(0x20)), Xor(IdOf(0x80), IdOf(b));
    assert near[0] == 0xA0 && far[0] == 0x80 ^ b;
    ByteCompare(far[0], 0xC0);
    SmallerHead(near, far);
  }

  /** The nodes of the crowded table, in the order in which they are added. */
  function CrowdedAdds(n: nat): seq<Event>
    requires n <= K
  {
    seq(n, k requires 0 <= k < n => AddEvent(SecondBitByte(k))) + [AddEvent(0x20)]
  }

  function AddEvent(b: byte): Event {
    Event(Add(IdOf(b), Home()), 0)
  }

  /** The first n entries of the crowded bucket. */
  function Crowd(n: nat): seq<Entry>
    requires n <= K
  {
    seq(n, k requires 0 <= k < n => EntryOf(SecondBitByte(k)))
  }

  /** The crowded table before its last node. */
  function HalfCrowded(n: nat): Table
    requires n <= K
  {
    Table(IdOf(0), Empty(IdOf(0)).buckets[1 := Bucket(Crowd(n), [])])
  }

  /** Adding an unknown node to a bucket with room. */
  lemma AddUnknown(t: Table, i: nat, b: byte, active: seq<Entry>)
    requires Shaped(t) && t.localId == IdOf(0) && b != 0 && ByteLeadingZeros(b) == i && i < BUCKETS
    requires t.buckets[i] == Bucket(active, []) && |active| < K
    requires forall k :: 0 <= k < |active| ==> active[k].id != IdOf(b)
    ensures Step(t, AddEvent(b)).0 == t.(buckets := t.buckets[i := Bucket(active + [EntryOf(b)], [])])
  {
    BucketOfByte(b);
    assert IdOf(b)[0] != IdOf(0)[0];
  }

  lemma CrowdElsewhere(n: nat, k: nat)
    requires k < n < K
    ensures Crowd(n)[k].id != IdOf(SecondBitByte(n))
  {
    assert IdOf(SecondBitByte(k))[0] == SecondBitByte(k) && IdOf(SecondBitByte(n))[0] == SecondBitByte(n);
  }

  lemma AddOneMore(n: nat)
    requires n < K
    ensures Step(HalfCrowded(n), AddEvent(SecondBitByte(n))).0 == HalfCrowded(n + 1)
  {
    NotCrowded(n);
    AddUnknown(HalfCrowded(n), 1, SecondBitByte(n), Crowd(n));
    assert Crowd(n + 1) == Crowd(n) + [EntryOf(SecondBitByte(n))];
  }

  lemma NotCrowded(n: nat)
    requires n < K
    ensures forall k :: 0 <= k < n ==> Crowd(n)[k].id != IdOf(SecondBitByte(n))
  {
    forall k | 0 <= k < n ensures Crowd(n)[k].id != IdOf(SecondBitByte(n)) {
      CrowdElsewhere(n, k);
    }
  }

  lemma {:induction false} HalfCrowdedRun(n: nat)
    requires n <= K
    ensures Run(Empty(IdOf(0)), CrowdedAdds(n)[..n]) == HalfCrowded(n)
  {
    if n == 0 {
      assert Crowd(0) == [];
      assert HalfCrowded(0).buckets == Empty(IdOf(0)).buckets;
    } else {
      var evs := CrowdedAdds(n)[..n];
      assert evs[..n - 1] == CrowdedAdds(n - 1)[..n - 1];
      assert evs[n - 1] == AddEvent(SecondBitByte(n - 1));
      HalfCrowdedRun(n - 1);
      AddOneMore(n - 1);
    }
  }

  /** The crowded table is what adding its nodes to an empty table gives. */
  lemma CrowdedIsReachable(n: nat)
    requires n <= K
    ensures Run(Empty(IdOf(0)), CrowdedAdds(n)) == CrowdedTable(n)
  {
    var adds := CrowdedAdds(n);
    assert adds[..|adds| - 1] == adds[..n] && adds[|adds| - 1] == AddEvent(0x20);
    HalfCrowdedRun(n);
    AddUnknown(HalfCrowded(n), 2, 0x20, []);
    assert [] + [EntryOf(0x20)] == [EntryOf(0x20)];
  }

  /**
   * For every n up to K a run of `add_node` leads to a table where, for some target, the single nearest active
   * node is left out of an answer of n nodes: the scan stopped one bucket above it.
   */
  lemma NearestNodeCanBeMissed(n: nat)
    requires 0 < n <= K
    ensures var t, target, nearest := Run(Empty(IdOf(0)), CrowdedAdds(n)), IdOf(0x80), Contact(IdOf(0x20), Home());
            && IsActive(t, nearest)
            && |ClosestNodes(t, target, n)| == n
            && nearest !in ClosestNodes(t, target, n)
            && forall x :: x in ClosestNodes(t, target, n) ==> Dist(target, nearest.id) < Dist(target, x.id)
  {
    var t, target, nearest := CrowdedTable(n), IdOf(0x80), Contact(IdOf(0x20), Home());
    CrowdedIsReachable(n);
    CrowdedIsWellPlaced(n);
    BucketOfByte(0x20);
    BucketOfByte(0x80);
    CrowdedReach(n);
    SortedScan(t, target, n);
    assert ContactsOf(t.buckets[2].active)[0] == nearest;
    forall x | x in ClosestNodes(t, target, n) ensures Dist(target, nearest.id) < Dist(target, x.id) {
      assert x in SortByDistance(target, Scanned(t, target, n));
      CrowdedContact(n, BucketIndex(t.localId, x.id), x);
    }
  }

  lemma CrowdedReach(n: nat)
    requires 0 < n <= K
    ensures var t := CrowdedTable(n);
            Start(t, IdOf(0x80)) == 0 && Reach(t, IdOf(0x80), n) == 1 && |Scanned(t, IdOf(0x80), n)| == n
  {
    var bs := CrowdedTable(n).buckets;
    BucketOfByte(0x80);
    assert Gather(bs, 0, 0) == [];
    GatherStep(bs, 0, 0);
    assert |Gather(bs, 0, 1)| == n;
    RadiusIs(bs, 0, n, 1, 0);
  }
}
