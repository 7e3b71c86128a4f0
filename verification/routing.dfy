/** src/dht/routing.rs: the 256-bucket Kademlia routing table with candidate lists. */
module Routing {
  import opened Wrappers
  import opened NodeIds
  import opened Contacts

  const K := 20
  const BUCKETS := 256
  // Instants are nanoseconds of a monotonic clock.
  const SECOND := 1_000_000_000
  const PING_COOLDOWN := 60 * SECOND
  const STALE_THRESHOLD := 120 * SECOND
  const USIZE_MAX := 0xFFFF_FFFF_FFFF_FFFF

  datatype Entry = Entry(id: NodeId, addr: SocketAddr, lastSeen: nat, lastPinged: Option<nat>)

  datatype Bucket = Bucket(active: seq<Entry>, candidates: seq<Entry>)

  datatype Table = Table(localId: NodeId, buckets: seq<Bucket>)

  /** `Instant::duration_since`, which saturates at zero. */
  function Elapsed(now: nat, t: nat): nat {
    if now >= t then now - t else 0
  }

  function BucketIndex(local: NodeId, node: NodeId): (i: nat)
    ensures i < BUCKETS
  {
    DistanceBand(local, node);
    NumericBand(Xor(local, node));
    match FirstDifferingBit(local, node)
    case Some(i) => i
    case None => 255
  }

  // -------- list helpers --------

  function Filter(s: seq<Entry>, p: Entry -> bool): (r: seq<Entry>)
    ensures |r| <= |s|
    ensures forall e :: e in r <==> e in s && p(e)
  {
    if s == [] then []
    else
      assert s == s[..|s| - 1] + [s[|s| - 1]];
      var init := Filter(s[..|s| - 1], p);
      if p(s[|s| - 1]) then init + [s[|s| - 1]] else init
  }

  function RemoveAt(s: seq<Entry>, i: nat): (r: seq<Entry>)
    requires i < |s|
    ensures |r| == |s| - 1
    ensures forall k :: 0 <= k < |r| ==> r[k] == if k < i then s[k] else s[k + 1]
    ensures multiset(s) == multiset(r) + multiset{s[i]}
  {
    assert s == s[..i] + [s[i]] + s[i + 1..];
    s[..i] + s[i + 1..]
  }

  /** `entry_position`: where an id first occurs. */
  function Position(s: seq<Entry>, id: NodeId): (r: Option<nat>)
    ensures r.Some? ==> r.value < |s| && s[r.value].id == id && forall k :: 0 <= k < r.value ==> s[k].id != id
    ensures r.None? ==> forall k :: 0 <= k < |s| ==> s[k].id != id
  {
    if s == [] then None
    else
      var p := Position(s[..|s| - 1], id);
      if p.Some? then p else if s[|s| - 1].id == id then Some(|s| - 1) else None
  }

  // -------- pinging --------

  predicate PingDue(e: Entry, now: nat) {
    e.lastPinged.None? || Elapsed(now, e.lastPinged.value) > PING_COOLDOWN
  }

  /** The first least recently seen entry among those due a ping (`filter` then `min_by_key`). */
  function OldestDue(s: seq<Entry>, now: nat): (r: Option<nat>)
    ensures r.None? <==> forall k :: 0 <= k < |s| ==> !PingDue(s[k], now)
    ensures r.Some? ==> r.value < |s| && PingDue(s[r.value], now)
    ensures r.Some? ==> forall k :: 0 <= k < |s| && PingDue(s[k], now) ==>
                          s[r.value].lastSeen < s[k].lastSeen || (s[r.value].lastSeen == s[k].lastSeen && r.value <= k)
  {
    if s == [] then None
    else
      var last := |s| - 1;
      var p := OldestDue(s[..last], now);
      assert forall k :: 0 <= k < last ==> s[..last][k] == s[k];
      if PingDue(s[last], now) && (p.None? || s[last].lastSeen < s[p.value].lastSeen) then Some(last) else p
  }

  function ContactOf(e: Entry): Contact {
    Contact(e.id, e.addr)
  }

  /** Marks the oldest entry due a ping as pinged and hands it out. */
  function PingOldest(active: seq<Entry>, now: nat): (r: (seq<Entry>, Option<Contact>))
    ensures |r.0| == |active|
    ensures forall k :: 0 <= k < |active| ==> r.0[k].id == active[k].id
  {
    match OldestDue(active, now)
    case None => (active, None)
    case Some(i) => (active[i := active[i].(lastPinged := Some(now))], Some(ContactOf(active[i])))
  }

  // -------- add, remove, ping --------

  function AddToBucket(b: Bucket, node: NodeId, addr: SocketAddr, now: nat): (Bucket, Option<Contact>) {
    var entry := Entry(node, addr, now, None);
    match (Position(b.active, node), Position(b.candidates, node))
    case (Some(p), _) => (b.(active := RemoveAt(b.active, p) + [entry]), None)
    case (None, Some(p)) => (b.(candidates := RemoveAt(b.candidates, p) + [entry]), None)
    case (None, None) =>
      if |b.active| < K then (b.(active := b.active + [entry]), None)
      else if |b.candidates| < K then
        var (pinged, out) := PingOldest(b.active, now);
        (Bucket(pinged, b.candidates + [entry]), out)
      else (b, None)
  }

  ghost predicate Shaped(t: Table) {
    |t.buckets| == BUCKETS
  }

  function AddNode(t: Table, node: NodeId, addr: SocketAddr, now: nat): (Table, Option<Contact>)
    requires Shaped(t)
  {
    if node == t.localId then (t, None)
    else
      var idx := BucketIndex(t.localId, node);
      var (b, out) := AddToBucket(t.buckets[idx], node, addr, now);
      (t.(buckets := t.buckets[idx := b]), out)
  }

  /** Every contact of a list is added, in order. */
  function AddAll(t: Table, nodes: seq<Contact>, now: nat): (r: Table)
    requires Shaped(t)
    ensures Shaped(r) && r.localId == t.localId
  {
    if nodes == [] then t
    else
      var last := nodes[|nodes| - 1];
      AddNode(AddAll(t, nodes[..|nodes| - 1], now), last.id, last.addr, now).0
  }

  function Other(id: NodeId): Entry -> bool {
    (e: Entry) => e.id != id
  }

  function RemoveFromBucket(b: Bucket, node: NodeId): Bucket {
    Bucket(Filter(b.active, Other(node)), Filter(b.candidates, Other(node)))
  }

  function RemoveNode(t: Table, node: NodeId): Table
    requires Shaped(t)
  {
    var idx := BucketIndex(t.localId, node);
    t.(buckets := t.buckets[idx := RemoveFromBucket(t.buckets[idx], node)])
  }

  function NeedsPing(t: Table, target: NodeId, now: nat): (Table, Option<Contact>)
    requires Shaped(t)
  {
    var idx := BucketIndex(t.localId, target);
    var b := t.buckets[idx];
    var (pinged, out) := PingOldest(b.active, now);
    (t.(buckets := t.buckets[idx := b.(active := pinged)]), out)
  }

  // -------- eviction --------

  predicate Stale(e: Entry, now: nat) {
    e.lastPinged.Some? && Elapsed(now, e.lastPinged.value) > STALE_THRESHOLD && e.lastSeen < e.lastPinged.value
  }

  function StaleAt(now: nat): Entry -> bool {
    (e: Entry) => Stale(e, now)
  }

  function LiveAt(now: nat): Entry -> bool {
    (e: Entry) => !Stale(e, now)
  }

  function FreshAt(now: nat): Entry -> bool {
    (e: Entry) => Elapsed(now, e.lastSeen) < STALE_THRESHOLD
  }

  /** The last most recently seen entry (`max_by_key` keeps the last maximum). */
  function Freshest(s: seq<Entry>): (i: nat)
    requires s != []
    ensures i < |s|
    ensures forall k :: 0 <= k < |s| ==> s[k].lastSeen < s[i].lastSeen || (s[k].lastSeen == s[i].lastSeen && k <= i)
  {
    var last := |s| - 1;
    if last == 0 then 0
    else
      var p := Freshest(s[..last]);
      assert forall k :: 0 <= k < last ==> s[..last][k] == s[k];
      if s[last].lastSeen >= s[p].lastSeen then last else p
  }

  /** Fills the active list up to K, freshest candidate first. */
  function Promote(active: seq<Entry>, candidates: seq<Entry>): Bucket
    decreases |candidates|
  {
    if |active| >= K || candidates == [] then Bucket(active, candidates)
    else
      var i := Freshest(candidates);
      Promote(active + [candidates[i]], RemoveAt(candidates, i))
  }

  /** How many demoted entries still find room among the candidates that stay. */
  function Room(kept: seq<Entry>): nat {
    if |kept| < K then K - |kept| else 0
  }

  lemma SieveStep(done: seq<Entry>, e: Entry, now: nat)
    ensures Filter(done + [e], LiveAt(now)) == Filter(done, LiveAt(now)) + if Stale(e, now) then [] else [e]
    ensures Filter(done + [e], StaleAt(now)) == Filter(done, StaleAt(now)) + if Stale(e, now) then [e] else []
  {
    assert (done + [e])[..|done|] == done;
  }

  lemma ShiftHead(done: seq<Entry>, rest: seq<Entry>)
    requires rest != []
    ensures done + rest == done + [rest[0]] + rest[1..]
  {
  }

  lemma DropHead(live: seq<Entry>, e: Entry, rest: seq<Entry>)
    ensures RemoveAt(live + [e] + rest, |live|) == live + rest
  {
  }

  lemma DemoteOne(kept: seq<Entry>, stale: seq<Entry>, e: Entry)
    ensures var c := kept + Take(Room(kept), stale);
            kept + Take(Room(kept), stale + [e]) == if |c| < K then c + [e] else c
  {
    if |stale| < Room(kept) {
      assert Take(Room(kept), stale) == stale;
      assert Take(Room(kept), stale + [e]) == stale + [e];
    } else {
      assert Take(Room(kept), stale + [e]) == Take(Room(kept), stale);
    }
  }

  function Demoted(b: Bucket, now: nat): seq<Entry> {
    Take(Room(Filter(b.candidates, FreshAt(now))), Filter(b.active, StaleAt(now)))
  }

  function EvictBucket(b: Bucket, now: nat): Bucket {
    Promote(Filter(b.active, LiveAt(now)), Filter(b.candidates, FreshAt(now)) + Demoted(b, now))
  }

  function Evict(t: Table, now: nat): Table {
    t.(buckets := seq(|t.buckets|, i requires 0 <= i < |t.buckets| => EvictBucket(t.buckets[i], now)))
  }

  // -------- closest nodes --------

  function ContactsOf(s: seq<Entry>): (r: seq<Contact>)
    ensures |r| == |s| && forall k :: 0 <= k < |s| ==> r[k] == ContactOf(s[k])
  {
    seq(|s|, k requires 0 <= k < |s| => ContactOf(s[k]))
  }

  /** The active contacts of bucket i, if there is one. */
  function ActiveAt(bs: seq<Bucket>, i: int): seq<Contact>
    requires |bs| == BUCKETS
  {
    if 0 <= i < BUCKETS then ContactsOf(bs[i].active) else []
  }

  /** The active contacts of the buckets at most d away from start, in scan order. */
  function Gather(bs: seq<Bucket>, start: nat, d: nat): seq<Contact>
    requires |bs| == BUCKETS && start < BUCKETS
  {
    if d == 0 then ActiveAt(bs, start)
    else Gather(bs, start, d - 1) + ActiveAt(bs, start - d) + ActiveAt(bs, start + d)
  }

  /** After d rounds the scan goes on: too few contacts so far, and buckets left on at least one side. */
  predicate GoesOn(bs: seq<Bucket>, start: nat, n: nat, d: nat)
    requires |bs| == BUCKETS && start < BUCKETS
  {
    (start >= d + 1 || start + 1 + d < BUCKETS) && |Gather(bs, start, d)| < n
  }

  /** The scan goes on after each of the first d rounds. */
  ghost predicate GoesOnUntil(bs: seq<Bucket>, start: nat, n: nat, d: nat)
    requires |bs| == BUCKETS && start < BUCKETS
  {
    forall k :: 0 <= k < d ==> GoesOn(bs, start, n, k)
  }

  lemma GoesOnStep(bs: seq<Bucket>, start: nat, n: nat, d: nat)
    requires |bs| == BUCKETS && start < BUCKETS
    requires GoesOnUntil(bs, start, n, d) && GoesOn(bs, start, n, d)
    ensures GoesOnUntil(bs, start, n, d + 1)
  {
  }

  /** The state of the scan after d rounds; the upper cursor wraps around below zero. */
  ghost predicate ScanAt(bs: seq<Bucket>, start: nat, n: nat, d: nat, list: seq<Contact>, above: nat, below: nat)
    requires |bs| == BUCKETS && start < BUCKETS
  {
    && d <= BUCKETS
    && list == Gather(bs, start, d)
    && above == (if start >= d + 1 then start - d - 1 else USIZE_MAX)
    && below == (if start + 1 + d < BUCKETS then start + 1 + d else BUCKETS)
    && GoesOnUntil(bs, start, n, d)
  }

  /** `usize::wrapping_sub(1)`. */
  function WrappingDecrement(i: nat): nat {
    if i == 0 then USIZE_MAX else i - 1
  }

  /** How many rounds the outward scan takes. */
  function Radius(bs: seq<Bucket>, start: nat, n: nat, d: nat): (r: nat)
    requires |bs| == BUCKETS && start < BUCKETS && d <= BUCKETS
    ensures d <= r <= BUCKETS
    ensures !GoesOn(bs, start, n, r)
    decreases |bs| - d
  {
    if GoesOn(bs, start, n, d) then Radius(bs, start, n, d + 1) else d
  }

  lemma GatherStep(bs: seq<Bucket>, start: nat, d: nat)
    requires |bs| == BUCKETS && start < BUCKETS
    ensures Gather(bs, start, d + 1) == Gather(bs, start, d) + ActiveAt(bs, start - (d + 1)) + ActiveAt(bs, start + (d + 1))
  {
  }

  lemma RadiusIs(bs: seq<Bucket>, start: nat, n: nat, d: nat, from: nat)
    requires |bs| == BUCKETS && start < BUCKETS && from <= d <= BUCKETS
    requires !GoesOn(bs, start, n, d) && GoesOnUntil(bs, start, n, d)
    ensures Radius(bs, start, n, from) == d
    decreases d - from
  {
    if from < d {
      RadiusIs(bs, start, n, d, from + 1);
    }
  }

  lemma NoBucket(bs: seq<Bucket>, i: int, out: seq<Contact>)
    requires |bs| == BUCKETS && !(0 <= i < BUCKETS)
    ensures out == out + ActiveAt(bs, i)
  {
  }

  function Reach(t: Table, target: NodeId, n: nat): nat
    requires Shaped(t)
  {
    Radius(t.buckets, BucketIndex(t.localId, target), n, 0)
  }

  function ClosestNodes(t: Table, target: NodeId, n: nat): seq<Contact>
    requires Shaped(t)
  {
    Take(n, SortByDistance(target, Gather(t.buckets, BucketIndex(t.localId, target), Reach(t, target, n))))
  }

  // -------- the table object --------

  class RoutingTable {
    const localId: NodeId
    var buckets: seq<Bucket>

    ghost function State(): Table
      reads this
    {
      Table(localId, buckets)
    }

    ghost predicate Valid()
      reads this
    {
      Shaped(State())
    }

    constructor (localId: NodeId)
      ensures Valid() && State() == Table(localId, seq(BUCKETS, _ => Bucket([], [])))
    {
      this.localId := localId;
      buckets := seq(BUCKETS, _ => Bucket([], []));
    }

    method BucketOf(node: NodeId) returns (i: nat)
      ensures i == BucketIndex(localId, node)
    {
      var zeros := LeadingZeroBits(localId, node);
      match zeros
      case Some(z) => i := z;
      case None => i := 255;
    }

    method Add(node: NodeId, addr: SocketAddr, now: nat) returns (out: Option<Contact>)
      requires Valid()
      modifies this
      ensures Valid() && (State(), out) == AddNode(old(State()), node, addr, now)
    {
      if node == localId {
        return None;
      }
      var idx := BucketOf(node);
      var bucket := buckets[idx];
      var entry := Entry(node, addr, now, None);

      var inActive := Position(bucket.active, node);
      if inActive.Some? {
        buckets := buckets[idx := bucket.(active := RemoveAt(bucket.active, inActive.value) + [entry])];
        return None;
      }

      var inCandidates := Position(bucket.candidates, node);
      if inCandidates.Some? {
        buckets := buckets[idx := bucket.(candidates := RemoveAt(bucket.candidates, inCandidates.value) + [entry])];
        return None;
      }

      if |bucket.active| < K {
        buckets := buckets[idx := bucket.(active := bucket.active + [entry])];
        return None;
      }

      if |bucket.candidates| < K {
        var oldest := OldestDue(bucket.active, now);
        var active := bucket.active;
        out := None;
        if oldest.Some? {
          out := Some(ContactOf(active[oldest.value]));
          active := active[oldest.value := active[oldest.value].(lastPinged := Some(now))];
        }
        buckets := buckets[idx := Bucket(active, bucket.candidates + [entry])];
        return;
      }
      assert buckets == buckets[idx := bucket];
      return None;
    }

    method Remove(node: NodeId)
      requires Valid()
      modifies this
      ensures Valid() && State() == RemoveNode(old(State()), node)
    {
      var idx := BucketOf(node);
      var bucket := buckets[idx];
      buckets := buckets[idx := Bucket(Filter(bucket.active, Other(node)), Filter(bucket.candidates, Other(node)))];
    }

    method PingTarget(target: NodeId, now: nat) returns (out: Option<Contact>)
      requires Valid()
      modifies this
      ensures Valid() && (State(), out) == NeedsPing(old(State()), target, now)
    {
      var idx := BucketOf(target);
      var bucket := buckets[idx];
      var oldest := OldestDue(bucket.active, now);
      if oldest.Some? {
        var entry := bucket.active[oldest.value];
        buckets := buckets[idx := bucket.(active := bucket.active[oldest.value := entry.(lastPinged := Some(now))])];
        return Some(ContactOf(entry));
      }
      assert buckets == buckets[idx := bucket];
      return None;
    }

    method Closest(target: NodeId, n: nat) returns (out: seq<Contact>)
      requires Valid()
      ensures out == ClosestNodes(State(), target, n)
    {
      var start := BucketOf(target);
      out := AppendActive(buckets, [], start, start);
      ghost var d;
      out, d := ScanOutward(buckets, out, start, n);
      RadiusIs(buckets, start, n, d, 0);
      out := Take(n, SortByDistance(target, out));
    }

    /** The alternating scan: after the target's own bucket, one bucket on each side per round. */
    static method ScanOutward(bs: seq<Bucket>, own: seq<Contact>, start: nat, n: nat)
      returns (out: seq<Contact>, ghost d: nat)
      requires |bs| == BUCKETS && start < BUCKETS && own == Gather(bs, start, 0)
      ensures d <= BUCKETS && out == Gather(bs, start, d)
      ensures !GoesOn(bs, start, n, d) && GoesOnUntil(bs, start, n, d)
    {
      out, d := own, 0;
      var above: nat := WrappingDecrement(start);
      var below: nat := start + 1;
      while (above < BUCKETS || below < BUCKETS) && |out| < n
        invariant ScanAt(bs, start, n, d, out, above, below)
        decreases BUCKETS - d
      {
        out, above, below := ScanRound(bs, out, above, below, start, n, d);
        d := d + 1;
      }
    }

    /** One round of the scan: the next bucket on each side, where there is one. */
    static method ScanRound(bs: seq<Bucket>, list: seq<Contact>, above0: nat, below0: nat, ghost start: nat, ghost n: nat, ghost d: nat)
      returns (out: seq<Contact>, above: nat, below: nat)
      requires |bs| == BUCKETS && start < BUCKETS && ScanAt(bs, start, n, d, list, above0, below0)
      requires (above0 < BUCKETS || below0 < BUCKETS) && |list| < n
      ensures d < BUCKETS && ScanAt(bs, start, n, d + 1, out, above, below)
    {
      GatherStep(bs, start, d);
      GoesOnStep(bs, start, n, d);
      out, above, below := list, above0, below0;
      if above < BUCKETS {
        out := AppendActive(bs, out, above, start - (d + 1));
        above := WrappingDecrement(above);
      } else {
        NoBucket(bs, start - (d + 1), out);
      }
      if below < BUCKETS {
        out := AppendActive(bs, out, below, start + (d + 1));
        below := below + 1;
      } else {
        NoBucket(bs, start + (d + 1), out);
      }
    }

    /** The loop that pushes every active entry of one bucket. */
    static method AppendActive(bs: seq<Bucket>, list: seq<Contact>, i: nat, ghost at: int) returns (out: seq<Contact>)
      requires |bs| == BUCKETS && i < BUCKETS && at == i
      ensures out == list + ActiveAt(bs, at)
    {
      out := list;
      for k := 0 to |bs[i].active|
        invariant out == list + ContactsOf(bs[i].active)[..k]
      {
        out := out + [ContactOf(bs[i].active[k])];
      }
    }

    method EvictStale(now: nat)
      requires Valid()
      modifies this
      ensures Valid() && State() == Evict(old(State()), now)
    {
      for n := 0 to |buckets|
        invariant |buckets| == BUCKETS
        invariant forall k :: 0 <= k < n ==> buckets[k] == EvictBucket(old(buckets)[k], now)
        invariant forall k :: n <= k < BUCKETS ==> buckets[k] == old(buckets)[k]
      {
        var kept := Filter(buckets[n].candidates, FreshAt(now));
        var active, candidates := DemoteStale(buckets[n].active, kept, now);
        active, candidates := PromoteFreshest(active, candidates);
        buckets := buckets[n := Bucket(active, candidates)];
      }
    }

    /** The inner loop that moves stale active entries down, while there is room. */
    static method DemoteStale(list: seq<Entry>, kept: seq<Entry>, now: nat)
      returns (active: seq<Entry>, candidates: seq<Entry>)
      ensures active == Filter(list, LiveAt(now))
      ensures candidates == kept + Take(Room(kept), Filter(list, StaleAt(now)))
    {
      active, candidates := list, kept;
      var i := 0;
      ghost var done, rest := [], list;
      ghost var live, stale: seq<Entry> := [], [];
      while i < |active|
        invariant list == done + rest
        invariant active == live + rest && i == |live|
        invariant live == Filter(done, LiveAt(now)) && stale == Filter(done, StaleAt(now))
        invariant candidates == kept + Take(Room(kept), stale)
        decreases |rest|
      {
        var e := active[i];
        assert rest == [e] + rest[1..] && active == live + [e] + rest[1..];
        ShiftHead(done, rest);
        SieveStep(done, e, now);
        if Stale(e, now) {
          DropHead(live, e, rest[1..]);
          active := RemoveAt(active, i);
          DemoteOne(kept, stale, e);
          stale := stale + [e];
          if |candidates| < K {
            candidates := candidates + [e];
          }
        } else {
          live := live + [e];
          i := i + 1;
        }
        done, rest := done + [e], rest[1..];
      }
      assert done == list;
    }

    /** The inner loop that promotes the freshest candidates until the active list is full. */
    static method PromoteFreshest(active0: seq<Entry>, candidates0: seq<Entry>)
      returns (active: seq<Entry>, candidates: seq<Entry>)
      ensures Bucket(active, candidates) == Promote(active0, candidates0)
    {
      active, candidates := active0, candidates0;
      while |active| < K && candidates != []
        invariant Promote(active, candidates) == Promote(active0, candidates0)
        decreases |candidates|
      {
        var i := Freshest(candidates);
        var entry := candidates[i];
        candidates := RemoveAt(candidates, i);
        active := active + [entry];
      }
    }
  }
}
