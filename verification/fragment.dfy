/** Splitting packets and putting them together again: src/transport/fragment.rs. */
module Fragments {
  import opened Wrappers
  import opened Bytes
  import opened Contacts
  import opened Packets

  const MAX_CHUNK := 1200
  /** Sixty seconds, in nanoseconds. */
  const ENTRY_TIMEOUT := 60_000_000_000

  // -------- chunks --------

  /** Pieces of 1200 bytes, the last one perhaps shorter. */
  function Chunks(s: bytes): (r: seq<bytes>)
    ensures forall i :: 0 <= i < |r| ==> 0 < |r[i]| <= MAX_CHUNK
  {
    if s == [] then []
    else if |s| <= MAX_CHUNK then [s]
    else [s[..MAX_CHUNK]] + Chunks(s[MAX_CHUNK..])
  }

  function ChunkCount(len: nat): nat {
    (len + MAX_CHUNK - 1) / MAX_CHUNK
  }

  function Flatten(chunks: seq<bytes>): bytes {
    if chunks == [] then [] else chunks[0] + Flatten(chunks[1..])
  }

  lemma {:induction false} ChunksCounted(s: bytes)
    ensures |Chunks(s)| == ChunkCount(|s|)
  {
    if |s| > MAX_CHUNK {
      ChunksCounted(s[MAX_CHUNK..]);
      assert ChunkCount(|s|) == ChunkCount(|s| - MAX_CHUNK) + 1;
    }
  }

  lemma {:induction false} ChunksFlatten(s: bytes)
    ensures Flatten(Chunks(s)) == s
  {
    if |s| > MAX_CHUNK {
      ChunksFlatten(s[MAX_CHUNK..]);
      assert Chunks(s)[1..] == Chunks(s[MAX_CHUNK..]);
      assert s[..MAX_CHUNK] + s[MAX_CHUNK..] == s;
    } else if s != [] {
      assert Flatten([s]) == s + [];
    }
  }

  lemma {:induction false} ChunkAt(s: bytes, i: nat)
    requires i < ChunkCount(|s|)
    ensures |Chunks(s)| == ChunkCount(|s|)
    ensures Chunks(s)[i] == s[i * MAX_CHUNK..if (i + 1) * MAX_CHUNK < |s| then (i + 1) * MAX_CHUNK else |s|]
  {
    ChunksCounted(s);
    if |s| > MAX_CHUNK && i > 0 {
      ChunkAt(s[MAX_CHUNK..], i - 1);
    }
  }

  // -------- splitting --------

  function Serialized(p: Packet): bytes {
    SerializePacket(p)
  }

  lemma SomePiece(p: Packet)
    ensures ChunkCount(|Serialized(p)|) > 0
  {
    assert |Serialized(p)| >= 63;
  }

  /** How many pieces the packet needs. */
  function Pieces(p: Packet): (n: nat)
    ensures n == |Chunks(Serialized(p))| && n > 0
  {
    ChunksCounted(Serialized(p));
    SomePiece(p);
    ChunkCount(|Serialized(p)|)
  }

  /** The flags of piece idx; the addition is on eight bits and wraps. */
  function FragmentFlags(idx: U8, total: U8): U32 {
    if (idx + 1) % 0x100 == total
    then WithFlag(FlagToInt(Fragmented), LastFragment)
    else FlagToInt(Fragmented)
  }

  function Fragment(p: Packet, chunk: bytes, i: nat, total: U8, id: U128): Packet {
    var idx := i % 0x100;
    NewPacket(FragmentFlags(idx, total), id, FragmentPayload(p.payload.tag, chunk, p.header.id, idx, total))
  }

  /** The fragments made so far, the i-th carrying the random id ids(i). */
  function FragmentsTo(p: Packet, total: U8, ids: nat -> U128, n: nat): seq<Packet>
    requires n <= Pieces(p)
  {
    if n == 0 then []
    else FragmentsTo(p, total, ids, n - 1) + [NthFragment(p, total, ids, n - 1)]
  }

  /** The number of pieces is cut to eight bits before it is looked at. */
  function Split(p: Packet, ids: nat -> U128): seq<Packet> {
    var total := Pieces(p) % 0x100;
    if total <= 1 then [p] else FragmentsTo(p, total, ids, Pieces(p))
  }

  method SplitPacket(p: Packet, ids: nat -> U128) returns (fragments: seq<Packet>)
    ensures fragments == Split(p, ids)
  {
    var serialized := SerializePacket(p);
    var total := (|serialized| + MAX_CHUNK - 1) / MAX_CHUNK % 0x100;
    if total <= 1 {
      return [p];
    }
    fragments := [];
    var rest, i := serialized, 0;
    while rest != []
      invariant i <= Pieces(p)
      invariant Chunks(rest) == Chunks(serialized)[i..]
      invariant fragments == FragmentsTo(p, total, ids, i)
      decreases |rest|
    {
      var chunk := if |rest| <= MAX_CHUNK then rest else rest[..MAX_CHUNK];
      rest := rest[|chunk|..];
      fragments := fragments + [Fragment(p, chunk, i, total, ids(i))];
      i := i + 1;
    }
  }

  function NthFragment(p: Packet, total: U8, ids: nat -> U128, i: nat): Packet
    requires i < Pieces(p)
  {
    Fragment(p, Chunks(Serialized(p))[i], i, total, ids(i))
  }

  lemma {:induction false} FragmentsToCounted(p: Packet, total: U8, ids: nat -> U128, n: nat)
    requires n <= Pieces(p)
    ensures |FragmentsTo(p, total, ids, n)| == n
  {
    if n > 0 {
      FragmentsToCounted(p, total, ids, n - 1);
    }
  }

  lemma {:induction false} FragmentsToAt(p: Packet, total: U8, ids: nat -> U128, n: nat, i: nat)
    requires i < n <= Pieces(p)
    ensures |FragmentsTo(p, total, ids, n)| == n
    ensures FragmentsTo(p, total, ids, n)[i] == NthFragment(p, total, ids, i)
  {
    FragmentsToCounted(p, total, ids, n - 1);
    if i < n - 1 {
      FragmentsToAt(p, total, ids, n - 1, i);
    }
  }

  /** The payload alone: the transport ids of fragments play no part in reassembly. */
  ghost predicate IsFragmentOf(f: Packet, p: Packet, i: nat)
    requires i < Pieces(p)
  {
    && f.payload.fragmentId == p.header.id
    && f.payload.fragmentIndex == i
    && f.payload.fragmentTotal == Pieces(p)
    && f.payload.data == Chunks(Serialized(p))[i]
  }

  /** Whether the packet is small enough to be cut into numbered pieces, and needs to be. */
  predicate Splits(p: Packet) {
    2 <= Pieces(p) <= 255
  }

  lemma PieceFlags(idx: U8, total: U8)
    requires 1 < total && idx < total
    ensures HasFlag(FragmentFlags(idx, total), Fragmented)
    ensures HasFlag(FragmentFlags(idx, total), LastFragment) <==> idx == total - 1
  {
    assert WithFlag(FlagToInt(Fragmented), LastFragment) == 12;
    assert FlagToInt(Fragmented) == 4;
  }

  /** Piece i of a packet, of at most 1200 bytes, marked as last exactly when it is. */
  ghost predicate GoodFragment(f: Packet, p: Packet, i: nat)
    requires i < Pieces(p)
  {
    && IsFragmentOf(f, p, i) && 0 < |f.payload.data| <= MAX_CHUNK
    && HasFlag(f.header.flags, Fragmented)
    && (HasFlag(f.header.flags, LastFragment) <==> i == Pieces(p) - 1)
  }

  lemma FragmentFields(p: Packet, chunk: bytes, i: nat, total: U8, id: U128)
    requires i < 0x100
    ensures var f := Fragment(p, chunk, i, total, id);
            && f.payload.fragmentId == p.header.id && f.payload.fragmentIndex == i
            && f.payload.fragmentTotal == total && f.payload.data == chunk
            && f.header.flags == FragmentFlags(i, total)
            && f.header.id == id && f.header.version == 1 && f.payload.tag == p.payload.tag
  {
  }

  lemma FragmentIsGood(p: Packet, ids: nat -> U128, i: nat)
    requires Splits(p) && i < Pieces(p)
    ensures GoodFragment(NthFragment(p, Pieces(p), ids, i), p, i)
  {
    FragmentFields(p, Chunks(Serialized(p))[i], i, Pieces(p), ids(i));
    PieceFlags(i, Pieces(p));
  }

  lemma SplitAt(p: Packet, ids: nat -> U128, i: nat)
    requires Splits(p) && i < Pieces(p)
    ensures |Split(p, ids)| == Pieces(p) && Split(p, ids)[i] == NthFragment(p, Pieces(p), ids, i)
  {
    assert Pieces(p) % 0x100 == Pieces(p);
    FragmentsToAt(p, Pieces(p), ids, Pieces(p), i);
  }

  /** A packet of 2 to 255 pieces becomes that many fragments, each a good one with an id of its own and the packet's tag. */
  lemma SplitShape(p: Packet, ids: nat -> U128, i: nat)
    requires Splits(p) && i < Pieces(p)
    ensures |Split(p, ids)| == Pieces(p) && GoodFragment(Split(p, ids)[i], p, i)
    ensures Split(p, ids)[i].header.id == ids(i) && Split(p, ids)[i].payload.tag == p.payload.tag
  {
    SplitAt(p, ids, i);
    FragmentIsGood(p, ids, i);
    FragmentFields(p, Chunks(Serialized(p))[i], i, Pieces(p), ids(i));
  }

  /** A packet goes out whole, under its own id, exactly when its eight-bit piece count is at most 1. */
  lemma SentWholeIff(p: Packet, ids: nat -> U128)
    ensures Pieces(p) % 0x100 <= 1 ==> Split(p, ids) == [p]
    ensures Pieces(p) % 0x100 > 1 ==> |Split(p, ids)| == Pieces(p) > 1
  {
    FragmentsToCounted(p, Pieces(p) % 0x100, ids, Pieces(p));
  }

  // -------- reassembly --------

  datatype PendingReassembly = PendingReassembly(total: U8, chunks: seq<Option<bytes>>, started: nat)

  type Entry = e: PendingReassembly | |e.chunks| == e.total witness PendingReassembly(0, [], 0)

  type StreamKey = (U128, SocketAddr)
  type Pending = map<StreamKey, Entry>

  function NewEntry(total: U8, now: nat): Entry {
    PendingReassembly(total, seq(total, _ => None), now)
  }

  /** All chunks joined, once none is missing. */
  function Joined(chunks: seq<Option<bytes>>): Option<bytes> {
    if chunks == [] then Some([])
    else
      match Joined(chunks[..|chunks| - 1])
      case None => None
      case Some(front) =>
        var last := chunks[|chunks| - 1];
        if last.None? then None else Some(front + last.value)
  }

  /** What a receiver may be fed without an index out of bounds. */
  predicate WellFormed(f: Packet) {
    f.payload.fragmentId != 0 ==> f.payload.fragmentIndex < f.payload.fragmentTotal
  }

  function EntryFor(pending: Pending, key: StreamKey, total: U8, now: nat): (e: Entry)
    ensures e.total == total
  {
    if key in pending && pending[key].total == total then pending[key] else NewEntry(total, now)
  }

  function WithChunk(e: Entry, i: nat, data: bytes): Entry
    requires i < e.total
  {
    e.(chunks := e.chunks[i := Some(data)])
  }

  function Feed(pending: Pending, f: Packet, sender: SocketAddr, now: nat): (Pending, Option<Packet>)
    requires WellFormed(f)
  {
    if f.payload.fragmentId == 0 then (pending, Some(f))
    else
      var key := (f.payload.fragmentId, sender);
      var e := WithChunk(EntryFor(pending, key, f.payload.fragmentTotal, now), f.payload.fragmentIndex, f.payload.data);
      (pending[key := e], Assembled(e.chunks))
  }

  function Assembled(chunks: seq<Option<bytes>>): Option<Packet> {
    match Joined(chunks)
    case None => None
    case Some(data) =>
      match ParsePacket(data)
      case Success(p) => Some(p)
      case Failure(_) => None
  }

  function EvictStale(pending: Pending, now: nat): Pending {
    map k | k in pending && now < pending[k].started + ENTRY_TIMEOUT :: pending[k]
  }

  class Reassembler {
    var pending: Pending

    constructor ()
      ensures pending == map[]
    {
      pending := map[];
    }

    static method IsFull(chunks: seq<Option<bytes>>) returns (r: Option<bytes>)
      ensures r == Joined(chunks)
    {
      var data: bytes := [];
      for i := 0 to |chunks|
        invariant Joined(chunks[..i]) == Some(data)
      {
        assert chunks[..i + 1][..i] == chunks[..i];
        if chunks[i].None? {
          MissingChunk(chunks, i);
          return None;
        }
        data := data + chunks[i].value;
      }
      assert chunks[..|chunks|] == chunks;
      return Some(data);
    }

    method FeedFragment(f: Packet, sender: SocketAddr, now: nat) returns (r: Option<Packet>)
      requires WellFormed(f)
      modifies this
      ensures (pending, r) == Feed(old(pending), f, sender, now)
    {
      if f.payload.fragmentId == 0 {
        return Some(f);
      }
      var key := (f.payload.fragmentId, sender);
      var total := f.payload.fragmentTotal;
      var entry := if key in pending then pending[key] else NewEntry(total, now);
      if entry.total != total {
        entry := PendingReassembly(total, seq(total, _ => None), now);
      }
      entry := entry.(chunks := entry.chunks[f.payload.fragmentIndex := Some(f.payload.data)]);
      pending := pending[key := entry];
      var assembled := IsFull(entry.chunks);
      if assembled.None? {
        return None;
      }
      var parsed := ParsePacket(assembled.value);
      return if parsed.Success? then Some(parsed.value) else None;
    }

    method Sweep(now: nat)
      modifies this
      ensures pending == EvictStale(old(pending), now)
    {
      pending := map k | k in pending && now < pending[k].started + ENTRY_TIMEOUT :: pending[k];
    }
  }

  /** A fragment that gives another total than its stream so far makes the stream start over, with that chunk alone. */
  lemma ChangedTotalStartsOver(pending: Pending, f: Packet, sender: SocketAddr, now: nat, j: nat)
    requires WellFormed(f) && f.payload.fragmentId != 0 && j < f.payload.fragmentTotal
    requires var key := (f.payload.fragmentId, sender); key in pending && pending[key].total != f.payload.fragmentTotal
    ensures var e := Feed(pending, f, sender, now).0[(f.payload.fragmentId, sender)];
            && e.total == f.payload.fragmentTotal && e.started == now
            && e.chunks[j] == if j == f.payload.fragmentIndex then Some(f.payload.data) else None
  {
  }

  lemma {:induction false} MissingChunk(chunks: seq<Option<bytes>>, i: nat)
    requires i < |chunks| && chunks[i].None?
    ensures Joined(chunks) == None
  {
    if i < |chunks| - 1 {
      MissingChunk(chunks[..|chunks| - 1], i);
    }
  }

  lemma {:induction false} AllChunks(chunks: seq<Option<bytes>>, pieces: seq<bytes>)
    requires |chunks| == |pieces| && forall i :: 0 <= i < |chunks| ==> chunks[i] == Some(pieces[i])
    ensures Joined(chunks) == Some(Flatten(pieces))
  {
    if chunks != [] {
      var k := |chunks| - 1;
      AllChunks(chunks[..k], pieces[..k]);
      assert pieces == pieces[..k] + [pieces[k]];
      FlattenLast(pieces[..k], pieces[k]);
    }
  }

  lemma {:induction false} FlattenLast(pieces: seq<bytes>, last: bytes)
    ensures Flatten(pieces + [last]) == Flatten(pieces) + last
  {
    if pieces == [] {
      assert [] + [last] == [last] && Flatten([last]) == last + [];
    } else {
      FlattenLast(pieces[1..], last);
      assert (pieces + [last])[1..] == pieces[1..] + [last];
      assert pieces[0] + (Flatten(pieces[1..]) + last) == (pieces[0] + Flatten(pieces[1..])) + last;
    }
  }

  // -------- reassembly undoes splitting --------

  datatype Event = Fed(fragment: Packet, sender: SocketAddr, now: nat) | Swept(now: nat)

  predicate Allowed(ev: Event) {
    ev.Fed? ==> WellFormed(ev.fragment)
  }

  function Step(pending: Pending, ev: Event): (Pending, Option<Packet>)
    requires Allowed(ev)
  {
    match ev
    case Fed(f, sender, now) => Feed(pending, f, sender, now)
    case Swept(now) => (EvictStale(pending, now), None)
  }

  function Run(pending: Pending, evs: seq<Event>): Pending
    requires forall i :: 0 <= i < |evs| ==> Allowed(evs[i])
  {
    if evs == [] then pending else Step(Run(pending, evs[..|evs| - 1]), evs[|evs| - 1]).0
  }

  /** The event belongs to the stream of p from this sender. */
  predicate OfStream(ev: Event, p: Packet, sender: SocketAddr) {
    ev.Fed? && ev.fragment.payload.fragmentId == p.header.id && ev.sender == sender
  }

  /** The piece numbers of p that have arrived from this sender. */
  function Arrived(evs: seq<Event>, p: Packet, sender: SocketAddr): set<nat> {
    set i | 0 <= i < |evs| && OfStream(evs[i], p, sender) :: evs[i].fragment.payload.fragmentIndex
  }

  predicate IsPieceNumber(p: Packet, i: nat) {
    i < Pieces(p)
  }

  function AllPieces(p: Packet): set<nat> {
    set i: nat | i < Pieces(p) && IsPieceNumber(p, i)
  }

  /** Of the events, those of p's stream carry pieces of p; the rest are anything. All lie within one minute. */
  ghost predicate Arrivals(evs: seq<Event>, p: Packet, sender: SocketAddr, start: nat) {
    forall i :: 0 <= i < |evs| ==>
      && Allowed(evs[i])
      && start <= evs[i].now < start + ENTRY_TIMEOUT
      && (OfStream(evs[i], p, sender) ==> IsPiece(evs[i].fragment, p))
  }

  ghost predicate IsPiece(f: Packet, p: Packet) {
    f.payload.fragmentIndex < Pieces(p) && IsFragmentOf(f, p, f.payload.fragmentIndex)
  }

  /** When the first piece of p's stream arrived. */
  function FirstArrival(evs: seq<Event>, p: Packet, sender: SocketAddr): Option<nat> {
    if evs == [] then None
    else
      var before := FirstArrival(evs[..|evs| - 1], p, sender);
      if before.None? && OfStream(evs[|evs| - 1], p, sender) then Some(evs[|evs| - 1].now) else before
  }

  /** The entry of p's stream holds exactly the pieces that arrived, and dates from the first of them. */
  ghost predicate Holds(pending: Pending, p: Packet, sender: SocketAddr, got: set<nat>, first: Option<nat>) {
    var key := (p.header.id, sender);
    if got == {} then key !in pending && first == None
    else
      && key in pending
      && pending[key].total == Pieces(p)
      && first == Some(pending[key].started)
      && (forall i :: 0 <= i < Pieces(p) ==>
            pending[key].chunks[i] == if i in got then Some(Chunks(Serialized(p))[i]) else None)
  }

  lemma FullMeansOriginal(chunks: seq<Option<bytes>>, p: Packet, got: set<nat>)
    requires |chunks| == Pieces(p) && got <= AllPieces(p)
    requires forall i :: 0 <= i < |chunks| ==> chunks[i] == if i in got then Some(Chunks(Serialized(p))[i]) else None
    ensures Assembled(chunks) == if got == AllPieces(p) then Some(p) else None
  {
    if got == AllPieces(p) {
      AllChunks(chunks, Chunks(Serialized(p)));
      ChunksFlatten(Serialized(p));
      PacketRoundTrip(p);
    } else {
      var i: nat :| i in AllPieces(p) && i !in got;
      MissingChunk(chunks, i);
    }
  }

  lemma FeedPiece(pending: Pending, f: Packet, p: Packet, sender: SocketAddr, now: nat, got: set<nat>, first: Option<nat>)
    requires p.header.id != 0 && Splits(p) && IsPiece(f, p) && got <= AllPieces(p)
    requires Holds(pending, p, sender, got, first)
    ensures WellFormed(f)
    ensures var (pending', r) := Feed(pending, f, sender, now);
            var got' := got + {f.payload.fragmentIndex};
            && Holds(pending', p, sender, got', if first.Some? then first else Some(now))
            && r == if got' == AllPieces(p) then Some(p) else None
  {
    var key := (p.header.id, sender);
    var pending' := Feed(pending, f, sender, now).0;
    FullMeansOriginal(pending'[key].chunks, p, got + {f.payload.fragmentIndex});
  }

  lemma StepElsewhere(pending: Pending, ev: Event, p: Packet, sender: SocketAddr, got: set<nat>, first: Option<nat>)
    requires Allowed(ev) && !OfStream(ev, p, sender) && (first.Some? ==> ev.now < first.value + ENTRY_TIMEOUT)
    requires Holds(pending, p, sender, got, first)
    ensures Holds(Step(pending, ev).0, p, sender, got, first)
  {
  }

  lemma {:induction false} FirstInWindow(evs: seq<Event>, p: Packet, sender: SocketAddr, start: nat)
    requires Arrivals(evs, p, sender, start)
    ensures FirstArrival(evs, p, sender).Some? ==> FirstArrival(evs, p, sender).value >= start
  {
    if evs != [] {
      FirstInWindow(evs[..|evs| - 1], p, sender, start);
    }
  }

  lemma ArrivedOneMore(evs: seq<Event>, ev: Event, p: Packet, sender: SocketAddr)
    ensures Arrived(evs + [ev], p, sender) ==
              Arrived(evs, p, sender) + if OfStream(ev, p, sender) then {ev.fragment.payload.fragmentIndex} else {}
  {
    var all := evs + [ev];
    assert forall i :: 0 <= i < |evs| ==> all[i] == evs[i];
    assert all[|evs|] == ev;
  }

  lemma ArrivedArePieces(evs: seq<Event>, p: Packet, sender: SocketAddr, start: nat)
    requires Arrivals(evs, p, sender, start)
    ensures Arrived(evs, p, sender) <= AllPieces(p)
  {
  }

  lemma {:induction false} RunHolds(pending: Pending, evs: seq<Event>, p: Packet, sender: SocketAddr, start: nat)
    requires p.header.id != 0 && Splits(p) && (p.header.id, sender) !in pending && Arrivals(evs, p, sender, start)
    ensures Holds(Run(pending, evs), p, sender, Arrived(evs, p, sender), FirstArrival(evs, p, sender))
  {
    if evs != [] {
      var init, ev := evs[..|evs| - 1], evs[|evs| - 1];
      RunHolds(pending, init, p, sender, start);
      ArrivedArePieces(init, p, sender, start);
      FirstInWindow(init, p, sender, start);
      assert evs == init + [ev];
      ArrivedOneMore(init, ev, p, sender);
      if OfStream(ev, p, sender) {
        FeedPiece(Run(pending, init), ev.fragment, p, sender, ev.now, Arrived(init, p, sender), FirstArrival(init, p, sender));
      } else {
        StepElsewhere(Run(pending, init), ev, p, sender, Arrived(init, p, sender), FirstArrival(init, p, sender));
      }
    }
  }

  /**
   * Reassembly undoes splitting: whatever the order, the duplicates and the traffic in between, feeding a
   * piece of p yields nothing while some piece has not arrived, and p itself from then on.
   */
  lemma ReassemblyUndoesSplit(pending: Pending, evs: seq<Event>, p: Packet, sender: SocketAddr, start: nat)
    requires p.header.id != 0 && Splits(p) && (p.header.id, sender) !in pending
    requires Arrivals(evs, p, sender, start) && evs != [] && OfStream(evs[|evs| - 1], p, sender)
    ensures var last := |evs| - 1;
            Step(Run(pending, evs[..last]), evs[last]).1 ==
              if Arrived(evs, p, sender) == AllPieces(p) then Some(p) else None
  {
    var init, ev := evs[..|evs| - 1], evs[|evs| - 1];
    RunHolds(pending, init, p, sender, start);
    ArrivedArePieces(init, p, sender, start);
    assert evs == init + [ev];
    ArrivedOneMore(init, ev, p, sender);
    FeedPiece(Run(pending, init), ev.fragment, p, sender, ev.now, Arrived(init, p, sender), FirstArrival(init, p, sender));
  }

  /** A sweep forgets the stream of p exactly if its first piece arrived sixty seconds ago or more, complete or not. */
  lemma SweepForgetsIff(pending: Pending, evs: seq<Event>, p: Packet, sender: SocketAddr, start: nat, now: nat)
    requires p.header.id != 0 && Splits(p) && (p.header.id, sender) !in pending && Arrivals(evs, p, sender, start)
    ensures var first := FirstArrival(evs, p, sender);
            (p.header.id, sender) in EvictStale(Run(pending, evs), now) <==> first.Some? && now < first.value + 60_000_000_000
  {
    RunHolds(pending, evs, p, sender, start);
  }

  /**
   * The bound is exact: what `split_packet` makes of a packet with a nonzero id can all be fed safely if and
   * only if the eight-bit piece count is not a truncated one above 1.
   */
  lemma SplitIsFeedableIff(p: Packet, ids: nat -> U128)
    requires p.header.id != 0 && WellFormed(p)
    ensures (forall i :: 0 <= i < |Split(p, ids)| ==> WellFormed(Split(p, ids)[i])) <==> Pieces(p) <= 255 || Pieces(p) % 0x100 <= 1
  {
    var total := Pieces(p) % 0x100;
    if Pieces(p) <= 255 && total > 1 {
      SplitAt(p, ids, 0);
      forall i | 0 <= i < Pieces(p) ensures WellFormed(Split(p, ids)[i]) {
        SplitShape(p, ids, i);
      }
    } else if total > 1 {
      TruncatedTotal(p, ids);
    }
  }

  /** With more than 255 pieces, the piece whose number is the truncated total lies out of bounds. */
  lemma TruncatedTotal(p: Packet, ids: nat -> U128)
    requires p.header.id != 0 && Pieces(p) > 255 && Pieces(p) % 0x100 > 1
    ensures exists i :: 0 <= i < |Split(p, ids)| && !WellFormed(Split(p, ids)[i])
  {
    var total := Pieces(p) % 0x100;
    FragmentsToAt(p, total, ids, Pieces(p), total);
    FragmentFields(p, Chunks(Serialized(p))[total], total, total, ids(total));
    var fs := Split(p, ids);
    assert fs == FragmentsTo(p, total, ids, Pieces(p));
    assert !WellFormed(fs[total]);
  }

  /** A packet with id 0 is never put together: each of its fragments comes back as a packet of its own. */
  lemma ZeroIdIsNotReassembled(p: Packet, ids: nat -> U128, i: nat, pending: Pending, sender: SocketAddr, now: nat)
    requires p.header.id == 0 && Splits(p) && i < Pieces(p)
    ensures |Split(p, ids)| == Pieces(p) && WellFormed(Split(p, ids)[i])
    ensures Feed(pending, Split(p, ids)[i], sender, now) == (pending, Some(Split(p, ids)[i]))
  {
    SplitShape(p, ids, i);
  }
}
