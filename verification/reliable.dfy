/** The receive loop, retransmission sweep and sender of src/transport/reliable.rs, each iteration an atomic step. */
module Reliable {
  import opened Wrappers
  import opened Bytes
  import opened Contacts
  import opened Crypto
  import opened Packets
  import F = Fragments
  import O = Oldest

  const MAX_RETRIES := 5
  /** Two seconds and five minutes, in nanoseconds. */
  const RETRY_DELAY := 2_000_000_000
  const DEDUP_TTL := 300_000_000_000
  const MAX_SEEN := 1024

  type Seen = map<U128, nat>

  // -------- the dedup cache --------

  /** Already forwarded within the last five minutes, as far as the cache remembers. */
  predicate IsDuplicate(seen: Seen, id: U128, now: nat) {
    id in seen && now < seen[id] + DEDUP_TTL
  }

  function Pruned(seen: Seen, now: nat): Seen {
    if |seen| >= MAX_SEEN then map k | k in seen && now < seen[k] + DEDUP_TTL :: seen[k] else seen
  }

  /** Which entry a full cache drops: an oldest one. */
  ghost predicate MakesRoom(seen: Seen, victim: Option<U128>) {
    O.MakesRoom(seen, MAX_SEEN, victim)
  }

  function Remember(seen: Seen, id: U128, now: nat, victim: Option<U128>): Seen {
    (if victim.Some? then Pruned(seen, now) - {victim.value} else Pruned(seen, now))[id := now]
  }

  ghost predicate RoomMade(seen: Seen, id: U128, now: nat, seen': Seen) {
    exists victim :: MakesRoom(Pruned(seen, now), victim) && seen' == Remember(seen, id, now, victim)
  }

  lemma PrunedIsSmaller(seen: Seen, now: nat)
    ensures |Pruned(seen, now)| <= |seen|
  {
    var p := Pruned(seen, now);
    assert p.Keys <= seen.Keys;
    SubsetSize(p.Keys, seen.Keys);
  }

  /** The cache never holds more than 1024 ids. */
  lemma SeenStaysBounded(seen: Seen, id: U128, now: nat, victim: Option<U128>)
    requires |seen| <= MAX_SEEN && MakesRoom(Pruned(seen, now), victim)
    ensures |Remember(seen, id, now, victim)| <= MAX_SEEN
  {
    PrunedIsSmaller(seen, now);
    O.StaysWithin(Pruned(seen, now), MAX_SEEN, victim, id, now);
  }

  // -------- the dedup window over runs --------

  /** A packet id that reached the cache, when, and which entry it may push out. */
  datatype Arrival = Arrival(id: U128, now: nat, victim: Option<U128>)

  /**
   * The cache, everything forwarded so far with its time, the ids whose last forwarding a full cache has pushed
   * out, and the clock.
   */
  datatype Window = Window(seen: Seen, log: seq<(U128, nat)>, pushed: set<U128>, clock: nat)

  function PushedBy(a: Arrival): set<U128> {
    if a.victim.Some? then {a.victim.value} else {}
  }

  function Arrive(w: Window, a: Arrival): Window {
    if IsDuplicate(w.seen, a.id, a.now) then w.(clock := a.now)
    else Window(Remember(w.seen, a.id, a.now, a.victim), w.log + [(a.id, a.now)], w.pushed + PushedBy(a) - {a.id}, a.now)
  }

  ghost predicate CanArrive(w: Window, a: Arrival) {
    w.clock <= a.now && (!IsDuplicate(w.seen, a.id, a.now) ==> MakesRoom(Pruned(w.seen, a.now), a.victim))
  }

  function Window0(): Window {
    Window(map[], [], {}, 0)
  }

  ghost predicate CanRun(w: Window, arrivals: seq<Arrival>)
    decreases |arrivals|
  {
    arrivals == [] || (CanArrive(w, arrivals[0]) && CanRun(Arrive(w, arrivals[0]), arrivals[1..]))
  }

  function ArriveAll(w: Window, arrivals: seq<Arrival>): Window
    decreases |arrivals|
  {
    if arrivals == [] then w else ArriveAll(Arrive(w, arrivals[0]), arrivals[1..])
  }

  /** The other ids forwarded at or after time t. */
  function Others(log: seq<(U128, nat)>, id: U128, t: nat): set<U128> {
    set k | k in log && k.0 != id && k.1 >= t :: k.0
  }

  /** Why a forwarding may be forgotten: it is five minutes old, or 1023 other ids came at or after it. */
  ghost predicate Forgettable(log: seq<(U128, nat)>, now: nat, e: (U128, nat)) {
    now >= e.1 + DEDUP_TTL || |Others(log, e.0, e.1)| >= MAX_SEEN - 1
  }

  ghost predicate Remembered(seen: Seen, e: (U128, nat)) {
    e.0 in seen && seen[e.0] == e.1
  }

  ghost predicate SeenIsLogged(seen: Seen, log: seq<(U128, nat)>) {
    forall id :: id in seen ==> (id, seen[id]) in log
  }

  ghost predicate WindowOk(w: Window) {
    && |w.seen| <= MAX_SEEN
    && SeenIsLogged(w.seen, w.log)
    && (forall e :: e in w.log ==> Remembered(w.seen, e) || Forgettable(w.log, w.clock, e))
  }

  lemma ForgettableStays(log: seq<(U128, nat)>, more: seq<(U128, nat)>, now: nat, later: nat, e: (U128, nat))
    requires Forgettable(log, now, e) && now <= later
    ensures Forgettable(log + more, later, e)
  {
    SubsetSize(Others(log, e.0, e.1), Others(log + more, e.0, e.1));
  }

  /** An entry pushed out of a full cache leaves 1023 ids behind that are no older. */
  lemma PushedOut(seen: Seen, log: seq<(U128, nat)>, victim: U128)
    requires |seen| >= MAX_SEEN && O.IsOldest(seen, victim) && SeenIsLogged(seen, log)
    ensures |Others(log, victim, seen[victim])| >= MAX_SEEN - 1
  {
    var others := seen.Keys - {victim};
    assert |others| == |seen| - 1;
    forall k | k in others ensures k in Others(log, victim, seen[victim]) {
      assert (k, seen[k]) in log;
    }
    SubsetSize(others, Others(log, victim, seen[victim]));
  }

  /** A remembered forwarding is still remembered after the cache makes room, or may be forgotten. */
  lemma RememberedOrForgettable(seen: Seen, log: seq<(U128, nat)>, id: U128, now: nat, victim: Option<U128>, e: (U128, nat))
    requires SeenIsLogged(seen, log) && MakesRoom(Pruned(seen, now), victim) && !IsDuplicate(seen, id, now)
    requires Remembered(seen, e)
    ensures Remembered(Remember(seen, id, now, victim), e) || Forgettable(log, now, e)
  {
    if victim == Some(e.0) && now < e.1 + DEDUP_TTL {
      PushedOut(Pruned(seen, now), log, e.0);
    }
  }

  lemma RememberKeepsLogged(seen: Seen, log: seq<(U128, nat)>, id: U128, now: nat, victim: Option<U128>)
    requires SeenIsLogged(seen, log)
    ensures SeenIsLogged(Remember(seen, id, now, victim), log + [(id, now)])
  {
  }

  lemma ArriveKeepsWindow(w: Window, a: Arrival)
    requires WindowOk(w) && CanArrive(w, a)
    ensures WindowOk(Arrive(w, a))
  {
    var w' := Arrive(w, a);
    if IsDuplicate(w.seen, a.id, a.now) {
      forall e | e in w.log && !Remembered(w.seen, e) ensures Forgettable(w.log, a.now, e) {
        ForgettableStays(w.log, [], w.clock, a.now, e);
        assert w.log + [] == w.log;
      }
    } else {
      SeenStaysBounded(w.seen, a.id, a.now, a.victim);
      RememberKeepsLogged(w.seen, w.log, a.id, a.now, a.victim);
      forall e | e in w'.log ensures Remembered(w'.seen, e) || Forgettable(w'.log, a.now, e) {
        if e in w.log {
          ForwardedBefore(w, a, e);
        }
      }
    }
  }

  lemma ForwardedBefore(w: Window, a: Arrival, e: (U128, nat))
    requires WindowOk(w) && CanArrive(w, a) && !IsDuplicate(w.seen, a.id, a.now) && e in w.log
    ensures Remembered(Arrive(w, a).seen, e) || Forgettable(w.log + [(a.id, a.now)], a.now, e)
  {
    if Remembered(w.seen, e) {
      RememberedOrForgettable(w.seen, w.log, a.id, a.now, a.victim, e);
      if !Remembered(Arrive(w, a).seen, e) {
        ForgettableStays(w.log, [(a.id, a.now)], a.now, a.now, e);
      }
    } else {
      ForgettableStays(w.log, [(a.id, a.now)], w.clock, a.now, e);
    }
  }

  lemma {:induction false} RunKeepsWindow(w: Window, arrivals: seq<Arrival>)
    requires WindowOk(w) && CanRun(w, arrivals)
    ensures WindowOk(ArriveAll(w, arrivals))
    decreases |arrivals|
  {
    if arrivals != [] {
      ArriveKeepsWindow(w, arrivals[0]);
      RunKeepsWindow(Arrive(w, arrivals[0]), arrivals[1..]);
    }
  }

  /**
   * After any run, an id that was forwarded before is forwarded again only if five minutes have passed since,
   * or at least 1023 other ids have been forwarded no earlier than it was; and the cache stays within 1024.
   */
  lemma DedupWindow(arrivals: seq<Arrival>, a: Arrival, t: nat)
    requires CanRun(Window0(), arrivals) && CanArrive(ArriveAll(Window0(), arrivals), a)
    requires (a.id, t) in ArriveAll(Window0(), arrivals).log
    ensures var w := ArriveAll(Window0(), arrivals);
            && |w.seen| <= MAX_SEEN
            && (Arrive(w, a).log != w.log ==> a.now >= t + DEDUP_TTL || |Others(w.log, a.id, t)| >= MAX_SEEN - 1)
  {
    RunKeepsWindow(Window0(), arrivals);
  }

  // -------- what is forwarded, exactly --------

  /** When an id was last forwarded. */
  function LastTime(log: seq<(U128, nat)>, id: U128): Option<nat> {
    if log == [] then None
    else if log[|log| - 1].0 == id then Some(log[|log| - 1].1)
    else LastTime(log[..|log| - 1], id)
  }

  lemma LastTimeAppend(log: seq<(U128, nat)>, e: (U128, nat), id: U128)
    ensures LastTime(log + [e], id) == if e.0 == id then Some(e.1) else LastTime(log, id)
  {
    assert (log + [e])[..|log|] == log;
  }

  lemma {:induction false} LastTimeLogged(log: seq<(U128, nat)>, id: U128)
    ensures LastTime(log, id).Some? ==> (id, LastTime(log, id).value) in log
    ensures LastTime(log, id).None? ==> forall e :: e in log ==> e.0 != id
  {
    if log != [] {
      LastTimeLogged(log[..|log| - 1], id);
      forall e | e in log ensures e in log[..|log| - 1] || e == log[|log| - 1] {
        var k :| 0 <= k < |log| && log[k] == e;
        assert k < |log| - 1 ==> log[..|log| - 1][k] == e;
      }
    }
  }

  /** What is known of one id: remembered, pushed out with 1023 others forwarded no earlier, or last forwarded five minutes ago. */
  ghost predicate Tracked(w: Window, id: U128) {
    match LastTime(w.log, id)
    case None => id !in w.seen && id !in w.pushed
    case Some(t) =>
      && (id in w.seen ==> w.seen[id] == t && id !in w.pushed)
      && (id in w.pushed ==> |Others(w.log, id, t)| >= MAX_SEEN - 1)
      && (id in w.seen || id in w.pushed || w.clock >= t + DEDUP_TTL)
  }

  ghost predicate AllTracked(w: Window) {
    forall id: U128 :: Tracked(w, id)
  }

  lemma TrackedAfterPush(w: Window, a: Arrival, id: U128)
    requires WindowOk(w) && CanArrive(w, a) && Tracked(w, id) && !IsDuplicate(w.seen, a.id, a.now)
    requires id != a.id && a.victim == Some(id) && id in Pruned(w.seen, a.now)
    ensures Tracked(Arrive(w, a), id)
  {
    LastTimeAppend(w.log, (a.id, a.now), id);
    PrunedIsLogged(w.seen, w.log, a.now);
    PushedOut(Pruned(w.seen, a.now), w.log, id);
    SubsetSize(Others(w.log, id, w.seen[id]), Others(w.log + [(a.id, a.now)], id, w.seen[id]));
  }

  lemma PrunedIsLogged(seen: Seen, log: seq<(U128, nat)>, now: nat)
    requires SeenIsLogged(seen, log)
    ensures SeenIsLogged(Pruned(seen, now), log)
  {
  }

  lemma TrackedAfterOther(w: Window, a: Arrival, id: U128)
    requires WindowOk(w) && CanArrive(w, a) && Tracked(w, id) && !IsDuplicate(w.seen, a.id, a.now)
    requires id != a.id && a.victim != Some(id)
    ensures Tracked(Arrive(w, a), id)
  {
    LastTimeAppend(w.log, (a.id, a.now), id);
    if id in w.pushed && LastTime(w.log, id).Some? {
      var t := LastTime(w.log, id).value;
      SubsetSize(Others(w.log, id, t), Others(w.log + [(a.id, a.now)], id, t));
    }
  }

  lemma TrackedAfterForwarding(w: Window, a: Arrival)
    requires !IsDuplicate(w.seen, a.id, a.now)
    ensures Tracked(Arrive(w, a), a.id)
  {
    LastTimeAppend(w.log, (a.id, a.now), a.id);
  }

  lemma ArriveKeepsTracked(w: Window, a: Arrival)
    requires WindowOk(w) && AllTracked(w) && CanArrive(w, a)
    ensures AllTracked(Arrive(w, a))
  {
    forall id: U128 ensures Tracked(Arrive(w, a), id) {
      assert Tracked(w, id);
      if !IsDuplicate(w.seen, a.id, a.now) {
        if id == a.id {
          TrackedAfterForwarding(w, a);
        } else if a.victim == Some(id) {
          TrackedAfterPush(w, a, id);
        } else {
          TrackedAfterOther(w, a, id);
        }
      }
    }
  }

  lemma {:induction false} RunKeepsTracked(w: Window, arrivals: seq<Arrival>)
    requires WindowOk(w) && AllTracked(w) && CanRun(w, arrivals)
    ensures AllTracked(ArriveAll(w, arrivals))
    decreases |arrivals|
  {
    if arrivals != [] {
      ArriveKeepsWindow(w, arrivals[0]);
      ArriveKeepsTracked(w, arrivals[0]);
      RunKeepsTracked(Arrive(w, arrivals[0]), arrivals[1..]);
    }
  }

  /**
   * After any run a packet is forwarded if and only if its id was never forwarded before, or last five minutes
   * ago or more, or a full cache has pushed that forwarding out (and then 1023 other ids were forwarded no earlier).
   */
  lemma ForwardedIff(arrivals: seq<Arrival>, a: Arrival)
    requires CanRun(Window0(), arrivals) && CanArrive(ArriveAll(Window0(), arrivals), a)
    ensures var w := ArriveAll(Window0(), arrivals);
            Arrive(w, a).log ==
              match LastTime(w.log, a.id)
              case None => w.log + [(a.id, a.now)]
              case Some(t) => if a.now >= t + DEDUP_TTL || a.id in w.pushed then w.log + [(a.id, a.now)] else w.log
    ensures var w := ArriveAll(Window0(), arrivals);
            a.id in w.pushed ==> LastTime(w.log, a.id).Some? && |Others(w.log, a.id, LastTime(w.log, a.id).value)| >= 1023
  {
    var w := ArriveAll(Window0(), arrivals);
    RunKeepsWindow(Window0(), arrivals);
    RunKeepsTracked(Window0(), arrivals);
    assert Tracked(w, a.id);
  }

  /** A packet whose id has not been forwarded in the last five minutes always goes through. */
  lemma FreshIsForwarded(arrivals: seq<Arrival>, a: Arrival)
    requires CanRun(Window0(), arrivals) && CanArrive(ArriveAll(Window0(), arrivals), a)
    requires forall t :: (a.id, t) in ArriveAll(Window0(), arrivals).log ==> a.now >= t + DEDUP_TTL
    ensures Arrive(ArriveAll(Window0(), arrivals), a).log == ArriveAll(Window0(), arrivals).log + [(a.id, a.now)]
  {
    ForwardedIff(arrivals, a);
    LastTimeLogged(ArriveAll(Window0(), arrivals).log, a.id);
  }

  // -------- acks --------

  datatype PendingPacket = PendingPacket(serialized: bytes, dest: SocketAddr, retries: nat, lastSent: nat)

  type Unacked = map<U128, PendingPacket>
  type PeerKeys = map<SocketAddr, Key32>

  /** The ack is for a packet that was sent to this address. */
  predicate Awaited(pending: Unacked, ack: Packet, sender: SocketAddr) {
    ack.header.id in pending && pending[ack.header.id].dest == sender
  }

  /** The source reads 96 bytes of an awaited ack without looking at its length. */
  predicate AckReadable(pending: Unacked, ack: Packet, sender: SocketAddr) {
    Awaited(pending, ack, sender) ==> |ack.payload.data| >= 96
  }

  function VerifyAck(s: Suite, pending: Unacked, keys: PeerKeys, ack: Packet, sender: SocketAddr): (bool, PeerKeys)
    requires AckReadable(pending, ack, sender)
  {
    if !Awaited(pending, ack, sender) || !s.validKey(ack.payload.data[..32]) then (false, keys)
    else if sender in keys then
      (s.verify(keys[sender], BigEndian(ack.header.id, 16), ack.payload.data[32..96]), keys)
    else (true, keys[sender := ack.payload.data[..32]])
  }

  /**
   * An ack is accepted if and only if it is for a pending packet, comes from where that was sent, names a valid
   * key, and is signed by the key already stored for that address, if there is one. Only an accepted ack from a
   * new address stores a key, and a stored key stays.
   */
  lemma AcceptedAck(s: Suite, pending: Unacked, keys: PeerKeys, ack: Packet, sender: SocketAddr)
    requires AckReadable(pending, ack, sender)
    ensures var (ok, keys') := VerifyAck(s, pending, keys, ack, sender);
            && (ok <==>
                  && ack.header.id in pending && pending[ack.header.id].dest == sender
                  && s.validKey(ack.payload.data[..32])
                  && (sender in keys ==> s.verify(keys[sender], BigEndian(ack.header.id, 16), ack.payload.data[32..96])))
            && keys' == if ok && sender !in keys then keys[sender := ack.payload.data[..32]] else keys
  {
  }

  // -------- retransmission --------

  /** The sweep: entries out of retries go, those due are sent again. */
  function Swept(pending: Unacked, now: nat): Unacked {
    map id | id in pending && pending[id].retries < MAX_RETRIES :: SweptEntry(pending[id], now)
  }

  predicate Due(e: PendingPacket, now: nat) {
    e.retries < MAX_RETRIES && now > e.lastSent + RETRY_DELAY
  }

  function SweptEntry(e: PendingPacket, now: nat): PendingPacket {
    if Due(e, now) then e.(lastSent := now, retries := e.retries + 1) else e
  }

  function Resent(pending: Unacked, now: nat): set<U128> {
    set id | id in pending && Due(pending[id], now)
  }

  /** A fragment with the AckRequired flag, as `send` puts it on the wire and into the pending map. */
  function WireForm(f: Packet): bytes {
    SerializePacket(f.(header := f.header.(flags := WithFlag(f.header.flags, AckRequired))))
  }

  function SendPiece(pending: Unacked, f: Packet, dest: SocketAddr, now: nat): Unacked {
    pending[f.header.id := PendingPacket(WireForm(f), dest, 0, now)]
  }

  function SendPieces(pending: Unacked, fs: seq<Packet>, dest: SocketAddr, now: nat): Unacked
    decreases |fs|
  {
    if fs == [] then pending else SendPieces(SendPiece(pending, fs[0], dest, now), fs[1..], dest, now)
  }

  function WireForms(fs: seq<Packet>): seq<bytes> {
    if fs == [] then [] else WireForms(fs[..|fs| - 1]) + [WireForm(fs[|fs| - 1])]
  }

  lemma OnePieceMore(pending: Unacked, fs: seq<Packet>, i: nat, dest: SocketAddr, now: nat)
    requires i < |fs|
    ensures SendPieces(pending, fs[i..], dest, now) == SendPieces(SendPiece(pending, fs[i], dest, now), fs[i + 1..], dest, now)
    ensures WireForms(fs[..i + 1]) == WireForms(fs[..i]) + [WireForm(fs[i])]
  {
    assert fs[..i + 1][..i] == fs[..i];
    assert fs[i..][1..] == fs[i + 1..];
  }

  /** On the wire a fragment is itself with AckRequired set, and nothing else changed. */
  lemma WireFormParses(f: Packet)
    ensures ParsePacket(WireForm(f)).Success?
    ensures var g := ParsePacket(WireForm(f)).value;
            && HasFlag(g.header.flags, AckRequired)
            && (forall flag :: flag != AckRequired ==> (HasFlag(g.header.flags, flag) <==> HasFlag(f.header.flags, flag)))
            && g.header.id == f.header.id && g.header.version == f.header.version && g.payload == f.payload
  {
    SetOneFlag(f.header.flags, AckRequired);
    PacketRoundTrip(f.(header := f.header.(flags := WithFlag(f.header.flags, AckRequired))));
  }

  // -------- transmissions over runs --------

  datatype Event =
    | Send(id: U128, serialized: bytes, dest: SocketAddr, now: nat)
    | Ack(packet: Packet, sender: SocketAddr, now: nat)
    | Sweep(now: nat)

  /** What is pending, the known keys, the times at which each id was transmitted, the ids with an accepted ack. */
  datatype Sender = Sender(pending: Unacked, keys: PeerKeys, sent: map<U128, seq<nat>>, acked: set<U128>, clock: nat)

  function SentAlso(sent: map<U128, seq<nat>>, ids: set<U128>, now: nat): map<U128, seq<nat>> {
    map id | id in sent.Keys + ids :: (if id in sent then sent[id] else []) + (if id in ids then [now] else [])
  }

  /** Ids are used once; the clock does not run backwards. */
  predicate Possible(w: Sender, ev: Event) {
    && ev.now >= w.clock
    && (ev.Send? ==> ev.id !in w.sent)
    && (ev.Ack? ==> AckReadable(w.pending, ev.packet, ev.sender))
  }

  function Step(s: Suite, w: Sender, ev: Event): Sender
    requires Possible(w, ev)
  {
    match ev
    case Send(id, data, dest, now) =>
      w.(pending := w.pending[id := PendingPacket(data, dest, 0, now)], sent := SentAlso(w.sent, {id}, now), clock := now)
    case Ack(p, sender, now) =>
      var (ok, keys) := VerifyAck(s, w.pending, w.keys, p, sender);
      if ok then w.(pending := w.pending - {p.header.id}, keys := keys, acked := w.acked + {p.header.id}, clock := now)
      else w.(keys := keys, clock := now)
    case Sweep(now) =>
      w.(pending := Swept(w.pending, now), sent := SentAlso(w.sent, Resent(w.pending, now), now), clock := now)
  }

  ghost predicate SpacedOut(times: seq<nat>) {
    forall i :: 0 < i < |times| ==> times[i] > times[i - 1] + RETRY_DELAY
  }

  /** How one transmitted id stands: still pending, acknowledged, or given up after six transmissions. */
  ghost predicate IdOk(w: Sender, id: U128)
    requires id in w.sent
  {
    var times := w.sent[id];
    && 1 <= |times| <= MAX_RETRIES + 1
    && SpacedOut(times)
    && (if id in w.pending then
          && id !in w.acked
          && w.pending[id].retries == |times| - 1
          && w.pending[id].lastSent == times[|times| - 1]
        else id in w.acked || |times| == MAX_RETRIES + 1)
  }

  ghost predicate SenderOk(w: Sender) {
    && (forall id :: id in w.pending || id in w.acked ==> id in w.sent)
    && (forall id :: id in w.sent ==> IdOk(w, id))
  }

  lemma SweepKeepsId(w: Sender, now: nat, id: U128)
    requires id in w.sent && IdOk(w, id)
    ensures var w' := w.(pending := Swept(w.pending, now), sent := SentAlso(w.sent, Resent(w.pending, now), now), clock := now);
            IdOk(w', id)
  {
    if id in Resent(w.pending, now) {
      assert SentAlso(w.sent, Resent(w.pending, now), now)[id] == w.sent[id] + [now];
    } else {
      assert SentAlso(w.sent, Resent(w.pending, now), now)[id] == w.sent[id];
    }
  }

  lemma SendKeepsOthers(w: Sender, ids: set<U128>, now: nat, id: U128)
    requires id in w.sent && id !in ids
    ensures SentAlso(w.sent, ids, now)[id] == w.sent[id]
  {
  }

  lemma SendKeepsSender(s: Suite, w: Sender, ev: Event)
    requires SenderOk(w) && ev.Send? && Possible(w, ev)
    ensures SenderOk(Step(s, w, ev))
  {
    var w' := Step(s, w, ev);
    forall id | id in w'.sent ensures IdOk(w', id) {
      if id == ev.id {
        assert w'.sent[id] == [ev.now];
      } else {
        SendKeepsOthers(w, {ev.id}, ev.now, id);
        assert IdOk(w, id);
      }
    }
  }

  lemma AckKeepsId(w: Sender, acked: U128, id: U128)
    requires id in w.sent && IdOk(w, id)
    ensures forall keys, now :: IdOk(w.(pending := w.pending - {acked}, keys := keys, acked := w.acked + {acked}, clock := now), id)
    ensures forall keys, now :: IdOk(w.(keys := keys, clock := now), id)
  {
  }

  lemma AckKeepsSender(s: Suite, w: Sender, ev: Event)
    requires SenderOk(w) && ev.Ack? && Possible(w, ev)
    ensures SenderOk(Step(s, w, ev))
  {
    forall id | id in w.sent ensures IdOk(Step(s, w, ev), id) {
      AckKeepsId(w, ev.packet.header.id, id);
    }
  }

  lemma SweepKeepsSender(s: Suite, w: Sender, ev: Event)
    requires SenderOk(w) && ev.Sweep? && Possible(w, ev)
    ensures SenderOk(Step(s, w, ev))
  {
    forall id | id in w.sent ensures IdOk(Step(s, w, ev), id) {
      SweepKeepsId(w, ev.now, id);
    }
  }

  lemma StepKeepsSender(s: Suite, w: Sender, ev: Event)
    requires SenderOk(w) && Possible(w, ev)
    ensures SenderOk(Step(s, w, ev))
  {
    match ev
    case Send(_, _, _, _) => SendKeepsSender(s, w, ev);
    case Ack(_, _, _) => AckKeepsSender(s, w, ev);
    case Sweep(_) => SweepKeepsSender(s, w, ev);
  }

  ghost predicate PossibleRun(s: Suite, w: Sender, evs: seq<Event>)
    decreases |evs|
  {
    evs == [] || (Possible(w, evs[0]) && PossibleRun(s, Step(s, w, evs[0]), evs[1..]))
  }

  function Run(s: Suite, w: Sender, evs: seq<Event>): Sender
    requires PossibleRun(s, w, evs)
    decreases |evs|
  {
    if evs == [] then w else Run(s, Step(s, w, evs[0]), evs[1..])
  }

  function Sender0(): Sender {
    Sender(map[], map[], map[], {}, 0)
  }

  lemma {:induction false} RunKeepsSender(s: Suite, w: Sender, evs: seq<Event>)
    requires SenderOk(w) && PossibleRun(s, w, evs)
    ensures SenderOk(Run(s, w, evs))
    decreases |evs|
  {
    if evs != [] {
      StepKeepsSender(s, w, evs[0]);
      RunKeepsSender(s, Step(s, w, evs[0]), evs[1..]);
    }
  }

  /** Handing a packet to `send` is one send event for each of its fragments. */
  function SendEvents(fs: seq<Packet>, dest: SocketAddr, now: nat): (r: seq<Event>)
    ensures |r| == |fs|
  {
    seq(|fs|, i requires 0 <= i < |fs| => Send(fs[i].header.id, WireForm(fs[i]), dest, now))
  }

  ghost predicate FreshIds(w: Sender, fs: seq<Packet>) {
    && (forall i :: 0 <= i < |fs| ==> fs[i].header.id !in w.sent)
    && (forall i, j :: 0 <= i < j < |fs| ==> fs[i].header.id != fs[j].header.id)
  }

  lemma SentIds(s: Suite, w: Sender, ev: Event, id: U128)
    requires ev.Send? && Possible(w, ev)
    ensures id in Step(s, w, ev).sent <==> id in w.sent || id == ev.id
  {
  }

  lemma FreshAfterOne(s: Suite, w: Sender, fs: seq<Packet>, dest: SocketAddr, now: nat)
    requires fs != [] && FreshIds(w, fs) && now >= w.clock
    ensures var ev := Send(fs[0].header.id, WireForm(fs[0]), dest, now);
            Possible(w, ev) && FreshIds(Step(s, w, ev), fs[1..])
  {
    var ev := Send(fs[0].header.id, WireForm(fs[0]), dest, now);
    forall i | 0 <= i < |fs[1..]| ensures fs[1..][i].header.id !in Step(s, w, ev).sent {
      SentIds(s, w, ev, fs[1..][i].header.id);
    }
  }

  /** Sending a packet's fragments leaves every one of them pending, as the run of its send events does, each transmitted once. */
  lemma {:induction false} SendingIsRun(s: Suite, w: Sender, fs: seq<Packet>, dest: SocketAddr, now: nat)
    requires FreshIds(w, fs) && now >= w.clock
    ensures PossibleRun(s, w, SendEvents(fs, dest, now))
    ensures Run(s, w, SendEvents(fs, dest, now)).pending == SendPieces(w.pending, fs, dest, now)
    decreases |fs|
  {
    if fs != [] {
      FreshAfterOne(s, w, fs, dest, now);
      EventsFromFront(fs, dest, now);
      SendingIsRun(s, Step(s, w, SendEvents(fs, dest, now)[0]), fs[1..], dest, now);
    }
  }

  lemma EventsFromFront(fs: seq<Packet>, dest: SocketAddr, now: nat)
    requires fs != []
    ensures SendEvents(fs, dest, now)[0] == Send(fs[0].header.id, WireForm(fs[0]), dest, now)
    ensures SendEvents(fs, dest, now)[1..] == SendEvents(fs[1..], dest, now)
  {
  }

  /**
   * A sweep transmits again exactly the pending packets that were transmitted fewer than six times, the last time
   * more than two seconds ago; one transmitted six times stops being pending, and nothing else does.
   */
  lemma SweepIsExact(s: Suite, w: Sender, now: nat, id: U128)
    requires SenderOk(w) && now >= w.clock && id in w.sent
    ensures var w', times := Step(s, w, Sweep(now)), w.sent[id];
            && id in w'.sent
            && (w'.sent[id] == if id in w.pending && |times| < 6 && now > times[|times| - 1] + 2_000_000_000 then times + [now] else times)
            && (id in w'.pending <==> id in w.pending && |times| < 6)
  {
    assert IdOk(w, id);
    if id in Resent(w.pending, now) {
      assert SentAlso(w.sent, Resent(w.pending, now), now)[id] == w.sent[id] + [now];
    } else {
      SendKeepsOthers(w, Resent(w.pending, now), now, id);
    }
  }

  /**
   * In every run each packet is transmitted at most six times, copies more than two seconds apart; it stops
   * being pending only by an accepted ack or after the sixth transmission.
   */
  lemma AtMostSixTransmissions(s: Suite, evs: seq<Event>, id: U128)
    requires PossibleRun(s, Sender0(), evs) && id in Run(s, Sender0(), evs).sent
    ensures var w := Run(s, Sender0(), evs);
            && 1 <= |w.sent[id]| <= 6
            && (forall i :: 0 < i < |w.sent[id]| ==> w.sent[id][i] - w.sent[id][i - 1] > RETRY_DELAY)
            && (id in w.pending || id in w.acked || |w.sent[id]| == 6)
  {
    RunKeepsSender(s, Sender0(), evs);
    assert IdOk(Run(s, Sender0(), evs), id);
  }

  lemma StepAfterAck(s: Suite, w: Sender, ev: Event, id: U128)
    requires SenderOk(w) && Possible(w, ev) && id in w.acked
    ensures var w' := Step(s, w, ev); id in w'.acked && id in w'.sent && w'.sent[id] == w.sent[id]
  {
    assert IdOk(w, id);
    match ev
    case Send(x, _, _, now) => SendKeepsOthers(w, {x}, now, id);
    case Ack(_, _, _) =>
    case Sweep(now) => SendKeepsOthers(w, Resent(w.pending, now), now, id);
  }

  /** Once an ack is accepted, no run transmits that packet again. */
  lemma {:induction false} SilentAfterAck(s: Suite, w: Sender, evs: seq<Event>, id: U128)
    requires SenderOk(w) && PossibleRun(s, w, evs) && id in w.acked
    ensures id in Run(s, w, evs).sent && Run(s, w, evs).sent[id] == w.sent[id]
    decreases |evs|
  {
    if evs != [] {
      StepKeepsSender(s, w, evs[0]);
      StepAfterAck(s, w, evs[0], id);
      SilentAfterAck(s, Step(s, w, evs[0]), evs[1..], id);
    }
  }

  // -------- the transport object --------

  /** What a datagram becomes before anything looks at its flags: a packet, or nothing yet. */
  function Incoming(fragments: F.Pending, datagram: bytes, sender: SocketAddr, now: nat): (F.Pending, Option<Packet>)
    requires Safe(datagram)
  {
    match ParsePacket(datagram)
    case Failure(_) => (fragments, None)
    case Success(p) => F.Feed(fragments, p, sender, now)
  }

  predicate Safe(datagram: bytes) {
    ParsePacket(datagram).Success? ==> F.WellFormed(ParsePacket(datagram).value)
  }

  class ReliableTransport {
    const suite: Suite
    var pending: Unacked
    var seen: Seen
    var peerKeys: PeerKeys
    const reassembler: F.Reassembler

    constructor (suite: Suite)
      ensures this.suite == suite && fresh(reassembler) && reassembler.pending == map[]
      ensures pending == map[] && seen == map[] && peerKeys == map[]
    {
      this.suite := suite;
      pending, seen, peerKeys := map[], map[], map[];
      reassembler := new F.Reassembler();
    }

    method SendPacket(p: Packet, ids: nat -> U128, dest: SocketAddr, now: nat) returns (wire: seq<bytes>)
      modifies this`pending
      ensures pending == SendPieces(old(pending), F.Split(p, ids), dest, now)
      ensures wire == WireForms(F.Split(p, ids))
    {
      var fragments := F.SplitPacket(p, ids);
      wire := SendFragments(fragments, dest, now);
    }

    method SendFragments(fragments: seq<Packet>, dest: SocketAddr, now: nat) returns (wire: seq<bytes>)
      modifies this`pending
      ensures pending == SendPieces(old(pending), fragments, dest, now)
      ensures wire == WireForms(fragments)
    {
      wire := [];
      for i := 0 to |fragments|
        invariant SendPieces(pending, fragments[i..], dest, now) == SendPieces(old(pending), fragments, dest, now)
        invariant wire == WireForms(fragments[..i])
      {
        OnePieceMore(pending, fragments, i, dest, now);
        var serialized := SendOne(fragments[i], dest, now);
        wire := wire + [serialized];
      }
      assert fragments[..|fragments|] == fragments;
    }

    method SendOne(f: Packet, dest: SocketAddr, now: nat) returns (serialized: bytes)
      modifies this`pending
      ensures pending == SendPiece(old(pending), f, dest, now) && serialized == WireForm(f)
    {
      var flags := WithFlag(f.header.flags, AckRequired);
      serialized := SerializePacket(f.(header := f.header.(flags := flags)));
      pending := pending[f.header.id := PendingPacket(serialized, dest, 0, now)];
    }

    method VerifiesAck(ack: Packet, sender: SocketAddr) returns (ok: bool)
      requires AckReadable(pending, ack, sender)
      modifies this`peerKeys
      ensures (ok, peerKeys) == VerifyAck(suite, pending, old(peerKeys), ack, sender)
    {
      if ack.header.id !in pending {
        return false;
      }
      if pending[ack.header.id].dest != sender {
        return false;
      }
      var key, signature := ack.payload.data[..32], ack.payload.data[32..96];
      if !suite.validKey(key) {
        return false;
      }
      if sender in peerKeys {
        return suite.verify(peerKeys[sender], BigEndian(ack.header.id, 16), signature);
      }
      peerKeys := peerKeys[sender := key];
      return true;
    }

    /** The dedup cache's part of the loop: whether to forward the packet with this id. */
    method Forwards(id: U128, now: nat) returns (forward: bool, ghost victim: Option<U128>)
      modifies this`seen
      ensures forward == !IsDuplicate(old(seen), id, now)
      ensures !forward ==> seen == old(seen)
      ensures forward ==> MakesRoom(Pruned(old(seen), now), victim) && seen == Remember(old(seen), id, now, victim)
    {
      victim := None;
      if id in seen && now < seen[id] + DEDUP_TTL {
        return false, victim;
      }
      if |seen| >= MAX_SEEN {
        seen := map k | k in seen && now < seen[k] + DEDUP_TTL :: seen[k];
      }
      if |seen| >= MAX_SEEN {
        O.OldestExists(seen);
        var oldest :| oldest in seen.Keys && O.IsOldest(seen, oldest);
        victim := Some(oldest);
        seen := seen - {oldest};
      }
      seen := seen[id := now];
      return true, victim;
    }

    /** One datagram: reassemble, then settle an ack or forward a packet not seen lately. */
    method Receive(datagram: bytes, sender: SocketAddr, now: nat) returns (forwarded: Option<Packet>)
      requires Safe(datagram)
      requires var p := Incoming(reassembler.pending, datagram, sender, now).1;
               p.Some? ==> AckReadable(pending, p.value, sender)
      modifies this, reassembler
      ensures reassembler.pending == Incoming(old(reassembler.pending), datagram, sender, now).0
      ensures match Incoming(old(reassembler.pending), datagram, sender, now).1
              case None => forwarded == None && pending == old(pending) && seen == old(seen) && peerKeys == old(peerKeys)
              case Some(p) =>
                if HasFlag(p.header.flags, PacketFlag.Ack) then
                  var (ok, keys) := VerifyAck(suite, old(pending), old(peerKeys), p, sender);
                  && forwarded == None && seen == old(seen) && peerKeys == keys
                  && pending == if ok then old(pending) - {p.header.id} else old(pending)
                else
                  && pending == old(pending) && peerKeys == old(peerKeys)
                  && (forwarded == if IsDuplicate(old(seen), p.header.id, now) then None else Some(p))
                  && (forwarded == None ==> seen == old(seen))
                  && (forwarded != None ==> RoomMade(old(seen), p.header.id, now, seen))
    {
      var parsed := ParsePacket(datagram);
      if parsed.Failure? {
        return None;
      }
      var packet := parsed.value;
      if packet.payload.fragmentId != 0 {
        var complete := reassembler.FeedFragment(packet, sender, now);
        if complete.None? {
          return None;
        }
        packet := complete.value;
      }
      if HasFlag(packet.header.flags, PacketFlag.Ack) {
        var ok := VerifiesAck(packet, sender);
        if ok {
          pending := pending - {packet.header.id};
        }
        return None;
      }
      var forward, victim := Forwards(packet.header.id, now);
      if !forward {
        return None;
      }
      return Some(packet);
    }

    /** The receive timeout: give up, send again, and drop stale reassemblies. */
    method Idle(now: nat) returns (resent: set<U128>)
      modifies this`pending, reassembler
      ensures pending == Swept(old(pending), now) && resent == Resent(old(pending), now)
      ensures reassembler.pending == F.EvictStale(old(reassembler.pending), now)
    {
      pending, resent := SweepPending(pending, now);
      reassembler.Sweep(now);
    }

    static method SweepPending(pending: Unacked, now: nat) returns (kept: Unacked, resent: set<U128>)
      ensures kept == Swept(pending, now) && resent == Resent(pending, now)
    {
      kept, resent := map[], {};
      var rest := pending.Keys;
      while rest != {}
        invariant rest <= pending.Keys
        invariant SweptBut(pending, rest, now, kept, resent)
        decreases |rest|
      {
        var id :| id in rest;
        SweepOneMore(pending, rest, id, now, kept, resent);
        var entry := pending[id];
        if entry.retries < MAX_RETRIES {
          if now > entry.lastSent + RETRY_DELAY {
            entry := entry.(lastSent := now, retries := entry.retries + 1);
            resent := resent + {id};
          }
          kept := kept[id := entry];
        }
        rest := rest - {id};
      }
    }
  }

  /** The sweep has handled all entries except those with ids in todo. */
  ghost predicate SweptBut(pending: Unacked, todo: set<U128>, now: nat, kept: Unacked, resent: set<U128>) {
    && (forall id :: id in kept <==> id in pending && id !in todo && pending[id].retries < MAX_RETRIES)
    && (forall id :: id in kept ==> id in pending && kept[id] == SweptEntry(pending[id], now))
    && (forall id :: id in resent <==> id in pending && id !in todo && Due(pending[id], now))
  }

  /** Handling one more entry, in any order. */
  lemma SweepOneMore(pending: Unacked, todo: set<U128>, id: U128, now: nat, kept: Unacked, resent: set<U128>)
    requires id in pending && id in todo && SweptBut(pending, todo, now, kept, resent)
    ensures SweptBut(pending, todo - {id}, now,
                     if pending[id].retries < MAX_RETRIES then kept[id := SweptEntry(pending[id], now)] else kept,
                     if Due(pending[id], now) then resent + {id} else resent)
  {
  }
}
