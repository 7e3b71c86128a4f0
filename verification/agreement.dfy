/**
 * Two ends of one conversation over a network that drops, duplicates and reorders. A message is never
 * delivered after a message of a newer epoch has been accepted by the same receiver, and fresh DH public
 * keys differ from all earlier ones; within those bounds every run is covered.
 */
module Agreement {
  import opened Wrappers
  import opened Bytes
  import opened Crypto
  import opened Chains
  import opened Ratchets

  datatype Party = Initiator | Responder

  function Other(p: Party): Party {
    if p == Initiator then Responder else Initiator
  }

  /** Epoch e is sent by the holder of the e-th DH key: even epochs by the initiator, odd ones by the responder. */
  function Owner(epoch: nat): Party {
    if epoch == 0 then Initiator else Other(Owner(epoch - 1))
  }

  datatype Message = Message(epoch: nat, envelope: Envelope, plaintext: bytes)

  /**
   * Both ratchets, the DH private keys in order of creation (handshake keys of initiator and responder first),
   * every message ever sent, and the (epoch, number) pairs opened so far.
   */
  datatype World = World(
    initiator: RatchetState,
    responder: RatchetState,
    keys: seq<Key32>,
    network: seq<Message>,
    read: set<(nat, nat)>)

  datatype Event =
    | Send(sender: Party, plaintext: bytes, nonce: Nonce)
    | Deliver(index: nat, secret: Key32, now: nat, victim: Option<Key32>)

  function Side(w: World, p: Party): RatchetState {
    if p == Initiator then w.initiator else w.responder
  }

  function WithSide(w: World, p: Party, r: RatchetState): World {
    if p == Initiator then w.(initiator := r) else w.(responder := r)
  }

  function Newest(w: World): nat
    requires |w.keys| > 0
  {
    |w.keys| - 1
  }

  /** The epoch a party currently sends in. */
  function SendingEpoch(w: World, p: Party): nat
    requires |w.keys| > 1
  {
    if Owner(Newest(w)) == p then Newest(w) else Newest(w) - 1
  }

  function Receiver(m: Message): Party {
    Owner(m.epoch + 1)
  }

  // -------- the two roots and the chains both ends should reach --------

  function DhShared(s: Suite, keys: seq<Key32>, e: nat): Key32
    requires 1 <= e < |keys|
  {
    s.diffieHellman(keys[e], s.publicKey(keys[e - 1]))
  }

  function Root(s: Suite, shared: Key32, keys: seq<Key32>, e: nat): Key32
    requires e < |keys|
  {
    if e <= 1 then shared else s.kdfRk(Root(s, shared, keys, e - 1), DhShared(s, keys, e)).0
  }

  function EpochKey(s: Suite, shared: Key32, keys: seq<Key32>, e: nat): Key32
    requires e < |keys|
  {
    if e <= 1 then s.deriveKey(shared, InitChain) else s.kdfRk(Root(s, shared, keys, e - 1), DhShared(s, keys, e)).1
  }

  lemma {:induction false} RootPrefix(s: Suite, shared: Key32, keys: seq<Key32>, secret: Key32, e: nat)
    requires e < |keys|
    ensures Root(s, shared, keys + [secret], e) == Root(s, shared, keys, e)
    ensures EpochKey(s, shared, keys + [secret], e) == EpochKey(s, shared, keys, e)
  {
    if e > 1 {
      RootPrefix(s, shared, keys, secret, e - 1);
    }
  }

  // -------- steps --------

  function Start(s: Suite, shared: Key32, a0: Key32, b0: Key32, a1: Key32, now: nat, peerNow: nat): World {
    World(SendStep(s, New(s, shared, a0, s.publicKey(b0), now), a1),
          New(s, shared, b0, s.publicKey(a0), peerNow),
          [a0, b0, a1], [], {})
  }

  function SendMessage(s: Suite, w: World, p: Party, plaintext: bytes, nonce: Nonce): World
    requires |w.keys| > 1
  {
    var (r, e) := Encrypt(s, Side(w, p), plaintext, nonce);
    WithSide(w, p, r).(network := w.network + [Message(SendingEpoch(w, p), e, plaintext)])
  }

  function DeliverMessage(s: Suite, w: World, m: Message, secret: Key32, now: nat, victim: Option<Key32>): (World, Result<bytes, string>) {
    var r := Side(w, Receiver(m));
    var (r', result) := Decrypt(s, r, m.envelope, secret, now, victim);
    (WithSide(w, Receiver(m), r').(
     keys := if Turns(r, m.envelope) then w.keys + [secret] else w.keys,
     read := if result.Success? then w.read + {(m.epoch, m.envelope.number)} else w.read),
     result)
  }

  /** No older epoch after a newer one was accepted: the receiver still listens to this epoch, or has not seen it yet. */
  ghost predicate InEpochOrder(w: World, m: Message)
    requires |w.keys| > 1
  {
    m.epoch + 1 >= SendingEpoch(w, Receiver(m))
  }

  ghost predicate FreshAmong(s: Suite, keys: seq<Key32>, secret: Key32) {
    forall i :: 0 <= i < |keys| ==> s.publicKey(keys[i]) != s.publicKey(secret)
  }

  ghost predicate FreshSecret(s: Suite, w: World, secret: Key32) {
    FreshAmong(s, w.keys, secret)
  }

  ghost predicate Allowed(s: Suite, w: World, ev: Event)
    requires |w.keys| > 1
  {
    match ev
    case Send(_, _, _) => true
    case Deliver(k, secret, _, victim) =>
      && k < |w.network|
      && InEpochOrder(w, w.network[k])
      && FreshSecret(s, w, secret)
      && MakesRoom(Side(w, Receiver(w.network[k])).receivingChains, victim)
  }

  function Step(s: Suite, w: World, ev: Event): World
    requires |w.keys| > 1
    requires ev.Deliver? ==> ev.index < |w.network|
  {
    match ev
    case Send(p, plaintext, nonce) => SendMessage(s, w, p, plaintext, nonce)
    case Deliver(k, secret, now, victim) => DeliverMessage(s, w, w.network[k], secret, now, victim).0
  }

  // -------- the invariant --------

  function Handed(read: set<(nat, nat)>, e: nat): set<nat> {
    set m | m in read && m.0 == e :: m.1
  }

  /** A party that sends in epoch e and listens to epoch e - 1. */
  ghost predicate AtEpoch(s: Suite, shared: Key32, keys: seq<Key32>, r: RatchetState, e: nat, read: set<(nat, nat)>)
    requires 1 <= e < |keys|
  {
    var pub := s.publicKey(keys[e - 1]);
    && r.rootKey == Root(s, shared, keys, e)
    && r.ourDhPriv == keys[e]
    && r.theirDhPub == pub
    && r.sendingChain.key == ChainKeyAt(s, EpochKey(s, shared, keys, e), r.sendingChain.messageNumber)
    && pub in r.receivingChains
    && Genuine(s, EpochKey(s, shared, keys, e - 1), r.receivingChains[pub].chain, Handed(read, e - 1))
  }

  /** A message as its sender made it. */
  ghost predicate Authentic(s: Suite, shared: Key32, keys: seq<Key32>, m: Message) {
    && 1 <= m.epoch < |keys|
    && m.envelope.number > 0
    && m.envelope.dhPub == s.publicKey(keys[m.epoch])
    && m.envelope.ciphertext ==
         s.seal(MessageKeyAt(s, EpochKey(s, shared, keys, m.epoch), m.envelope.number), m.envelope.nonce, m.plaintext)
  }

  function Label(m: Message): (nat, nat) {
    (m.epoch, m.envelope.number)
  }

  ghost predicate AllAuthentic(s: Suite, shared: Key32, keys: seq<Key32>, network: seq<Message>) {
    forall k :: 0 <= k < |network| ==> Authentic(s, shared, keys, network[k])
  }

  ghost predicate DistinctLabels(network: seq<Message>) {
    forall j, k :: 0 <= j < k < |network| ==> Label(network[j]) != Label(network[k])
  }

  /** No message of epoch e is numbered above n. */
  ghost predicate Counted(network: seq<Message>, e: nat, n: nat) {
    forall k :: 0 <= k < |network| && network[k].epoch == e ==> network[k].envelope.number <= n
  }

  ghost predicate KeysOk(s: Suite, keys: seq<Key32>) {
    |keys| >= 3 && forall i, j :: 0 <= i < j < |keys| ==> s.publicKey(keys[i]) != s.publicKey(keys[j])
  }

  /** A party at its epoch, and the network holding nothing of that epoch it has not sent. */
  ghost predicate PartyOk(s: Suite, shared: Key32, w: World, p: Party)
    requires |w.keys| > 2
  {
    && AtEpoch(s, shared, w.keys, Side(w, p), SendingEpoch(w, p), w.read)
    && Counted(w.network, SendingEpoch(w, p), Side(w, p).sendingChain.messageNumber)
  }

  /** One party is one epoch, and so one root step, ahead of the other. */
  ghost predicate Inv(s: Suite, shared: Key32, w: World) {
    && KeysOk(s, w.keys)
    && PartyOk(s, shared, w, Initiator) && PartyOk(s, shared, w, Responder)
    && (forall m :: m in w.read ==> m.0 < Newest(w))
    && AllAuthentic(s, shared, w.keys, w.network)
    && DistinctLabels(w.network)
  }

  lemma StartInv(s: Suite, shared: Key32, a0: Key32, b0: Key32, a1: Key32, now: nat, peerNow: nat)
    requires KeysOk(s, [a0, b0, a1])
    ensures Inv(s, shared, Start(s, shared, a0, b0, a1, now, peerNow))
  {
    var w := Start(s, shared, a0, b0, a1, now, peerNow);
    assert Handed(w.read, 0) == {} && Handed(w.read, 1) == {};
    assert Owner(1) == Responder && Owner(2) == Initiator;
  }

  lemma SendOnChain(s: Suite, shared: Key32, keys: seq<Key32>, r: RatchetState, e: nat, read: set<(nat, nat)>, plaintext: bytes, nonce: Nonce)
    requires 1 <= e < |keys| && AtEpoch(s, shared, keys, r, e, read)
    ensures var (r', env) := Encrypt(s, r, plaintext, nonce);
            && AtEpoch(s, shared, keys, r', e, read)
            && Authentic(s, shared, keys, Message(e, env, plaintext))
            && r'.sendingChain.messageNumber == env.number == r.sendingChain.messageNumber + 1
  {
  }

  lemma CountOneMore(network: seq<Message>, m: Message)
    requires m.envelope.number > 0 && Counted(network, m.epoch, m.envelope.number - 1) && DistinctLabels(network)
    ensures Counted(network + [m], m.epoch, m.envelope.number) && DistinctLabels(network + [m])
  {
  }

  lemma CountElsewhere(network: seq<Message>, m: Message, e: nat, n: nat)
    requires m.epoch != e && Counted(network, e, n)
    ensures Counted(network + [m], e, n)
  {
  }

  lemma OneMoreAuthentic(s: Suite, shared: Key32, keys: seq<Key32>, network: seq<Message>, m: Message)
    requires AllAuthentic(s, shared, keys, network) && Authentic(s, shared, keys, m)
    ensures AllAuthentic(s, shared, keys, network + [m])
  {
  }

  /** w' is w after p has sent m. */
  ghost predicate Sent(w: World, w': World, p: Party, m: Message)
    requires |w.keys| > 1
  {
    && w'.keys == w.keys && w'.read == w.read && w'.network == w.network + [m]
    && Side(w', Other(p)) == Side(w, Other(p))
    && m.epoch == SendingEpoch(w, p)
    && m.envelope.number == Side(w', p).sendingChain.messageNumber == Side(w, p).sendingChain.messageNumber + 1
  }

  lemma SentPartyOk(s: Suite, shared: Key32, w: World, w': World, p: Party, m: Message)
    requires |w.keys| > 2 && PartyOk(s, shared, w, p) && DistinctLabels(w.network)
    requires Sent(w, w', p, m) && AtEpoch(s, shared, w.keys, Side(w', p), m.epoch, w.read)
    ensures PartyOk(s, shared, w', p) && DistinctLabels(w'.network)
  {
    CountOneMore(w.network, m);
  }

  lemma OtherPartyOk(s: Suite, shared: Key32, w: World, w': World, p: Party, m: Message)
    requires |w.keys| > 2 && PartyOk(s, shared, w, Other(p)) && Sent(w, w', p, m)
    ensures PartyOk(s, shared, w', Other(p))
  {
    CountElsewhere(w.network, m, SendingEpoch(w, Other(p)), Side(w, Other(p)).sendingChain.messageNumber);
  }

  lemma SendKeepsInv(s: Suite, shared: Key32, w: World, p: Party, plaintext: bytes, nonce: Nonce)
    requires Inv(s, shared, w)
    ensures Inv(s, shared, SendMessage(s, w, p, plaintext, nonce))
  {
    var e := SendingEpoch(w, p);
    var w' := SendMessage(s, w, p, plaintext, nonce);
    var m := w'.network[|w.network|];
    SendOnChain(s, shared, w.keys, Side(w, p), e, w.read, plaintext, nonce);
    assert Sent(w, w', p, m);
    SentPartyOk(s, shared, w, w', p, m);
    OtherPartyOk(s, shared, w, w', p, m);
    OneMoreAuthentic(s, shared, w.keys, w.network, m);
  }

  /** The first delivery of this message, with at most 2048 messages skipped before it in its epoch. */
  ghost predicate FirstInReach(w: World, m: Message) {
    && Label(m) !in w.read
    && (m.envelope.number <= MAX_SKIP || exists i :: (m.epoch, i) in w.read && m.envelope.number <= i + MAX_SKIP)
  }

  lemma ReachIsHistory(s: Suite, k0: Key32, c: ChainState, read: set<(nat, nat)>, e: nat, n: nat)
    requires Genuine(s, k0, c, Handed(read, e)) && n > 0
    ensures Acceptable(c, Handed(read, e), n) <==>
              (e, n) !in read && (n <= MAX_SKIP || exists i :: (e, i) in read && n <= i + MAX_SKIP)
  {
    if n <= c.messageNumber + MAX_SKIP && n > MAX_SKIP {
      assert (e, c.messageNumber) in read;
    }
    forall i | (e, i) in read ensures i <= c.messageNumber {
      assert i in Handed(read, e);
    }
    assert n in Handed(read, e) <==> (e, n) in read;
  }

  /** Opening an authentic message of epoch e on a genuine chain for that epoch. */
  lemma OpenAuthentic(s: Suite, shared: Key32, keys: seq<Key32>, r: RatchetState, m: Message, now: nat, read: set<(nat, nat)>)
    requires Lawful(s) && Authentic(s, shared, keys, m)
    requires m.envelope.dhPub in r.receivingChains
    requires Genuine(s, EpochKey(s, shared, keys, m.epoch), r.receivingChains[m.envelope.dhPub].chain, Handed(read, m.epoch))
    ensures var (r', result) := OpenWith(s, r, m.envelope, now);
            var read' := if result.Success? then read + {Label(m)} else read;
            && r' == r.(receivingChains := r'.receivingChains)
            && m.envelope.dhPub in r'.receivingChains
            && Genuine(s, EpochKey(s, shared, keys, m.epoch), r'.receivingChains[m.envelope.dhPub].chain, Handed(read', m.epoch))
            && (result.Success? <==> Acceptable(r.receivingChains[m.envelope.dhPub].chain, Handed(read, m.epoch), m.envelope.number))
            && (result.Success? ==> result.value == m.plaintext)
  {
    var k0 := EpochKey(s, shared, keys, m.epoch);
    AcceptGenuine(s, k0, r.receivingChains[m.envelope.dhPub].chain, Handed(read, m.epoch), m.envelope.number);
    assert Handed(read + {Label(m)}, m.epoch) == Handed(read, m.epoch) + {m.envelope.number};
  }

  /** The turn: by commutativity the receiver reaches the sender's root and chain, then moves one epoch past it. */
  lemma TurnReachesSender(s: Suite, shared: Key32, keys: seq<Key32>, r: RatchetState, e: nat, secret: Key32, now: nat, victim: Option<Key32>)
    requires Lawful(s) && 1 <= e && e + 1 < |keys|
    requires r.rootKey == Root(s, shared, keys, e) && r.ourDhPriv == keys[e]
    ensures var r' := DhRatchetStep(s, r, s.publicKey(keys[e + 1]), secret, now, victim);
            var pub := s.publicKey(keys[e + 1]);
            && s.kdfRk(Root(s, shared, keys, e + 1), s.diffieHellman(secret, pub)) == (r'.rootKey, r'.sendingChain.key)
            && r'.sendingChain.messageNumber == 0
            && pub in r'.receivingChains
            && r'.receivingChains[pub].chain == NewChain(EpochKey(s, shared, keys, e + 1))
            && r'.ourDhPriv == secret && r'.theirDhPub == pub
  {
    assert s.diffieHellman(keys[e], s.publicKey(keys[e + 1])) == DhShared(s, keys, e + 1);
  }

  lemma TurnedAtEpoch(s: Suite, shared: Key32, keys: seq<Key32>, r: RatchetState, read: set<(nat, nat)>, secret: Key32, now: nat, victim: Option<Key32>)
    requires Lawful(s) && |keys| > 2
    requires AtEpoch(s, shared, keys, r, |keys| - 2, read) && Handed(read, |keys| - 1) == {}
    ensures var r' := DhRatchetStep(s, r, s.publicKey(keys[|keys| - 1]), secret, now, victim);
            AtEpoch(s, shared, keys + [secret], r', |keys|, read)
  {
    var n := |keys| - 1;
    TurnReachesSender(s, shared, keys, r, n - 1, secret, now, victim);
    RootPrefix(s, shared, keys, secret, n);
    assert (keys + [secret])[n] == keys[n];
  }

  lemma HandedElsewhere(read: set<(nat, nat)>, m: (nat, nat), e: nat)
    requires m.0 != e
    ensures Handed(read + {m}, e) == Handed(read, e)
  {
  }

  lemma NoneAhead(read: set<(nat, nat)>, n: nat)
    requires forall m :: m in read ==> m.0 < n
    ensures Handed(read, n) == {}
  {
  }

  lemma StaysAuthentic(s: Suite, shared: Key32, keys: seq<Key32>, network: seq<Message>, secret: Key32)
    requires AllAuthentic(s, shared, keys, network)
    ensures AllAuthentic(s, shared, keys + [secret], network)
  {
    forall k | 0 <= k < |network| ensures Authentic(s, shared, keys + [secret], network[k]) {
      RootPrefix(s, shared, keys, secret, network[k].epoch);
    }
  }

  /** The other party, while the receiver of m reads it, perhaps making a new key. */
  lemma BystanderAtEpoch(s: Suite, shared: Key32, keys: seq<Key32>, secret: Key32, r: RatchetState, e: nat, read: set<(nat, nat)>, m: (nat, nat))
    requires 1 <= e < |keys| && AtEpoch(s, shared, keys, r, e, read) && m.0 != e - 1
    ensures forall read' :: read' in {read, read + {m}} ==>
              AtEpoch(s, shared, keys, r, e, read') && AtEpoch(s, shared, keys + [secret], r, e, read')
  {
    HandedElsewhere(read, m, e - 1);
    RootPrefix(s, shared, keys, secret, e);
    RootPrefix(s, shared, keys, secret, e - 1);
  }

  /** The receiver of m has read it, or failed to. */
  ghost predicate AfterRead(w: World, w': World, m: Message, success: bool) {
    && w'.network == w.network
    && w'.read == (if success then w.read + {Label(m)} else w.read)
    && Side(w', Other(Receiver(m))) == Side(w, Other(Receiver(m)))
  }

  lemma BystanderOk(s: Suite, shared: Key32, w: World, w': World, m: Message, secret: Key32, success: bool)
    requires |w.keys| > 2 && AfterRead(w, w', m, success)
    requires PartyOk(s, shared, w, Other(Receiver(m))) && SendingEpoch(w, Other(Receiver(m))) != m.epoch + 1
    requires w'.keys == w.keys || w'.keys == w.keys + [secret]
    requires SendingEpoch(w', Other(Receiver(m))) == SendingEpoch(w, Other(Receiver(m)))
    ensures PartyOk(s, shared, w', Other(Receiver(m)))
  {
    var q := Other(Receiver(m));
    BystanderAtEpoch(s, shared, w.keys, secret, Side(w, q), SendingEpoch(w, q), w.read, Label(m));
  }

  /** Counting is trivial in an epoch no message has yet. */
  lemma NoneOfEpoch(s: Suite, shared: Key32, keys: seq<Key32>, network: seq<Message>, n: nat)
    requires AllAuthentic(s, shared, keys, network)
    ensures Counted(network, |keys|, n)
  {
  }

  lemma ReadersOk(s: Suite, shared: Key32, w: World, w': World, m: Message, success: bool)
    requires |w.keys| > 2 && AfterRead(w, w', m, success) && |w'.keys| > 2
    requires PartyOk(s, shared, w', Receiver(m)) && PartyOk(s, shared, w', Other(Receiver(m)))
    requires KeysOk(s, w'.keys) && AllAuthentic(s, shared, w'.keys, w'.network) && DistinctLabels(w.network)
    requires (forall x :: x in w.read ==> x.0 < Newest(w')) && m.epoch < Newest(w')
    ensures Inv(s, shared, w')
  {
  }

  lemma ReaderOk(s: Suite, shared: Key32, w: World, w': World, m: Message, success: bool)
    requires |w.keys| > 2 && PartyOk(s, shared, w, Receiver(m)) && AfterRead(w, w', m, success) && w'.keys == w.keys
    requires m.epoch + 1 == SendingEpoch(w, Receiver(m))
    requires AtEpoch(s, shared, w.keys, Side(w', Receiver(m)), m.epoch + 1, w'.read)
    requires Side(w', Receiver(m)).sendingChain == Side(w, Receiver(m)).sendingChain
    ensures PartyOk(s, shared, w', Receiver(m))
  {
  }

  lemma OtherSendsElsewhere(w: World, m: Message)
    requires |w.keys| > 2 && m.epoch + 1 == SendingEpoch(w, Receiver(m))
    ensures SendingEpoch(w, Other(Receiver(m))) != m.epoch + 1 && m.epoch < Newest(w)
  {
  }

  lemma ReadSameEpoch(s: Suite, shared: Key32, w: World, w': World, m: Message, success: bool)
    requires KeysOk(s, w.keys) && AllAuthentic(s, shared, w.keys, w.network) && DistinctLabels(w.network)
    requires PartyOk(s, shared, w, Other(Receiver(m))) && forall x :: x in w.read ==> x.0 < Newest(w)
    requires AfterRead(w, w', m, success) && w'.keys == w.keys
    requires m.epoch + 1 == SendingEpoch(w, Receiver(m))
    requires PartyOk(s, shared, w', Receiver(m))
    ensures Inv(s, shared, w')
  {
    OtherSendsElsewhere(w, m);
    BystanderOk(s, shared, w, w', m, ZeroKey(), success);
    ReadersOk(s, shared, w, w', m, success);
  }

  lemma FreshKeysOk(s: Suite, w: World, secret: Key32)
    requires KeysOk(s, w.keys) && FreshSecret(s, w, secret)
    ensures KeysOk(s, w.keys + [secret])
  {
  }

  /** The receiver of a message of the newest epoch moves on to the next; its peer stays in that of the message. */
  lemma EpochsAfterTurn(w: World, w': World, m: Message, secret: Key32)
    requires |w.keys| > 2 && m.epoch == Newest(w) && w'.keys == w.keys + [secret]
    ensures SendingEpoch(w', Receiver(m)) == |w.keys| == m.epoch + 1
    ensures SendingEpoch(w', Other(Receiver(m))) == SendingEpoch(w, Other(Receiver(m))) == m.epoch
    ensures SendingEpoch(w, Receiver(m)) == |w.keys| - 2
  {
  }

  lemma ReadNextEpoch(s: Suite, shared: Key32, w: World, w': World, m: Message, secret: Key32, success: bool)
    requires KeysOk(s, w.keys) && AllAuthentic(s, shared, w.keys, w.network) && DistinctLabels(w.network)
    requires PartyOk(s, shared, w, Other(Receiver(m))) && forall x :: x in w.read ==> x.0 < Newest(w)
    requires AfterRead(w, w', m, success) && w'.keys == w.keys + [secret]
    requires m.epoch == Newest(w) && FreshSecret(s, w, secret)
    requires AtEpoch(s, shared, w'.keys, Side(w', Receiver(m)), m.epoch + 1, w'.read)
    ensures Inv(s, shared, w')
  {
    EpochsAfterTurn(w, w', m, secret);
    BystanderOk(s, shared, w, w', m, secret, success);
    NoneOfEpoch(s, shared, w.keys, w.network, Side(w', Receiver(m)).sendingChain.messageNumber);
    StaysAuthentic(s, shared, w.keys, w.network, secret);
    FreshKeysOk(s, w, secret);
    ReadersOk(s, shared, w, w', m, success);
  }

  /** What one allowed delivery does. */
  ghost predicate Delivered(s: Suite, shared: Key32, w: World, m: Message, w': World, result: Result<bytes, string>) {
    && Inv(s, shared, w')
    && (result.Success? <==> FirstInReach(w, m))
    && (result.Success? ==> result.value == m.plaintext)
  }

  /** Reading on the chain of the message's own epoch, by a receiver that already sends in the next one. */
  lemma ReadOnChain(s: Suite, shared: Key32, keys: seq<Key32>, r: RatchetState, m: Message, now: nat, read: set<(nat, nat)>)
    requires Lawful(s) && Authentic(s, shared, keys, m) && m.epoch + 1 < |keys|
    requires AtEpoch(s, shared, keys, r, m.epoch + 1, read)
    ensures var (r', result) := OpenWith(s, r, m.envelope, now);
            && AtEpoch(s, shared, keys, r', m.epoch + 1, if result.Success? then read + {Label(m)} else read)
            && r'.sendingChain == r.sendingChain
            && (result.Success? <==>
                  Label(m) !in read &&
                  (m.envelope.number <= MAX_SKIP || exists i :: (m.epoch, i) in read && m.envelope.number <= i + MAX_SKIP))
            && (result.Success? ==> result.value == m.plaintext)
  {
    OpenAuthentic(s, shared, keys, r, m, now, read);
    ReachIsHistory(s, EpochKey(s, shared, keys, m.epoch), r.receivingChains[m.envelope.dhPub].chain, read, m.epoch, m.envelope.number);
  }

  lemma DeliverSameEpoch(s: Suite, shared: Key32, w: World, m: Message, secret: Key32, now: nat, victim: Option<Key32>)
    requires Lawful(s) && Inv(s, shared, w) && Authentic(s, shared, w.keys, m)
    requires m.epoch + 1 == SendingEpoch(w, Receiver(m))
    ensures var (w', result) := DeliverMessage(s, w, m, secret, now, victim); Delivered(s, shared, w, m, w', result)
  {
    var (w', result) := DeliverMessage(s, w, m, secret, now, victim);
    ReadOnChain(s, shared, w.keys, Side(w, Receiver(m)), m, now, w.read);
    ReaderOk(s, shared, w, w', m, result.Success?);
    ReadSameEpoch(s, shared, w, w', m, result.Success?);
  }

  /** Decrypting the first message of a new epoch: one turn, then reading on the new chain. */
  lemma ReadAfterTurn(s: Suite, shared: Key32, keys: seq<Key32>, r: RatchetState, m: Message, secret: Key32, now: nat, victim: Option<Key32>, read: set<(nat, nat)>)
    requires Lawful(s) && KeysOk(s, keys) && Authentic(s, shared, keys, m) && m.epoch == |keys| - 1
    requires AtEpoch(s, shared, keys, r, |keys| - 2, read) && Handed(read, |keys| - 1) == {}
    ensures Turns(r, m.envelope)
    ensures var (r', result) := Decrypt(s, r, m.envelope, secret, now, victim);
            && AtEpoch(s, shared, keys + [secret], r', |keys|, if result.Success? then read + {Label(m)} else read)
            && (result.Success? <==>
                  Label(m) !in read &&
                  (m.envelope.number <= MAX_SKIP || exists i :: (m.epoch, i) in read && m.envelope.number <= i + MAX_SKIP))
            && (result.Success? ==> result.value == m.plaintext)
  {
    TurnedAtEpoch(s, shared, keys, r, read, secret, now, victim);
    RootPrefix(s, shared, keys, secret, m.epoch);
    ReadOnChain(s, shared, keys + [secret], DhRatchetStep(s, r, m.envelope.dhPub, secret, now, victim), m, now, read);
  }

  /** What a delivery changes: one party's ratchet, by decrypting. */
  lemma DeliveryIsDecryption(s: Suite, w: World, m: Message, secret: Key32, now: nat, victim: Option<Key32>)
    ensures var (w', result) := DeliverMessage(s, w, m, secret, now, victim);
            && (Side(w', Receiver(m)), result) == Decrypt(s, Side(w, Receiver(m)), m.envelope, secret, now, victim)
            && AfterRead(w, w', m, result.Success?)
            && w'.keys == if Turns(Side(w, Receiver(m)), m.envelope) then w.keys + [secret] else w.keys
  {
  }

  /** The state both parties are in when the first message of a new epoch comes in. */
  ghost predicate AwaitsTurn(s: Suite, shared: Key32, w: World, m: Message, secret: Key32) {
    && KeysOk(s, w.keys) && AllAuthentic(s, shared, w.keys, w.network) && DistinctLabels(w.network)
    && PartyOk(s, shared, w, Receiver(m)) && PartyOk(s, shared, w, Other(Receiver(m)))
    && (forall x :: x in w.read ==> x.0 < Newest(w))
    && Authentic(s, shared, w.keys, m) && FreshSecret(s, w, secret) && m.epoch == Newest(w)
  }

  lemma TurnDelivers(s: Suite, shared: Key32, w: World, m: Message, secret: Key32, now: nat, victim: Option<Key32>)
    requires Lawful(s) && AwaitsTurn(s, shared, w, m, secret)
    ensures var (w', result) := DeliverMessage(s, w, m, secret, now, victim);
            && AfterRead(w, w', m, result.Success?) && w'.keys == w.keys + [secret]
            && AtEpoch(s, shared, w'.keys, Side(w', Receiver(m)), m.epoch + 1, w'.read)
            && (result.Success? <==> FirstInReach(w, m))
            && (result.Success? ==> result.value == m.plaintext)
  {
    DeliveryIsDecryption(s, w, m, secret, now, victim);
    NoneAhead(w.read, m.epoch);
    EpochsAfterTurn(w, w.(keys := w.keys + [secret]), m, secret);
    ReadAfterTurn(s, shared, w.keys, Side(w, Receiver(m)), m, secret, now, victim, w.read);
  }

  lemma DeliverNextEpoch(s: Suite, shared: Key32, w: World, m: Message, secret: Key32, now: nat, victim: Option<Key32>)
    requires Lawful(s) && AwaitsTurn(s, shared, w, m, secret)
    ensures var (w', result) := DeliverMessage(s, w, m, secret, now, victim); Delivered(s, shared, w, m, w', result)
  {
    var (w', result) := DeliverMessage(s, w, m, secret, now, victim);
    TurnDelivers(s, shared, w, m, secret, now, victim);
    ReadNextEpoch(s, shared, w, w', m, secret, result.Success?);
  }

  lemma EitherParty(s: Suite, shared: Key32, w: World, p: Party)
    requires Inv(s, shared, w)
    ensures PartyOk(s, shared, w, p) && PartyOk(s, shared, w, Other(p))
  {
  }

  /** In epoch order, a message belongs to the epoch its receiver listens to, or opens the next one. */
  lemma TwoEpochsInOrder(w: World, m: Message)
    requires |w.keys| > 2 && 1 <= m.epoch <= Newest(w) && InEpochOrder(w, m)
    ensures m.epoch == Newest(w) || m.epoch + 1 == SendingEpoch(w, Receiver(m))
  {
  }

  /** Every allowed delivery opens to what was sent exactly when it is a first delivery in reach, and keeps the invariant. */
  lemma DeliverAgrees(s: Suite, shared: Key32, w: World, k: nat, secret: Key32, now: nat, victim: Option<Key32>)
    requires Lawful(s) && Inv(s, shared, w) && Allowed(s, w, Deliver(k, secret, now, victim))
    ensures var (w', result) := DeliverMessage(s, w, w.network[k], secret, now, victim);
            Delivered(s, shared, w, w.network[k], w', result)
  {
    var m := w.network[k];
    assert Authentic(s, shared, w.keys, m);
    TwoEpochsInOrder(w, m);
    EitherParty(s, shared, w, Receiver(m));
    if m.epoch == Newest(w) {
      DeliverNextEpoch(s, shared, w, m, secret, now, victim);
    } else {
      DeliverSameEpoch(s, shared, w, m, secret, now, victim);
    }
  }

  // -------- what keeps the two roots one step apart --------

  /** `ahead` has taken exactly one root step from where `behind` stands, over their current DH keys. */
  ghost predicate OneStepAhead(s: Suite, ahead: RatchetState, behind: RatchetState) {
    && ahead.rootKey == s.kdfRk(behind.rootKey, s.diffieHellman(ahead.ourDhPriv, s.publicKey(behind.ourDhPriv))).0
    && ahead.theirDhPub == s.publicKey(behind.ourDhPriv)
  }

  lemma NeighboursOneStepApart(s: Suite, shared: Key32, keys: seq<Key32>, ahead: RatchetState, behind: RatchetState, read: set<(nat, nat)>, e: nat)
    requires 2 <= e < |keys|
    requires AtEpoch(s, shared, keys, ahead, e, read) && AtEpoch(s, shared, keys, behind, e - 1, read)
    ensures OneStepAhead(s, ahead, behind)
  {
  }

  lemma InvOneStepApart(s: Suite, shared: Key32, w: World)
    requires |w.keys| > 2 && PartyOk(s, shared, w, Initiator) && PartyOk(s, shared, w, Responder)
    ensures OneStepAhead(s, w.initiator, w.responder) || OneStepAhead(s, w.responder, w.initiator)
  {
    if Owner(Newest(w)) == Initiator {
      NeighboursOneStepApart(s, shared, w.keys, w.initiator, w.responder, w.read, Newest(w));
    } else {
      NeighboursOneStepApart(s, shared, w.keys, w.responder, w.initiator, w.read, Newest(w));
    }
  }

  // -------- runs --------

  ghost predicate ValidRun(s: Suite, w: World, evs: seq<Event>)
    requires |w.keys| > 1
    decreases |evs|
  {
    evs == [] || (Allowed(s, w, evs[0]) && |Step(s, w, evs[0]).keys| > 1 && ValidRun(s, Step(s, w, evs[0]), evs[1..]))
  }

  function Run(s: Suite, w: World, evs: seq<Event>): World
    requires |w.keys| > 1 && ValidRun(s, w, evs)
    decreases |evs|
  {
    if evs == [] then w else Run(s, Step(s, w, evs[0]), evs[1..])
  }

  lemma StepKeepsInv(s: Suite, shared: Key32, w: World, ev: Event)
    requires Lawful(s) && Inv(s, shared, w) && Allowed(s, w, ev)
    ensures Inv(s, shared, Step(s, w, ev))
  {
    match ev
    case Send(p, plaintext, nonce) => SendKeepsInv(s, shared, w, p, plaintext, nonce);
    case Deliver(k, secret, now, victim) => DeliverAgrees(s, shared, w, k, secret, now, victim);
  }

  lemma {:induction false} RunKeepsInv(s: Suite, shared: Key32, w: World, evs: seq<Event>)
    requires Lawful(s) && Inv(s, shared, w) && ValidRun(s, w, evs)
    ensures Inv(s, shared, Run(s, w, evs))
    decreases |evs|
  {
    if evs != [] {
      StepKeepsInv(s, shared, w, evs[0]);
      RunKeepsInv(s, shared, Step(s, w, evs[0]), evs[1..]);
    }
  }

  /**
   * Agreement: after any run from the handshake, delivering any message ever sent (in epoch order, to a
   * receiver with a fresh key) yields exactly what was sent if it is the first delivery of that message and
   * at most 2048 ahead in its epoch, and an error otherwise.
   */
  lemma TwoPartyAgreement(s: Suite, shared: Key32, a0: Key32, b0: Key32, a1: Key32, start: nat, peerStart: nat, evs: seq<Event>,
                          k: nat, secret: Key32, now: nat, victim: Option<Key32>)
    requires Lawful(s) && KeysOk(s, [a0, b0, a1])
    requires ValidRun(s, Start(s, shared, a0, b0, a1, start, peerStart), evs)
    requires |Run(s, Start(s, shared, a0, b0, a1, start, peerStart), evs).keys| > 1
    requires Allowed(s, Run(s, Start(s, shared, a0, b0, a1, start, peerStart), evs), Deliver(k, secret, now, victim))
    ensures var w := Run(s, Start(s, shared, a0, b0, a1, start, peerStart), evs);
            var result := DeliverMessage(s, w, w.network[k], secret, now, victim).1;
            && (result.Success? <==> FirstInReach(w, w.network[k]))
            && (result.Success? ==> result.value == w.network[k].plaintext)
  {
    var w := Start(s, shared, a0, b0, a1, start, peerStart);
    StartInv(s, shared, a0, b0, a1, start, peerStart);
    RunKeepsInv(s, shared, w, evs);
    DeliverAgrees(s, shared, Run(s, w, evs), k, secret, now, victim);
  }

  /** After any run, one party's root is exactly one `kdf_rk` step past the other's, over their current DH keys. */
  lemma RootsOneStepApart(s: Suite, shared: Key32, a0: Key32, b0: Key32, a1: Key32, start: nat, peerStart: nat, evs: seq<Event>)
    requires Lawful(s) && KeysOk(s, [a0, b0, a1])
    requires ValidRun(s, Start(s, shared, a0, b0, a1, start, peerStart), evs)
    ensures var w := Run(s, Start(s, shared, a0, b0, a1, start, peerStart), evs);
            OneStepAhead(s, w.initiator, w.responder) || OneStepAhead(s, w.responder, w.initiator)
  {
    var w0 := Start(s, shared, a0, b0, a1, start, peerStart);
    StartInv(s, shared, a0, b0, a1, start, peerStart);
    RunKeepsInv(s, shared, w0, evs);
    InvOneStepApart(s, shared, Run(s, w0, evs));
  }
}
