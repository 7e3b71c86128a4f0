/**
 * What takes the two ends of a conversation out of step: envelopes with other keys, late or forged. `decrypt`
 * turns the DH ratchet on every public key other than the current one, before it authenticates anything.
 */
module EpochOrder {
  import opened Wrappers
  import opened Crypto
  import opened Chains
  import opened Ratchets
  import opened Agreement
  import O = Oldest

  ghost predicate InStep(s: Suite, a: RatchetState, b: RatchetState) {
    OneStepAhead(s, a, b) || OneStepAhead(s, b, a)
  }

  /** The root and the keys of a ratchet after a turn on the public key `pub`. */
  lemma TurnedRoot(s: Suite, r: RatchetState, e: Envelope, secret: Key32, now: nat, victim: Option<Key32>)
    requires Turns(r, e)
    ensures var r' := Decrypt(s, r, e, secret, now, victim).0;
            && r'.ourDhPriv == secret && r'.theirDhPub == e.dhPub
            && r'.rootKey == s.kdfRk(s.kdfRk(r.rootKey, s.diffieHellman(r.ourDhPriv, e.dhPub)).0, s.diffieHellman(secret, e.dhPub)).0
  {
  }

  lemma UnturnedRoot(s: Suite, r: RatchetState, e: Envelope, secret: Key32, now: nat, victim: Option<Key32>)
    requires !Turns(r, e)
    ensures var r' := Decrypt(s, r, e, secret, now, victim).0;
            r'.ourDhPriv == r.ourDhPriv && r'.theirDhPub == r.theirDhPub && r'.rootKey == r.rootKey
  {
  }

  /**
   * Any envelope at all, forged or genuine, in order or late, opened or refused: decrypting it leaves the two
   * ends one root step apart if and only if it carries the public key its receiver already listens to, or the
   * one the other end really holds. `decrypt` turns before it authenticates anything.
   */
  lemma EnvelopeKeepsStepIff(s: Suite, ahead: RatchetState, behind: RatchetState, toAhead: bool, e: Envelope,
                             secret: Key32, now: nat, victim: Option<Key32>)
    requires Lawful(s) && OneStepAhead(s, ahead, behind)
    requires s.publicKey(secret) !in {ahead.theirDhPub, behind.theirDhPub}
    ensures var (r, other) := if toAhead then (ahead, behind) else (behind, ahead);
            InStep(s, Decrypt(s, r, e, secret, now, victim).0, other) <==>
              e.dhPub == r.theirDhPub || e.dhPub == s.publicKey(other.ourDhPriv)
  {
    var (r, other) := if toAhead then (ahead, behind) else (behind, ahead);
    assert s.diffieHellman(behind.ourDhPriv, s.publicKey(ahead.ourDhPriv)) == s.diffieHellman(ahead.ourDhPriv, s.publicKey(behind.ourDhPriv));
    if Turns(r, e) {
      TurnedRoot(s, r, e, secret, now, victim);
    } else {
      UnturnedRoot(s, r, e, secret, now, victim);
    }
  }

  /** The keys the two ends hold and listen to belong to neighbouring epochs. */
  lemma KeysHeld(s: Suite, shared: Key32, w: World, p: Party)
    requires Inv(s, shared, w)
    ensures var e, f := SendingEpoch(w, p), SendingEpoch(w, Other(p));
            && 1 <= e < |w.keys| && 1 <= f < |w.keys| && (e == f + 1 || f == e + 1)
            && Side(w, p).ourDhPriv == w.keys[e] && Side(w, p).theirDhPub == s.publicKey(w.keys[e - 1])
            && Side(w, Other(p)).ourDhPriv == w.keys[f]
  {
    EitherParty(s, shared, w, p);
  }

  /** Which of the two keys that keep the step a message of the run carries: exactly those in epoch order. */
  lemma InOrderKeys(s: Suite, shared: Key32, w: World, m: Message)
    requires Inv(s, shared, w) && Authentic(s, shared, w.keys, m)
    ensures var p := Receiver(m);
            InEpochOrder(w, m) <==>
              m.envelope.dhPub == Side(w, p).theirDhPub || m.envelope.dhPub == s.publicKey(Side(w, Other(p)).ourDhPriv)
  {
    KeysHeld(s, shared, w, Receiver(m));
    var e, f := SendingEpoch(w, Receiver(m)), SendingEpoch(w, Other(Receiver(m)));
    ReceiverEpochs(w, m);
    SameKeySameEpoch(s, w.keys, m.epoch, e - 1);
    SameKeySameEpoch(s, w.keys, m.epoch, f);
  }

  lemma SameKeySameEpoch(s: Suite, keys: seq<Key32>, i: nat, j: nat)
    requires KeysOk(s, keys) && i < |keys| && j < |keys|
    ensures s.publicKey(keys[i]) == s.publicKey(keys[j]) <==> i == j
  {
    if i < j {
      assert s.publicKey(keys[i]) != s.publicKey(keys[j]);
    } else if j < i {
      assert s.publicKey(keys[j]) != s.publicKey(keys[i]);
    }
  }

  lemma ReceiverEpochs(w: World, m: Message)
    requires |w.keys| > 2 && 1 <= m.epoch <= Newest(w)
    ensures InEpochOrder(w, m) <==> m.epoch == SendingEpoch(w, Receiver(m)) - 1 || m.epoch == SendingEpoch(w, Other(Receiver(m)))
  {
  }

  /** A late message turns its receiver onto an old key of its peer and two root steps along a path of its own. */
  lemma LateMessageTurns(s: Suite, shared: Key32, w: World, m: Message, secret: Key32, now: nat, victim: Option<Key32>)
    requires Inv(s, shared, w) && Authentic(s, shared, w.keys, m) && !InEpochOrder(w, m)
    ensures var r, r' := Side(w, Receiver(m)), Side(DeliverMessage(s, w, m, secret, now, victim).0, Receiver(m));
            && r'.theirDhPub == m.envelope.dhPub != s.publicKey(Side(w, Other(Receiver(m))).ourDhPriv)
            && r'.ourDhPriv == secret
            && r'.rootKey == s.kdfRk(s.kdfRk(r.rootKey, s.diffieHellman(r.ourDhPriv, m.envelope.dhPub)).0,
                                     s.diffieHellman(secret, m.envelope.dhPub)).0
  {
    InOrderKeys(s, shared, w, m);
    DeliveryIsDecryption(s, w, m, secret, now, victim);
    TurnedRoot(s, Side(w, Receiver(m)), m.envelope, secret, now, victim);
  }

  lemma FreshAgainstListened(s: Suite, shared: Key32, w: World, p: Party, secret: Key32)
    requires Inv(s, shared, w) && FreshSecret(s, w, secret)
    ensures s.publicKey(secret) != Side(w, p).theirDhPub
  {
    KeysHeld(s, shared, w, p);
  }

  /** After any run, any envelope at all, whoever made it: the two roots stay one step apart if and only if it carries one of two keys. */
  lemma EnvelopeInRun(s: Suite, shared: Key32, w: World, p: Party, e: Envelope, secret: Key32, now: nat, victim: Option<Key32>)
    requires Lawful(s) && Inv(s, shared, w) && FreshSecret(s, w, secret)
    ensures InStep(s, Decrypt(s, Side(w, p), e, secret, now, victim).0, Side(w, Other(p))) <==>
              e.dhPub == Side(w, p).theirDhPub || e.dhPub == s.publicKey(Side(w, Other(p)).ourDhPriv)
  {
    var r, other := Side(w, p), Side(w, Other(p));
    InvOneStepApart(s, shared, w);
    FreshAgainstListened(s, shared, w, p, secret);
    FreshAgainstListened(s, shared, w, Other(p), secret);
    if OneStepAhead(s, r, other) {
      EnvelopeKeepsStepIff(s, r, other, true, e, secret, now, victim);
    } else {
      EnvelopeKeepsStepIff(s, other, r, false, e, secret, now, victim);
    }
  }

  /** Delivering a message the peer sent keeps the two roots one step apart if and only if it comes in epoch order. */
  lemma EpochOrderIsNeeded(s: Suite, shared: Key32, w: World, k: nat, secret: Key32, now: nat, victim: Option<Key32>)
    requires Lawful(s) && Inv(s, shared, w) && k < |w.network| && FreshSecret(s, w, secret)
    ensures var w' := DeliverMessage(s, w, w.network[k], secret, now, victim).0;
            InStep(s, w'.initiator, w'.responder) <==> InEpochOrder(w, w.network[k])
  {
    var m := w.network[k];
    assert Authentic(s, shared, w.keys, m);
    InOrderKeys(s, shared, w, m);
    EnvelopeInRun(s, shared, w, Receiver(m), m.envelope, secret, now, victim);
    DeliveryIsDecryption(s, w, m, secret, now, victim);
  }

  // -------- keys spent on envelopes that do not open --------

  /** The chain saved for pub follows the sender's chain from k0, and these numbers have been handed out. */
  ghost predicate FollowsChain(s: Suite, k0: Key32, r: RatchetState, pub: Key32, handed: set<nat>) {
    r.theirDhPub == pub && pub in r.receivingChains && Genuine(s, k0, r.receivingChains[pub].chain, handed)
  }

  /** An envelope under the current key spends the key of its number, whether or not it opens. */
  lemma NumberIsSpent(s: Suite, k0: Key32, r: RatchetState, e: Envelope, handed: set<nat>, secret: Key32, now: nat, victim: Option<Key32>)
    requires FollowsChain(s, k0, r, e.dhPub, handed) && Acceptable(r.receivingChains[e.dhPub].chain, handed, e.number)
    ensures var (r', result) := Decrypt(s, r, e, secret, now, victim);
            && FollowsChain(s, k0, r', e.dhPub, handed + {e.number})
            && (result.Success? <==> s.open(MessageKeyAt(s, k0, e.number), e.nonce, e.ciphertext).Some?)
  {
    AcceptGenuine(s, k0, r.receivingChains[e.dhPub].chain, handed, e.number);
  }

  /**
   * So an envelope under the current key that does not open, whoever made it, costs the message of that number:
   * the sender's own envelope is refused afterwards.
   */
  lemma SpentNumberIsRefused(s: Suite, k0: Key32, r: RatchetState, e: Envelope, own: Envelope, handed: set<nat>,
                             secret: Key32, now: nat, victim: Option<Key32>, secret': Key32, later: nat, victim': Option<Key32>)
    requires FollowsChain(s, k0, r, e.dhPub, handed) && Acceptable(r.receivingChains[e.dhPub].chain, handed, e.number)
    requires own.dhPub == e.dhPub && own.number == e.number
    ensures Decrypt(s, Decrypt(s, r, e, secret, now, victim).0, own, secret', later, victim').1.Failure?
  {
    NumberIsSpent(s, k0, r, e, handed, secret, now, victim);
    var r' := Decrypt(s, r, e, secret, now, victim).0;
    AcceptGenuine(s, k0, r'.receivingChains[e.dhPub].chain, handed + {e.number}, own.number);
  }

  // -------- late messages do occur --------

  lemma {:induction false} OneStepMore(s: Suite, from: World, evs: seq<Event>, ev: Event)
    requires |from.keys| > 1 && ValidRun(s, from, evs)
    requires var w := Run(s, from, evs); |w.keys| > 1 && Allowed(s, w, ev) && |Step(s, w, ev).keys| > 1
    ensures ValidRun(s, from, evs + [ev]) && Run(s, from, evs + [ev]) == Step(s, Run(s, from, evs), ev)
    decreases |evs|
  {
    var all := evs + [ev];
    if evs == [] {
      assert all[0] == ev && all[1..] == [];
    } else {
      assert all[0] == evs[0] && all[1..] == evs[1..] + [ev];
      OneStepMore(s, Step(s, from, evs[0]), evs[1..], ev);
    }
  }

  /** A world that a run from the handshake with these first keys reaches. */
  ghost predicate Reachable(s: Suite, shared: Key32, first: seq<Key32>, w: World)
    requires |first| == 3
  {
    exists evs :: ValidRun(s, FromKeys(s, shared, first), evs) && Run(s, FromKeys(s, shared, first), evs) == w
  }

  function FromKeys(s: Suite, shared: Key32, first: seq<Key32>): (w: World)
    requires |first| == 3
    ensures w.keys == first
  {
    Start(s, shared, first[0], first[1], first[2], 0, 0)
  }

  lemma ReachableInv(s: Suite, shared: Key32, first: seq<Key32>, w: World)
    requires Lawful(s) && KeysOk(s, first) && |first| == 3 && Reachable(s, shared, first, w)
    ensures Inv(s, shared, w)
  {
    assert first == [first[0], first[1], first[2]];
    StartInv(s, shared, first[0], first[1], first[2], 0, 0);
    var evs :| ValidRun(s, FromKeys(s, shared, first), evs) && Run(s, FromKeys(s, shared, first), evs) == w;
    RunKeepsInv(s, shared, FromKeys(s, shared, first), evs);
  }

  lemma StepKeepsKeys(s: Suite, w: World, ev: Event)
    requires |w.keys| > 1 && (ev.Deliver? ==> ev.index < |w.network|)
    ensures w.keys <= Step(s, w, ev).keys
  {
  }

  lemma ReachOneMore(s: Suite, shared: Key32, first: seq<Key32>, w: World, ev: Event)
    requires |first| == 3 && Reachable(s, shared, first, w) && |w.keys| > 1 && Allowed(s, w, ev)
    ensures Reachable(s, shared, first, Step(s, w, ev))
  {
    var from := FromKeys(s, shared, first);
    var evs :| ValidRun(s, from, evs) && Run(s, from, evs) == w;
    StepKeepsKeys(s, w, ev);
    OneStepMore(s, from, evs, ev);
    assert ValidRun(s, from, evs + [ev]);
  }

  /** The keys of w and the epochs of its messages; the first message is number 1 of epoch 1 and was never opened. */
  ghost predicate Stage(w: World, keys: seq<Key32>, epochs: seq<nat>) {
    && w.keys == keys && |w.network| == |epochs| > 0
    && (forall i :: 0 <= i < |epochs| ==> w.network[i].epoch == epochs[i])
    && Label(w.network[0]) == (1, 1) && (1, 1) !in w.read
  }

  lemma FirstStage(s: Suite, shared: Key32, first: seq<Key32>) returns (w': World)
    requires |first| == 3
    ensures Reachable(s, shared, first, w') && Stage(w', first, [1])
  {
    var from := FromKeys(s, shared, first);
    var ev := Send(Responder, [], seq(12, _ => 0));
    assert ValidRun(s, from, []) && Run(s, from, []) == from;
    assert Owner(1) == Responder && Owner(2) == Initiator;
    ReachOneMore(s, shared, first, from, ev);
    w' := Step(s, from, ev);
  }

  lemma StageAfterSend(s: Suite, w: World, p: Party, keys: seq<Key32>, epochs: seq<nat>, nonce: Nonce)
    requires Stage(w, keys, epochs) && |keys| > 2 && Owner(|keys| - 1) == p
    ensures Stage(SendMessage(s, w, p, [], nonce), keys, epochs + [|keys| - 1])
  {
  }

  lemma SendStage(s: Suite, shared: Key32, first: seq<Key32>, w: World, p: Party, keys: seq<Key32>, epochs: seq<nat>) returns (w': World)
    requires |first| == 3 && Reachable(s, shared, first, w)
    requires Stage(w, keys, epochs) && |keys| > 2 && Owner(|keys| - 1) == p
    ensures Reachable(s, shared, first, w') && Stage(w', keys, epochs + [|keys| - 1])
  {
    var nonce: Nonce := seq(12, _ => 0);
    ReachOneMore(s, shared, first, w, Send(p, [], nonce));
    StageAfterSend(s, w, p, keys, epochs, nonce);
    w' := SendMessage(s, w, p, [], nonce);
  }

  lemma SomeVictim(chains: map<Key32, Saved>) returns (victim: Option<Key32>)
    ensures MakesRoom(chains, victim)
  {
    O.RoomCanBeMade(LastUsed(chains), MAX_SAVED_CHAINS);
    victim :| O.MakesRoom(LastUsed(chains), MAX_SAVED_CHAINS, victim);
  }

  lemma ReachableTurns(s: Suite, shared: Key32, first: seq<Key32>, w: World, k: nat)
    requires Lawful(s) && KeysOk(s, first) && |first| == 3 && Reachable(s, shared, first, w)
    requires k < |w.network| && |w.keys| > 2 && w.network[k].epoch == Newest(w)
    ensures Turns(Side(w, Receiver(w.network[k])), w.network[k].envelope)
  {
    ReachableInv(s, shared, first, w);
    assert Authentic(s, shared, w.keys, w.network[k]);
    NewestTurns(s, shared, w, w.network[k]);
  }

  lemma TurnStage(s: Suite, shared: Key32, first: seq<Key32>, w: World, k: nat, secret: Key32, keys: seq<Key32>, epochs: seq<nat>) returns (w': World)
    requires Lawful(s) && KeysOk(s, first) && |first| == 3 && Reachable(s, shared, first, w)
    requires Stage(w, keys, epochs) && k < |epochs| && |keys| > 2 && epochs[k] == |keys| - 1 && FreshSecret(s, w, secret)
    ensures Reachable(s, shared, first, w') && Stage(w', keys + [secret], epochs)
  {
    var m := w.network[k];
    var victim := SomeVictim(Side(w, Receiver(m)).receivingChains);
    NewestIsInOrder(w, m);
    ReachableTurns(s, shared, first, w, k);
    ReachOneMore(s, shared, first, w, Deliver(k, secret, 0, victim));
    DeliveryIsDecryption(s, w, m, secret, 0, victim);
    w' := DeliverMessage(s, w, m, secret, 0, victim).0;
  }

  lemma NewestIsInOrder(w: World, m: Message)
    requires |w.keys| > 2 && m.epoch == Newest(w)
    ensures InEpochOrder(w, m)
  {
  }

  lemma NewestTurns(s: Suite, shared: Key32, w: World, m: Message)
    requires Inv(s, shared, w) && Authentic(s, shared, w.keys, m) && m.epoch == Newest(w)
    ensures Turns(Side(w, Receiver(m)), m.envelope)
  {
    EitherParty(s, shared, w, Receiver(m));
    EpochsAfterTurn(w, w.(keys := w.keys + [ZeroKey()]), m, ZeroKey());
    SameKeySameEpoch(s, w.keys, m.epoch, |w.keys| - 3);
  }

  /** The next party sends, and the other one reads it and makes a new key. */
  lemma NextEpochReached(s: Suite, shared: Key32, first: seq<Key32>, w: World, keys: seq<Key32>, secret: Key32, epochs: seq<nat>) returns (w': World)
    requires Lawful(s) && KeysOk(s, first) && |first| == 3 && Reachable(s, shared, first, w)
    requires Stage(w, keys, epochs) && |keys| > 2 && FreshAmong(s, keys, secret)
    ensures Reachable(s, shared, first, w') && Stage(w', keys + [secret], epochs + [|keys| - 1])
  {
    var w1 := SendStage(s, shared, first, w, Owner(|keys| - 1), keys, epochs);
    w' := TurnStage(s, shared, first, w1, |epochs|, secret, keys, epochs + [|keys| - 1]);
  }

  /**
   * Five sends and deliveries in epoch order are enough for a message to be left behind: it was never opened,
   * is within reach, and would be delivered late.
   */
  lemma LateMessageExists(s: Suite, shared: Key32, first: seq<Key32>, fourth: Key32, fifth: Key32)
    requires Lawful(s) && KeysOk(s, first) && |first| == 3
    requires FreshAmong(s, first, fourth) && FreshAmong(s, first + [fourth], fifth)
    ensures exists w :: Reachable(s, shared, first, w) && |w.keys| > 1 && w.network != [] &&
              FirstInReach(w, w.network[0]) && !InEpochOrder(w, w.network[0])
  {
    var w1 := FirstStage(s, shared, first);
    var w2 := NextEpochReached(s, shared, first, w1, first, fourth, [1]);
    var w3 := NextEpochReached(s, shared, first, w2, first + [fourth], fifth, [1] + [2]);
    LeftBehind(w3, first + [fourth] + [fifth], [1] + [2] + [3]);
  }

  /** The first message, once its receiver has made a second key. */
  lemma LeftBehind(w: World, keys: seq<Key32>, epochs: seq<nat>)
    requires Stage(w, keys, epochs) && |keys| == 5
    ensures FirstInReach(w, w.network[0]) && !InEpochOrder(w, w.network[0])
  {
    assert Owner(1) == Responder && Owner(2) == Initiator && Owner(3) == Responder && Owner(4) == Initiator;
  }
}
