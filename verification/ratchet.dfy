/** The double ratchet of src/crypto/ratchet.rs. */
module Ratchets {
  import opened Wrappers
  import opened Bytes
  import opened Crypto
  import opened Chains
  import O = Oldest

  const MAX_SAVED_CHAINS := 8

  /** A receiving chain and when it was last used, in seconds. */
  datatype Saved = Saved(chain: ChainState, lastUsed: nat)

  datatype RatchetState = RatchetState(
    rootKey: Key32,
    sendingChain: ChainState,
    receivingChains: map<Key32, Saved>,
    ourDhPriv: Key32,
    theirDhPub: Key32)

  function NewChain(key: Key32): ChainState {
    ChainState(key, 0, map[])
  }

  // -------- saved receiving chains --------

  function LastUsed(chains: map<Key32, Saved>): map<Key32, nat> {
    map k | k in chains :: chains[k].lastUsed
  }

  /** Which chain makes room for a new one: an oldest one when eight are saved, else none. */
  ghost predicate MakesRoom(chains: map<Key32, Saved>, victim: Option<Key32>) {
    O.MakesRoom(LastUsed(chains), MAX_SAVED_CHAINS, victim)
  }

  function InsertReceivingChain(chains: map<Key32, Saved>, pub: Key32, key: Key32, now: nat, victim: Option<Key32>): map<Key32, Saved> {
    (if victim.Some? then chains - {victim.value} else chains)[pub := Saved(NewChain(key), now)]
  }

  lemma LastUsedCounts(chains: map<Key32, Saved>)
    ensures LastUsed(chains).Keys == chains.Keys && |LastUsed(chains)| == |chains|
  {
    assert LastUsed(chains).Keys == chains.Keys;
  }

  lemma RoomIsEnough(chains: map<Key32, Saved>, pub: Key32, key: Key32, now: nat, victim: Option<Key32>)
    requires |chains| <= MAX_SAVED_CHAINS && MakesRoom(chains, victim)
    ensures |InsertReceivingChain(chains, pub, key, now, victim)| <= MAX_SAVED_CHAINS
  {
    var r := InsertReceivingChain(chains, pub, key, now, victim);
    LastUsedCounts(chains);
    LastUsedCounts(r);
    O.StaysWithin(LastUsed(chains), MAX_SAVED_CHAINS, victim, pub, now);
    assert LastUsed(r) == (if victim.Some? then LastUsed(chains) - {victim.value} else LastUsed(chains))[pub := now];
  }

  /** At most eight chains stay saved, and the newest is always among them. */
  lemma SavedChainsBounded(chains: map<Key32, Saved>, pub: Key32, key: Key32, now: nat, victim: Option<Key32>)
    requires |chains| <= MAX_SAVED_CHAINS && MakesRoom(chains, victim)
    ensures var r := InsertReceivingChain(chains, pub, key, now, victim);
            && |r| <= MAX_SAVED_CHAINS
            && pub in r && r[pub] == Saved(NewChain(key), now)
            && (forall k :: k in r && k != pub ==> k in chains && r[k] == chains[k])
            && (forall k :: k in chains && k !in r ==> forall j :: j in chains ==> chains[k].lastUsed <= chains[j].lastUsed)
  {
    LastUsedCounts(chains);
    RoomIsEnough(chains, pub, key, now, victim);
  }

  // -------- the ratchet as functions --------

  function New(s: Suite, shared: Key32, ourDhPriv: Key32, theirDhPub: Key32, now: nat): RatchetState {
    var first := s.deriveKey(shared, InitChain);
    RatchetState(shared, NewChain(first), map[theirDhPub := Saved(NewChain(first), now)], ourDhPriv, theirDhPub)
  }

  /** The sending half of a DH step, with the fresh private key `secret`. */
  function SendStep(s: Suite, r: RatchetState, secret: Key32): RatchetState {
    var (root, key) := s.kdfRk(r.rootKey, s.diffieHellman(secret, r.theirDhPub));
    r.(rootKey := root, sendingChain := NewChain(key), ourDhPriv := secret)
  }

  function DhRatchetStep(s: Suite, r: RatchetState, theirNewDhPub: Key32, secret: Key32, now: nat, victim: Option<Key32>): RatchetState {
    var (rootAfterReceive, receivingKey) := s.kdfRk(r.rootKey, s.diffieHellman(r.ourDhPriv, theirNewDhPub));
    var (rootFinal, sendingKey) := s.kdfRk(rootAfterReceive, s.diffieHellman(secret, theirNewDhPub));
    RatchetState(rootFinal, NewChain(sendingKey),
                 InsertReceivingChain(r.receivingChains, theirNewDhPub, receivingKey, now, victim),
                 secret, theirNewDhPub)
  }

  /** What travels with a ciphertext. */
  datatype Envelope = Envelope(number: nat, dhPub: Key32, nonce: Nonce, ciphertext: bytes)

  function Encrypt(s: Suite, r: RatchetState, plaintext: bytes, nonce: Nonce): (RatchetState, Envelope) {
    var (chain, key) := Advance(s, r.sendingChain);
    (r.(sendingChain := chain),
     Envelope(chain.messageNumber, s.publicKey(r.ourDhPriv), nonce, s.seal(key, nonce, plaintext)))
  }

  /** Whether receiving this envelope turns the DH ratchet first. */
  predicate Turns(r: RatchetState, e: Envelope) {
    r.theirDhPub != e.dhPub
  }

  function Turned(s: Suite, r: RatchetState, e: Envelope, secret: Key32, now: nat, victim: Option<Key32>): RatchetState {
    if Turns(r, e) then DhRatchetStep(s, r, e.dhPub, secret, now, victim) else r
  }

  /** Key selection and opening on the chain saved for the envelope's public key. */
  function OpenWith(s: Suite, r: RatchetState, e: Envelope, now: nat): (RatchetState, Result<bytes, string>) {
    if e.dhPub !in r.receivingChains then (r, Failure("No receiving chain for this DH pubkey"))
    else
      var (chain, key) := Accept(s, r.receivingChains[e.dhPub].chain, e.number);
      (r.(receivingChains := r.receivingChains[e.dhPub := Saved(chain, now)]),
       match key
       case Failure(m) => Failure(m)
       case Success(k) =>
         match s.open(k, e.nonce, e.ciphertext)
         case Some(p) => Success(p)
         case None => Failure("decryption failed"))
  }

  function Decrypt(s: Suite, r: RatchetState, e: Envelope, secret: Key32, now: nat, victim: Option<Key32>): (RatchetState, Result<bytes, string>) {
    OpenWith(s, Turned(s, r, e, secret, now, victim), e, now)
  }

  /** Decrypting uses one chain, and dates it; the other chains and their dates stay as they are. */
  lemma OneChainUsed(s: Suite, r: RatchetState, e: Envelope, now: nat, k: Key32)
    ensures var r' := OpenWith(s, r, e, now).0;
            && (k in r'.receivingChains <==> k in r.receivingChains)
            && (k in r.receivingChains && k != e.dhPub ==> r'.receivingChains[k] == r.receivingChains[k])
            && (e.dhPub in r.receivingChains ==> r'.receivingChains[e.dhPub].lastUsed == now)
            && r' == r.(receivingChains := r'.receivingChains)
  {
  }

  // -------- the ratchet object --------

  /** The map owns its chains by value: one in use is loaded into a chain object and written back. */
  class DoubleRatchet {
    const suite: Suite
    var rootKey: Key32
    var sendingChain: Chain
    var receivingChains: map<Key32, Saved>
    var ourDhPriv: Key32
    var theirDhPub: Key32

    ghost predicate Valid()
      reads this
    {
      sendingChain.suite == suite
    }

    function State(): RatchetState
      reads this, sendingChain
    {
      RatchetState(rootKey, sendingChain.State(), receivingChains, ourDhPriv, theirDhPub)
    }

    constructor (suite: Suite, shared: Key32, ourDhPriv: Key32, theirDhPub: Key32, now: nat)
      ensures this.suite == suite && Valid() && fresh(sendingChain)
      ensures State() == New(suite, shared, ourDhPriv, theirDhPub, now)
    {
      var first := suite.deriveKey(shared, InitChain);
      this.suite := suite;
      rootKey := shared;
      sendingChain := new Chain(suite, first);
      receivingChains := map[theirDhPub := Saved(NewChain(first), now)];
      this.ourDhPriv := ourDhPriv;
      this.theirDhPub := theirDhPub;
    }

    constructor Restore(suite: Suite, r: RatchetState)
      ensures this.suite == suite && Valid() && fresh(sendingChain) && State() == r
    {
      this.suite := suite;
      rootKey := r.rootKey;
      sendingChain := new Chain.Restore(suite, r.sendingChain);
      receivingChains := r.receivingChains;
      ourDhPriv := r.ourDhPriv;
      theirDhPub := r.theirDhPub;
    }

    method InitiatorPreRatchet(secret: Key32)
      requires Valid()
      modifies this
      ensures Valid() && fresh(sendingChain)
      ensures State() == SendStep(suite, old(State()), secret)
    {
      var (root, key) := suite.kdfRk(rootKey, suite.diffieHellman(secret, theirDhPub));
      rootKey := root;
      sendingChain := new Chain(suite, key);
      ourDhPriv := secret;
    }

    method Seal(plaintext: bytes, nonce: Nonce) returns (e: Envelope)
      requires Valid() && sendingChain.messageNumber < U32_MAX
      modifies sendingChain
      ensures Valid() && (State(), e) == Encrypt(suite, old(State()), plaintext, nonce)
    {
      var n, key := sendingChain.Next();
      e := Envelope(n, suite.publicKey(ourDhPriv), nonce, suite.seal(key, nonce, plaintext));
    }

    method SaveReceivingChain(pub: Key32, key: Key32, now: nat) returns (ghost victim: Option<Key32>)
      modifies this`receivingChains
      ensures MakesRoom(old(receivingChains), victim)
      ensures receivingChains == InsertReceivingChain(old(receivingChains), pub, key, now, victim)
    {
      victim := None;
      LastUsedCounts(receivingChains);
      if |receivingChains| >= MAX_SAVED_CHAINS {
        O.OldestExists(LastUsed(receivingChains));
        var oldest :| oldest in receivingChains.Keys && O.IsOldest(LastUsed(receivingChains), oldest);
        victim := Some(oldest);
        receivingChains := receivingChains - {oldest};
      }
      receivingChains := receivingChains[pub := Saved(NewChain(key), now)];
    }

    method Turn(theirNewDhPub: Key32, secret: Key32, now: nat) returns (ghost victim: Option<Key32>)
      requires Valid()
      modifies this
      ensures Valid() && fresh(sendingChain) && MakesRoom(old(receivingChains), victim)
      ensures State() == DhRatchetStep(suite, old(State()), theirNewDhPub, secret, now, victim)
    {
      var (rootAfterReceive, receivingKey) := suite.kdfRk(rootKey, suite.diffieHellman(ourDhPriv, theirNewDhPub));
      var (rootFinal, sendingKey) := suite.kdfRk(rootAfterReceive, suite.diffieHellman(secret, theirNewDhPub));
      rootKey := rootFinal;
      victim := SaveReceivingChain(theirNewDhPub, receivingKey, now);
      sendingChain := new Chain(suite, sendingKey);
      ourDhPriv := secret;
      theirDhPub := theirNewDhPub;
    }

    /** Key selection and opening, once the ratchet has turned if it had to. */
    method OpenOnChain(e: Envelope, now: nat) returns (r: Result<bytes, string>)
      requires Valid() && e.number <= U32_MAX
      requires e.dhPub in receivingChains ==> receivingChains[e.dhPub].chain.messageNumber < U32_MAX
      modifies this`receivingChains
      ensures Valid() && (State(), r) == OpenWith(suite, old(State()), e, now)
    {
      if e.dhPub !in receivingChains {
        return Failure("No receiving chain for this DH pubkey");
      }
      var chain := new Chain.Restore(suite, receivingChains[e.dhPub].chain);
      var key := chain.Accepting(e.number);
      receivingChains := receivingChains[e.dhPub := Saved(chain.State(), now)];
      if key.Failure? {
        return Failure(key.error);
      }
      var plaintext := suite.open(key.value, e.nonce, e.ciphertext);
      match plaintext
      case Some(p) => return Success(p);
      case None => return Failure("decryption failed");
    }

    method Open(e: Envelope, secret: Key32, now: nat) returns (r: Result<bytes, string>, ghost victim: Option<Key32>)
      requires Valid() && e.number <= U32_MAX
      requires e.dhPub in receivingChains ==> receivingChains[e.dhPub].chain.messageNumber < U32_MAX
      modifies this
      ensures Valid() && (sendingChain == old(sendingChain) || fresh(sendingChain))
      ensures Turns(old(State()), e) ==> MakesRoom(old(receivingChains), victim)
      ensures (State(), r) == Decrypt(suite, old(State()), e, secret, now, victim)
    {
      victim := None;
      if theirDhPub != e.dhPub {
        victim := Turn(e.dhPub, secret, now);
      }
      r := OpenOnChain(e, now);
    }
  }
}
