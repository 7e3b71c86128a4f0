/** The symmetric-key chains of src/crypto/ratchet.rs: one key per message, in any order of arrival. */
module Chains {
  import opened Wrappers
  import opened Crypto

  const MAX_SKIP := 2048
  const U32_MAX := 0xFFFF_FFFF

  datatype ChainState = ChainState(key: Key32, messageNumber: nat, skippedKeys: map<nat, Key32>)

  /** The chain key after i steps from k. */
  function ChainKeyAt(s: Suite, k: Key32, i: nat): Key32 {
    if i == 0 then k else s.deriveKey(ChainKeyAt(s, k, i - 1), ChainKey)
  }

  /** The key of message i on the chain that starts at k. */
  function MessageKeyAt(s: Suite, k: Key32, i: nat): Key32
    requires i > 0
  {
    s.deriveKey(ChainKeyAt(s, k, i - 1), MessageKey)
  }

  function Advance(s: Suite, c: ChainState): (ChainState, Key32) {
    (c.(key := s.deriveKey(c.key, ChainKey), messageNumber := c.messageNumber + 1), s.deriveKey(c.key, MessageKey))
  }

  function PassedKey(s: Suite, k: Key32, a: nat, i: nat): Key32
    requires a < i
  {
    MessageKeyAt(s, k, i - a)
  }

  /** The keys passed over between message a (excluded) and message b (excluded), counting from chain key k. */
  function PassedKeys(s: Suite, k: Key32, a: nat, b: nat): map<nat, Key32> {
    map i: nat | a < i < b :: PassedKey(s, k, a, i)
  }

  /** What the skipping loop leaves in `final_key`: zeros when it never runs. */
  function FinalKey(s: Suite, c: ChainState, target: nat): Key32
    requires c.messageNumber <= target
  {
    if target == c.messageNumber then ZeroKey() else MessageKeyAt(s, c.key, target - c.messageNumber)
  }

  /** The chain at target, with the key of every message passed over stored. */
  function Skipped(s: Suite, c: ChainState, target: nat): ChainState
    requires c.messageNumber <= target
  {
    ChainState(ChainKeyAt(s, c.key, target - c.messageNumber), target,
               c.skippedKeys + PassedKeys(s, c.key, c.messageNumber, target))
  }

  function SkipTo(s: Suite, c: ChainState, target: nat): (ChainState, Result<Key32, string>)
    requires c.messageNumber <= target
  {
    var gap := target - c.messageNumber;
    if gap > MAX_SKIP then (c, Failure("message gap too large"))
    else
      (Skipped(s, c, target), Success(FinalKey(s, c, target)))
  }

  /** How the ratchet finds the key of message n on a receiving chain. */
  function Accept(s: Suite, c: ChainState, n: nat): (ChainState, Result<Key32, string>) {
    if n == c.messageNumber + 1 then
      var (c', k) := Advance(s, c);
      (c', Success(k))
    else if n > c.messageNumber + 1 then SkipTo(s, c, n)
    else if n in c.skippedKeys then (c.(skippedKeys := c.skippedKeys - {n}), Success(c.skippedKeys[n]))
    else (c, Failure("Message number is too old"))
  }

  class Chain {
    const suite: Suite
    var key: Key32
    var messageNumber: nat
    var skippedKeys: map<nat, Key32>

    function State(): ChainState
      reads this
    {
      ChainState(key, messageNumber, skippedKeys)
    }

    constructor (suite: Suite, key: Key32)
      ensures this.suite == suite && State() == ChainState(key, 0, map[])
    {
      this.suite := suite;
      this.key := key;
      messageNumber := 0;
      skippedKeys := map[];
    }

    constructor Restore(suite: Suite, c: ChainState)
      ensures this.suite == suite && State() == c
    {
      this.suite := suite;
      key := c.key;
      messageNumber := c.messageNumber;
      skippedKeys := c.skippedKeys;
    }

    method Next() returns (n: nat, messageKey: Key32)
      requires messageNumber < U32_MAX
      modifies this
      ensures (State(), messageKey) == Advance(suite, old(State())) && n == messageNumber
    {
      messageKey := suite.deriveKey(key, MessageKey);
      key := suite.deriveKey(key, ChainKey);
      messageNumber := messageNumber + 1;
      n := messageNumber;
    }

    method SkipForward(target: nat) returns (r: Result<Key32, string>)
      requires messageNumber <= target <= U32_MAX
      modifies this
      ensures (State(), r) == SkipTo(suite, old(State()), target)
    {
      if target - messageNumber > MAX_SKIP {
        return Failure("message gap too large");
      }
      var finalKey := StepThrough(target);
      return Success(finalKey);
    }

    /** The skipping loop: every key passed over is kept, the last one is returned. */
    method StepThrough(target: nat) returns (finalKey: Key32)
      requires messageNumber <= target
      modifies this
      ensures State() == Skipped(suite, old(State()), target)
      ensures finalKey == FinalKey(suite, old(State()), target)
    {
      finalKey := ZeroKey();
      ghost var c := State();
      for n := messageNumber + 1 to target + 1
        invariant messageNumber == n - 1 && State() == Skipping(suite, c, n - 1, target)
        invariant n - 1 == target > c.messageNumber ==> finalKey == suite.deriveKey(Skipping(suite, c, n - 2, target).key, MessageKey)
        invariant n - 1 == c.messageNumber ==> finalKey == ZeroKey()
      {
        var k := suite.deriveKey(key, MessageKey);
        key := suite.deriveKey(key, ChainKey);
        messageNumber := n;
        if n < target {
          skippedKeys := skippedKeys[n := k];
        } else {
          finalKey := k;
        }
      }
      SkippingIsSkipped(suite, c, target);
    }

    method TakeSkipped(n: nat) returns (r: Option<Key32>)
      modifies this
      ensures r == if n in old(skippedKeys) then Some(old(skippedKeys)[n]) else None
      ensures State() == old(State()).(skippedKeys := old(skippedKeys) - {n})
    {
      if n in skippedKeys {
        r := Some(skippedKeys[n]);
      } else {
        r := None;
      }
      skippedKeys := skippedKeys - {n};
    }

    /** The key selection inside `decrypt`. */
    method Accepting(n: nat) returns (r: Result<Key32, string>)
      requires messageNumber < U32_MAX && n <= U32_MAX
      modifies this
      ensures (State(), r) == Accept(suite, old(State()), n)
    {
      if n == messageNumber + 1 {
        var _, k := Next();
        return Success(k);
      } else if n > messageNumber + 1 {
        r := SkipForward(n);
        return;
      } else if n in skippedKeys {
        var k := TakeSkipped(n);
        return Success(k.value);
      }
      return Failure("Message number is too old");
    }
  }

  /** The chain c after the loop has reached message m on its way to target. */
  ghost function Skipping(s: Suite, c: ChainState, m: nat, target: nat): ChainState
    decreases m
  {
    if m <= c.messageNumber then c
    else
      var p := Skipping(s, c, m - 1, target);
      ChainState(s.deriveKey(p.key, ChainKey), m,
                 if m < target then p.skippedKeys[m := s.deriveKey(p.key, MessageKey)] else p.skippedKeys)
  }

  /** While the loop runs, the keys between the start and m are stored. */
  lemma {:induction false} SkippingSoFar(s: Suite, c: ChainState, m: nat, target: nat)
    requires c.messageNumber <= m < target
    ensures Skipping(s, c, m, target) ==
              ChainState(ChainKeyAt(s, c.key, m - c.messageNumber), m, c.skippedKeys + PassedKeys(s, c.key, c.messageNumber, m + 1))
  {
    if m == c.messageNumber {
      assert c.skippedKeys + map[] == c.skippedKeys;
    } else {
      var p := Skipping(s, c, m - 1, target);
      SkippingSoFar(s, c, m - 1, target);
      ChainStep(s, c.key, m - c.messageNumber);
      PassOne(s, c.key, c.skippedKeys, c.messageNumber, m);
      assert Skipping(s, c, m, target).skippedKeys == p.skippedKeys[m := s.deriveKey(p.key, MessageKey)];
    }
  }

  lemma ChainStep(s: Suite, k: Key32, i: nat)
    requires i > 0
    ensures ChainKeyAt(s, k, i) == s.deriveKey(ChainKeyAt(s, k, i - 1), ChainKey)
    ensures MessageKeyAt(s, k, i) == s.deriveKey(ChainKeyAt(s, k, i - 1), MessageKey)
  {
  }

  lemma SkippingIsSkipped(s: Suite, c: ChainState, target: nat)
    requires c.messageNumber <= target
    ensures Skipping(s, c, target, target) == Skipped(s, c, target)
    ensures target > c.messageNumber ==> s.deriveKey(Skipping(s, c, target - 1, target).key, MessageKey) == FinalKey(s, c, target)
  {
    if target == c.messageNumber {
      assert c.skippedKeys + map[] == c.skippedKeys;
    } else {
      SkippingSoFar(s, c, target - 1, target);
    }
  }

  lemma PassOne(s: Suite, k: Key32, skipped: map<nat, Key32>, a: nat, b: nat)
    requires a < b
    ensures skipped + PassedKeys(s, k, a, b + 1) == (skipped + PassedKeys(s, k, a, b))[b := MessageKeyAt(s, k, b - a)]
  {
    assert PassedKeys(s, k, a, b + 1) == PassedKeys(s, k, a, b)[b := PassedKey(s, k, a, b)];
  }

  // -------- any order of arrival --------

  lemma {:induction false} ChainKeyAdd(s: Suite, k: Key32, a: nat, b: nat)
    ensures ChainKeyAt(s, ChainKeyAt(s, k, a), b) == ChainKeyAt(s, k, a + b)
  {
    if b > 0 {
      ChainKeyAdd(s, k, a, b - 1);
    }
  }

  /** A chain after n advances. */
  function Advanced(s: Suite, c: ChainState, n: nat): ChainState {
    if n == 0 then c else Advance(s, Advanced(s, c, n - 1)).0
  }

  /** What the sender's advance number i + 1 from k0 yields. */
  lemma {:induction false} SenderKey(s: Suite, k0: Key32, i: nat)
    ensures var c := Advanced(s, ChainState(k0, 0, map[]), i);
            c == ChainState(ChainKeyAt(s, k0, i), i, map[]) && Advance(s, c).1 == MessageKeyAt(s, k0, i + 1)
  {
    if i > 0 {
      SenderKey(s, k0, i - 1);
    }
  }

  /**
   * A receiving chain that stands where the sender's chain from k0 stood after messageNumber messages: each
   * of those numbers is either handed out or waiting among the skipped keys, never both.
   */
  ghost predicate Genuine(s: Suite, k0: Key32, c: ChainState, handed: set<nat>) {
    && c.key == ChainKeyAt(s, k0, c.messageNumber)
    && (forall i :: i in handed ==> 1 <= i <= c.messageNumber)
    && (c.messageNumber > 0 ==> c.messageNumber in handed)
    && (forall i :: i in c.skippedKeys <==> 1 <= i <= c.messageNumber && i !in handed)
    && (forall i :: i in c.skippedKeys ==> i > 0 && c.skippedKeys[i] == MessageKeyAt(s, k0, i))
  }

  ghost predicate Acceptable(c: ChainState, handed: set<nat>, n: nat) {
    1 <= n <= c.messageNumber + MAX_SKIP && n !in handed
  }

  /** The keys a skip stores are the sender's, like those stored before. */
  lemma SkippedKeysGenuine(s: Suite, k0: Key32, stored: map<nat, Key32>, passed: map<nat, Key32>, m: nat, i: nat)
    requires i in stored ==> i > 0 && stored[i] == MessageKeyAt(s, k0, i)
    requires i in passed ==> m < i && passed[i] == PassedKey(s, ChainKeyAt(s, k0, m), m, i)
    ensures i in stored + passed ==> i > 0 && (stored + passed)[i] == MessageKeyAt(s, k0, i)
  {
    if i in passed {
      MessageKeyShift(s, k0, m, i - m);
    }
  }

  lemma SkipGenuine(s: Suite, k0: Key32, c: ChainState, handed: set<nat>, n: nat)
    requires Genuine(s, k0, c, handed) && c.messageNumber < n <= c.messageNumber + MAX_SKIP
    ensures var (c', r) := SkipTo(s, c, n);
            r == Success(MessageKeyAt(s, k0, n)) && Genuine(s, k0, c', handed + {n}) && c'.messageNumber == n
  {
    var c' := SkipTo(s, c, n).0;
    ChainKeyAdd(s, k0, c.messageNumber, n - c.messageNumber);
    MessageKeyShift(s, k0, c.messageNumber, n - c.messageNumber);
    var passed := PassedKeys(s, c.key, c.messageNumber, n);
    forall i | i in c'.skippedKeys ensures i > 0 && c'.skippedKeys[i] == MessageKeyAt(s, k0, i) {
      SkippedKeysGenuine(s, k0, c.skippedKeys, passed, c.messageNumber, i);
    }
  }

  lemma MessageKeyShift(s: Suite, k: Key32, a: nat, i: nat)
    requires i > 0
    ensures MessageKeyAt(s, ChainKeyAt(s, k, a), i) == MessageKeyAt(s, k, a + i)
  {
    ChainKeyAdd(s, k, a, i - 1);
    var j := a + i - 1;
    assert ChainKeyAt(s, ChainKeyAt(s, k, a), i - 1) == ChainKeyAt(s, k, j);
  }

  /**
   * Message n is accepted exactly when it is not older than its first delivery and at most 2048 ahead, and
   * then with the sender's key; otherwise the chain is left alone.
   */
  lemma AcceptGenuine(s: Suite, k0: Key32, c: ChainState, handed: set<nat>, n: nat)
    requires Genuine(s, k0, c, handed)
    ensures var (c', r) := Accept(s, c, n);
            if Acceptable(c, handed, n) then
              && r == Success(MessageKeyAt(s, k0, n))
              && Genuine(s, k0, c', handed + {n})
              && c'.messageNumber == (if n > c.messageNumber then n else c.messageNumber)
            else r.Failure? && c' == c
  {
    if n == c.messageNumber + 1 {
      ChainKeyAdd(s, k0, c.messageNumber, 1);
    } else if n > c.messageNumber + 1 {
      if n <= c.messageNumber + MAX_SKIP {
        SkipGenuine(s, k0, c, handed, n);
      }
    }
  }

  /** A receiving chain while messages arrive: its state, what each arrival got, and the numbers handed out. */
  datatype Deliveries = Deliveries(chain: ChainState, results: seq<Result<Key32, string>>, handed: set<nat>)

  function Deliver(s: Suite, k0: Key32, arrivals: seq<nat>): (d: Deliveries)
    ensures |d.results| == |arrivals|
  {
    if arrivals == [] then Deliveries(ChainState(k0, 0, map[]), [], {})
    else
      var d := Deliver(s, k0, arrivals[..|arrivals| - 1]);
      var n := arrivals[|arrivals| - 1];
      var (c, r) := Accept(s, d.chain, n);
      Deliveries(c, d.results + [r], if r.Success? then d.handed + {n} else d.handed)
  }

  lemma {:induction false} DeliverGenuine(s: Suite, k0: Key32, arrivals: seq<nat>)
    ensures Genuine(s, k0, Deliver(s, k0, arrivals).chain, Deliver(s, k0, arrivals).handed)
  {
    if arrivals != [] {
      var d := Deliver(s, k0, arrivals[..|arrivals| - 1]);
      DeliverGenuine(s, k0, arrivals[..|arrivals| - 1]);
      AcceptGenuine(s, k0, d.chain, d.handed, arrivals[|arrivals| - 1]);
    }
  }

  lemma {:induction false} HandedMeansDelivered(s: Suite, k0: Key32, arrivals: seq<nat>, n: nat)
    ensures var d := Deliver(s, k0, arrivals);
            n in d.handed <==> exists i :: 0 <= i < |arrivals| && arrivals[i] == n && d.results[i].Success?
  {
    if arrivals != [] {
      var init, last := arrivals[..|arrivals| - 1], |arrivals| - 1;
      var d, d' := Deliver(s, k0, init), Deliver(s, k0, arrivals);
      HandedMeansDelivered(s, k0, init, n);
      assert forall i :: 0 <= i < last ==> init[i] == arrivals[i] && d.results[i] == d'.results[i];
      assert d'.results[last] == Accept(s, d.chain, arrivals[last]).1;
    }
  }

  /**
   * For any sequence of arrivals, the one at position j gets a key exactly when its number was not handed
   * out before and is at most 2048 past the highest number reached; that key is the one the sender used.
   */
  lemma AnyOrderDelivery(s: Suite, k0: Key32, arrivals: seq<nat>, j: nat)
    requires j < |arrivals|
    ensures var before, n := Deliver(s, k0, arrivals[..j]), arrivals[j];
            var r := Deliver(s, k0, arrivals[..j + 1]).results[j];
            && (r.Success? <==>
                  && 1 <= n <= before.chain.messageNumber + MAX_SKIP
                  && !exists i :: 0 <= i < j && arrivals[i] == n && before.results[i].Success?)
            && (r.Success? ==> r.value == MessageKeyAt(s, k0, n))
  {
    var before, n := Deliver(s, k0, arrivals[..j]), arrivals[j];
    assert arrivals[..j + 1][..j] == arrivals[..j];
    DeliverGenuine(s, k0, arrivals[..j]);
    AcceptGenuine(s, k0, before.chain, before.handed, n);
    HandedMeansDelivered(s, k0, arrivals[..j], n);
    assert forall i :: 0 <= i < j ==> arrivals[..j][i] == arrivals[i];
  }

  /** Every number up to the highest reached is waiting as a skipped key or was handed out, never both, and at most once. */
  lemma SkippedOrHandedOnce(s: Suite, k0: Key32, arrivals: seq<nat>, n: nat)
    requires 1 <= n <= Deliver(s, k0, arrivals).chain.messageNumber
    ensures var d := Deliver(s, k0, arrivals);
            (n in d.chain.skippedKeys) == !(exists i :: 0 <= i < |arrivals| && arrivals[i] == n && d.results[i].Success?)
    ensures forall i, j :: 0 <= i < j < |arrivals| && arrivals[i] == arrivals[j] == n ==>
              !(Deliver(s, k0, arrivals).results[i].Success? && Deliver(s, k0, arrivals).results[j].Success?)
  {
    DeliverGenuine(s, k0, arrivals);
    HandedMeansDelivered(s, k0, arrivals, n);
    forall i, j | 0 <= i < j < |arrivals| && arrivals[i] == arrivals[j] == n
      ensures !(Deliver(s, k0, arrivals).results[i].Success? && Deliver(s, k0, arrivals).results[j].Success?)
    {
      AnyOrderDelivery(s, k0, arrivals, j);
      ResultsExtend(s, k0, arrivals, j);
      ResultsExtend(s, k0, arrivals, j + 1);
    }
  }

  lemma {:induction false} ResultsExtend(s: Suite, k0: Key32, arrivals: seq<nat>, j: nat)
    requires j <= |arrivals|
    ensures Deliver(s, k0, arrivals[..j]).results == Deliver(s, k0, arrivals).results[..j]
  {
    if j == |arrivals| {
      assert arrivals[..j] == arrivals;
    } else {
      ResultsExtend(s, k0, arrivals[..|arrivals| - 1], j);
      assert arrivals[..|arrivals| - 1][..j] == arrivals[..j];
    }
  }
}
