/** Which entry a full cache drops to make room: one that was used longest ago. Ties are not fixed. */
module Oldest {
  import opened Wrappers

  predicate IsOldest<K(!new)>(times: map<K, nat>, k: K) {
    k in times && forall j :: j in times ==> times[k] <= times[j]
  }

  ghost predicate MakesRoom<K(!new)>(times: map<K, nat>, capacity: nat, victim: Option<K>) {
    if |times| >= capacity then victim.Some? && IsOldest(times, victim.value) else victim.None?
  }

  lemma {:induction false} OldestExists<K(!new)>(times: map<K, nat>)
    requires times != map[]
    ensures exists k :: IsOldest(times, k)
    decreases |times|
  {
    var k :| k in times;
    var rest := times - {k};
    assert forall j :: j in times ==> j == k || j in rest;
    if rest == map[] {
      assert IsOldest(times, k);
    } else {
      OneFewer(times, k);
      OldestExists(rest);
      var o :| IsOldest(rest, o);
      assert IsOldest(times, if times[k] <= times[o] then k else o);
    }
  }

  /** There is always an answer to which entry makes room. */
  lemma RoomCanBeMade<K(!new)>(times: map<K, nat>, capacity: nat)
    requires capacity > 0
    ensures exists victim :: MakesRoom(times, capacity, victim)
  {
    if |times| >= capacity {
      OldestExists(times);
      var k :| IsOldest(times, k);
      assert MakesRoom(times, capacity, Some(k));
    } else {
      assert MakesRoom(times, capacity, None);
    }
  }

  lemma OneFewer<K, V>(m: map<K, V>, k: K)
    requires k in m
    ensures |m - {k}| == |m| - 1
  {
    assert (m - {k}).Keys == m.Keys - {k};
    assert |(m - {k}).Keys| == |m.Keys| - 1;
  }

  lemma OneMore<K, V>(m: map<K, V>, k: K, v: V)
    ensures |m[k := v]| <= |m| + 1
  {
    assert m[k := v].Keys == m.Keys + {k};
    assert |m[k := v].Keys| <= |m.Keys| + 1;
  }

  /** A full cache that makes room stays within its capacity. */
  lemma StaysWithin<K(!new)>(times: map<K, nat>, capacity: nat, victim: Option<K>, k: K, now: nat)
    requires |times| <= capacity && MakesRoom(times, capacity, victim) && capacity > 0
    ensures |(if victim.Some? then times - {victim.value} else times)[k := now]| <= capacity
  {
    if victim.Some? {
      OneFewer(times, victim.value);
      OneMore(times - {victim.value}, k, now);
    } else {
      OneMore(times, k, now);
    }
  }
}
