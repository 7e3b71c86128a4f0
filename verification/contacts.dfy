/** Socket addresses, contacts, and Rust's stable `sort_by_key` on XOR distance. */
module Contacts {
  import opened Bytes
  import opened NodeIds

  type Ip4 = s: bytes | |s| == 4 witness [0, 0, 0, 0]
  type Ip6 = s: bytes | |s| == 16 witness seq(16, _ => 0)
  type Port = n: nat | n < 0x1_0000

  datatype SocketAddr =
    | V4(ip4: Ip4, port: Port)
    | V6(ip6: Ip6, port: Port, flow: nat, scope: nat)

  datatype Contact = Contact(id: NodeId, addr: SocketAddr)

  function Take<T>(n: nat, s: seq<T>): (r: seq<T>)
    ensures |r| <= n && r <= s
    ensures |r| == if n < |s| then n else |s|
  {
    if n < |s| then s[..n] else s
  }

  function Ids(s: seq<Contact>): (r: seq<NodeId>)
    ensures |r| == |s| && forall i :: 0 <= i < |s| ==> r[i] == s[i].id
  {
    seq(|s|, i requires 0 <= i < |s| => s[i].id)
  }

  ghost predicate Distinct<T>(s: seq<T>) {
    forall i, j :: 0 <= i < j < |s| ==> s[i] != s[j]
  }

  ghost predicate Sorted(t: NodeId, s: seq<Contact>) {
    forall i, j :: 0 <= i <= j < |s| ==> Dist(t, s[i].id) <= Dist(t, s[j].id)
  }

  /** The entries of s at distance exactly d, in order. */
  function AtDistance(t: NodeId, d: nat, s: seq<Contact>): seq<Contact> {
    if s == [] then []
    else
      var init := AtDistance(t, d, s[..|s| - 1]);
      if Dist(t, s[|s| - 1].id) == d then init + [s[|s| - 1]] else init
  }

  /** Places c after every entry that is no farther from t. */
  function Insert(t: NodeId, c: Contact, s: seq<Contact>): (r: seq<Contact>)
    ensures |r| == |s| + 1
    ensures multiset(r) == multiset(s) + multiset{c}
  {
    if s == [] || Dist(t, s[|s| - 1].id) <= Dist(t, c.id) then s + [c]
    else
      assert s == s[..|s| - 1] + [s[|s| - 1]];
      Insert(t, c, s[..|s| - 1]) + [s[|s| - 1]]
  }

  function SortInto(t: NodeId, s: seq<Contact>, more: seq<Contact>): (r: seq<Contact>)
    ensures |r| == |s| + |more|
    ensures multiset(r) == multiset(s) + multiset(more)
    decreases |more|
  {
    if more == [] then s
    else
      assert more == [more[0]] + more[1..];
      SortInto(t, Insert(t, more[0], s), more[1..])
  }

  /** The stable sort by distance to t. */
  function SortByDistance(t: NodeId, s: seq<Contact>): (r: seq<Contact>)
    ensures |r| == |s| && multiset(r) == multiset(s)
  {
    SortInto(t, [], s)
  }

  // -------- the three facts that characterise a stable sort --------

  lemma {:induction false} InsertSorted(t: NodeId, c: Contact, s: seq<Contact>)
    requires Sorted(t, s)
    ensures Sorted(t, Insert(t, c, s))
  {
    if s == [] || Dist(t, s[|s| - 1].id) <= Dist(t, c.id) {
    } else {
      var init, last := s[..|s| - 1], s[|s| - 1];
      InsertSorted(t, c, init);
      var r := Insert(t, c, init);
      forall i | 0 <= i < |r| ensures Dist(t, r[i].id) <= Dist(t, last.id) {
        assert r[i] in multiset(r);
        assert r[i] in init || r[i] == c;
      }
    }
  }

  lemma {:induction false} SortIntoSorted(t: NodeId, s: seq<Contact>, more: seq<Contact>)
    requires Sorted(t, s)
    ensures Sorted(t, SortInto(t, s, more))
    decreases |more|
  {
    if more != [] {
      InsertSorted(t, more[0], s);
      SortIntoSorted(t, Insert(t, more[0], s), more[1..]);
    }
  }

  lemma {:induction false} InsertStable(t: NodeId, d: nat, c: Contact, s: seq<Contact>)
    ensures AtDistance(t, d, Insert(t, c, s)) == AtDistance(t, d, s + [c])
  {
    if s == [] || Dist(t, s[|s| - 1].id) <= Dist(t, c.id) {
    } else {
      var init, last := s[..|s| - 1], s[|s| - 1];
      InsertStable(t, d, c, init);
      var r := Insert(t, c, init);
      assert (r + [last])[..|r|] == r;
      assert (s + [c])[..|s|] == s && (init + [c])[..|init|] == init;
    }
  }

  lemma {:induction false} AtDistanceAppend(t: NodeId, d: nat, a: seq<Contact>, b: seq<Contact>)
    ensures AtDistance(t, d, a + b) == AtDistance(t, d, a) + AtDistance(t, d, b)
  {
    if b == [] {
      assert a + b == a;
    } else {
      AtDistanceAppend(t, d, a, b[..|b| - 1]);
      assert (a + b)[..|a + b| - 1] == a + b[..|b| - 1];
    }
  }

  lemma {:induction false} SortIntoStable(t: NodeId, d: nat, s: seq<Contact>, more: seq<Contact>)
    ensures AtDistance(t, d, SortInto(t, s, more)) == AtDistance(t, d, s + more)
    decreases |more|
  {
    if more == [] {
      assert s + more == s;
    } else {
      var c, rest := more[0], more[1..];
      calc {
        AtDistance(t, d, SortInto(t, s, more));
        AtDistance(t, d, SortInto(t, Insert(t, c, s), rest));
        { SortIntoStable(t, d, Insert(t, c, s), rest); }
        AtDistance(t, d, Insert(t, c, s) + rest);
        { InsertThenRest(t, d, c, s, rest); }
        AtDistance(t, d, s + [c] + rest);
        { assert s + [c] + rest == s + more; }
        AtDistance(t, d, s + more);
      }
    }
  }

  lemma InsertThenRest(t: NodeId, d: nat, c: Contact, s: seq<Contact>, rest: seq<Contact>)
    ensures AtDistance(t, d, Insert(t, c, s) + rest) == AtDistance(t, d, s + [c] + rest)
  {
    AtDistanceAppend(t, d, Insert(t, c, s), rest);
    InsertStable(t, d, c, s);
    AtDistanceAppend(t, d, s + [c], rest);
  }

  /** `sort_by_key` sorts, permutes, and keeps entries at equal distance in their original order. */
  lemma SortByDistanceIsStableSort(t: NodeId, s: seq<Contact>)
    ensures Sorted(t, SortByDistance(t, s))
    ensures multiset(SortByDistance(t, s)) == multiset(s)
    ensures forall d: nat :: AtDistance(t, d, SortByDistance(t, s)) == AtDistance(t, d, s)
  {
    SortIntoSorted(t, [], s);
    forall d: nat ensures AtDistance(t, d, SortByDistance(t, s)) == AtDistance(t, d, s) {
      SortIntoStable(t, d, [], s);
      assert [] + s == s;
    }
  }

  // -------- sorting, appending and truncating commute --------

  lemma {:induction false} SortIntoAppend(t: NodeId, s: seq<Contact>, a: seq<Contact>, b: seq<Contact>)
    ensures SortInto(t, s, a + b) == SortInto(t, SortInto(t, s, a), b)
    decreases |a|
  {
    if a == [] {
      assert a + b == b;
    } else {
      assert (a + b)[1..] == a[1..] + b;
      SortIntoAppend(t, Insert(t, a[0], s), a[1..], b);
    }
  }

  lemma {:induction false} SortSortedFrom(t: NodeId, s: seq<Contact>, i: nat)
    requires Sorted(t, s) && i <= |s|
    ensures SortInto(t, s[..i], s[i..]) == s
    decreases |s| - i
  {
    if i < |s| {
      assert Insert(t, s[i], s[..i]) == s[..i + 1];
      assert s[i..][1..] == s[i + 1..];
      SortSortedFrom(t, s, i + 1);
    }
  }

  lemma SortOfSorted(t: NodeId, s: seq<Contact>)
    requires Sorted(t, s)
    ensures SortByDistance(t, s) == s
  {
    SortSortedFrom(t, s, 0);
    assert s[0..] == s && s[..0] == [];
  }

  lemma {:induction false} TakeInsert(t: NodeId, k: nat, c: Contact, s: seq<Contact>)
    requires Sorted(t, s)
    ensures Take(k, Insert(t, c, s)) == Take(k, Insert(t, c, Take(k, s)))
  {
    if |s| > k {
      var init := s[..|s| - 1];
      if Dist(t, s[|s| - 1].id) > Dist(t, c.id) {
        TakeInsert(t, k, c, init);
        assert Take(k, init) == Take(k, s);
      }
    }
  }

  /** Truncating before more entries are sorted in loses nothing that the final truncation keeps. */
  lemma {:induction false} TakeSortInto(t: NodeId, k: nat, s: seq<Contact>, more: seq<Contact>)
    requires Sorted(t, s)
    ensures Take(k, SortInto(t, s, more)) == Take(k, SortInto(t, Take(k, s), more))
    decreases |more|
  {
    if more != [] {
      var c, rest := more[0], more[1..];
      InsertSorted(t, c, s);
      InsertSorted(t, c, Take(k, s));
      TakeInsert(t, k, c, s);
      TakeSortInto(t, k, Insert(t, c, s), rest);
      TakeSortInto(t, k, Insert(t, c, Take(k, s)), rest);
    } else {
      assert Take(k, s) == Take(k, Take(k, s));
    }
  }

  /** Sorting a truncated list together with new entries gives the truncation of sorting everything. */
  lemma IncrementalSort(t: NodeId, k: nat, all: seq<Contact>, more: seq<Contact>)
    ensures Take(k, SortByDistance(t, Take(k, SortByDistance(t, all)) + more)) == Take(k, SortByDistance(t, all + more))
  {
    var s := SortByDistance(t, all);
    SortByDistanceIsStableSort(t, all);
    SortIntoAppend(t, [], Take(k, s), more);
    SortOfSorted(t, Take(k, s));
    TakeSortInto(t, k, s, more);
    SortIntoAppend(t, [], all, more);
  }
}
