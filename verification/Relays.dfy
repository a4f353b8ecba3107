/** Relay preference order (relayAddrs in internal/daemon/daemon.go). */
module Relays {
  import opened TunnelConfig

  predicate Ascending(s: seq<Relay>)
  {
    forall i, j | 0 <= i < j < |s| :: s[i].priority <= s[j].priority
  }

  function One(x: Relay, p: int): (r: seq<Relay>) { if x.priority == p then [x] else [] }

  /** The relays of one priority, in order. */
  function OfPriority(s: seq<Relay>, p: int): (r: seq<Relay>)
  {
    if s == [] then []
    else One(s[0], p) + OfPriority(s[1..], p)
  }

  /** `b` holds the relays of `a`, those of equal priority in the same order. */
  ghost predicate StableOf(b: seq<Relay>, a: seq<Relay>)
  {
    forall p: int :: OfPriority(b, p) == OfPriority(a, p)
  }

  lemma {:induction false} OfPriorityConcat(a: seq<Relay>, b: seq<Relay>, p: int)
    ensures OfPriority(a + b, p) == OfPriority(a, p) + OfPriority(b, p)
  {
    if a == [] {
      assert a + b == b;
    } else {
      assert (a + b)[0] == a[0] && (a + b)[1..] == a[1..] + b;
      OfPriorityConcat(a[1..], b, p);
      assert OfPriority(a + b, p) == One(a[0], p) + (OfPriority(a[1..], p) + OfPriority(b, p));
    }
  }

  function Swapped(s: seq<Relay>, j: nat): (r: seq<Relay>)
    requires 0 < j < |s|
  {
    s[j - 1 := s[j]][j := s[j - 1]]
  }

  lemma SwapShape(s: seq<Relay>, j: nat)
    requires 0 < j < |s|
    ensures s == s[..j - 1] + [s[j - 1], s[j]] + s[j + 1..]
    ensures Swapped(s, j) == s[..j - 1] + [s[j], s[j - 1]] + s[j + 1..]
  {
  }

  lemma {:induction false} SwapKeepsOrder(s: seq<Relay>, j: nat, p: int)
    requires 0 < j < |s| && s[j].priority != s[j - 1].priority
    ensures OfPriority(Swapped(s, j), p) == OfPriority(s, p)
  {
    var front, x, y, back := s[..j - 1], s[j - 1], s[j], s[j + 1..];
    SwapShape(s, j);
    PairFilter(front, x, y, back, p);
    PairFilter(front, y, x, back, p);
    OneClass(x, y, p);
  }

  lemma OneClass(x: Relay, y: Relay, p: int)
    requires x.priority != y.priority
    ensures One(x, p) + One(y, p) == One(y, p) + One(x, p)
  {
  }

  lemma {:induction false} PairFilter(front: seq<Relay>, x: Relay, y: Relay, back: seq<Relay>, p: int)
    ensures OfPriority(front + [x, y] + back, p) == OfPriority(front, p) + (One(x, p) + One(y, p)) + OfPriority(back, p)
  {
    OfPriorityConcat(front + [x, y], back, p);
    OfPriorityConcat(front, [x, y], p);
    assert OfPriority([x, y], p) == One(x, p) + One(y, p) by {
      assert [x, y] == [x] + [y];
      OfPriorityConcat([x], [y], p);
    }
  }

  /** Agreement on every priority class makes two lists permutations. */
  lemma {:induction false} StableIsPermutation(b: seq<Relay>, a: seq<Relay>)
    requires StableOf(b, a)
    ensures multiset(b) == multiset(a)
  {
    forall r: Relay ensures multiset(b)[r] == multiset(a)[r] {
      CountInClass(b, r);
      CountInClass(a, r);
      assert OfPriority(b, r.priority) == OfPriority(a, r.priority);
    }
  }

  lemma {:induction false} CountInClass(s: seq<Relay>, r: Relay)
    ensures multiset(s)[r] == multiset(OfPriority(s, r.priority))[r]
  {
    if s != [] {
      CountInClass(s[1..], r);
      assert s == [s[0]] + s[1..];
      assert multiset(One(s[0], r.priority))[r] == if s[0] == r then 1 else 0;
      assert multiset(OfPriority(s, r.priority)) ==
             multiset(One(s[0], r.priority)) + multiset(OfPriority(s[1..], r.priority));
    }
  }

  /** Sorted up to `i`, except that the element at `j` is still sinking. */
  predicate Sinking(s: seq<Relay>, j: nat, i: nat)
    requires j <= i < |s|
  {
    && (forall a, b | 0 <= a < b <= i && a != j && b != j :: s[a].priority <= s[b].priority)
    && (forall b | j < b <= i :: s[j].priority < s[b].priority)
  }

  lemma SinkOne(s: seq<Relay>, j: nat, i: nat)
    requires 0 < j <= i < |s| && Sinking(s, j, i) && s[j].priority < s[j - 1].priority
    ensures Sinking(Swapped(s, j), j - 1, i)
  {
  }

  lemma SinkDone(s: seq<Relay>, j: nat, i: nat)
    requires j <= i < |s| && Sinking(s, j, i) && (j > 0 ==> s[j - 1].priority <= s[j].priority)
    ensures Ascending(s[..i + 1])
  {
  }

  /** The in-place insertion sort, on a copy: ascending priority, stable, and hence
      a permutation; the argument is a value and stays as it was. */
  method Sort(relays: seq<Relay>) returns (sorted: seq<Relay>)
    ensures Ascending(sorted) && StableOf(sorted, relays) && multiset(sorted) == multiset(relays)
    ensures |sorted| == |relays|
  {
    var a := new Relay[|relays|](k requires 0 <= k < |relays| => relays[k]);
    assert a[..] == relays;
    var i := 1;
    while i < a.Length
      invariant i >= 1 && (i <= a.Length ==> Ascending(a[..i])) && StableOf(a[..], relays)
      invariant i > a.Length ==> a.Length == 0
    {
      Sink(a, i, relays);
      i := i + 1;
    }
    sorted := a[..];
    assert a.Length > 0 ==> a[..i] == sorted;
    StableIsPermutation(sorted, relays);
  }

  /** The inner loop: the element at `i` sinks to its place. */
  method Sink(a: array<Relay>, i: nat, ghost relays: seq<Relay>)
    requires 0 < i < a.Length && Ascending(a[..i]) && StableOf(a[..], relays)
    modifies a
    ensures Ascending(a[..i + 1]) && StableOf(a[..], relays)
  {
    var j := i;
    while j > 0 && a[j].priority < a[j - 1].priority
      invariant 0 <= j <= i && Sinking(a[..], j, i) && StableOf(a[..], relays)
    {
      ghost var s := a[..];
      SinkStep(s, j, i, relays);
      a[j], a[j - 1] := a[j - 1], a[j];
      assert a[..] == Swapped(s, j);
      j := j - 1;
    }
    SinkDone(a[..], j, i);
    assert a[..i + 1] == a[..][..i + 1];
  }

  lemma {:induction false} SinkStep(s: seq<Relay>, j: nat, i: nat, relays: seq<Relay>)
    requires 0 < j <= i < |s| && Sinking(s, j, i) && s[j].priority < s[j - 1].priority && StableOf(s, relays)
    ensures Sinking(Swapped(s, j), j - 1, i) && StableOf(Swapped(s, j), relays)
  {
    SinkOne(s, j, i);
    forall p: int ensures OfPriority(Swapped(s, j), p) == OfPriority(relays, p) {
      SwapKeepsOrder(s, j, p);
      assert OfPriority(s, p) == OfPriority(relays, p);
    }
  }

  method RelayAddrs(relays: seq<Relay>) returns (addrs: seq<string>)
    ensures |addrs| == |relays|
    ensures exists sorted: seq<Relay> ::
              && Ascending(sorted) && StableOf(sorted, relays) && |sorted| == |addrs|
              && forall i | 0 <= i < |addrs| :: addrs[i] == sorted[i].addr
  {
    var sorted := Sort(relays);
    addrs := [];
    for i := 0 to |sorted|
      invariant |addrs| == i && forall k | 0 <= k < i :: addrs[k] == sorted[k].addr
    {
      addrs := addrs + [sorted[i].addr];
    }
  }
}
