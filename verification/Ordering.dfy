/** Duplicate-free ascending lists: what deduplicating and sorting produce. */
module Ordering {
  import opened Bytes

  ghost predicate StrictTotal<T(!new)>(less: (T, T) -> bool)
  {
    && (forall x :: !less(x, x))
    && (forall x, y, z :: less(x, y) && less(y, z) ==> less(x, z))
    && (forall x, y :: x == y || less(x, y) || less(y, x))
  }

  predicate Ascending<T>(xs: seq<T>, less: (T, T) -> bool)
  {
    forall i, j | 0 <= i < j < |xs| :: less(xs[i], xs[j])
  }

  function Elements<T>(xs: seq<T>): (r: set<T>) { set x | x in xs }

  lemma {:induction false} NoElements<T>(xs: seq<T>)
    ensures Elements(xs) == {} <==> xs == []
  {
    if xs != [] { assert xs[0] in Elements(xs); }
  }

  function Insert<T(==)>(xs: seq<T>, x: T, less: (T, T) -> bool): (r: seq<T>)
  {
    if xs == [] then [x]
    else if xs[0] == x then xs
    else if less(x, xs[0]) then [x] + xs
    else [xs[0]] + Insert(xs[1..], x, less)
  }

  /** The ascending list of the distinct values of `xs`. */
  function Listing<T(==)>(xs: seq<T>, less: (T, T) -> bool): (r: seq<T>)
  {
    if xs == [] then [] else Insert(Listing(xs[..|xs| - 1], less), xs[|xs| - 1], less)
  }

  /** A new least element in front. */
  lemma {:induction false} FrontSorts<T(!new)>(x: T, xs: seq<T>, less: (T, T) -> bool)
    requires Ascending(xs, less) && forall y | y in Elements(xs) :: less(x, y)
    ensures Ascending([x] + xs, less) && Elements([x] + xs) == Elements(xs) + {x}
  {
    assert forall j | 0 <= j < |xs| :: xs[j] in Elements(xs);
  }

  lemma {:induction false} LessThanAll<T(!new)>(x: T, xs: seq<T>, less: (T, T) -> bool)
    requires StrictTotal(less) && Ascending(xs, less) && xs != [] && less(x, xs[0])
    ensures forall y | y in Elements(xs) :: less(x, y)
  {
    forall y | y in Elements(xs) ensures less(x, y) {
      var j :| 0 <= j < |xs| && xs[j] == y;
      assert j > 0 ==> less(xs[0], xs[j]);
    }
  }

  /** The head of an ascending list lies below its tail. */
  lemma {:induction false} HeadIsLeast<T(!new)>(xs: seq<T>, less: (T, T) -> bool)
    requires Ascending(xs, less) && xs != []
    ensures Ascending(xs[1..], less) && Elements(xs) == Elements(xs[1..]) + {xs[0]}
    ensures forall y | y in Elements(xs[1..]) :: less(xs[0], y)
  {
    assert xs == [xs[0]] + xs[1..];
    forall y | y in Elements(xs[1..]) ensures less(xs[0], y) {
      var j :| 0 <= j < |xs[1..]| && xs[1..][j] == y;
      assert xs[j + 1] == y;
    }
  }

  lemma {:induction false} InsertSorts<T(!new)>(xs: seq<T>, x: T, less: (T, T) -> bool)
    requires StrictTotal(less) && Ascending(xs, less)
    ensures Ascending(Insert(xs, x, less), less)
    ensures Elements(Insert(xs, x, less)) == Elements(xs) + {x}
  {
    if xs == [] || xs[0] == x {
      assert xs != [] ==> x in Elements(xs);
    } else if less(x, xs[0]) {
      LessThanAll(x, xs, less);
      FrontSorts(x, xs, less);
    } else {
      HeadIsLeast(xs, less);
      InsertSorts(xs[1..], x, less);
      FrontSorts(xs[0], Insert(xs[1..], x, less), less);
    }
  }

  lemma {:induction false} ListingSorts<T(!new)>(xs: seq<T>, less: (T, T) -> bool)
    requires StrictTotal(less)
    ensures Ascending(Listing(xs, less), less)
    ensures Elements(Listing(xs, less)) == Elements(xs)
    decreases |xs|
  {
    if xs != [] {
      var init, last := xs[..|xs| - 1], xs[|xs| - 1];
      ListingSorts(init, less);
      InsertSorts(Listing(init, less), last, less);
      assert xs == init + [last];
    }
  }

  /** An ascending list is determined by its elements. */
  lemma {:induction false} AscendingUnique<T(!new)>(a: seq<T>, b: seq<T>, less: (T, T) -> bool)
    requires StrictTotal(less) && Ascending(a, less) && Ascending(b, less) && Elements(a) == Elements(b)
    ensures a == b
    decreases |a|
  {
    if a == [] {
      assert forall i | 0 <= i < |b| :: b[i] in Elements(b);
    } else {
      assert a[0] in Elements(a);
      assert b != [];
      SameHead(a, b, less);
      var s, t := a[1..], b[1..];
      forall x ensures x in Elements(s) <==> x in Elements(t) {
        TailElements(a, x, less);
        TailElements(b, x, less);
      }
      AscendingUnique(s, t, less);
      assert a == [a[0]] + s && b == [b[0]] + t;
    }
  }

  lemma {:induction false} SameHead<T(!new)>(a: seq<T>, b: seq<T>, less: (T, T) -> bool)
    requires StrictTotal(less) && Ascending(a, less) && Ascending(b, less) && Elements(a) == Elements(b)
    requires a != [] && b != []
    ensures a[0] == b[0]
  {
    assert a[0] in Elements(b) && b[0] in Elements(a);
    var i :| 0 <= i < |b| && b[i] == a[0];
    var j :| 0 <= j < |a| && a[j] == b[0];
  }

  lemma {:induction false} TailElements<T(!new)>(a: seq<T>, x: T, less: (T, T) -> bool)
    requires StrictTotal(less) && Ascending(a, less) && a != []
    ensures x in Elements(a[1..]) <==> x in Elements(a) && x != a[0]
  {
  }

  lemma {:induction false} ListingDetermined<T(!new)>(a: seq<T>, b: seq<T>, less: (T, T) -> bool)
    requires StrictTotal(less) && Elements(a) == Elements(b)
    ensures Listing(a, less) == Listing(b, less)
  {
    ListingSorts(a, less);
    ListingSorts(b, less);
    AscendingUnique(Listing(a, less), Listing(b, less), less);
  }

  /** Listing what is already listed changes nothing. */
  lemma {:induction false} ListingIdempotent<T(!new)>(xs: seq<T>, less: (T, T) -> bool)
    requires StrictTotal(less)
    ensures Listing(Listing(xs, less), less) == Listing(xs, less)
  {
    ListingSorts(xs, less);
    ListingSorts(Listing(xs, less), less);
    AscendingUnique(Listing(Listing(xs, less), less), Listing(xs, less), less);
  }

  lemma {:induction false} ListingShorter<T(!new)>(xs: seq<T>, less: (T, T) -> bool)
    ensures |Listing(xs, less)| <= |xs|
    decreases |xs|
  {
    if xs != [] {
      ListingShorter(xs[..|xs| - 1], less);
      InsertLength(Listing(xs[..|xs| - 1], less), xs[|xs| - 1], less);
    }
  }

  lemma {:induction false} InsertLength<T>(xs: seq<T>, x: T, less: (T, T) -> bool)
    ensures |Insert(xs, x, less)| <= |xs| + 1
  {
    if xs != [] { InsertLength(xs[1..], x, less); }
  }

  // ------------------------------------------------- the two orders in use

  predicate Below(a: nat, b: nat) { a < b }

  /** The byte order of sort.Strings. */
  predicate LexBelow(a: seq<byte>, b: seq<byte>)
  {
    b != [] && (a == [] || a[0] < b[0] || (a[0] == b[0] && LexBelow(a[1..], b[1..])))
  }

  /** Byte by byte from the front: the first difference decides, and a text comes before
      its extensions. */
  lemma {:induction false} LexExact(a: seq<byte>, b: seq<byte>)
    ensures LexBelow(a, b) <==>
              exists k :: 0 <= k <= |a| && k < |b| && a[..k] == b[..k] && (k == |a| || a[k] < b[k])
  {
    if a == [] {
      assert b != [] ==> a[..0] == b[..0];
    } else if b != [] && a[0] < b[0] {
      assert a[..0] == b[..0];
    } else if b != [] && a[0] == b[0] {
      LexExact(a[1..], b[1..]);
      if LexBelow(a, b) {
        var k :| 0 <= k <= |a[1..]| && k < |b[1..]| && a[1..][..k] == b[1..][..k] &&
                 (k == |a[1..]| || a[1..][k] < b[1..][k]);
        assert a[..k + 1] == [a[0]] + a[1..][..k] && b[..k + 1] == [b[0]] + b[1..][..k];
      }
      forall k | 0 < k <= |a| && k < |b| && a[..k] == b[..k] && (k == |a| || a[k] < b[k]) ensures LexBelow(a, b) {
        assert a[1..][..k - 1] == a[..k][1..] && b[1..][..k - 1] == b[..k][1..];
      }
    } else if b != [] {
      forall k | 0 < k <= |a| && k < |b| ensures a[..k] != b[..k] {
        assert a[..k][0] != b[..k][0];
      }
    }
  }

  lemma BelowIsTotal()
    ensures StrictTotal<nat>(Below)
  {
  }

  lemma {:induction false} LexIrreflexive(a: seq<byte>)
    ensures !LexBelow(a, a)
  {
    if a != [] { LexIrreflexive(a[1..]); }
  }

  lemma {:induction false} LexTransitive(a: seq<byte>, b: seq<byte>, c: seq<byte>)
    requires LexBelow(a, b) && LexBelow(b, c)
    ensures LexBelow(a, c)
  {
    if a != [] && a[0] == b[0] == c[0] { LexTransitive(a[1..], b[1..], c[1..]); }
  }

  lemma {:induction false} LexConnected(a: seq<byte>, b: seq<byte>)
    ensures a == b || LexBelow(a, b) || LexBelow(b, a)
  {
    if a != [] && b != [] && a[0] == b[0] {
      LexConnected(a[1..], b[1..]);
      assert a == [a[0]] + a[1..] && b == [b[0]] + b[1..];
    }
  }

  lemma {:induction false} LexIsTotal()
    ensures StrictTotal<seq<byte>>(LexBelow)
  {
    forall a ensures !LexBelow(a, a) { LexIrreflexive(a); }
    forall a, b, c | LexBelow(a, b) && LexBelow(b, c) ensures LexBelow(a, c) { LexTransitive(a, b, c); }
    forall a, b ensures a == b || LexBelow(a, b) || LexBelow(b, a) { LexConnected(a, b); }
  }
}
