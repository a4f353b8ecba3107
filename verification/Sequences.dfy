/** Facts about sequences shared by the protocol models: flattening a list of
    chunks, weighing a list, and the order-preserving subsequence relation. */
module Sequences {

  function Flatten<T>(chunks: seq<seq<T>>): (r: seq<T>)
  {
    if chunks == [] then [] else chunks[0] + Flatten(chunks[1..])
  }

  lemma Assoc<T>(a: seq<T>, b: seq<T>, c: seq<T>)
    ensures a + (b + c) == (a + b) + c
  {
  }

  lemma SplitConcat<T>(a: seq<T>, b: seq<T>)
    ensures (a + b)[..|a|] == a && (a + b)[|a|..] == b
  {
  }

  lemma {:induction false} FlattenConcat<T>(a: seq<seq<T>>, b: seq<seq<T>>)
    ensures Flatten(a + b) == Flatten(a) + Flatten(b)
  {
    if a == [] {
      assert a + b == b;
    } else {
      assert (a + b)[0] == a[0] && (a + b)[1..] == a[1..] + b;
      FlattenConcat(a[1..], b);
      Assoc(a[0], Flatten(a[1..]), Flatten(b));
    }
  }

  lemma {:induction false} FlattenSnoc<T>(a: seq<seq<T>>, x: seq<T>)
    ensures Flatten(a + [x]) == Flatten(a) + x
  {
    FlattenConcat(a, [x]);
    assert Flatten([x]) == x + [];
  }

  function Sum<T>(xs: seq<T>, weight: T -> nat): (r: nat)
  {
    if xs == [] then 0 else weight(xs[0]) + Sum(xs[1..], weight)
  }

  lemma {:induction false} SumConcat<T>(a: seq<T>, b: seq<T>, weight: T -> nat)
    ensures Sum(a + b, weight) == Sum(a, weight) + Sum(b, weight)
  {
    if a == [] {
      assert a + b == b;
    } else {
      SumConcat(a[1..], b, weight);
      assert (a + b)[1..] == a[1..] + b;
    }
  }

  lemma {:induction false} SumSnoc<T>(a: seq<T>, x: T, weight: T -> nat)
    ensures Sum(a + [x], weight) == Sum(a, weight) + weight(x)
  {
    SumConcat(a, [x], weight);
  }

  function Without<T>(xs: seq<T>, i: nat): (r: seq<T>)
    requires i < |xs|
  {
    xs[..i] + xs[i + 1..]
  }

  function Insert<T>(xs: seq<T>, at: nat, x: T): (r: seq<T>)
    requires at <= |xs|
  {
    xs[..at] + [x] + xs[at..]
  }

  lemma {:induction false} SumInsert<T>(xs: seq<T>, at: nat, x: T, weight: T -> nat)
    requires at <= |xs|
    ensures Sum(Insert(xs, at, x), weight) == Sum(xs, weight) + weight(x)
  {
    assert xs == xs[..at] + xs[at..];
    SumConcat(xs[..at], xs[at..], weight);
    SumConcat(xs[..at] + [x], xs[at..], weight);
    SumSnoc(xs[..at], x, weight);
  }

  lemma {:induction false} SumWithout<T>(xs: seq<T>, i: nat, weight: T -> nat)
    requires i < |xs|
    ensures Sum(xs, weight) == Sum(Without(xs, i), weight) + weight(xs[i])
  {
    SumConcat(xs[..i], xs[i..], weight);
    SumConcat(xs[..i], xs[i + 1..], weight);
    assert xs == xs[..i] + xs[i..];
    assert xs[i..][1..] == xs[i + 1..];
  }

  /** `at` places every element of `a` in `b`, in order and at distinct places. */
  predicate Places<T(==)>(at: seq<nat>, a: seq<T>, b: seq<T>)
  {
    && |at| == |a|
    && (forall i | 0 <= i < |at| :: at[i] < |b| && a[i] == b[at[i]])
    && (forall i, j | 0 <= i < j < |at| :: at[i] < at[j])
  }

  /** `a` embeds into `b` in order, every element of `b` used at most once. */
  ghost predicate Subseq<T>(a: seq<T>, b: seq<T>)
  {
    exists at: seq<nat> :: Places(at, a, b)
  }

  lemma {:induction false} PrefixIsSubseq<T>(a: seq<T>, b: seq<T>)
    requires a <= b
    ensures Subseq(a, b)
  {
    assert Places(seq(|a|, i requires 0 <= i < |a| => i), a, b);
  }

  lemma {:induction false} SubseqSnoc<T>(a: seq<T>, b: seq<T>, x: T)
    requires Subseq(a, b)
    ensures Subseq(a + [x], b + [x])
    ensures Subseq(a, b + [x])
  {
    var at: seq<nat> :| Places(at, a, b);
    assert Places(at, a, b + [x]);
    assert Places(at + [|b|], a + [x], b + [x]);
  }

  lemma {:induction false} SubseqTrans<T>(a: seq<T>, b: seq<T>, c: seq<T>)
    requires Subseq(a, b) && Subseq(b, c)
    ensures Subseq(a, c)
  {
    var f: seq<nat> :| Places(f, a, b);
    var g: seq<nat> :| Places(g, b, c);
    assert Places(seq(|a|, i requires 0 <= i < |a| => g[f[i]]), a, c);
  }

  lemma {:induction false} SubseqWithout<T>(a: seq<T>, i: nat)
    requires i < |a|
    ensures Subseq(Without(a, i), a)
  {
    assert Places(seq(|a| - 1, k => if k < i then k else k + 1), Without(a, i), a);
  }
}
