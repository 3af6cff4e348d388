/** Sequence vocabulary shared by the other modules: concatenation of batches,
    counting, weighing and element removal. */
module Sequences {

  datatype Option<+T> = None | Some(value: T)

  function Flatten<T>(xs: seq<seq<T>>): seq<T> {
    if xs == [] then [] else xs[0] + Flatten(xs[1..])
  }

  lemma {:induction false} FlattenAppend<T>(xs: seq<seq<T>>, last: seq<T>)
    ensures Flatten(xs + [last]) == Flatten(xs) + last
  {
    if xs == [] {
      assert xs + [last] == [last];
    } else {
      assert (xs + [last])[1..] == xs[1..] + [last];
      FlattenAppend(xs[1..], last);
    }
  }

  ghost predicate NoDuplicates<T>(xs: seq<T>) {
    forall i, j :: 0 <= i < j < |xs| ==> xs[i] != xs[j]
  }

  /** How many elements satisfy `p`. */
  function Count<T>(xs: seq<T>, p: T -> bool): (n: nat)
    ensures n <= |xs|
  {
    if xs == [] then 0 else (if p(xs[0]) then 1 else 0) + Count(xs[1..], p)
  }

  lemma {:induction false} CountUpdate<T>(xs: seq<T>, i: nat, x: T, p: T -> bool)
    requires i < |xs|
    ensures Count(xs[i := x], p) + (if p(xs[i]) then 1 else 0) == Count(xs, p) + (if p(x) then 1 else 0)
  {
    if i == 0 {
      assert xs[i := x][1..] == xs[1..];
    } else {
      assert xs[i := x][1..] == xs[1..][i - 1 := x];
      CountUpdate(xs[1..], i - 1, x, p);
    }
  }

  lemma {:induction false} CountAppend<T>(xs: seq<T>, x: T, p: T -> bool)
    ensures Count(xs + [x], p) == Count(xs, p) + (if p(x) then 1 else 0)
  {
    if xs == [] {
      assert xs + [x] == [x];
    } else {
      assert (xs + [x])[1..] == xs[1..] + [x];
      CountAppend(xs[1..], x, p);
    }
  }

  lemma {:induction false} CountZero<T>(xs: seq<T>, p: T -> bool)
    ensures Count(xs, p) == 0 <==> forall i :: 0 <= i < |xs| ==> !p(xs[i])
  {
    if xs != [] {
      CountZero(xs[1..], p);
      assert forall i :: 0 < i < |xs| ==> xs[i] == xs[1..][i - 1];
      assert (forall i :: 0 <= i < |xs[1..]| ==> !p(xs[1..][i])) ==> forall i :: 0 < i < |xs| ==> !p(xs[i]);
      assert (forall i :: 0 <= i < |xs| ==> !p(xs[i])) ==> forall i :: 0 <= i < |xs[1..]| ==> !p(xs[1..][i]);
    }
  }

  lemma {:induction false} CountFull<T>(xs: seq<T>, p: T -> bool, i: nat)
    requires i < |xs| && !p(xs[i])
    ensures Count(xs, p) < |xs|
  {
    if i > 0 {
      CountFull(xs[1..], p, i - 1);
    }
  }

  lemma {:induction false} CountMonotone<T>(xs: seq<T>, p: T -> bool, q: T -> bool)
    requires forall i :: 0 <= i < |xs| && p(xs[i]) ==> q(xs[i])
    ensures Count(xs, p) <= Count(xs, q)
  {
    if xs != [] {
      assert forall i :: 0 <= i < |xs[1..]| ==> xs[1..][i] == xs[i + 1];
      CountMonotone(xs[1..], p, q);
    }
  }

  /** The total weight of a sequence. */
  function Weigh<T>(xs: seq<T>, w: T -> nat): nat {
    if xs == [] then 0 else w(xs[0]) + Weigh(xs[1..], w)
  }

  lemma {:induction false} WeighUpdate<T>(xs: seq<T>, i: nat, x: T, w: T -> nat)
    requires i < |xs|
    ensures Weigh(xs[i := x], w) + w(xs[i]) == Weigh(xs, w) + w(x)
  {
    if i == 0 {
      assert xs[i := x][1..] == xs[1..];
    } else {
      assert xs[i := x][1..] == xs[1..][i - 1 := x];
      WeighUpdate(xs[1..], i - 1, x, w);
    }
  }

  /** `xs` with every occurrence of `x` taken out, in order. */
  function Without<T(==, !new)>(xs: seq<T>, x: T): (r: seq<T>)
    ensures |r| <= |xs| && (|r| == |xs| <==> x !in xs) && (|r| == |xs| ==> r == xs)
    ensures forall y :: y in r <==> y in xs && y != x
  {
    if xs == [] then [] else
      var rest := Without(xs[1..], x);
      assert forall y :: y in xs <==> y == xs[0] || y in xs[1..];
      if xs[0] == x then rest else [xs[0]] + rest
  }

  /** Everything else is kept as often as it was. */
  lemma {:induction false} WithoutIs<T(!new)>(xs: seq<T>, x: T)
    ensures forall y: T :: multiset(Without(xs, x))[y] == if y == x then 0 else multiset(xs)[y]
  {
    if xs != [] {
      WithoutIs(xs[1..], x);
      assert xs == [xs[0]] + xs[1..];
    }
  }

  lemma {:induction false} WithoutAppend<T(!new)>(xs: seq<T>, y: T, x: T)
    ensures Without(xs + [y], x) == Without(xs, x) + (if y == x then [] else [y])
  {
    if xs == [] {
      assert xs + [y] == [y];
    } else {
      assert (xs + [y])[1..] == xs[1..] + [y];
      WithoutAppend(xs[1..], y, x);
    }
  }

  /** `xs` lists the numbers below `n`, each once, in some order. */
  ghost predicate Enumerates(xs: seq<nat>, n: nat) {
    && NoDuplicates(xs)
    && (forall i :: 0 <= i < |xs| ==> xs[i] < n)
    && (forall i :: 0 <= i < n ==> i in xs)
  }

  /** Taking out the largest number leaves an enumeration of the others. */
  lemma DropLargest(xs: seq<nat>, n: nat) returns (k: nat)
    requires Enumerates(xs, n) && n > 0
    ensures k < |xs| && xs[k] == n - 1
    ensures Enumerates(xs[..k] + xs[k + 1..], n - 1)
  {
    assert n - 1 in xs;
    k :| 0 <= k < |xs| && xs[k] == n - 1;
    var rest := xs[..k] + xs[k + 1..];
    assert forall j :: 0 <= j < |rest| ==> rest[j] == if j < k then xs[j] else xs[j + 1];
    forall i | 0 <= i < n - 1
      ensures i in rest
    {
      assert i in xs;
      var j :| 0 <= j < |xs| && xs[j] == i;
      assert rest[if j < k then j else j - 1] == i;
    }
  }

  lemma {:induction false} EnumerationLength(xs: seq<nat>, n: nat)
    requires Enumerates(xs, n)
    ensures |xs| == n
  {
    assert xs != [] ==> xs[0] < n;
    if n > 0 {
      var k := DropLargest(xs, n);
      EnumerationLength(xs[..k] + xs[k + 1..], n - 1);
    }
  }
}
