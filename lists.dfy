/** Small list helpers the fetchers share: first occurrence, subsequences
    and the order-preserving de-duplication `list(dict.fromkeys(xs))`. */
module Lists {

  /** The position of the first occurrence of `x` in `xs`. */
  function IndexOf<T(==)>(xs: seq<T>, x: T): (i: nat)
    requires x in xs
    ensures i < |xs| && xs[i] == x && x !in xs[..i]
  {
    if xs[0] == x then 0
    else
      var j := IndexOf(xs[1..], x);
      assert xs[..j + 1] == [xs[0]] + xs[1..][..j];
      j + 1
  }

  predicate Distinct<T(==)>(xs: seq<T>) {
    forall i, j :: 0 <= i < j < |xs| ==> xs[i] != xs[j]
  }

  /** An element of a prefix has its first occurrence inside that prefix. */
  lemma IndexOfPrefix<T>(xs: seq<T>, n: nat, x: T)
    requires n <= |xs| && x in xs[..n]
    ensures IndexOf(xs, x) == IndexOf(xs[..n], x)
  {
    var i := IndexOf(xs, x);
    var k := IndexOf(xs[..n], x);
    assert xs[..n][..k] == xs[..k];
    assert forall j :: 0 <= j < k ==> xs[j] == xs[..k][j];
    assert forall j :: 0 <= j < i ==> xs[j] == xs[..i][j];
  }

  /** `a` is `b` with some elements left out and the others in their order. */
  predicate IsSubsequence<T(==)>(a: seq<T>, b: seq<T>)
    decreases |b|
  {
    if a == [] then true
    else if b == [] then false
    else (a[0] == b[0] && IsSubsequence(a[1..], b[1..])) || IsSubsequence(a, b[1..])
  }

  /** `list(dict.fromkeys(xs))`: every element once, ordered by where it
      first occurs. */
  function Dedupe<T(==, !new)>(xs: seq<T>): (r: seq<T>)
    ensures Distinct(r)
    ensures forall x :: x in r <==> x in xs
    ensures forall i, j :: 0 <= i < j < |r| ==> IndexOf(xs, r[i]) < IndexOf(xs, r[j])
    decreases |xs|
  {
    if xs == [] then []
    else
      var init := xs[..|xs| - 1];
      var last := xs[|xs| - 1];
      var d := Dedupe(init);
      assert xs == init + [last];
      assert forall y :: y in init ==> IndexOf(xs, y) == IndexOf(init, y) by {
        forall y | y in init {
          IndexOfPrefix(xs, |xs| - 1, y);
        }
      }
      if last in init then d
      else
        assert IndexOf(xs, last) == |xs| - 1;
        d + [last]
  }

  /** A list with no repeats is its own de-duplication. */
  lemma {:induction false} DedupeDistinct<T(!new)>(xs: seq<T>)
    requires Distinct(xs)
    ensures Dedupe(xs) == xs
    decreases |xs|
  {
    if xs != [] {
      var init := xs[..|xs| - 1];
      DedupeDistinct(init);
      assert xs == init + [xs[|xs| - 1]];
      assert xs[|xs| - 1] !in init;
    }
  }
}
