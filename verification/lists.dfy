/** Sequence helpers shared by the list editors of the client. */
module Lists {

  /** `xs.filter((_, j) => j !== i)`: keep every element whose position is not `i`. */
  function DropIndex<T>(xs: seq<T>, i: int): (r: seq<T>)
    ensures |r| == if 0 <= i < |xs| then |xs| - 1 else |xs|
    decreases |xs|
  {
    if xs == [] then []
    else if i == 0 then DropIndex(xs[1..], i - 1)
    else [xs[0]] + DropIndex(xs[1..], i - 1)
  }

  /** Dropping position `i` removes exactly that element and keeps the rest in order;
      an index outside the list changes nothing. */
  lemma {:induction false} DropIndexSplices<T>(xs: seq<T>, i: int)
    ensures 0 <= i < |xs| ==> DropIndex(xs, i) == xs[..i] + xs[i + 1..]
    ensures !(0 <= i < |xs|) ==> DropIndex(xs, i) == xs
    decreases |xs|
  {
    if xs != [] {
      DropIndexSplices(xs[1..], i - 1);
      if i == 0 {
        assert xs[1..] == xs[..0] + xs[1..];
      } else if 0 < i < |xs| {
        MiddleSplice(xs, i);
      } else {
        assert xs == [xs[0]] + xs[1..];
      }
    }
  }

  /** Splicing out position `i > 0` is splicing out `i - 1` of the tail behind the head. */
  lemma MiddleSplice<T>(xs: seq<T>, i: int)
    requires 0 < i < |xs|
    ensures xs[..i] + xs[i + 1..] == [xs[0]] + (xs[1..][..i - 1] + xs[1..][i..])
  {
    assert xs[..i] == [xs[0]] + xs[1..][..i - 1];
    assert xs[i + 1..] == xs[1..][i..];
  }

  /** Every element of the result was in the input. */
  lemma DropIndexSubset<T>(xs: seq<T>, i: int)
    ensures forall k :: 0 <= k < |DropIndex(xs, i)| ==> DropIndex(xs, i)[k] in xs
  {
    DropIndexSplices(xs, i);
    if 0 <= i < |xs| {
      forall k | 0 <= k < |DropIndex(xs, i)| ensures DropIndex(xs, i)[k] in xs {
        if k < i { assert DropIndex(xs, i)[k] == xs[k]; }
        else { assert DropIndex(xs, i)[k] == xs[k + 1]; }
      }
    }
  }

  /** Pairwise-distinct elements. */
  predicate Distinct<T(==)>(xs: seq<T>) {
    forall a, b :: 0 <= a < b < |xs| ==> xs[a] != xs[b]
  }
}
