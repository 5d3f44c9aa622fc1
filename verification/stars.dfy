/**
 * The two five-star rows of the client: whole stars for a review's integer `scope`
 * (src/features/map/components/ReviewCard.tsx, ReviewWriteModal.tsx), and full,
 * half and empty stars for a store's average rating
 * (src/features/map/components/StoreDetail.jsx, StoreInfo.tsx).
 *
 * An average rating is a JavaScript number; it is modelled as a `real` (NaN and
 * the infinities are not modelled).
 */
module Stars {
  const StarCount: nat := 5

  datatype Star = Full | Half | Empty

  /** `index < scope`: whether the star at `index` is drawn filled. */
  predicate ScopeFilled(index: int, scope: int) {
    index < scope
  }

  /** The filled flags of the five scope stars, left to right. */
  function ScopeRow(scope: int): (row: seq<bool>)
    ensures |row| == StarCount
    ensures forall i :: 0 <= i < StarCount ==> row[i] == ScopeFilled(i, scope)
  {
    seq(StarCount, i => ScopeFilled(i, scope))
  }

  function CountTrue(xs: seq<bool>): nat {
    if xs == [] then 0 else (if xs[0] then 1 else 0) + CountTrue(xs[1..])
  }

  function Clamp(x: int, lo: int, hi: int): int
    requires lo <= hi
  {
    if x < lo then lo else if x > hi then hi else x
  }

  /** The first `k` of `n` flags set: exactly `k` of them (clamped to 0..n) count. */
  lemma {:induction false} CountPrefixFlags(n: nat, k: int, from: int)
    ensures CountTrue(seq(n, i => from + i < k)) == Clamp(k - from, 0, n)
  {
    if n > 0 {
      var xs := seq(n, i => from + i < k);
      assert xs[1..] == seq(n - 1, i => (from + 1) + i < k);
      CountPrefixFlags(n - 1, k, from + 1);
    }
  }

  /** A scope row shows exactly `scope` filled stars (clamped to 0..5), all on the left. */
  lemma ScopeRowCount(scope: int)
    ensures CountTrue(ScopeRow(scope)) == Clamp(scope, 0, StarCount)
    ensures forall i, j :: 0 <= i < j < StarCount && ScopeRow(scope)[j] ==> ScopeRow(scope)[i]
  {
    CountPrefixFlags(StarCount, scope, 0);
    assert ScopeRow(scope) == seq(StarCount, i => 0 + i < scope);
  }

  /** `Math.max(0, Math.min(1, rating - index))` */
  function Fill(rating: real, index: nat): (f: real)
    ensures 0.0 <= f <= 1.0
    ensures f == 1.0 <==> rating >= index as real + 1.0
    ensures f == 0.0 <==> rating <= index as real
  {
    var d := rating - index as real;
    var capped := if d < 1.0 then d else 1.0;
    if capped > 0.0 then capped else 0.0
  }

  /** The icon for the star at `index`: full at fill 1, half above 0, else empty. */
  function StarAt(rating: real, index: nat): (s: Star)
    ensures s == Full <==> rating >= index as real + 1.0
    ensures s == Half <==> index as real < rating < index as real + 1.0
    ensures s == Empty <==> rating <= index as real
  {
    var f := Fill(rating, index);
    if f >= 1.0 then Full else if f > 0.0 then Half else Empty
  }

  function RatingRow(rating: real): (row: seq<Star>)
    ensures |row| == StarCount
    ensures forall i :: 0 <= i < StarCount ==> row[i] == StarAt(rating, i)
  {
    seq(StarCount, i requires 0 <= i => StarAt(rating, i))
  }

  function Weight(s: Star): nat {
    match s
    case Full => 2
    case Half => 1
    case Empty => 0
  }

  /** A rating row never has a fuller star right of an emptier one, and has at most
      one half star. */
  lemma RatingRowOrdered(rating: real)
    ensures forall i, j :: 0 <= i < j < StarCount ==>
      Weight(RatingRow(rating)[i]) >= Weight(RatingRow(rating)[j])
    ensures forall i, j :: 0 <= i < j < StarCount && RatingRow(rating)[i] == Half ==>
      RatingRow(rating)[j] == Empty
  {
  }

  /** On a whole-number rating the two rows agree: a star is full exactly where a
      scope of that number fills it, and no star is half. */
  lemma WholeRatingMatchesScope(scope: int)
    ensures forall i :: 0 <= i < StarCount ==>
      (RatingRow(scope as real)[i] == Full <==> ScopeRow(scope)[i]) && RatingRow(scope as real)[i] != Half
  {
    forall i | 0 <= i < StarCount
      ensures (RatingRow(scope as real)[i] == Full <==> ScopeRow(scope)[i]) && RatingRow(scope as real)[i] != Half
    {
      assert RatingRow(scope as real)[i] == StarAt(scope as real, i);
      assert (scope as real >= i as real + 1.0) <==> (scope >= i + 1);
      assert (i as real < scope as real < i as real + 1.0) <==> (i < scope < i + 1);
    }
  }
}
