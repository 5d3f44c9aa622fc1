/**
 * The store detail sheet of the map (src/features/map/components/StoreDetail.jsx):
 * the industry icon, the star row with its default rating, the viewer's own review,
 * the review strip with the viewer's reviews first, the review-image slots and the
 * header fallbacks.
 *
 * `storeDetail?.x` reads are modelled by giving each field as an option: a missing
 * detail record is the record whose fields are all `None`.
 */
module StoreDetail {
  import opened Optional
  import JsText
  import Stars
  import ReviewApi

  datatype Icon = Restaurant | StoreIcon | LocalCafe | ShoppingBag

  datatype Detail = Detail(
    name: Option<string>,
    address: Option<string>,
    likeCount: Option<int>,
    avgStar: Option<real>,
    industryCode: Option<int>,
    reviews: Option<seq<ReviewApi.Review>>,
    recentReviewImageUrls: Option<seq<string>>)

  const StoreCodes: set<int> := {2301, 2302, 2303, 2305, 2309, 2310, 2601}
  const CafeCodes: set<int> := {2501, 2502}
  const FoodCodes: set<int> := {2102, 2103, 2104, 2105, 2201}
  const RetailCodes: set<int> := {5101, 5102}

  /** `industryIcon`: the four code lists checked in order; a missing or zero code and any
      unlisted code fall back to the restaurant icon. */
  function IndustryIcon(code: Option<int>): (icon: Icon)
    ensures icon == StoreIcon <==> JsText.TruthyNum(code) && code.value in StoreCodes
    ensures icon == LocalCafe <==> JsText.TruthyNum(code) && code.value in CafeCodes
    ensures icon == ShoppingBag <==> JsText.TruthyNum(code) && code.value in RetailCodes
  {
    if !JsText.TruthyNum(code) then Restaurant
    else if code.value in StoreCodes then StoreIcon
    else if code.value in CafeCodes then LocalCafe
    else if code.value in FoodCodes then Restaurant
    else if code.value in RetailCodes then ShoppingBag
    else Restaurant
  }

  /** `storeDetail?.avgStar || 4` */
  function DisplayRating(avgStar: Option<real>): (r: real)
    ensures avgStar.Some? && avgStar.value != 0.0 ==> r == avgStar.value
    ensures avgStar.None? || avgStar.value == 0.0 ==> r == 4.0
  {
    if avgStar.Some? && avgStar.value != 0.0 then avgStar.value else 4.0
  }

  /** The five stars under the store name, drawn from the displayed rating. */
  function StarRow(d: Detail): (row: seq<Stars.Star>)
    ensures |row| == Stars.StarCount
    ensures d.avgStar.None? || d.avgStar.value == 0.0 ==>
      row == [Stars.Full, Stars.Full, Stars.Full, Stars.Full, Stars.Empty]
    ensures d.avgStar.Some? && d.avgStar.value != 0.0 ==> forall i :: 0 <= i < |row| ==>
      (row[i] == Stars.Full <==> d.avgStar.value >= i as real + 1.0)
  {
    Stars.RatingRow(DisplayRating(d.avgStar))
  }

  /** A store without ratings (average missing or 0) shows four full stars and an empty one. */
  lemma UnratedShowsFourStars(d: Detail)
    requires d.avgStar.None? || d.avgStar.value == 0.0
    ensures StarRow(d) == [Stars.Full, Stars.Full, Stars.Full, Stars.Full, Stars.Empty]
  {
  }

  /** The user id the session holds, as the sheet compares it: `parseInt(userId)` for a
      truthy id, nothing otherwise (NaN compares equal to nothing). */
  function ViewerId(userId: Option<string>): (v: Option<int>)
    ensures !JsText.TruthyText(userId) ==> v.None?
    ensures JsText.TruthyText(userId) ==> v == JsText.ParseInt(userId.value)
  {
    if JsText.TruthyText(userId) then JsText.ParseInt(userId.value) else None
  }

  function FindByUser(reviews: seq<ReviewApi.Review>, uid: int): (r: Option<ReviewApi.Review>)
    ensures r.Some? ==> r.value in reviews && r.value.userId == uid
    ensures r.None? <==> forall k :: 0 <= k < |reviews| ==> reviews[k].userId != uid
  {
    if reviews == [] then None
    else if reviews[0].userId == uid then Some(reviews[0])
    else FindByUser(reviews[1..], uid)
  }

  /** `existingReview`: none without a review list or a viewer; otherwise the first
      review written by the viewer, if any. */
  function ExistingReview(reviews: Option<seq<ReviewApi.Review>>, userId: Option<string>)
    : (r: Option<ReviewApi.Review>)
    ensures reviews.None? || !JsText.TruthyText(userId) ==> r.None?
  {
    if reviews.None? || !JsText.TruthyText(userId) then None
    else
      match JsText.ParseInt(userId.value)
      case None => None
      case Some(uid) => FindByUser(reviews.value, uid)
  }

  /** Position `i` holds the first review written by `uid`. */
  predicate FirstBy(reviews: seq<ReviewApi.Review>, i: int, uid: int) {
    0 <= i < |reviews| && reviews[i].userId == uid && forall k :: 0 <= k < i ==> reviews[k].userId != uid
  }

  /** The review found is the viewer's first one: every review before it is someone else's;
      and none is found exactly when the viewer has written none. */
  lemma {:induction false} ExistingReviewIsFirst(reviews: seq<ReviewApi.Review>, uid: int)
    ensures var r := ExistingReview(Some(reviews), Some(JsText.IntText(uid)));
      && (r.None? <==> forall k :: 0 <= k < |reviews| ==> reviews[k].userId != uid)
      && (r.Some? ==> exists i :: FirstBy(reviews, i, uid) && reviews[i] == r.value)
  {
    JsText.ParseIntText(uid);
    FirstMatchIndex(reviews, uid);
  }

  lemma {:induction false} FirstMatchIndex(reviews: seq<ReviewApi.Review>, uid: int)
    ensures var r := FindByUser(reviews, uid);
      r.Some? ==> exists i :: FirstBy(reviews, i, uid) && reviews[i] == r.value
  {
    if reviews != [] && reviews[0].userId != uid {
      FirstMatchIndex(reviews[1..], uid);
      var r := FindByUser(reviews, uid);
      if r.Some? {
        var i :| FirstBy(reviews[1..], i, uid) && reviews[1..][i] == r.value;
        assert reviews[i + 1] == r.value;
        forall k | 0 <= k < i + 1 ensures reviews[k].userId != uid {
          if k > 0 { assert reviews[k] == reviews[1..][k - 1]; }
        }
        assert FirstBy(reviews, i + 1, uid);
      }
    } else if reviews != [] {
      assert FirstBy(reviews, 0, uid);
    }
  }

  // ---------------------------------------------------------------------------
  // The review strip

  predicate ByViewer(r: ReviewApi.Review, viewer: Option<int>) {
    viewer.Some? && r.userId == viewer.value
  }

  /** Every review in `r` is the viewer's. */
  predicate AllByViewer(r: seq<ReviewApi.Review>, viewer: Option<int>) {
    forall k :: 0 <= k < |r| ==> ByViewer(r[k], viewer)
  }

  /** No review in `r` is the viewer's. */
  predicate NoneByViewer(r: seq<ReviewApi.Review>, viewer: Option<int>) {
    forall k :: 0 <= k < |r| ==> !ByViewer(r[k], viewer)
  }

  function Mine(xs: seq<ReviewApi.Review>, viewer: Option<int>): (r: seq<ReviewApi.Review>)
    ensures AllByViewer(r, viewer)
  {
    if xs == [] then [] else (if ByViewer(xs[0], viewer) then [xs[0]] else []) + Mine(xs[1..], viewer)
  }

  function Others(xs: seq<ReviewApi.Review>, viewer: Option<int>): (r: seq<ReviewApi.Review>)
    ensures NoneByViewer(r, viewer)
  {
    if xs == [] then [] else (if ByViewer(xs[0], viewer) then [] else [xs[0]]) + Others(xs[1..], viewer)
  }

  /** `[...reviews].sort(...)` with the viewer-first comparator. The comparator is 0 on
      ties and the engine's sort is stable, so the result is the viewer's reviews in
      their order followed by everybody else's in theirs. */
  function ViewerFirst(xs: seq<ReviewApi.Review>, viewer: Option<int>): (r: seq<ReviewApi.Review>)
    ensures multiset(r) == multiset(xs)
    ensures forall i, j :: 0 <= i < j < |r| && ByViewer(r[j], viewer) ==> ByViewer(r[i], viewer)
  {
    SplitIsPermutation(xs, viewer);
    Mine(xs, viewer) + Others(xs, viewer)
  }

  lemma {:induction false} SplitIsPermutation(xs: seq<ReviewApi.Review>, viewer: Option<int>)
    ensures multiset(Mine(xs, viewer)) + multiset(Others(xs, viewer)) == multiset(xs)
  {
    if xs != [] {
      SplitIsPermutation(xs[1..], viewer);
      SplitStep(xs, viewer);
    }
  }

  /** The split of a non-empty list extends the split of its tail by the head. */
  lemma SplitStep(xs: seq<ReviewApi.Review>, viewer: Option<int>)
    requires xs != []
    requires multiset(Mine(xs[1..], viewer)) + multiset(Others(xs[1..], viewer)) == multiset(xs[1..])
    ensures multiset(Mine(xs, viewer)) + multiset(Others(xs, viewer)) == multiset(xs)
  {
    var x := xs[0];
    var rest := xs[1..];
    assert xs == [x] + rest;
    var m, o := Mine(rest, viewer), Others(rest, viewer);
    if ByViewer(x, viewer) {
      assert Mine(xs, viewer) == [x] + m && Others(xs, viewer) == o;
      ConsSplit(x, rest, m, o, [x] + m, o);
    } else {
      assert Mine(xs, viewer) == m && Others(xs, viewer) == [x] + o;
      ConsSplit(x, rest, m, o, m, [x] + o);
    }
  }

  /** Putting one more element on either side of a split of `rest` splits `[x] + rest`. */
  lemma ConsSplit<T>(x: T, rest: seq<T>, m: seq<T>, o: seq<T>, m': seq<T>, o': seq<T>)
    requires multiset(m) + multiset(o) == multiset(rest)
    requires (m' == [x] + m && o' == o) || (m' == m && o' == [x] + o)
    ensures multiset(m') + multiset(o') == multiset([x] + rest)
  {
    assert multiset([x] + rest) == multiset{x} + multiset(rest);
    if m' == [x] + m {
      assert multiset(m') == multiset{x} + multiset(m);
    } else {
      assert multiset(o') == multiset{x} + multiset(o);
    }
  }

  /** The strip is a reordering of the reviews that puts every review by the viewer
      before every other one and keeps the order within each group; with no viewer it
      is the list as given. */
  lemma ViewerFirstIsStablePartition(xs: seq<ReviewApi.Review>, viewer: Option<int>)
    ensures multiset(ViewerFirst(xs, viewer)) == multiset(xs)
    ensures var s := ViewerFirst(xs, viewer);
      forall i, j :: 0 <= i < j < |s| && ByViewer(s[j], viewer) ==> ByViewer(s[i], viewer)
    ensures Mine(ViewerFirst(xs, viewer), viewer) == Mine(xs, viewer)
    ensures Others(ViewerFirst(xs, viewer), viewer) == Others(xs, viewer)
    ensures viewer.None? ==> ViewerFirst(xs, viewer) == xs
  {
    SplitIsPermutation(xs, viewer);
    var m := Mine(xs, viewer);
    var o := Others(xs, viewer);
    MineOfSplit(m, o, viewer);
    if viewer.None? {
      NoViewerKeepsOrder(xs);
    }
  }

  lemma {:induction false} MineOfSplit(m: seq<ReviewApi.Review>, o: seq<ReviewApi.Review>, viewer: Option<int>)
    requires AllByViewer(m, viewer)
    requires NoneByViewer(o, viewer)
    ensures Mine(m + o, viewer) == m && Others(m + o, viewer) == o
  {
    if m == [] {
      assert m + o == o;
      OnlyOthers(o, viewer);
    } else {
      assert (m + o)[1..] == m[1..] + o;
      MineOfSplit(m[1..], o, viewer);
    }
  }

  lemma {:induction false} OnlyOthers(o: seq<ReviewApi.Review>, viewer: Option<int>)
    requires NoneByViewer(o, viewer)
    ensures Mine(o, viewer) == [] && Others(o, viewer) == o
  {
    if o != [] {
      OnlyOthers(o[1..], viewer);
    }
  }

  lemma {:induction false} NoViewerKeepsOrder(xs: seq<ReviewApi.Review>)
    ensures Mine(xs, None) == [] && Others(xs, None) == xs
  {
    if xs != [] {
      NoViewerKeepsOrder(xs[1..]);
    }
  }

  /** What the review section shows. */
  datatype Section = LoadingView | EmptyView | Strip(reviews: seq<ReviewApi.Review>)

  /** `reviewSection`: a loading message, the empty message for a missing or empty list,
      or the strip ordered viewer-first by `userId ? parseInt(userId) : null`. */
  function ReviewSection(loading: bool, d: Detail, userId: Option<string>): (s: Section)
    ensures loading <==> s == LoadingView
    ensures !loading && (d.reviews.None? || d.reviews.value == []) <==> s == EmptyView
    ensures s.Strip? ==> multiset(s.reviews) == multiset(d.reviews.value) && |s.reviews| > 0
    ensures s.Strip? ==> s.reviews == ViewerFirst(d.reviews.value, ViewerId(userId))
  {
    if loading then LoadingView
    else
      var reviews := if d.reviews.Some? then d.reviews.value else [];
      if reviews == [] then EmptyView
      else
        ViewerFirstIsStablePartition(reviews, ViewerId(userId));
        Strip(ViewerFirst(reviews, ViewerId(userId)))
  }

  // ---------------------------------------------------------------------------
  // Image slots and header fallbacks

  const SubSlots: nat := 4

  datatype Gallery =
    | PlaceholderOnly
    | Gallery(main: string, subs: seq<string>, emptySlots: nat)

  /** `reviewImages`: no URLs give a single store placeholder; otherwise the first URL is
      the main image, the next up to four fill the sub slots, and camera placeholders
      fill the rest. */
  function ImageSlots(urls: Option<seq<string>>): (g: Gallery)
    ensures g.PlaceholderOnly? <==> urls.None? || urls.value == []
    ensures g.Gallery? ==> g.main == urls.value[0] && |g.subs| + g.emptySlots == SubSlots
  {
    var xs := if urls.Some? then urls.value else [];
    if xs == [] then PlaceholderOnly
    else
      var subs := if |xs| < 5 then xs[1..] else xs[1..5];
      Gallery(xs[0], subs, if SubSlots > |subs| then SubSlots - |subs| else 0)
  }

  /** The images shown are exactly the first five URLs (fewer if there are fewer), in order. */
  lemma ImagesShownArePrefix(urls: seq<string>)
    requires urls != []
    ensures var g := ImageSlots(Some(urls));
      [g.main] + g.subs == urls[..if |urls| < 5 then |urls| else 5]
  {
  }

  datatype Header = Header(name: string, address: string, followers: int)

  /** The header texts: `name || '매장명'`, `address || '주소 정보'`, `likeCount || 100`. */
  function DisplayHeader(d: Detail): (h: Header)
    ensures JsText.TruthyText(d.name) ==> h.name == d.name.value
    ensures !JsText.TruthyText(d.name) ==> h.name == "매장명"
    ensures JsText.TruthyText(d.address) ==> h.address == d.address.value
    ensures !JsText.TruthyText(d.address) ==> h.address == "주소 정보"
    ensures JsText.TruthyNum(d.likeCount) ==> h.followers == d.likeCount.value
    ensures !JsText.TruthyNum(d.likeCount) ==> h.followers == 100
  {
    Header(JsText.TextOr(d.name, "매장명"), JsText.TextOr(d.address, "주소 정보"), JsText.NumOr(d.likeCount, 100))
  }

  /** A store nobody follows is shown with 100 followers, the same as one with 100. */
  lemma ZeroFollowersShowAsHundred(d: Detail)
    requires d.likeCount == Some(0)
    ensures DisplayHeader(d).followers == DisplayHeader(d.(likeCount := Some(100))).followers
  {
  }
}
