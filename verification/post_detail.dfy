/**
 * The post/review detail screen (src/features/sns/owner/screens/PostDetailScreen.tsx):
 * loading the post and its comments, projecting a post or a review onto the one
 * display record the screen renders, choosing between the error, unavailable and
 * detail views, and its own relative-time formatter.
 */
module PostDetail {
  import opened Optional
  import opened JsText
  import TimeDiff
  import FeedApi

  const LoadFailed := "데이터를 불러오는데 실패했습니다."

  // ---------------------------------------------------------------------------
  // formatDate

  /** `floor(floor(e / 60000) / 60) == floor(e / 3600000)`: minutes floored, then
      hours floored, is the hours floored directly. */
  lemma NestedFloor(e: int)
    ensures (e / TimeDiff.MinuteMs) / 60 == e / TimeDiff.HourMs
  {
    var m := e / TimeDiff.MinuteMs;
    var h := m / 60;
    var r := (m % 60) * TimeDiff.MinuteMs + e % TimeDiff.MinuteMs;
    assert e == h * TimeDiff.HourMs + r;
    assert 0 <= r < TimeDiff.HourMs;
  }

  /** `formatDate`: whole minutes elapsed (floored, so a future time gives a negative
      count) under an hour, whole hours under a day, else the locale date. Unlike
      `formatTimeDiff` it looks at elapsed time only, never at calendar days. */
  function FormatDate(date: TimeDiff.Instant, now: TimeDiff.Instant): (r: TimeDiff.RelTime)
    ensures r.MinutesAgo? || r.HoursAgo? || r.LocaleDate?
    ensures r.MinutesAgo? <==> TimeDiff.GetTimeDiff(date, now) < TimeDiff.HourMs
    ensures r.MinutesAgo? ==>
      r.minutes < 60 &&
      r.minutes * TimeDiff.MinuteMs <= TimeDiff.GetTimeDiff(date, now) < (r.minutes + 1) * TimeDiff.MinuteMs
    ensures r.HoursAgo? <==> TimeDiff.HourMs <= TimeDiff.GetTimeDiff(date, now) < TimeDiff.DayMs
    ensures r.HoursAgo? ==>
      1 <= r.hours < 24 &&
      r.hours * TimeDiff.HourMs <= TimeDiff.GetTimeDiff(date, now) < (r.hours + 1) * TimeDiff.HourMs
    ensures r.LocaleDate? <==> TimeDiff.DayMs <= TimeDiff.GetTimeDiff(date, now)
    ensures r.LocaleDate? ==> r.text == date.localeDate
  {
    var elapsed := TimeDiff.GetTimeDiff(date, now);
    var minutes := elapsed / TimeDiff.MinuteMs;
    if minutes < 60 then TimeDiff.MinutesAgo(minutes)
    else if minutes < 1440 then
      NestedFloor(elapsed);
      TimeDiff.HoursAgo(minutes / 60)
    else TimeDiff.LocaleDate(date.localeDate)
  }

  /** Between one minute and one day ago on the same calendar day, the two formatters
      choose the same label. */
  lemma AgreesWithTimeDiffSameDay(date: TimeDiff.Instant, now: TimeDiff.Instant)
    requires TimeDiff.DiffDays(date, now) == 0
    requires TimeDiff.MinuteMs <= TimeDiff.GetTimeDiff(date, now) < TimeDiff.DayMs
    ensures FormatDate(date, now) == TimeDiff.FormatTimeDiff(date, now)
  {
    var f := FormatDate(date, now);
    var g := TimeDiff.FormatTimeDiff(date, now);
    if f.MinutesAgo? {
      assert g.MinutesAgo?;
      MinutesUnique(f.minutes, g.minutes, TimeDiff.GetTimeDiff(date, now));
    } else {
      assert f.HoursAgo? && g.HoursAgo?;
      HoursUnique(f.hours, g.hours, TimeDiff.GetTimeDiff(date, now));
    }
  }

  lemma MinutesUnique(a: int, b: int, e: int)
    requires a * TimeDiff.MinuteMs <= e < (a + 1) * TimeDiff.MinuteMs
    requires b * TimeDiff.MinuteMs <= e < (b + 1) * TimeDiff.MinuteMs
    ensures a == b
  {
  }

  lemma HoursUnique(a: int, b: int, e: int)
    requires a * TimeDiff.HourMs <= e < (a + 1) * TimeDiff.HourMs
    requires b * TimeDiff.HourMs <= e < (b + 1) * TimeDiff.HourMs
    ensures a == b
  {
  }

  /** Where they part: under a minute this screen shows "0분 전" where the feed shows
      "방금 전", and a future time shows a negative minute count. */
  lemma DiffersUnderAMinute(date: TimeDiff.Instant, now: TimeDiff.Instant)
    requires TimeDiff.DiffDays(date, now) == 0
    requires TimeDiff.GetTimeDiff(date, now) < TimeDiff.MinuteMs
    ensures TimeDiff.FormatTimeDiff(date, now) == TimeDiff.JustNow
    ensures TimeDiff.GetTimeDiff(date, now) >= 0 ==> TimeDiff.Render(FormatDate(date, now)) == "0분 전"
    ensures TimeDiff.GetTimeDiff(date, now) < 0 ==> FormatDate(date, now).MinutesAgo? && FormatDate(date, now).minutes < 0
  {
    if TimeDiff.GetTimeDiff(date, now) >= 0 {
      assert FormatDate(date, now) == TimeDiff.MinutesAgo(0);
      assert IntText(0) == "0";
    }
  }

  // ---------------------------------------------------------------------------
  // Display projection

  datatype PostImage = PostImage(imageUrl: string, imageId: int, displayOrder: int)

  /** The post record the route carries and `getPostDetail` returns. */
  datatype DetailPost = DetailPost(
    postId: int, storeName: string, content: string, createdAt: string,
    images: seq<PostImage>, hashtags: seq<string>, likeCount: int)

  /** The review record the route carries. */
  datatype DetailReview = DetailReview(
    id: int, userName: string, content: string, createdAt: Option<string>,
    images: Option<seq<PostImage>>, hashtags: Option<seq<string>>, rating: real)

  /** The route's `type` parameter; it may be missing. */
  datatype Kind = PostKind | ReviewKind

  datatype Display = Display(
    name: string, content: string, time: string, images: Option<seq<PostImage>>,
    hashtags: Option<seq<string>>, likeCount: int, rating: Option<real>)

  /** `getDisplayData`: the post or the review the route's type names, or nothing when
      that one is missing. */
  function GetDisplayData(kind: Option<Kind>, post: Option<DetailPost>, review: Option<DetailReview>): (r: Option<Display>)
    ensures r.Some? <==> (kind == Some(PostKind) && post.Some?) || (kind == Some(ReviewKind) && review.Some?)
    ensures kind == Some(PostKind) && post.Some? ==>
      var p := post.value;
      r == Some(Display(p.storeName, p.content, p.createdAt, Some(p.images), Some(p.hashtags), p.likeCount, None))
    ensures kind == Some(ReviewKind) && review.Some? ==>
      var v := review.value;
      && r.value.name == v.userName && r.value.content == v.content
      && r.value.time == v.createdAt.GetOr("") && r.value.images == v.images && r.value.hashtags == v.hashtags
      && r.value.likeCount == 0 && r.value.rating == Some(v.rating)
  {
    if kind == Some(PostKind) && post.Some? then
      var p := post.value;
      Some(Display(p.storeName, p.content, p.createdAt, Some(p.images), Some(p.hashtags), p.likeCount, None))
    else if kind == Some(ReviewKind) && review.Some? then
      var v := review.value;
      Some(Display(v.userName, v.content, TextOr(v.createdAt, ""), v.images, v.hashtags, 0, Some(v.rating)))
    else None
  }

  // ---------------------------------------------------------------------------
  // Loading and the view chosen

  datatype CommentItem = CommentItem(id: int, nickname: string, content: string, createdAt: string)

  datatype Screen = Screen(
    post: Option<DetailPost>, review: Option<DetailReview>, comments: seq<CommentItem>, error: Option<string>)

  /** The state before `loadData` resolves: the route's records, no comments, no error. */
  function Mount(post: Option<DetailPost>, review: Option<DetailReview>): Screen {
    Screen(post, review, [], None)
  }

  /** `err.message || '데이터를 불러오는데 실패했습니다.'` */
  function ErrorText(message: string): (text: string)
    ensures text != []
    ensures message != [] ==> text == message
  {
    TextOr(Some(message), LoadFailed)
  }

  /**
   * `loadData` once its requests settle. A post fetches its detail and comments
   * together (`Promise.all`); when both reject, `detailFirst` says whose rejection
   * arrived first. A review fetches only the comments of its id. Any other route
   * loads nothing.
   */
  function LoadData(
    kind: Option<Kind>, s: Screen,
    detail: FeedApi.Reply<DetailPost>, comments: FeedApi.Reply<Option<seq<CommentItem>>>, detailFirst: bool)
    : (r: Screen)
    ensures kind == Some(PostKind) && s.post.Some? ==>
      && (r.error.None? <==> FeedApi.Succeeded(detail) && FeedApi.Succeeded(comments))
      && (r.error.None? ==> r.post == Some(detail.data) && r.comments == comments.data.GetOr([]))
      && (r.error.Some? ==> r.post == s.post && r.comments == s.comments)
    ensures kind == Some(ReviewKind) && s.review.Some? && !(kind == Some(PostKind) && s.post.Some?) ==>
      && r.post == s.post && r.review == s.review
      && (r.error.None? <==> FeedApi.Succeeded(comments))
      && (r.error.None? ==> r.comments == comments.data.GetOr([]))
    ensures !(kind == Some(PostKind) && s.post.Some?) && !(kind == Some(ReviewKind) && s.review.Some?) ==> r == s.(error := None)
    ensures r.error.Some? ==> r.error.value != []
  {
    var cleared := s.(error := None);
    if kind == Some(PostKind) && s.post.Some? then
      var d := FeedApi.GetPostDetail(detail);
      var c := FeedApi.GetPostComments(comments);
      if d.Resolved? && c.Resolved? then cleared.(post := Some(d.value), comments := c.value)
      else if d.Rejected? && (c.Resolved? || detailFirst) then cleared.(error := Some(ErrorText(d.message)))
      else cleared.(error := Some(ErrorText(c.message)))
    else if kind == Some(ReviewKind) && s.review.Some? then
      var c := FeedApi.GetPostComments(comments);
      if c.Resolved? then cleared.(comments := c.value)
      else cleared.(error := Some(ErrorText(c.message)))
    else cleared
  }

  datatype View =
    | ErrorView(message: string)
    | UnavailableView
    | DetailView(display: Display, commentCount: nat, comments: seq<CommentItem>)

  /** The view rendered once loading is over: the error first, then the display data. */
  function Render(kind: Option<Kind>, s: Screen): (v: View)
    ensures v.ErrorView? <==> s.error.Some? && s.error.value != []
    ensures v.UnavailableView? <==> !v.ErrorView? && GetDisplayData(kind, s.post, s.review).None?
    ensures v.DetailView? ==> v.commentCount == |s.comments| && v.comments == s.comments
  {
    if s.error.Some? && s.error.value != [] then ErrorView(s.error.value)
    else
      match GetDisplayData(kind, s.post, s.review)
      case None => UnavailableView
      case Some(d) => DetailView(d, |s.comments|, s.comments)
  }

  /** A post whose detail and comments both load is shown with the fetched record: its
      store name, its like count, no rating and the fetched comments. */
  lemma LoadedPostIsShown(
    post: DetailPost, review: Option<DetailReview>,
    detail: FeedApi.Reply<DetailPost>, comments: FeedApi.Reply<Option<seq<CommentItem>>>, detailFirst: bool)
    requires FeedApi.Succeeded(detail) && FeedApi.Succeeded(comments)
    ensures var v := Render(Some(PostKind), LoadData(Some(PostKind), Mount(Some(post), review), detail, comments, detailFirst));
      && v.DetailView?
      && v.display.name == detail.data.storeName
      && v.display.likeCount == detail.data.likeCount
      && v.display.rating.None?
      && v.comments == comments.data.GetOr([])
  {
  }

  /** Any failed request of a post or review route ends in the error view, never in a
      half-loaded detail. */
  lemma FailureShowsError(
    kind: Option<Kind>, post: Option<DetailPost>, review: Option<DetailReview>,
    detail: FeedApi.Reply<DetailPost>, comments: FeedApi.Reply<Option<seq<CommentItem>>>, detailFirst: bool)
    requires (kind == Some(PostKind) && post.Some? && !(FeedApi.Succeeded(detail) && FeedApi.Succeeded(comments)))
          || (kind == Some(ReviewKind) && review.Some? && !FeedApi.Succeeded(comments))
    ensures Render(kind, LoadData(kind, Mount(post, review), detail, comments, detailFirst)).ErrorView?
  {
  }

  /** A route whose type names a record it does not carry (or no type at all) loads
      nothing and shows the unavailable view. */
  lemma MismatchIsUnavailable(
    kind: Option<Kind>, post: Option<DetailPost>, review: Option<DetailReview>,
    detail: FeedApi.Reply<DetailPost>, comments: FeedApi.Reply<Option<seq<CommentItem>>>, detailFirst: bool)
    requires !(kind == Some(PostKind) && post.Some?) && !(kind == Some(ReviewKind) && review.Some?)
    ensures LoadData(kind, Mount(post, review), detail, comments, detailFirst) == Mount(post, review)
    ensures Render(kind, Mount(post, review)) == UnavailableView
  {
  }
}
