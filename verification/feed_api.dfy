/**
 * The owner feed's service layer (src/features/sns/owner/services/feedApi.ts): building
 * the store profile and review list from the user and store records, the cursor-paged
 * post listings, post and comment reads, and the comment payloads.
 *
 * Each HTTP exchange is an oracle `Reply`: either the transport threw (an HTTP error
 * status or no response, carried as its error message) or a body arrived with a
 * `status` string, an optional `message` and the payload.
 */
module FeedApi {
  import opened Optional
  import opened JsText

  datatype Reply<T> = Threw(errorMessage: string) | Body(status: string, message: Option<string>, data: T)

  predicate Succeeded<T>(r: Reply<T>) {
    r.Body? && r.status == "success"
  }

  /** A promise that resolved with a value or rejected with an error message. */
  datatype Outcome<T> = Resolved(value: T) | Rejected(message: string)

  // ---------------------------------------------------------------------------
  // Profile and reviews, built from /api/users/{userId} and /api/stores/{storeId}

  datatype UserRecord = UserRecord(storeId: int)

  /** A review as the store endpoint returns it; every field may be missing. */
  datatype RawReview = RawReview(
    id: Option<int>, rating: Option<real>, content: Option<string>,
    customerName: Option<string>, author: Option<string>, createdAt: Option<string>)

  datatype StoreRecord = StoreRecord(
    name: string, address: string, avgStar: Option<real>, reviews: Option<seq<RawReview>>)

  datatype Profile = Profile(restaurantName: string, address: string, rating: real, reviewCount: nat, storeId: int)

  datatype FeedReview = FeedReview(id: int, rating: real, content: string, userName: string, createdAt: string)

  /** The profile shown whenever either request fails. */
  const DefaultProfile := Profile("매장명", "주소 정보 없음", 0.0, 0, 1)

  const DefaultReviewContent := "리뷰 내용"
  const DefaultUserName := "고객"
  const DefaultPostsError := "게시글 조회에 실패했습니다."
  const DefaultCommentsError := "댓글 조회에 실패했습니다."

  /** `x || fallback` on an optional number that may be fractional. */
  function RealOr(o: Option<real>, fallback: real): (r: real)
    ensures o.Some? && o.value != 0.0 ==> r == o.value
    ensures o.None? || o.value == 0.0 ==> r == fallback
  {
    if o.Some? && o.value != 0.0 then o.value else fallback
  }

  function UserPath(userId: int): string {
    "/api/users/" + IntText(userId)
  }

  function StorePath(storeId: int): string {
    "/api/stores/" + IntText(storeId)
  }

  /** The paths requested: the user record always, the store record only once the user
      record arrived with status 'success'. */
  function ProfileRequests(userId: int, user: Reply<UserRecord>): (paths: seq<string>)
    ensures |paths| >= 1 && paths[0] == UserPath(userId)
    ensures |paths| == 2 <==> Succeeded(user)
    ensures Succeeded(user) ==> paths[1] == StorePath(user.data.storeId)
  {
    if Succeeded(user) then [UserPath(userId), StorePath(user.data.storeId)] else [UserPath(userId)]
  }

  /** `reviews?.length || 0` */
  function ReviewCount(reviews: Option<seq<RawReview>>): (n: nat)
    ensures reviews.None? ==> n == 0
    ensures reviews.Some? ==> n == |reviews.value|
  {
    if reviews.Some? then |reviews.value| else 0
  }

  /** `getProfile`: never rejects; any failure of either request gives the default
      profile. */
  function GetProfile(user: Reply<UserRecord>, store: Reply<StoreRecord>): (p: Profile)
    ensures !(Succeeded(user) && Succeeded(store)) ==> p == DefaultProfile
    ensures Succeeded(user) && Succeeded(store) ==>
      && p.restaurantName == store.data.name
      && p.address == store.data.address
      && p.rating == RealOr(store.data.avgStar, 0.0)
      && p.reviewCount == ReviewCount(store.data.reviews)
      && p.storeId == user.data.storeId
  {
    if Succeeded(user) && Succeeded(store) then
      Profile(store.data.name, store.data.address, RealOr(store.data.avgStar, 0.0),
              ReviewCount(store.data.reviews), user.data.storeId)
    else DefaultProfile
  }

  /** One review of the list, at position `index`; `now` is the ISO time used when the
      review has no creation time. */
  function MapReview(raw: RawReview, index: nat, now: string): (r: FeedReview)
    ensures r.id == NumOr(raw.id, index + 1)
    ensures r.rating == RealOr(raw.rating, 5.0)
    ensures r.content == TextOr(raw.content, DefaultReviewContent)
    ensures r.userName == TextOr(raw.customerName, TextOr(raw.author, DefaultUserName))
    ensures r.createdAt == TextOr(raw.createdAt, now)
  {
    FeedReview(
      NumOr(raw.id, index + 1),
      RealOr(raw.rating, 5.0),
      TextOr(raw.content, DefaultReviewContent),
      TextOr(raw.customerName, TextOr(raw.author, DefaultUserName)),
      TextOr(raw.createdAt, now))
  }

  function MapReviews(raws: seq<RawReview>, now: string): (rs: seq<FeedReview>)
    ensures |rs| == |raws|
    ensures forall k :: 0 <= k < |raws| ==> rs[k] == MapReview(raws[k], k, now)
  {
    seq(|raws|, k requires 0 <= k < |raws| => MapReview(raws[k], k, now))
  }

  /** `getReviews`: never rejects; the store's reviews mapped one to one, or [] when a
      request fails or the store has none. */
  function GetReviews(user: Reply<UserRecord>, store: Reply<StoreRecord>, now: string): (rs: seq<FeedReview>)
    ensures !(Succeeded(user) && Succeeded(store)) ==> rs == []
    ensures Succeeded(user) && Succeeded(store) && store.data.reviews.Some? ==>
      rs == MapReviews(store.data.reviews.value, now)
    ensures store.Body? && store.data.reviews.None? ==> rs == []
  {
    if Succeeded(user) && Succeeded(store) && store.data.reviews.Some? && |store.data.reviews.value| > 0 then
      MapReviews(store.data.reviews.value, now)
    else []
  }

  /** The review list and the profile's review count come from the same replies and
      always agree, failures included. */
  lemma ReviewCountMatchesList(user: Reply<UserRecord>, store: Reply<StoreRecord>, now: string)
    ensures |GetReviews(user, store, now)| == GetProfile(user, store).reviewCount
  {
  }

  /** Reviews without their own id are numbered from 1 by position, so a store whose
      reviews carry no ids gets ids 1..n, all distinct. */
  lemma MissingIdsArePositions(raws: seq<RawReview>, now: string)
    requires forall k :: 0 <= k < |raws| ==> raws[k].id.None?
    ensures forall k :: 0 <= k < |raws| ==> MapReviews(raws, now)[k].id == k + 1
    ensures forall j, k :: 0 <= j < k < |raws| ==> MapReviews(raws, now)[j].id != MapReviews(raws, now)[k].id
  {
  }

  // ---------------------------------------------------------------------------
  // Cursor-paged post listings

  datatype Post = Post(id: int, content: string, likes: int)

  /** The `data` of a page reply; both fields may be missing. */
  datatype PageData = PageData(values: Option<seq<Post>>, nextCursor: Option<int>)

  datatype Page = Page(values: seq<Post>, nextCursor: Option<int>)

  /** Whose posts a listing asks for. */
  datatype Audience = Owners | Customers

  /** The query string: `size` always, `cursorPostId` only when the caller gave one
      (a cursor of 0 is sent). */
  datatype QueryParams = QueryParams(size: int, cursorPostId: Option<int>)

  datatype PageRequest = PageRequest(path: string, params: QueryParams)

  function PostsPath(storeId: int, audience: Audience): string {
    "/api/posts/store/" + IntText(storeId) + (if audience == Owners then "/owners" else "/customers")
  }

  function Params(size: int, cursor: Option<int>): (q: QueryParams)
    ensures q.size == size
    ensures q.cursorPostId.Some? <==> cursor.Some?
    ensures cursor.Some? ==> q.cursorPostId.value == cursor.value
  {
    QueryParams(size, cursor)
  }

  /** `values || []` and `nextCursor || null`: a cursor of 0 becomes null. */
  function Normalize(d: PageData): (p: Page)
    ensures p.values == d.values.GetOr([])
    ensures p.nextCursor.Some? <==> TruthyNum(d.nextCursor)
    ensures p.nextCursor.Some? ==> p.nextCursor == d.nextCursor
  {
    Page(d.values.GetOr([]), if TruthyNum(d.nextCursor) then d.nextCursor else None)
  }

  /** `getStoreOwnerPosts` / `getStoreCustomerPosts` (default size 10): the request sent
      and the outcome. A non-'success' body rejects with its message or the default one;
      a transport failure rejects with its own error. */
  function GetStorePosts(storeId: int, audience: Audience, cursor: Option<int>, size: int, reply: Reply<PageData>)
    : (r: (PageRequest, Outcome<Page>))
    ensures r.0 == PageRequest(PostsPath(storeId, audience), Params(size, cursor))
    ensures r.1.Resolved? <==> Succeeded(reply)
    ensures Succeeded(reply) ==> r.1.value == Normalize(reply.data)
    ensures reply.Threw? ==> r.1 == Rejected(reply.errorMessage)
    ensures reply.Body? && !Succeeded(reply) ==> r.1 == Rejected(TextOr(reply.message, DefaultPostsError))
  {
    var request := PageRequest(PostsPath(storeId, audience), Params(size, cursor));
    match reply
    case Threw(e) => (request, Rejected(e))
    case Body(status, message, data) =>
      if status == "success" then (request, Resolved(Normalize(data)))
      else (request, Rejected(TextOr(message, DefaultPostsError)))
  }

  const DefaultPageSize := 10

  /** Following a page: the cursor the caller passes on is sent exactly when the server
      gave a non-zero one. A server cursor of 0 therefore ends paging. */
  lemma NextPageCarriesCursor(storeId: int, audience: Audience, d: PageData, reply: Reply<PageData>)
    ensures var next := GetStorePosts(storeId, audience, Normalize(d).nextCursor, DefaultPageSize, reply).0;
      && next.params.size == DefaultPageSize
      && (next.params.cursorPostId.Some? <==> TruthyNum(d.nextCursor))
      && (TruthyNum(d.nextCursor) ==> next.params.cursorPostId == d.nextCursor)
  {
  }

  /** Normalising a normalised page changes nothing. */
  lemma NormalizeIdempotent(d: PageData)
    ensures var p := Normalize(d); Normalize(PageData(Some(p.values), p.nextCursor)) == p
  {
  }

  /** Owner and customer listings differ only in the path they request. */
  lemma AudiencesDifferOnlyInPath(storeId: int, cursor: Option<int>, size: int, reply: Reply<PageData>)
    ensures var o := GetStorePosts(storeId, Owners, cursor, size, reply);
      var c := GetStorePosts(storeId, Customers, cursor, size, reply);
      o.1 == c.1 && o.0.params == c.0.params && o.0.path != c.0.path
  {
    var o := PostsPath(storeId, Owners);
    var c := PostsPath(storeId, Customers);
    var prefix := "/api/posts/store/" + IntText(storeId);
    assert o == prefix + "/owners" && c == prefix + "/customers";
    assert o[|prefix| + 1] == 'o' && c[|prefix| + 1] == 'c';
  }

  // ---------------------------------------------------------------------------
  // Single post, comments

  /** `getPostDetail`: the post record is passed on as the server sent it. */
  function GetPostDetail<T>(reply: Reply<T>): (r: Outcome<T>)
    ensures r.Resolved? <==> Succeeded(reply)
    ensures r.Resolved? ==> r.value == reply.data
    ensures reply.Threw? ==> r == Rejected(reply.errorMessage)
    ensures reply.Body? && !Succeeded(reply) ==> r == Rejected(TextOr(reply.message, DefaultPostsError))
  {
    match reply
    case Threw(e) => Rejected(e)
    case Body(status, message, data) =>
      if status == "success" then Resolved(data) else Rejected(TextOr(message, DefaultPostsError))
  }

  /** `getPostComments`: a missing list is an empty one. */
  function GetPostComments<T>(reply: Reply<Option<seq<T>>>): (r: Outcome<seq<T>>)
    ensures r.Resolved? <==> Succeeded(reply)
    ensures r.Resolved? ==> r.value == reply.data.GetOr([])
    ensures reply.Threw? ==> r == Rejected(reply.errorMessage)
    ensures reply.Body? && !Succeeded(reply) ==> r == Rejected(TextOr(reply.message, DefaultCommentsError))
  {
    match reply
    case Threw(e) => Rejected(e)
    case Body(status, message, data) =>
      if status == "success" then Resolved(data.GetOr([])) else Rejected(TextOr(message, DefaultCommentsError))
  }

  datatype Verb = PostVerb | PatchVerb

  datatype CommentRequest = CommentRequest(verb: Verb, path: string, content: string)

  /** `createComment`: POST the trimmed text to the post's comments. */
  function CreateComment(postId: int, content: string): (r: CommentRequest)
    ensures r.verb == PostVerb && r.path == "/api/posts/" + IntText(postId) + "/comments"
    ensures r.content == Trim(content)
  {
    CommentRequest(PostVerb, "/api/posts/" + IntText(postId) + "/comments", Trim(content))
  }

  /** `updateComment`: PATCH the trimmed text to the comment. */
  function UpdateComment(commentId: int, content: string): (r: CommentRequest)
    ensures r.verb == PatchVerb && r.path == "/api/comments/" + IntText(commentId)
    ensures r.content == Trim(content)
  {
    CommentRequest(PatchVerb, "/api/comments/" + IntText(commentId), Trim(content))
  }

  /** The text a comment request carries has no surrounding white space left, and is
      empty exactly when the typed text was all white space. */
  lemma CommentTextIsTrimmed(postId: int, commentId: int, content: string)
    ensures var sent := CreateComment(postId, content).content;
      && Trim(sent) == sent
      && sent == UpdateComment(commentId, content).content
      && (sent == [] <==> forall i :: 0 <= i < |content| ==> IsSpace(content[i]))
  {
    TrimIdempotent(content);
  }
}
