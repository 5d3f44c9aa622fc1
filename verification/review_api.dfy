/**
 * The store-review endpoints (src/features/map/services/reviewAPI.ts): list, create,
 * delete and update, each with the stored access token as a bearer header when there
 * is one, and each turning failures into a user-facing message by HTTP status.
 *
 * These calls use the plain HTTP client, not the intercepted one: there is no refresh.
 */
module ReviewApi {
  import opened Optional
  import JsText
  import Credentials
  import Api

  const ContentTypeHeader := "Content-Type"
  const Json := "application/json"

  /** One review as the server sends it. */
  datatype Review = Review(
    id: int,
    reviewId: Option<int>,
    userId: int,
    nickname: string,
    content: string,
    scope: int,
    createdAt: string,
    userImage: Option<string>)

  /** The body of a create or an update: the client sends `userId`, `content` and `scope` to both. */
  datatype ReviewBody = ReviewBody(userId: int, content: string, scope: int)

  datatype ReviewRequest = ReviewRequest(verb: string, path: string, headers: map<string, string>, body: Option<ReviewBody>)

  /** What the HTTP call produced: a body with its `status`, `message` and `data`, or a
      rejection with the response status (none for a network error or timeout), the
      server's `message` field and the error's own message. */
  datatype Http<T> =
    | Answered(status: string, message: Option<string>, data: T)
    | Rejected(code: Option<int>, serverMessage: Option<string>, errorMessage: string)

  datatype Outcome<T> = Success(value: T) | Failure(message: string)

  /** The request (none when reading the stored token failed first) and its outcome. */
  datatype Call<T> = Call(request: Option<ReviewRequest>, outcome: Outcome<T>)

  datatype Unit = Unit

  /** The headers every review call builds from storage. */
  function Headers(read: Credentials.StorageRead): (h: map<string, string>)
    ensures ContentTypeHeader in h && h[ContentTypeHeader] == Json
    ensures Api.AuthorizationHeader in h <==> Credentials.AccessToken(read).Some?
    ensures Api.AuthorizationHeader in h ==>
      h[Api.AuthorizationHeader] == Credentials.Bearer(Credentials.AccessToken(read).value)
    ensures h.Keys <= {ContentTypeHeader, Api.AuthorizationHeader}
  {
    match Credentials.AccessToken(read)
    case Some(token) => map[Api.AuthorizationHeader := Credentials.Bearer(token), ContentTypeHeader := Json]
    case None => map[ContentTypeHeader := Json]
  }

  /** The review calls send the same Authorization value the intercepted client would
      attach from the same storage read. */
  lemma HeadersAgreeWithInterceptor(read: Credentials.StorageRead, req: Api.Request)
    requires Api.AuthorizationHeader !in req.headers
    ensures (Api.AuthorizationHeader in Headers(read)) <==>
      (Api.AuthorizationHeader in Api.AttachBearer(req, read).headers)
    ensures Api.AuthorizationHeader in Headers(read) ==>
      Headers(read)[Api.AuthorizationHeader] == Api.AttachBearer(req, read).headers[Api.AuthorizationHeader]
  {
  }

  function ReviewsPath(storeId: int): string {
    "/api/stores/" + JsText.IntText(storeId) + "/reviews"
  }

  function ReviewPath(storeId: int, reviewId: int): string {
    ReviewsPath(storeId) + "/" + JsText.IntText(reviewId)
  }

  /** The message a non-success `status` throws: the server's message, or the default. */
  function StatusMessage(message: Option<string>, fallback: string): string {
    JsText.TextOr(message, fallback)
  }

  const AuthRequired := "인증이 필요합니다. 다시 로그인해주세요."
  const ServerError := "서버 오류가 발생했습니다."

  /** The generic prefixes of the list, delete and update failures. */
  const ListFailed := "리뷰 조회 중 오류가 발생했습니다: "
  const DeleteFailed := "리뷰 삭제 중 오류가 발생했습니다: "
  const UpdateFailed := "리뷰 수정 중 오류가 발생했습니다: "

  /** `getReviews`: a success status yields the list (anything that is not a list yields
      none); 401, 404 and 500 have fixed messages; every other failure, a failed token
      read or a non-success status included, gets the generic prefix and its message. */
  function GetReviews(storeId: int, read: Credentials.StorageRead, http: Http<Option<seq<Review>>>)
    : (c: Call<seq<Review>>)
    ensures read.ReadFailed? <==> c.request.None?
    ensures c.request.Some? ==> c.request.value == ReviewRequest("GET", ReviewsPath(storeId), Headers(read), None)
    ensures c.outcome.Success? <==> read.Loaded? && http.Answered? && http.status == "success"
    ensures c.outcome.Success? ==> c.outcome.value == (if http.data.Some? then http.data.value else [])
    ensures read.Loaded? && http.Rejected? && http.code == Some(401) ==> c.outcome == Failure(AuthRequired)
    ensures read.Loaded? && http.Rejected? && http.code == Some(404) ==> c.outcome == Failure("가게 정보를 찾을 수 없습니다.")
    ensures read.Loaded? && http.Rejected? && http.code == Some(500) ==> c.outcome == Failure(ServerError)
    ensures read.ReadFailed? ==> c.outcome == Failure(ListFailed + read.message)
    ensures read.Loaded? && http.Answered? && http.status != "success" ==>
      c.outcome == Failure(ListFailed + StatusMessage(http.message, "리뷰 조회에 실패했습니다."))
    ensures read.Loaded? && http.Rejected? && http.code !in {Some(401), Some(404), Some(500)} ==>
      c.outcome == Failure(ListFailed + http.errorMessage)
  {
    if read.ReadFailed? then Call(None, Failure(ListFailed + read.message))
    else
      var req := ReviewRequest("GET", ReviewsPath(storeId), Headers(read), None);
      match http
      case Answered(status, message, data) =>
        if status == "success" then Call(Some(req), Success(if data.Some? then data.value else []))
        else Call(Some(req), Failure(ListFailed + StatusMessage(message, "리뷰 조회에 실패했습니다.")))
      case Rejected(code, _, errorMessage) =>
        if code == Some(401) then Call(Some(req), Failure(AuthRequired))
        else if code == Some(404) then Call(Some(req), Failure("가게 정보를 찾을 수 없습니다."))
        else if code == Some(500) then Call(Some(req), Failure(ServerError))
        else Call(Some(req), Failure(ListFailed + errorMessage))
  }

  /** `createReview`: the review comes back on a success status; every failure, whatever
      its cause, is reported with one message. */
  function CreateReview(storeId: int, body: ReviewBody, read: Credentials.StorageRead, http: Http<Review>)
    : (c: Call<Review>)
    ensures read.ReadFailed? <==> c.request.None?
    ensures c.request.Some? ==> c.request.value == ReviewRequest("POST", ReviewsPath(storeId), Headers(read), Some(body))
    ensures c.outcome.Success? <==> read.Loaded? && http.Answered? && http.status == "success"
    ensures c.outcome.Success? ==> c.outcome.value == http.data
    ensures c.outcome.Failure? ==> c.outcome.message == "리뷰 작성 중 오류가 발생했습니다."
  {
    if read.ReadFailed? then Call(None, Failure("리뷰 작성 중 오류가 발생했습니다."))
    else
      var req := ReviewRequest("POST", ReviewsPath(storeId), Headers(read), Some(body));
      if http.Answered? && http.status == "success" then Call(Some(req), Success(http.data))
      else Call(Some(req), Failure("리뷰 작성 중 오류가 발생했습니다."))
  }

  /** `deleteReview`: 401, 403, 404 and 500 have fixed messages; anything else the
      generic prefix and the error's message. */
  function DeleteReview(storeId: int, reviewId: int, read: Credentials.StorageRead, http: Http<Unit>)
    : (c: Call<Unit>)
    ensures read.ReadFailed? <==> c.request.None?
    ensures c.request.Some? ==> c.request.value == ReviewRequest("DELETE", ReviewPath(storeId, reviewId), Headers(read), None)
    ensures c.outcome.Success? <==> read.Loaded? && http.Answered? && http.status == "success"
    ensures read.Loaded? && http.Rejected? && http.code == Some(401) ==> c.outcome == Failure(AuthRequired)
    ensures read.Loaded? && http.Rejected? && http.code == Some(403) ==> c.outcome == Failure("리뷰를 삭제할 권한이 없습니다.")
    ensures read.Loaded? && http.Rejected? && http.code == Some(404) ==> c.outcome == Failure("리뷰를 찾을 수 없습니다.")
    ensures read.Loaded? && http.Rejected? && http.code == Some(500) ==> c.outcome == Failure(ServerError)
    ensures read.Loaded? && http.Answered? && http.status != "success" ==>
      c.outcome == Failure(DeleteFailed + StatusMessage(http.message, "리뷰 삭제에 실패했습니다."))
    ensures read.Loaded? && http.Rejected? && http.code !in {Some(401), Some(403), Some(404), Some(500)} ==>
      c.outcome == Failure(DeleteFailed + http.errorMessage)
    ensures read.ReadFailed? ==> c.outcome == Failure(DeleteFailed + read.message)
  {
    if read.ReadFailed? then Call(None, Failure(DeleteFailed + read.message))
    else
      var req := ReviewRequest("DELETE", ReviewPath(storeId, reviewId), Headers(read), None);
      match http
      case Answered(status, message, _) =>
        if status == "success" then Call(Some(req), Success(Unit))
        else Call(Some(req), Failure(DeleteFailed + StatusMessage(message, "리뷰 삭제에 실패했습니다.")))
      case Rejected(code, _, errorMessage) =>
        if code == Some(401) then Call(Some(req), Failure(AuthRequired))
        else if code == Some(403) then Call(Some(req), Failure("리뷰를 삭제할 권한이 없습니다."))
        else if code == Some(404) then Call(Some(req), Failure("리뷰를 찾을 수 없습니다."))
        else if code == Some(500) then Call(Some(req), Failure(ServerError))
        else Call(Some(req), Failure(DeleteFailed + errorMessage))
  }

  /** `updateReview`: like delete, except that a 500 also carries the server's message
      (or '알 수 없는 오류' when it sent none). */
  function UpdateReview(storeId: int, reviewId: int, body: ReviewBody, read: Credentials.StorageRead, http: Http<Unit>)
    : (c: Call<Unit>)
    ensures read.ReadFailed? <==> c.request.None?
    ensures c.request.Some? ==> c.request.value == ReviewRequest("PATCH", ReviewPath(storeId, reviewId), Headers(read), Some(body))
    ensures c.outcome.Success? <==> read.Loaded? && http.Answered? && http.status == "success"
    ensures read.Loaded? && http.Rejected? && http.code == Some(401) ==> c.outcome == Failure(AuthRequired)
    ensures read.Loaded? && http.Rejected? && http.code == Some(403) ==> c.outcome == Failure("리뷰를 수정할 권한이 없습니다.")
    ensures read.Loaded? && http.Rejected? && http.code == Some(404) ==> c.outcome == Failure("리뷰를 찾을 수 없습니다.")
    ensures read.Loaded? && http.Rejected? && http.code == Some(500) ==>
      c.outcome == Failure("서버 오류가 발생했습니다: " + JsText.TextOr(http.serverMessage, "알 수 없는 오류"))
    ensures read.Loaded? && http.Answered? && http.status != "success" ==>
      c.outcome == Failure(UpdateFailed + StatusMessage(http.message, "리뷰 수정에 실패했습니다."))
    ensures read.Loaded? && http.Rejected? && http.code !in {Some(401), Some(403), Some(404), Some(500)} ==>
      c.outcome == Failure(UpdateFailed + http.errorMessage)
    ensures read.ReadFailed? ==> c.outcome == Failure(UpdateFailed + read.message)
    ensures c.outcome.Failure? ==> c.outcome.message != ""
  {
    if read.ReadFailed? then Call(None, Failure(UpdateFailed + read.message))
    else
      var req := ReviewRequest("PATCH", ReviewPath(storeId, reviewId), Headers(read), Some(body));
      match http
      case Answered(status, message, _) =>
        if status == "success" then Call(Some(req), Success(Unit))
        else Call(Some(req), Failure(UpdateFailed + StatusMessage(message, "리뷰 수정에 실패했습니다.")))
      case Rejected(code, serverMessage, errorMessage) =>
        if code == Some(401) then Call(Some(req), Failure(AuthRequired))
        else if code == Some(403) then Call(Some(req), Failure("리뷰를 수정할 권한이 없습니다."))
        else if code == Some(404) then Call(Some(req), Failure("리뷰를 찾을 수 없습니다."))
        else if code == Some(500) then
          Call(Some(req), Failure("서버 오류가 발생했습니다: " + JsText.TextOr(serverMessage, "알 수 없는 오류")))
        else Call(Some(req), Failure(UpdateFailed + errorMessage))
  }

  /** A rejection whose status has a fixed message of its own. */
  predicate StatusMapped<T>(read: Credentials.StorageRead, http: Http<T>, codes: set<int>) {
    read.Loaded? && http.Rejected? && http.code.Some? && http.code.value in codes
  }

  lemma PrefixStarts(p: string, x: string)
    ensures JsText.StartsWith(p + x, p)
  {
    assert (p + x)[..|p|] == p;
  }

  lemma CharDiffers(m: string, p: string, k: nat)
    requires k < |m| && k < |p| && m[k] != p[k]
    ensures !JsText.StartsWith(m, p)
  {
  }

  /** A failed list carries the generic prefix exactly when its cause is not one of the
      statuses with a fixed message, so the two kinds of failure differ in their text. */
  lemma ListPrefixExactlyWhenUnmapped(storeId: int, read: Credentials.StorageRead, http: Http<Option<seq<Review>>>)
    ensures var c := GetReviews(storeId, read, http);
      (c.outcome.Failure? && JsText.StartsWith(c.outcome.message, ListFailed))
        <==> c.outcome.Failure? && !StatusMapped(read, http, {401, 404, 500})
  {
    var c := GetReviews(storeId, read, http);
    if StatusMapped(read, http, {401, 404, 500}) {
      CharDiffers(c.outcome.message, ListFailed, 0);
    } else if c.outcome.Failure? {
      PrefixStarts(ListFailed, c.outcome.message[|ListFailed|..]);
      assert c.outcome.message == ListFailed + c.outcome.message[|ListFailed|..];
    }
  }

  /** The same split for a failed delete. */
  lemma DeletePrefixExactlyWhenUnmapped(storeId: int, reviewId: int, read: Credentials.StorageRead, http: Http<Unit>)
    ensures var c := DeleteReview(storeId, reviewId, read, http);
      (c.outcome.Failure? && JsText.StartsWith(c.outcome.message, DeleteFailed))
        <==> c.outcome.Failure? && !StatusMapped(read, http, {401, 403, 404, 500})
  {
    var c := DeleteReview(storeId, reviewId, read, http);
    if StatusMapped(read, http, {401, 403, 404, 500}) {
      // '서버' differs from the prefix at once; the other fixed messages at their third character
      CharDiffers(c.outcome.message, DeleteFailed, if http.code == Some(500) then 0 else 2);
    } else if c.outcome.Failure? {
      PrefixStarts(DeleteFailed, c.outcome.message[|DeleteFailed|..]);
      assert c.outcome.message == DeleteFailed + c.outcome.message[|DeleteFailed|..];
    }
  }

  /** The same split for a failed update, whose 500 message is a fixed one as well. */
  lemma UpdatePrefixExactlyWhenUnmapped(
    storeId: int, reviewId: int, body: ReviewBody, read: Credentials.StorageRead, http: Http<Unit>)
    ensures var c := UpdateReview(storeId, reviewId, body, read, http);
      (c.outcome.Failure? && JsText.StartsWith(c.outcome.message, UpdateFailed))
        <==> c.outcome.Failure? && !StatusMapped(read, http, {401, 403, 404, 500})
  {
    var c := UpdateReview(storeId, reviewId, body, read, http);
    if StatusMapped(read, http, {401, 403, 404, 500}) {
      // '서버' differs from the prefix at once; the other fixed messages at their third character
      CharDiffers(c.outcome.message, UpdateFailed, if http.code == Some(500) then 0 else 2);
    } else if c.outcome.Failure? {
      PrefixStarts(UpdateFailed, c.outcome.message[|UpdateFailed|..]);
      assert c.outcome.message == UpdateFailed + c.outcome.message[|UpdateFailed|..];
    }
  }
}
