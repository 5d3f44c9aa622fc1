/**
 * One review in a store's review strip (src/features/map/components/ReviewCard.tsx):
 * which id it is deleted by, whether the viewer owns the store (and so may delete
 * it), the two-line truncation of its text, and the confirm-then-delete flow.
 */
module ReviewCard {
  import opened Optional
  import JsText
  import Credentials
  import ReviewApi

  const PreviewLength: nat := 60

  datatype Alert = Alert(title: string, message: string)

  /** `reviewId || id`: the optional `reviewId` unless it is missing or 0. */
  function ActualReviewId(r: ReviewApi.Review): (id: int)
    ensures JsText.TruthyNum(r.reviewId) ==> id == r.reviewId.value
    ensures !JsText.TruthyNum(r.reviewId) ==> id == r.id
  {
    JsText.NumOr(r.reviewId, r.id)
  }

  /** `storeDetail?.owner?.userId === parseInt(currentUserId || '0')`: a missing owner or
      an unparsable id never matches; a missing or empty viewer id reads as 0. */
  predicate IsOwner(storeOwnerId: Option<int>, currentUserId: Option<string>): (b: bool)
    ensures b ==> storeOwnerId.Some?
    ensures storeOwnerId.Some? && currentUserId == Some(JsText.IntText(storeOwnerId.value)) ==> b
  {
    match storeOwnerId
    case None => false
    case Some(owner) =>
      JsText.ParseIntText(owner);
      JsText.ParseInt(JsText.TextOr(currentUserId, "0")) == Some(owner)
  }

  /** The owner of the store is recognised from the decimal id the session stores,
      and only that owner: two different ids never both match. */
  lemma OwnerRecognised(owner: int, other: int)
    ensures IsOwner(Some(owner), Some(JsText.IntText(owner)))
    ensures other != owner ==> !IsOwner(Some(other), Some(JsText.IntText(owner)))
  {
    JsText.ParseIntText(owner);
  }

  /** Without a viewer id, the card treats the viewer as user 0. */
  lemma AbsentViewerIsUserZero(storeOwnerId: Option<int>)
    ensures IsOwner(storeOwnerId, None) <==> storeOwnerId == Some(0)
  {
    assert JsText.TextOr(None, "0") == "0";
    assert JsText.IntText(0) == "0" by {
      assert JsText.Decimal(0) == [JsText.DigitChar(0)];
    }
    JsText.ParseIntText(0);
    assert JsText.ParseInt("0") == Some(0);
  }

  /** The card's text: at most 60 characters, then '...'. */
  function Preview(content: string): (p: string)
    ensures |content| <= PreviewLength ==> p == content
    ensures |content| > PreviewLength ==> p == content[..PreviewLength] + "..."
  {
    JsText.Ellipsize(content, PreviewLength)
  }

  /** `handleCardPress`: the full-text modal opens for content longer than the preview
      limit, so it opens only when the preview hides text and never when the preview
      already is the whole content. */
  function CardPressOpensModal(content: string): (opens: bool)
    ensures opens ==> PreviewLength < |content| && Preview(content) == content[..PreviewLength] + "..."
    ensures !opens ==> Preview(content) == content
  {
    |content| > PreviewLength
  }

  /** What a delete press led to. */
  datatype Deletion = Deletion(request: Option<ReviewApi.ReviewRequest>, alert: Option<Alert>, notified: bool)

  /** `handleDeleteReview`: without a truthy store id or review id only an error alert;
      otherwise a confirmation, and on confirming, a delete by the actual review id whose
      success alerts and notifies the parent and whose failure alerts the API's message. */
  function HandleDelete(storeId: Option<int>, r: ReviewApi.Review, confirmed: bool,
                        read: Credentials.StorageRead, http: ReviewApi.Http<ReviewApi.Unit>): (d: Deletion)
    ensures !JsText.TruthyNum(storeId) || ActualReviewId(r) == 0 ==>
      d == Deletion(None, Some(Alert("오류", "매장 정보 또는 리뷰 정보를 찾을 수 없습니다.")), false)
    ensures JsText.TruthyNum(storeId) && ActualReviewId(r) != 0 && !confirmed ==> d == Deletion(None, None, false)
    ensures d.request.Some? ==>
      d.request.value.verb == "DELETE" &&
      d.request.value.path == ReviewApi.ReviewPath(storeId.value, ActualReviewId(r))
    ensures d.notified <==>
      JsText.TruthyNum(storeId) && ActualReviewId(r) != 0 && confirmed &&
      read.Loaded? && http.Answered? && http.status == "success"
  {
    if !JsText.TruthyNum(storeId) || ActualReviewId(r) == 0 then
      Deletion(None, Some(Alert("오류", "매장 정보 또는 리뷰 정보를 찾을 수 없습니다.")), false)
    else if !confirmed then Deletion(None, None, false)
    else
      var c := ReviewApi.DeleteReview(storeId.value, ActualReviewId(r), read, http);
      match c.outcome
      case Success(_) => Deletion(c.request, Some(Alert("성공", "리뷰가 삭제되었습니다.")), true)
      case Failure(m) =>
        Deletion(c.request, Some(Alert("오류", if m != "" then m else "리뷰 삭제에 실패했습니다.")), false)
  }

  /** A review whose `reviewId` is present and non-zero is deleted by it, otherwise by
      its `id`. */
  lemma DeleteTargetsActualId(storeId: int, r: ReviewApi.Review, read: Credentials.StorageRead,
                              http: ReviewApi.Http<ReviewApi.Unit>)
    requires storeId != 0 && ActualReviewId(r) != 0 && read.Loaded?
    ensures var d := HandleDelete(Some(storeId), r, true, read, http);
      d.request == Some(ReviewApi.ReviewRequest("DELETE",
        ReviewApi.ReviewPath(storeId, if JsText.TruthyNum(r.reviewId) then r.reviewId.value else r.id),
        ReviewApi.Headers(read), None))
  {
  }
}
