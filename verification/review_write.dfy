/**
 * The review editor (src/features/map/components/ReviewWriteModal.tsx): it opens
 * pre-filled from the viewer's existing review (edit mode) or empty with five
 * stars (create mode), refuses blank text, and submits the trimmed text.
 */
module ReviewWrite {
  import opened Optional
  import JsText
  import Credentials
  import ReviewApi
  import Stars

  const DefaultScope: int := 5

  datatype Form = Form(content: string, scope: int, isEditMode: bool)

  datatype Alert = Alert(title: string, message: string)

  /** What a submit did: the request it sent (if any), the form afterwards, the alert
      it raised, and whether it reported the change and closed the editor. */
  datatype Submission = Submission(
    request: Option<ReviewApi.ReviewRequest>,
    form: Form,
    alert: Alert,
    closed: bool)

  /** The effect run on opening: copy the existing review, or reset. */
  function Open(existing: Option<ReviewApi.Review>): (f: Form)
    ensures existing.Some? ==> f == Form(existing.value.content, existing.value.scope, true)
    ensures existing.None? ==> f == Form("", DefaultScope, false)
  {
    match existing
    case Some(r) => Form(r.content, r.scope, true)
    case None => Form("", DefaultScope, false)
  }

  /** Tapping the star at `index` (0-based) sets the scope to `index + 1`. */
  function TapStar(f: Form, index: nat): (g: Form)
    requires index < Stars.StarCount
    ensures g.content == f.content && g.isEditMode == f.isEditMode
    ensures forall i :: 0 <= i < Stars.StarCount ==> Stars.ScopeRow(g.scope)[i] == (i <= index)
  {
    f.(scope := index + 1)
  }

  /** `error.message || '리뷰 처리에 실패했습니다.'` */
  function FailureText(message: string): string {
    if message != "" then message else "리뷰 처리에 실패했습니다."
  }

  /** How a finished call settles the editor: success resets the form and closes it
      with `done`, failure keeps the form and shows the call's message. */
  function Settle<T>(f: Form, c: ReviewApi.Call<T>, done: string): (s: Submission)
    ensures s.request == c.request
    ensures s.closed <==> c.outcome.Success?
    ensures s.closed ==> s.form == Open(None) && s.alert == Alert("성공", done)
    ensures !s.closed ==> s.form == f && s.alert == Alert("오류", FailureText(c.outcome.message))
  {
    match c.outcome
    case Success(_) => Submission(c.request, Open(None), Alert("성공", done), true)
    case Failure(m) => Submission(c.request, f, Alert("오류", FailureText(m)), false)
  }

  /** The server took the change: storage was read and the call answered "success". */
  predicate Accepted<T>(read: Credentials.StorageRead, http: ReviewApi.Http<T>) {
    read.Loaded? && http.Answered? && http.status == "success"
  }

  /** The non-blank path of a submit: an update of the existing review in edit mode,
      otherwise a create, settled by the call's outcome. */
  function Send(f: Form, body: ReviewApi.ReviewBody, storeId: int, existing: Option<ReviewApi.Review>,
                read: Credentials.StorageRead,
                created: ReviewApi.Http<ReviewApi.Review>, updated: ReviewApi.Http<ReviewApi.Unit>)
    : (s: Submission)
    ensures s.closed <==> if f.isEditMode && existing.Some? then Accepted(read, updated) else Accepted(read, created)
    ensures !s.closed ==> s.alert.message != "리뷰 처리에 실패했습니다."
    ensures s.request.Some? <==> read.Loaded?
    ensures s.request.Some? ==>
      s.request.value == (
        if f.isEditMode && existing.Some?
        then ReviewApi.ReviewRequest("PATCH", ReviewApi.ReviewPath(storeId, existing.value.id), ReviewApi.Headers(read), Some(body))
        else ReviewApi.ReviewRequest("POST", ReviewApi.ReviewsPath(storeId), ReviewApi.Headers(read), Some(body)))
    ensures s.closed ==> s.form == Open(None)
    ensures !s.closed ==> s.form == f
  {
    if f.isEditMode && existing.Some? then
      Settle(f, ReviewApi.UpdateReview(storeId, existing.value.id, body, read, updated), "리뷰가 수정되었습니다.")
    else
      Settle(f, ReviewApi.CreateReview(storeId, body, read, created), "리뷰가 작성되었습니다.")
  }

  /** `handleSubmit`: blank text only alerts. Otherwise the trimmed text and scope go to
      an update of the existing review (by its `id`) in edit mode, or to a create; on
      success the form resets and the editor closes, on failure the API's message is
      shown and the form is kept. */
  function HandleSubmit(f: Form, storeId: int, userId: int, existing: Option<ReviewApi.Review>,
                        read: Credentials.StorageRead,
                        created: ReviewApi.Http<ReviewApi.Review>, updated: ReviewApi.Http<ReviewApi.Unit>)
    : (s: Submission)
    ensures JsText.Trim(f.content) == [] ==>
      s == Submission(None, f, Alert("알림", "리뷰 내용을 입력해주세요."), false)
    ensures JsText.Trim(f.content) != [] ==> (s.request.Some? <==> read.Loaded?)
    ensures s.request.Some? ==>
      && s.request.value.headers == ReviewApi.Headers(read)
      && s.request.value.body == Some(ReviewApi.ReviewBody(userId, JsText.Trim(f.content), f.scope))
      && (s.request.value.verb == "PATCH" || s.request.value.verb == "POST")
      && (s.request.value.verb == "POST" ==> s.request.value.path == ReviewApi.ReviewsPath(storeId))
      && (s.request.value.verb == "PATCH" <==> f.isEditMode && existing.Some?)
      && (s.request.value.verb == "PATCH" ==>
            s.request.value.path == ReviewApi.ReviewPath(storeId, existing.value.id))
    ensures s.closed ==> s.form == Open(None)
    ensures !s.closed ==> s.form == f
  {
    var text := JsText.Trim(f.content);
    if text == [] then Submission(None, f, Alert("알림", "리뷰 내용을 입력해주세요."), false)
    else
      Send(f, ReviewApi.ReviewBody(userId, text, f.scope), storeId, existing, read, created, updated)
  }

  /** Opening on an existing review and submitting non-blank text edits that review;
      opening without one creates a new review. */
  lemma OpenChoosesEndpoint(storeId: int, userId: int, existing: Option<ReviewApi.Review>, text: string,
                            read: Credentials.StorageRead,
                            created: ReviewApi.Http<ReviewApi.Review>, updated: ReviewApi.Http<ReviewApi.Unit>)
    requires read.Loaded?
    requires JsText.Trim(text) != []
    ensures var f := Open(existing).(content := text);
      var s := HandleSubmit(f, storeId, userId, existing, read, created, updated);
      && s.request.Some?
      && (existing.Some? ==> s.request.value == ReviewApi.ReviewRequest("PATCH",
            ReviewApi.ReviewPath(storeId, existing.value.id), ReviewApi.Headers(read),
            Some(ReviewApi.ReviewBody(userId, JsText.Trim(text), existing.value.scope))))
      && (existing.None? ==> s.request.value == ReviewApi.ReviewRequest("POST",
            ReviewApi.ReviewsPath(storeId), ReviewApi.Headers(read),
            Some(ReviewApi.ReviewBody(userId, JsText.Trim(text), DefaultScope))))
  {
    var f := Open(existing).(content := text);
    assert f.isEditMode <==> existing.Some?;
    var s := HandleSubmit(f, storeId, userId, existing, read, created, updated);
    assert s.request.Some?;
    if existing.Some? {
      assert f.scope == existing.value.scope;
      assert s.request.value.verb == "PATCH";
    } else {
      assert f.scope == DefaultScope;
      assert s.request.value.verb == "POST";
    }
  }

  /** The editor closes exactly when the server accepted the change, and a failure
      shows the API's own message (never the generic fallback, since none is empty). */
  lemma ClosesIffAccepted(f: Form, storeId: int, userId: int, existing: Option<ReviewApi.Review>,
                          read: Credentials.StorageRead,
                          created: ReviewApi.Http<ReviewApi.Review>, updated: ReviewApi.Http<ReviewApi.Unit>)
    requires JsText.Trim(f.content) != []
    ensures var s := HandleSubmit(f, storeId, userId, existing, read, created, updated);
      s.closed <==> if f.isEditMode && existing.Some? then Accepted(read, updated) else Accepted(read, created)
    ensures var s := HandleSubmit(f, storeId, userId, existing, read, created, updated);
      !s.closed ==> s.alert.message != "리뷰 처리에 실패했습니다."
  {
    var body := ReviewApi.ReviewBody(userId, JsText.Trim(f.content), f.scope);
    assert HandleSubmit(f, storeId, userId, existing, read, created, updated)
        == Send(f, body, storeId, existing, read, created, updated);
  }
}
