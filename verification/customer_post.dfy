/**
 * The customer post composer (src/features/sns/customer/screens/CustomerPostScreen.tsx):
 * up to three distinct hashtags, a button-driven store search, the store
 * selection, and the upload that needs a selected store.
 */
module CustomerPost {
  import opened Optional
  import JsText
  import Lists
  import Credentials
  import StoreSearch

  const MaxHashtags: nat := 3
  const MinQueryLength: nat := 2

  datatype Alert = Alert(title: string, message: string)

  /** The screen state the handlers read and write. */
  datatype Composer = Composer(
    content: string,
    images: seq<string>,
    hashtags: seq<string>,
    hashtagInput: string,
    searchQuery: string,
    results: seq<StoreSearch.StoreData>,
    selected: Option<StoreSearch.StoreData>,
    showResults: bool)

  /** `trimmed.startsWith('#') ? trimmed : '#' + trimmed` */
  function Hashtag(trimmed: string): (tag: string)
    ensures JsText.StartsWith(tag, "#")
    ensures JsText.StartsWith(trimmed, "#") ==> tag == trimmed
    ensures !JsText.StartsWith(trimmed, "#") ==> tag == "#" + trimmed
  {
    if JsText.StartsWith(trimmed, "#") then trimmed else "#" + trimmed
  }

  /** `addHashtag`: a non-blank input, while fewer than three tags exist, is normalised
      to start with '#' and appended unless already present; then the input clears.
      Otherwise nothing changes, the input included. */
  function AddHashtag(c: Composer): (d: Composer)
    ensures var t := JsText.Trim(c.hashtagInput);
      t == [] || |c.hashtags| >= MaxHashtags || Hashtag(t) in c.hashtags ==> d == c
    ensures var t := JsText.Trim(c.hashtagInput);
      t != [] && |c.hashtags| < MaxHashtags && Hashtag(t) !in c.hashtags ==>
        d == c.(hashtags := c.hashtags + [Hashtag(t)], hashtagInput := "")
    ensures var tag := Hashtag(JsText.Trim(c.hashtagInput));
      d.hashtags != c.hashtags ==>
        && d.hashtags == c.hashtags + [tag]
        && |c.hashtags| < MaxHashtags && tag !in c.hashtags && CleanTag(tag)
  {
    var t := JsText.Trim(c.hashtagInput);
    if t != [] && |c.hashtags| < MaxHashtags then
      var tag := Hashtag(t);
      HashtagEndsClean(t);
      if tag !in c.hashtags then c.(hashtags := c.hashtags + [tag], hashtagInput := "") else c
    else c
  }

  /** `removeHashtag(index)`: the tag at that position goes, the others keep their order. */
  function RemoveHashtag(c: Composer, index: int): (d: Composer)
    ensures d == c.(hashtags := Lists.DropIndex(c.hashtags, index))
    ensures 0 <= index < |c.hashtags| ==> d.hashtags == c.hashtags[..index] + c.hashtags[index + 1..]
    ensures !(0 <= index < |c.hashtags|) ==> d == c
  {
    Lists.DropIndexSplices(c.hashtags, index);
    c.(hashtags := Lists.DropIndex(c.hashtags, index))
  }

  /** What the add and remove handlers keep true of the tag list. */
  predicate ValidTags(tags: seq<string>) {
    && |tags| <= MaxHashtags
    && Lists.Distinct(tags)
    && (forall k :: 0 <= k < |tags| ==> CleanTag(tags[k]))
  }

  /** A tag starts with '#' and does not end in white space. */
  predicate CleanTag(tag: string) {
    JsText.StartsWith(tag, "#") && !JsText.IsSpace(tag[|tag| - 1])
  }

  /** A tag made from trimmed input does not end in white space. */
  lemma HashtagEndsClean(t: string)
    requires t != [] && !JsText.IsSpace(t[|t| - 1])
    ensures CleanTag(Hashtag(t))
  {
    if !JsText.StartsWith(t, "#") {
      assert ("#" + t)[|t|] == t[|t| - 1];
    }
  }

  /** Adding a tag keeps the list short, duplicate-free and clean. */
  lemma AddHashtagKeepsValid(c: Composer)
    requires ValidTags(c.hashtags)
    ensures ValidTags(AddHashtag(c).hashtags)
  {
    var tags := AddHashtag(c).hashtags;
    if tags != c.hashtags {
      AppendKeepsValid(c.hashtags, Hashtag(JsText.Trim(c.hashtagInput)));
    }
  }

  /** Appending a new '#'-tag that does not end in white space to a short valid list
      keeps it valid. */
  lemma AppendKeepsValid(tags: seq<string>, tag: string)
    requires ValidTags(tags) && |tags| < MaxHashtags && tag !in tags
    requires CleanTag(tag)
    ensures ValidTags(tags + [tag])
  {
    var r := tags + [tag];
    forall k | 0 <= k < |r| ensures CleanTag(r[k]) {
      if k < |tags| { assert r[k] == tags[k]; } else { assert r[k] == tag; }
    }
    forall a, b | 0 <= a < b < |r| ensures r[a] != r[b] {
      assert r[a] == tags[a];
      if b == |tags| { assert r[b] == tag; } else { assert r[b] == tags[b]; }
    }
  }

  lemma RemoveHashtagKeepsValid(c: Composer, index: int)
    requires ValidTags(c.hashtags)
    ensures ValidTags(RemoveHashtag(c, index).hashtags)
  {
    var tags := c.hashtags;
    var r := RemoveHashtag(c, index).hashtags;
    if 0 <= index < |tags| {
      assert forall k :: 0 <= k < |r| ==> r[k] == (if k < index then tags[k] else tags[k + 1]);
      forall a, b | 0 <= a < b < |r| ensures r[a] != r[b] {
        var a' := if a < index then a else a + 1;
        var b' := if b < index then b else b + 1;
        assert r[a] == tags[a'] && r[b] == tags[b'];
      }
    }
  }

  /** Adding a tag and then removing it by its position restores the list. */
  lemma RemoveUndoesAdd(c: Composer)
    requires AddHashtag(c).hashtags != c.hashtags
    ensures RemoveHashtag(AddHashtag(c), |c.hashtags|).hashtags == c.hashtags
  {
    var tags := AddHashtag(c).hashtags;
    assert tags[..|c.hashtags|] == c.hashtags;
  }

  /** `handleStoreSearch(query)`: a query of fewer than two characters once trimmed clears
      the results and hides the list without searching; otherwise the query, untrimmed,
      is searched and the list shown (an empty result shows the no-result view). The
      search itself never rejects, so the failure alert here cannot be raised. */
  method HandleStoreSearch(c: Composer, query: string, reply: StoreSearch.SearchReply)
    returns (d: Composer, sentQuery: Option<string>)
    ensures |JsText.Trim(query)| < MinQueryLength ==>
      d == c.(results := [], showResults := false) && sentQuery.None?
    ensures |JsText.Trim(query)| >= MinQueryLength ==>
      && sentQuery == Some(query)
      && d == c.(results := StoreSearch.DedupFrom(
                   if StoreSearch.Delivered(reply) then StoreSearch.Wrap(reply.data) else [], {}),
                 showResults := true)
  {
    if |JsText.Trim(query)| < MinQueryLength {
      d := c.(results := [], showResults := false);
      sentQuery := None;
    } else {
      var results := StoreSearch.SearchStores(reply);
      sentQuery := Some(query);
      d := c.(results := results, showResults := true);
    }
  }

  /** `handleSearchButtonPress`: the button searches the current query when it has at
      least two characters once trimmed, and otherwise only raises an alert. */
  method PressSearch(c: Composer, reply: StoreSearch.SearchReply)
    returns (d: Composer, sentQuery: Option<string>, alert: Option<Alert>)
    ensures |JsText.Trim(c.searchQuery)| < MinQueryLength ==>
      d == c && sentQuery.None? && alert == Some(Alert("알림", "검색어를 2글자 이상 입력해주세요."))
    ensures |JsText.Trim(c.searchQuery)| >= MinQueryLength ==>
      && sentQuery == Some(c.searchQuery)
      && alert.None?
      && d.showResults
      && (StoreSearch.Delivered(reply) ==> d.results == StoreSearch.DedupFrom(StoreSearch.Wrap(reply.data), {}))
      && (!StoreSearch.Delivered(reply) ==> d.results == [])
  {
    if |JsText.Trim(c.searchQuery)| >= MinQueryLength {
      d, sentQuery := HandleStoreSearch(c, c.searchQuery, reply);
      alert := None;
    } else {
      d := c;
      sentQuery := None;
      alert := Some(Alert("알림", "검색어를 2글자 이상 입력해주세요."));
    }
  }

  /** `handleStoreSelect`: the store becomes the selection, its name the query, and the
      result list hides. */
  function SelectStore(c: Composer, store: StoreSearch.StoreData): (d: Composer)
    ensures d.selected == Some(store) && d.searchQuery == store.name && !d.showResults
    ensures d.content == c.content && d.images == c.images && d.hashtags == c.hashtags
    ensures d.results == c.results && d.hashtagInput == c.hashtagInput
  {
    c.(selected := Some(store), searchQuery := store.name, showResults := false)
  }

  /** The close button on the selected store. */
  function ClearStore(c: Composer): (d: Composer)
    ensures d.selected.None? && d.searchQuery == "" && !d.showResults
    ensures d.content == c.content && d.images == c.images && d.hashtags == c.hashtags
  {
    c.(selected := None, searchQuery := "", showResults := false)
  }

  /** The body of `POST /posts/customers`. */
  datatype PostData = PostData(storeId: int, content: string, images: seq<string>, hashtags: seq<string>)

  /** The request `createCustomerPost` sends: the body and, for a non-empty token, a bearer header. */
  datatype PostRequest = PostRequest(body: PostData, authorization: Option<string>)

  datatype Upload = Upload(request: Option<PostRequest>, alert: Alert, wentBack: bool)

  /** `handleUpload`: without a selected store only an alert; otherwise the composer's
      fields are posted for that store, with the stored token if any, and the screen
      closes on success. `accepted` is whether the post succeeded. */
  function HandleUpload(c: Composer, accessToken: Option<string>, accepted: bool): (u: Upload)
    ensures c.selected.None? <==> u.request.None?
    ensures c.selected.None? ==> u == Upload(None, Alert("알림", "가게를 선택해주세요."), false)
    ensures c.selected.Some? ==>
      u.request.value.body == PostData(c.selected.value.storeId, c.content, c.images, c.hashtags)
    ensures c.selected.Some? ==>
      (u.request.value.authorization.Some? <==> JsText.TruthyText(accessToken))
    ensures u.request.Some? && u.request.value.authorization.Some? ==>
      u.request.value.authorization.value == Credentials.Bearer(accessToken.value)
    ensures u.wentBack <==> c.selected.Some? && accepted
  {
    match c.selected
    case None => Upload(None, Alert("알림", "가게를 선택해주세요."), false)
    case Some(store) =>
      var body := PostData(store.storeId, c.content, c.images, c.hashtags);
      var auth := if JsText.TruthyText(accessToken) then Some(Credentials.Bearer(accessToken.value)) else None;
      if accepted then Upload(Some(PostRequest(body, auth)), Alert("성공", "게시글이 성공적으로 업로드되었습니다."), true)
      else Upload(Some(PostRequest(body, auth)), Alert("오류", "게시글 업로드에 실패했습니다."), false)
  }

  /** Selecting a store is what enables the upload: after a selection the post goes to
      that store, and after clearing it nothing is posted. */
  lemma SelectionGatesUpload(c: Composer, store: StoreSearch.StoreData, token: Option<string>, accepted: bool)
    ensures HandleUpload(SelectStore(c, store), token, accepted).request.value.body.storeId == store.storeId
    ensures HandleUpload(ClearStore(c), token, accepted).request.None?
  {
  }
}
