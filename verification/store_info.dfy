/**
 * The store summary card (src/features/map/components/StoreInfo.tsx): its own
 * industry-icon table, the truncated name and location with their fallbacks, the
 * star row, and the follow toggle with its confirmation before unfollowing.
 */
module StoreInfo {
  import opened Optional
  import JsText
  import Stars
  import StoreDetail

  const NameLimit: nat := 20
  const LocationLimit: nat := 30

  const RestaurantCodes: set<int> := {2301, 2302, 2303, 2305, 2309, 2310, 2601}
  const CafeCodes: set<int> := {2501, 2502}
  const GroceryCodes: set<int> := {2102, 2103, 2104, 2105, 2201}
  const RetailCodes: set<int> := {5201, 5202}

  /** The card's `industryIcon`: restaurant unless a truthy code is on the cafe, grocery
      or retail list. */
  function IndustryIcon(code: Option<int>): (icon: StoreDetail.Icon)
    ensures icon == StoreDetail.LocalCafe <==> JsText.TruthyNum(code) && code.value in CafeCodes
    ensures icon == StoreDetail.StoreIcon <==> JsText.TruthyNum(code) && code.value in GroceryCodes
    ensures icon == StoreDetail.ShoppingBag <==> JsText.TruthyNum(code) && code.value in RetailCodes
  {
    if !JsText.TruthyNum(code) then StoreDetail.Restaurant
    else if code.value in RestaurantCodes then StoreDetail.Restaurant
    else if code.value in CafeCodes then StoreDetail.LocalCafe
    else if code.value in GroceryCodes then StoreDetail.StoreIcon
    else if code.value in RetailCodes then StoreDetail.ShoppingBag
    else StoreDetail.Restaurant
  }

  /** The card and the detail sheet show the same icon exactly for the codes outside the
      lists they classify differently: they swap the restaurant and store icons of the
      23xx/2601 and 21xx/2201 codes, and put the shopping bag on 52xx and 51xx respectively. */
  lemma IconTablesDisagree(code: Option<int>)
    ensures IndustryIcon(code) == StoreDetail.IndustryIcon(code) <==>
      !(JsText.TruthyNum(code) &&
        code.value in RestaurantCodes + GroceryCodes + RetailCodes + StoreDetail.RetailCodes)
  {
  }

  /** `storeName && storeName.length > 20 ? first 20 + '...' : (storeName || '매장명 없음')` */
  function DisplayName(storeName: Option<string>): (t: string)
    ensures !JsText.TruthyText(storeName) ==> t == "매장명 없음"
    ensures JsText.TruthyText(storeName) ==> t == JsText.Ellipsize(storeName.value, NameLimit)
  {
    if JsText.TruthyText(storeName) then JsText.Ellipsize(storeName.value, NameLimit) else "매장명 없음"
  }

  /** The same rule for the location, at 30 characters, with '주소 정보 없음'. */
  function DisplayLocation(location: Option<string>): (t: string)
    ensures !JsText.TruthyText(location) ==> t == "주소 정보 없음"
    ensures JsText.TruthyText(location) ==> t == JsText.Ellipsize(location.value, LocationLimit)
  {
    if JsText.TruthyText(location) then JsText.Ellipsize(location.value, LocationLimit) else "주소 정보 없음"
  }

  /** `operatingHours || '영업 시간 정보 없음'` */
  function DisplayHours(hours: Option<string>): (t: string)
    ensures JsText.TruthyText(hours) ==> t == hours.value
    ensures !JsText.TruthyText(hours) ==> t == "영업 시간 정보 없음"
  {
    JsText.TextOr(hours, "영업 시간 정보 없음")
  }

  /** A shown name or location never exceeds its limit plus the three dots, and it begins
      with the text it stands for. */
  lemma DisplayTextBounded(storeName: string, location: string)
    requires storeName != "" && location != ""
    ensures var t := DisplayName(Some(storeName));
      |t| <= NameLimit + 3 && (JsText.StartsWith(storeName, t) || JsText.StartsWith(t, storeName[..NameLimit]))
    ensures var t := DisplayLocation(Some(location));
      |t| <= LocationLimit + 3 && (JsText.StartsWith(location, t) || JsText.StartsWith(t, location[..LocationLimit]))
  {
  }

  /** The card's stars: the rating as given, with no default (unlike the detail sheet). */
  function StarRow(rating: real): (row: seq<Stars.Star>)
    ensures row == Stars.RatingRow(rating)
    ensures rating == 0.0 ==> forall i :: 0 <= i < |row| ==> row[i] == Stars.Empty
  {
    Stars.RatingRow(rating)
  }

  // ---------------------------------------------------------------------------
  // Follow toggle

  datatype FollowAction = FollowIt | UnfollowIt

  datatype Follow = Follow(isFollowing: bool, isLoading: bool)

  datatype Alert = Alert(title: string, message: string)

  /** What a press of the follow button starts. */
  datatype Press = Ignored | AskToConfirm | Perform(action: FollowAction)

  const Start: Follow := Follow(false, false)

  /** `loadFollowStatus`: the server's answer, or no change when the check failed. */
  function LoadFollowStatus(f: Follow, status: Option<bool>): (g: Follow)
    ensures status.Some? ==> g == f.(isFollowing := status.value)
    ensures status.None? ==> g == f
  {
    match status
    case Some(b) => f.(isFollowing := b)
    case None => f
  }

  /** `toggleFollow`: ignored while an action runs; unfollowing first asks; following
      runs at once. */
  function Toggle(f: Follow): (p: Press)
    ensures f.isLoading <==> p == Ignored
    ensures !f.isLoading && f.isFollowing <==> p == AskToConfirm
    ensures !f.isLoading && !f.isFollowing <==> p == Perform(FollowIt)
  {
    if f.isLoading then Ignored else if f.isFollowing then AskToConfirm else Perform(FollowIt)
  }

  /** `performFollowAction`: on success the flag becomes whether the action was a follow
      and the parent is told; on failure the flag is kept and the error is shown; either
      way loading ends. */
  function PerformFollowAction(f: Follow, action: FollowAction, ok: bool, errorMessage: string)
    : (r: (Follow, bool, Alert))
    ensures !r.0.isLoading
    ensures ok ==> r.0.isFollowing == (action == FollowIt) && r.1
    ensures !ok ==> r.0.isFollowing == f.isFollowing && !r.1
    ensures !ok ==> r.2 == Alert("오류", if errorMessage != "" then errorMessage else "팔로우 처리에 실패했습니다.")
  {
    if ok then
      var alert := if action == FollowIt then Alert("팔로우", "팔로우했습니다!") else Alert("언팔로우", "팔로우를 취소했습니다.");
      (Follow(action == FollowIt, false), true, alert)
    else
      (f.(isLoading := false), false, Alert("오류", if errorMessage != "" then errorMessage else "팔로우 처리에 실패했습니다."))
  }

  /** One press of the button carried to its end: the confirmation answer (used only
      when unfollowing) and the server's answer. */
  function PressButton(f: Follow, confirmed: bool, ok: bool): (r: Follow)
    ensures f.isLoading ==> r == f
    ensures !f.isLoading ==> !r.isLoading
    ensures !f.isLoading ==> (r.isFollowing != f.isFollowing <==> ok && (!f.isFollowing || confirmed))
  {
    match Toggle(f)
    case Ignored => f
    case AskToConfirm => if confirmed then PerformFollowAction(f, UnfollowIt, ok, "").0 else f
    case Perform(a) => PerformFollowAction(f, a, ok, "").0
  }

  /** A press flips the follow state exactly when no action was running, the server
      accepted, and, for an unfollow, the user confirmed; otherwise the state stays. */
  lemma PressFlipsIffAccepted(f: Follow, confirmed: bool, ok: bool)
    requires !f.isLoading
    ensures PressButton(f, confirmed, ok).isFollowing != f.isFollowing <==> ok && (!f.isFollowing || confirmed)
    ensures !PressButton(f, confirmed, ok).isLoading
  {
  }

  /** While an action is running, presses change nothing. */
  lemma PressWhileLoadingIgnored(f: Follow, confirmed: bool, ok: bool)
    requires f.isLoading
    ensures PressButton(f, confirmed, ok) == f
  {
  }
}
