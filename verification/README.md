# DongneHankki client core, modelled in Dafny

DongneHankki is a neighbourhood-store app: customers find stores on a map, read and write reviews and post about stores; owners run a store feed. This project models the logic of its React Native client that sits between the screens and the server, as pure Dafny functions over immutable records, and proves what that logic promises.

What is modelled, one module per source file, plus a few shared helpers:

- **Session and transport.** `AuthStore` is the in-memory session store (`authStore.ts`): each mutator is a transition and each getter a projection. `Credentials` is the stored credential read through a storage oracle. `Api` models the axios client (`api.ts`) as a per-request phase machine: attach the bearer token, send, and on a first 401 refresh and replay once.
- **Push registration.** `Fcm` (`useFCM.ts`) covers the readiness probe with its back-off and restart timer, the token upload, and the gates that decide when a token is fetched and when it is sent. Timers are emitted as (delay, kind) values.
- **Time labels.** `TimeDiff` covers the relative labels of the map (`TimeDiff.ts`). `PostDetail.FormatDate` is the second, different formatter of the feed's post detail. An instant is an epoch millisecond paired with its local calendar-day index.
- **Customer posting.** `StoreSearch` is the store search with its duplicate removal. `CustomerPost` covers hashtag editing, the store picker and the upload gate. `ImageUpload` is the photo strip.
- **Map reviews.** `ReviewApi` is the review REST wrapper with its error texts. `ReviewWrite` is the write/edit modal. `ReviewCard` is one review card. `Stars` holds the star rows both screens draw.
- **Store sheets.** `StoreInfo` is the summary card with the follow toggle. `StoreDetail` is the detail sheet: icon, rating, the viewer's own review, review order, image slots and fallbacks.
- **Sign-up store picker.** `StoreSearchDropdown` is the debounced picker used at sign-up.
- **Owner pages.** `Heatmap` is the owner's weekly visit heat map. `FeedApi` is the owner-feed REST wrapper. `PostDetail` is the post/review detail screen.

Shared helpers:

- `Optional`: the `Option` type.
- `JsText`: JavaScript's `trim`, `||` defaults, decimal `parseInt` and the number-to-text conversion.
- `Lists`: dropping one index.

All input and output is supplied from outside the model:

- Storage reads, HTTP replies, Firebase answers, the clock, user confirmations and picker results are oracle parameters.
- Alerts, callbacks, navigation and timers are returned as values.

## Model

| member | source | states |
|---|---|---|
| Api.AttachBearer | src/shared/services/api.ts:11-24 | With a non-empty stored access token the request carries `Authorization: Bearer <token>`; with none, or when the storage read throws, the request goes out exactly as it was; no other header, the verb, URL or retry mark changes |
| Api.Settle | src/shared/services/api.ts:31-36 | A 2xx response resolves with its status; anything else, or no response at all, rejects with the status and the request that was sent |
| Api.Step | src/shared/services/api.ts:35-63 | Each stage of the interceptor chain (attach, send, refresh) strictly lowers a rank, so one call cannot loop |
| Api.OnSend | src/shared/services/api.ts:11-24 | The request interceptor changes only the Authorization header: it keeps the method, URL and retry mark and every other header, and any bearer it sets is one built from a stored access token |
| Api.Run | src/shared/services/api.ts:31-63 | Running the chain makes at most as many calls as the rank of its stage, starts an attaching stage with the intercepted send, and from a consistent stage never rejects with a 401 on a request not yet retried |
| Api.Call | src/shared/services/api.ts:11-63 | A call first sends the request with the stored bearer, makes at most five calls in all, and any 401 it rejects with belongs to the retried request |
| Api.RetriedReplyIsFinal | src/shared/services/api.ts:38-62 | A reply to a request already marked as retried is settled without a further call, whatever its status, 401 included |
| Api.FailOpen | src/shared/services/api.ts:13-23 | A failing storage read never stops a request: the first thing the client does is send it, unchanged when the read failed |
| Api.PassThrough | src/shared/services/api.ts:31-38 | A success or a non-401 error of a fresh request is returned as is after a single send |
| Api.NoRefreshTokenRejects | src/shared/services/api.ts:38-62 | A first 401 without a stored refresh token rejects with the original 401 error, now marked as retried, and the refresh endpoint is never called |
| Api.FailedRefreshRejects | src/shared/services/api.ts:41-62 | A refresh that throws or answers without an access token rejects with the original 401 after exactly one refresh call |
| Api.SuccessfulRefreshReplays | src/shared/services/api.ts:44-54 | A successful refresh replays the marked request once, and the call's result is the replay's own outcome, even a second 401 |
| Api.BoundedRetry | src/shared/services/api.ts:38-39 | Whatever the server and storage do, one call makes at most one refresh request and at most two sends |
| Api.ReplayCarriesNewToken | src/shared/services/api.ts:53-54 | With a request interceptor that keeps an Authorization already set on a retried request, the replay carries the freshly refreshed token |
| Api.ReplayCarriesStoredToken | src/shared/services/api.ts:53-54 | As written, the replay passes the request interceptor again, which overwrites the new bearer with the stale access token storage still holds |
| Credentials.AccessToken | src/shared/services/api.ts:14-17 | The access token is used exactly when storage was read, holds credentials, and the token is non-empty (`tokenData?.accessToken`) |
| Credentials.RefreshToken | src/shared/services/api.ts:42-44 | The refresh token is used exactly when storage was read, holds credentials, and the token is non-empty (`tokenData?.refreshToken`) |
| Credentials.Bearer | src/shared/services/api.ts:17 | The header value is the token behind the 7-character `Bearer ` prefix, so different tokens give different headers |
| AuthStore.OptionalUrl | src/shared/store/authStore.ts:76 | `profileImageUrl \|\| null` keeps a non-empty URL and turns a missing or empty one into null |
| AuthStore.SetAuthOn | src/shared/store/authStore.ts:60-79 | setAuth sets identity and both tokens from its argument, normalises the image URL and marks the session authenticated |
| AuthStore.SetTokensOn | src/shared/store/authStore.ts:81-86 | setTokens replaces both tokens and leaves identity, image URL and the authenticated flag alone |
| AuthStore.SetUserInfoOn | src/shared/store/authStore.ts:88-96 | setUserInfo sets identity and marks the session authenticated but keeps whatever tokens it had |
| AuthStore.SetProfileImageUrlOn | src/shared/store/authStore.ts:98-100 | setProfileImageUrl changes the image URL only |
| AuthStore.ClearAuthOn | src/shared/store/authStore.ts:102-116 | clearAuth empties every field, clears the authenticated flag and resets the map store exactly once |
| AuthStore.InitialIsEmpty | src/shared/store/authStore.ts:52-58 | The store starts with every field null and not authenticated |
| AuthStore.ClearAuthIsInitial | src/shared/store/authStore.ts:102-116 | Clearing from any state gives back exactly the initial state |
| AuthStore.ApplyKeepsIdentityConsistent | src/shared/store/authStore.ts:60-116 | Every action keeps role, userId and loginId either all set or all null, in step with the authenticated flag |
| AuthStore.Apply | src/shared/store/authStore.ts:60-116 | Only clearAuth calls into another store, once, and it returns the initial record; no other mutator ends a session, and setTokens and setProfileImageUrl keep the identity |
| AuthStore.RunInvariants | src/shared/store/authStore.ts:60-116 | Over any sequence of actions the identity stays consistent and the map store is reset once per clearAuth, never otherwise |
| AuthStore.AuthenticatedWithoutTokens | src/shared/store/authStore.ts:88-96 | setUserInfo on a fresh store yields an authenticated session that holds no token |
| AuthStore.RoleProjections | src/shared/store/authStore.ts:118-124 | isOwner and isCustomer are never both true, and both are false exactly when there is no role |
| AuthStore.GettersObserveMutators | src/shared/store/authStore.ts:126-138 | The token and loginId getters return what the last mutator wrote and are untouched by the mutators that do not write them |
| Fcm.BackoffMs | src/shared/hooks/useFCM.ts:40 | After the k-th failure of a round the next probe waits k seconds up to five, and five seconds from the fifth failure on |
| Fcm.Mount | src/shared/hooks/useFCM.ts:56-59 | On mount the platform is not ready, the counter is 0 and the first probe is scheduled five seconds later |
| Fcm.CheckReady | src/shared/hooks/useFCM.ts:17-53 | A successful probe marks the platform ready and clears the counter; a failed one increments it and arms a backoff probe below ten failures or the 10-second restart at ten |
| Fcm.Fire | src/shared/hooks/useFCM.ts:42-51 | A firing timer runs the probe: success settles the platform; a failure keeps readiness, arms another timer and counts from 1 after a restart timer, one more otherwise; the state shape is kept |
| Fcm.Advance | src/shared/hooks/useFCM.ts:31-51 | With no timer armed nothing happens; with one, a failed probe always arms another, so probing never stops while not ready, and a success settles; the state shape is kept |
| Fcm.FailureCycle | src/shared/hooks/useFCM.ts:35-51 | After n failures in a row from mount the counter is ((n-1) mod 10) + 1 and the armed timer is the backoff of that position, or the restart at every tenth failure |
| Fcm.SuccessSettles | src/shared/hooks/useFCM.ts:31-32 | Whatever the history of failures, the next successful probe leaves the platform ready with the counter at 0 and no timer |
| Fcm.ProbesStaySane | src/shared/hooks/useFCM.ts:35-51 | Under any sequence of probe outcomes the counter stays at most 10, a timer is armed exactly while not ready, and every delay is 1-5 s or the 10 s restart |
| Fcm.MountIsSane | src/shared/hooks/useFCM.ts:56-59 | The mounted state already has that shape |
| Fcm.SendTokenToServer | src/shared/hooks/useFCM.ts:65-98 | Without a session or an access token nothing is sent and the result is false; otherwise one PATCH carries the bearer and the token, and the result is true exactly when the server answers ok |
| Fcm.GetAndSendToken | src/shared/hooks/useFCM.ts:100-154 | Nothing happens before readiness; a token is uploaded exactly when ready, authenticated with an access token, permission is authorized or provisional and the fetched token is non-empty; the upload carries that bearer and token and registers exactly on an ok answer |
| Fcm.OnSessionChange | src/shared/hooks/useFCM.ts:156-176 | Nothing happens before readiness; without the flag and an access token the token is only fetched and kept locally; a registration always follows an upload answered ok |
| Fcm.NotReadyDoesNothing | src/shared/hooks/useFCM.ts:104-107 | Before the platform is ready neither the effect nor getAndSendToken fetches or sends anything |
| Fcm.LoggedOutOnlyFetches | src/shared/hooks/useFCM.ts:113-123 | Logged out, the token is fetched and kept locally but never uploaded |
| Fcm.UploadGate | src/shared/hooks/useFCM.ts:157-176 | A token is uploaded exactly when ready, authenticated with an access token, permission is authorized or provisional and the fetched token is non-empty; it registers exactly when the server answers ok |
| Fcm.IdentitySyncNeverUploads | src/shared/hooks/useFCM.ts:159 | A session made by setUserInfo alone is authenticated but has no access token, so the effect takes the fetch-only path and uploads nothing |
| TimeDiff.GetTimeDiff | src/features/map/utils/TimeDiff.ts:51-55 | The difference is the milliseconds from the instant to now, negative for a future instant |
| TimeDiff.FormatTimeDiff | src/features/map/utils/TimeDiff.ts:5-46 | Each label holds exactly under its condition: same calendar day and under a minute, minutes, hours or a full day elapsed; one day back is '어제'; 2-6 days back count days; 7-29 count whole weeks; older shows the locale date |
| TimeDiff.PredicatesAgreeWithLabels | src/features/map/utils/TimeDiff.ts:60-83 | isToday holds exactly when the label is a same-day label, and isYesterday exactly when it is '어제' |
| TimeDiff.TodayLabelUnreachable | src/features/map/utils/TimeDiff.ts:33-41 | When the day and millisecond readings come from one clock, a same-day instant is less than 24 hours old, so the '오늘' branch never fires |
| TimeDiff.OlderDaysNeverLookNewer | src/features/map/utils/TimeDiff.ts:42-44 | For past days, an earlier day never gets a younger label, and within the day and week buckets the counts are ordered too |
| TimeDiff.RenderUnambiguous | src/features/map/utils/TimeDiff.ts:36-44 | Two different labels never render to the same Korean text (the locale date aside) |
| StoreSearch.Wrap | src/features/sns/customer/services/StoreSearchAPI.ts:62-63 | A bare store becomes a one-element list; an array is kept as it is |
| StoreSearch.DedupIds | src/features/sns/customer/services/StoreSearchAPI.ts:76-84 | The dedup keeps exactly the ids of the input not seen before, each once |
| StoreSearch.DedupFirstCopies | src/features/sns/customer/services/StoreSearchAPI.ts:77-83 | For each id, the store kept is the first one in the input carrying it (`storeMap.has` skips later copies) |
| StoreSearch.DedupSubsequence | src/features/sns/customer/services/StoreSearchAPI.ts:76-84 | The kept stores appear in input order: the result is a subsequence of the input |
| StoreSearch.DedupFacts | src/features/sns/customer/services/StoreSearchAPI.ts:76-84 | Distinct ids, exactly the unseen ids of the input, first copies, in input order |
| StoreSearch.Dedup | src/features/sns/customer/services/StoreSearchAPI.ts:76-84 | The Map-based loop computes the left-to-right first-copy reference |
| StoreSearch.SearchStores | src/features/sns/customer/services/StoreSearchAPI.ts:51-108 | A reply without status 'success', a null or missing payload (reading `storeId` of it throws), or any throw gives an empty list; otherwise the wrapped payload deduplicated by storeId |
| StoreSearch.SearchResultsAreFirstCopies | src/features/sns/customer/services/StoreSearchAPI.ts:59-97 | A search that delivered a payload returns each id of it once, as its first copy, in payload order |
| StoreSearch.DedupKeepsDistinct | src/features/sns/customer/services/StoreSearchAPI.ts:76-84 | A payload whose ids are already distinct comes back unchanged |
| StoreSearch.SubsequenceOfSameLength | src/features/sns/customer/services/StoreSearchAPI.ts:84 | A subsequence is never longer than its source, and one of the same length is the source itself |
| StoreSearch.NothingDroppedIffDistinct | src/features/sns/customer/services/StoreSearchAPI.ts:87-88 | The count after dedup equals the original count exactly when the payload had no repeated id |
| CustomerPost.Hashtag | src/features/sns/customer/screens/CustomerPostScreen.tsx:41 | The tag always starts with '#': an input that already does is kept, any other gets '#' in front |
| CustomerPost.AddHashtag | src/features/sns/customer/screens/CustomerPostScreen.tsx:38-47 | Blank input, three tags already, or a tag already present change nothing (the input is kept too); otherwise the normalised tag is appended and the input clears |
| CustomerPost.RemoveHashtag | src/features/sns/customer/screens/CustomerPostScreen.tsx:49-51 | Removing by index drops exactly that position and keeps the others in order; an index out of range changes nothing |
| CustomerPost.HashtagEndsClean | src/features/sns/customer/screens/CustomerPostScreen.tsx:39-41 | A tag made from trimmed, non-blank input starts with '#' and does not end in white space |
| CustomerPost.AddHashtagKeepsValid | src/features/sns/customer/screens/CustomerPostScreen.tsx:38-47 | Adding keeps the tag list at most three long, free of duplicates, and made of clean '#'-tags |
| CustomerPost.RemoveHashtagKeepsValid | src/features/sns/customer/screens/CustomerPostScreen.tsx:49-51 | Removing keeps the tag list valid in the same sense |
| CustomerPost.RemoveUndoesAdd | src/features/sns/customer/screens/CustomerPostScreen.tsx:38-51 | Adding a tag and then removing it at its position restores the previous list |
| CustomerPost.HandleStoreSearch | src/features/sns/customer/screens/CustomerPostScreen.tsx:54-72 | A query shorter than two characters once trimmed clears and hides the results without searching; otherwise the untrimmed query is searched and the deduplicated results are shown |
| CustomerPost.PressSearch | src/features/sns/customer/screens/CustomerPostScreen.tsx:88-94 | The button searches the current query when it has at least two non-blank characters, and otherwise only alerts |
| CustomerPost.SelectStore | src/features/sns/customer/screens/CustomerPostScreen.tsx:75-79 | Selecting makes the store the selection and its name the query, hides the list, and touches nothing else |
| CustomerPost.ClearStore | src/features/sns/customer/screens/CustomerPostScreen.tsx:216-219 | The close button clears the selection and the query and leaves the post being written alone |
| CustomerPost.HandleUpload | src/features/sns/customer/screens/CustomerPostScreen.tsx:96-138 | Without a selected store only an alert is raised and nothing is sent; otherwise content, images and tags are posted for that store, with a bearer exactly when a non-empty token is stored, and the screen closes exactly when the post is accepted |
| CustomerPost.SelectionGatesUpload | src/features/sns/customer/screens/CustomerPostScreen.tsx:75-100 | After a selection the post goes to that store; after clearing it nothing is posted |
| ImageUpload.PickedUris | src/features/sns/customer/components/ImageUpload.tsx:39 | Only non-empty URIs are kept, in picker order, and when every asset has one none is lost |
| ImageUpload.OnPick | src/features/sns/customer/components/ImageUpload.tsx:32-42 | A cancel changes nothing; an error code alerts and changes nothing; a non-empty pick appends its URIs after the existing photos, which are never altered |
| ImageUpload.RemoveImage | src/features/sns/customer/components/ImageUpload.tsx:45-48 | Removing by index drops exactly that photo and keeps the order; an index out of range changes nothing |
| ImageUpload.PickerOffered | src/features/sns/customer/components/ImageUpload.tsx:53-85 | The picker can be opened exactly while fewer than five photos are selected, always from the empty state |
| ImageUpload.RemoveUndoesPick | src/features/sns/customer/components/ImageUpload.tsx:38-48 | Removing the photo a one-photo pick just appended gives back the earlier list |
| ImageUpload.OnPickBounded | src/features/sns/customer/components/ImageUpload.tsx:71 | A pick that keeps at most the first photos up to five in total agrees with the pick as written whenever that stays within five, and never exceeds five |
| ImageUpload.PickExceedsBound | src/features/sns/customer/components/ImageUpload.tsx:29-40 | As written, with four photos the add tile is offered and a pick of five leaves nine photos |
| ImageUpload.BoundedEditsStayBounded | src/features/sns/customer/components/ImageUpload.tsx:71 | With the bounded pick, any run of picks and removals starting from at most five photos ends with at most five |
| ReviewApi.Headers | src/features/map/services/reviewAPI.ts:36-42 | Every review call sends the JSON content type, plus a bearer exactly when storage holds a non-empty access token, and no other header |
| ReviewApi.HeadersAgreeWithInterceptor | src/features/map/services/reviewAPI.ts:37-38 | The review calls attach the same Authorization value the intercepted client would attach from the same storage read |
| ReviewApi.GetReviews | src/features/map/services/reviewAPI.ts:34-104 | GET on the store's reviews; a success status yields the list (a non-list payload yields an empty one); 401, 404 and 500 have fixed messages; any other status, no response at all, or a failed storage read gives the list prefix followed by the error's message |
| ReviewApi.CreateReview | src/features/map/services/reviewAPI.ts:107-131 | POST of the body to the store's reviews; the created review on a success status, and every failure collapses to the one generic message |
| ReviewApi.DeleteReview | src/features/map/services/reviewAPI.ts:134-178 | DELETE of one review; 401, 403, 404 and 500 have fixed messages; any other status, no response, or a failed storage read gives the delete prefix followed by the error's message |
| ReviewApi.UpdateReview | src/features/map/services/reviewAPI.ts:181-232 | PATCH of one review; 401, 403 and 404 have fixed messages, 500 adds the server's message or '알 수 없는 오류'; any other status, no response, or a failed storage read gives the update prefix followed by the error's message; no failure message is empty |
| ReviewApi.ListPrefixExactlyWhenUnmapped | src/features/map/services/reviewAPI.ts:94-102 | A list failure starts with the list prefix exactly when it is not one of the fixed 401, 404 or 500 messages |
| ReviewApi.DeletePrefixExactlyWhenUnmapped | src/features/map/services/reviewAPI.ts:166-176 | A delete failure starts with the delete prefix exactly when it is not one of the fixed 401, 403, 404 or 500 messages |
| ReviewApi.UpdatePrefixExactlyWhenUnmapped | src/features/map/services/reviewAPI.ts:220-230 | An update failure starts with the update prefix exactly when it is not one of the fixed 401, 403, 404 or 500 messages |
| ReviewWrite.Open | src/features/map/components/ReviewWriteModal.tsx:29-39 | Opening on an existing review copies its text and score in edit mode; otherwise the form is empty with five stars in create mode |
| ReviewWrite.TapStar | src/features/map/components/ReviewWriteModal.tsx:89-103 | Tapping the star at index i lights exactly stars 0..i and leaves the text and mode alone |
| ReviewWrite.Settle | src/features/map/components/ReviewWriteModal.tsx:63-83 | A successful call resets the form and closes with the success alert; a failure keeps the form and shows the error's message, or the fallback when it is empty |
| ReviewWrite.Send | src/features/map/components/ReviewWriteModal.tsx:55-83 | The editor closes exactly when the server accepted the update (edit mode with an existing review) or the create (otherwise); the request is the PATCH or the POST for that choice, sent exactly when storage could be read |
| ReviewWrite.HandleSubmit | src/features/map/components/ReviewWriteModal.tsx:41-87 | Blank text only alerts and sends nothing; otherwise the trimmed text with the score and userId goes out as a PATCH of the existing review in edit mode or a POST to the store's reviews, with the storage-derived headers; a closed editor has a reset form, an open one keeps it |
| ReviewWrite.OpenChoosesEndpoint | src/features/map/components/ReviewWriteModal.tsx:29-74 | Opening on an existing review and submitting edits that review with its own score; opening without one creates a new five-star review |
| ReviewWrite.ClosesIffAccepted | src/features/map/components/ReviewWriteModal.tsx:76-83 | For non-blank text the editor closes exactly when the server accepted the change, and a failure never shows the generic fallback, since no API message is empty |
| Stars.ScopeRow | src/features/map/components/ReviewCard.tsx:144-151 | Five flags, the star at index i filled exactly when i < scope |
| Stars.CountPrefixFlags | src/features/map/components/ReviewWriteModal.tsx:89-103 | Of n flags "position < k", exactly k (clamped to 0..n) are set |
| Stars.ScopeRowCount | src/features/map/components/ReviewWriteModal.tsx:89-103 | A score row shows exactly `scope` filled stars, clamped to 0..5, all on the left |
| Stars.Fill | src/features/map/components/StoreInfo.tsx:100 | The fill of star i lies in [0, 1], is 1 exactly when rating >= i + 1 and 0 exactly when rating <= i |
| Stars.StarAt | src/features/map/components/StoreInfo.tsx:102-135 | Star i is full exactly when rating >= i + 1, half exactly when i < rating < i + 1, and empty exactly when rating <= i |
| Stars.RatingRow | src/features/map/components/StoreInfo.tsx:98-136 | Five stars, each the icon StarAt gives for its index |
| Stars.RatingRowOrdered | src/features/map/components/StoreInfo.tsx:98-136 | No star is fuller than one to its left, and at most one star is half |
| Stars.WholeRatingMatchesScope | src/features/map/components/StoreInfo.tsx:98-136 | On a whole-number rating the rating row is full exactly where the score row of the same number is filled, and has no half star |
| ReviewCard.ActualReviewId | src/features/map/components/ReviewCard.tsx:32 | The card uses `reviewId` unless it is missing or 0, and then `id` |
| ReviewCard.IsOwner | src/features/map/components/ReviewCard.tsx:40 | The owner controls appear only for a store with an owner, and always for the viewer whose stored id is that owner's decimal id |
| ReviewCard.OwnerRecognised | src/features/map/components/ReviewCard.tsx:40 | The owner is recognised from the decimal id the session stores, and no other user is |
| ReviewCard.AbsentViewerIsUserZero | src/features/map/components/ReviewCard.tsx:40 | Without a session user id the viewer counts as user 0, so only a store owned by user 0 matches |
| ReviewCard.Preview | src/features/map/components/ReviewCard.tsx:55 | Text of at most 60 characters is shown whole; longer text shows its first 60 characters and '...' |
| ReviewCard.CardPressOpensModal | src/features/map/components/ReviewCard.tsx:56-62 | A press opens the full-text modal only when the preview was cut, and otherwise the preview is the whole text |
| ReviewCard.HandleDelete | src/features/map/components/ReviewCard.tsx:64-113 | A missing or zero store id or review id only alerts; a cancelled confirmation does nothing; a confirmed delete targets that review and notifies the parent exactly when the server answers success |
| ReviewCard.DeleteTargetsActualId | src/features/map/components/ReviewCard.tsx:32-100 | A confirmed delete sends DELETE for `reviewId` when present and non-zero, otherwise for `id`, with the storage-derived headers |
| StoreInfo.IndustryIcon | src/features/map/components/StoreInfo.tsx:138-157 | The card shows the cafe, grocery or shopping-bag icon exactly for a non-zero code in that table, and the restaurant icon otherwise |
| StoreInfo.IconTablesDisagree | src/features/map/components/StoreInfo.tsx:138-157 | The card and the detail sheet choose the same icon exactly for the codes outside the restaurant, grocery and the two retail tables |
| StoreInfo.DisplayName | src/features/map/components/StoreInfo.tsx:165 | A missing or empty name shows '매장명 없음'; a name over 20 characters shows its first 20 and '...'; any other is shown whole |
| StoreInfo.DisplayLocation | src/features/map/components/StoreInfo.tsx:168 | The same rule for the location at 30 characters, with '주소 정보 없음' |
| StoreInfo.DisplayHours | src/features/map/components/StoreInfo.tsx:171 | Non-empty hours are shown as given, otherwise '영업 시간 정보 없음' |
| StoreInfo.DisplayTextBounded | src/features/map/components/StoreInfo.tsx:164-168 | A shown name or location never exceeds its limit plus three dots, and is either the text itself or starts with its cut prefix |
| StoreInfo.StarRow | src/features/map/components/StoreInfo.tsx:98-136 | The card draws the rating row for the rating as given, so a 0 rating shows five empty stars |
| StoreInfo.LoadFollowStatus | src/features/map/components/StoreInfo.tsx:34-41 | The server's answer becomes the follow flag; a failed check leaves the state as it was |
| StoreInfo.Toggle | src/features/map/components/StoreInfo.tsx:44-68 | A press is ignored while an action runs; when following it asks for confirmation first; when not following it follows at once |
| StoreInfo.PerformFollowAction | src/features/map/components/StoreInfo.tsx:71-95 | On success the flag becomes whether the action was a follow and the parent is notified; on failure the flag is kept and the error's message, or the fallback, is shown; loading always ends |
| StoreInfo.PressButton | src/features/map/components/StoreInfo.tsx:44-95 | While an action runs a press changes nothing; otherwise loading ends and the follow state flips exactly when the server accepts and, for an unfollow, the user confirmed |
| StoreInfo.PressFlipsIffAccepted | src/features/map/components/StoreInfo.tsx:44-95 | A press flips the follow state exactly when the server accepts and, for an unfollow, the user confirmed |
| StoreInfo.PressWhileLoadingIgnored | src/features/map/components/StoreInfo.tsx:45 | While an action is running a press changes nothing |
| StoreDetail.IndustryIcon | src/features/map/components/StoreDetail.jsx:147-163 | The sheet shows the store icon exactly for a non-zero code in its first table, the cafe icon for 2501/2502, the shopping bag for 5101/5102, and the restaurant icon otherwise |
| StoreDetail.DisplayRating | src/features/map/components/StoreDetail.jsx:167 | A missing or zero average shows as 4; any other average is shown as given |
| StoreDetail.UnratedShowsFourStars | src/features/map/components/StoreDetail.jsx:166-207 | A store without ratings is drawn with four full stars and one empty one |
| StoreDetail.StarRow | src/features/map/components/StoreDetail.jsx:166-207 | Five stars; an unrated store shows four full and one empty; a rated store has star i full exactly when its average is at least i + 1 |
| StoreDetail.ViewerId | src/features/map/components/StoreDetail.jsx:246 | A missing or empty session id gives no viewer; otherwise the viewer is `parseInt` of it |
| StoreDetail.FindByUser | src/features/map/components/StoreDetail.jsx:245-247 | A review found belongs to the list and to that user, and none is found exactly when the user wrote none |
| StoreDetail.ExistingReview | src/features/map/components/StoreDetail.jsx:242-251 | Without a review list or a session user id there is no existing review |
| StoreDetail.ExistingReviewIsFirst | src/features/map/components/StoreDetail.jsx:242-251 | For the session's decimal id, the review found is that user's first one in the list, and none is found exactly when they wrote none |
| StoreDetail.Mine | src/features/map/components/StoreDetail.jsx:326-331 | Every review kept is the viewer's |
| StoreDetail.Others | src/features/map/components/StoreDetail.jsx:326-331 | No review kept is the viewer's |
| StoreDetail.SplitIsPermutation | src/features/map/components/StoreDetail.jsx:313-333 | The viewer's reviews and the others together are exactly the reviews given, as a multiset |
| StoreDetail.ViewerFirst | src/features/map/components/StoreDetail.jsx:313-333 | The sorted strip is a permutation of the reviews in which no review by the viewer follows one by somebody else |
| StoreDetail.ViewerFirstIsStablePartition | src/features/map/components/StoreDetail.jsx:313-333 | The sorted strip is a permutation of the reviews with every review by the viewer before every other one and the order inside each group kept; with no viewer it is the list as given |
| StoreDetail.MineOfSplit | src/features/map/components/StoreDetail.jsx:313-333 | Splitting a list already in viewer-first form gives back its two parts |
| StoreDetail.NoViewerKeepsOrder | src/features/map/components/StoreDetail.jsx:315 | Without a viewer no review is the viewer's, so the comparator is always 0 |
| StoreDetail.ReviewSection | src/features/map/components/StoreDetail.jsx:287-348 | Loading shows the loading text; a missing or empty list shows the empty message; otherwise a non-empty strip holding exactly the reviews, in the viewer-first order of the session's user id |
| StoreDetail.ImageSlots | src/features/map/components/StoreDetail.jsx:377-420 | No URLs give only the store placeholder; otherwise the first URL is the main image and four sub-slots are split between the next URLs and camera placeholders |
| StoreDetail.ImagesShownArePrefix | src/features/map/components/StoreDetail.jsx:390-392 | The images shown are exactly the first five URLs, or all of them when there are fewer, in order |
| StoreDetail.DisplayHeader | src/features/map/components/StoreDetail.jsx:272-284 | A missing or empty name, address or follower count shows '매장명', '주소 정보' or 100; any other is shown as given |
| StoreDetail.ZeroFollowersShowAsHundred | src/features/map/components/StoreDetail.jsx:283 | A store nobody follows shows the same follower count as one with 100 followers |
| StoreSearchDropdown.SearchNames | src/features/auth/services/CheckStoreNameAPI.tsx:51-74 | A success status yields the wrapped payload without dedup, one entry per store; a null payload becomes a one-element list holding null; any other reply gives an empty list |
| StoreSearchDropdown.SetQuery | src/features/auth/components/StoreSearchDropdown.tsx:99 | Typing changes only the query; searching waits for the debounce |
| StoreSearchDropdown.PerformSearch | src/features/auth/components/StoreSearchDropdown.tsx:43-56 | The results replace the list, which is shown exactly when non-empty; a failure empties and hides it; the spinner always stops |
| StoreSearchDropdown.Debounced | src/features/auth/components/StoreSearchDropdown.tsx:30-44 | When the debounce fires, a query of at least two characters once trimmed starts a search in its trimmed form and turns the spinner on; a shorter one clears and hides the list without searching |
| StoreSearchDropdown.SelectStore | src/features/auth/components/StoreSearchDropdown.tsx:58-63 | Selecting makes the store the selection and its name the query, hides the list and hands the store to the parent |
| StoreSearchDropdown.Focus | src/features/auth/components/StoreSearchDropdown.tsx:65-69 | Focusing reopens the list only when it has results |
| StoreSearchDropdown.BlurElapsed | src/features/auth/components/StoreSearchDropdown.tsx:71-76 | When the blur timer fires the list hides and nothing else changes |
| StoreSearchDropdown.NeverShownEmpty | src/features/auth/components/StoreSearchDropdown.tsx:30-76 | Under any interleaving of typing, debounce, replies, selection, focus and blur timers, the list is shown only when it has results |
| StoreSearchDropdown.SelectionReopensList | src/features/auth/components/StoreSearchDropdown.tsx:30-63 | Selecting a store whose name differs from the current query and is found again reopens the list at the next debounce, since the selection rewrote the query |
| StoreSearchDropdown.SearchingUntilSettled | src/features/auth/components/StoreSearchDropdown.tsx:43-55 | Once a search starts the spinner stays on through any typing, debounce, selection, focus or blur, and the reply turns it off |
| StoreSearchDropdown.NullPayloadBreaksList | src/features/auth/services/CheckStoreNameAPI.tsx:62-63 | A success reply with a null payload shows a list holding null, which the list rendering cannot draw |
| Heatmap.FindDay | src/features/store/components/HeatmapChart.tsx:18 | An entry `find` returns is for the weekday asked and is taken from the data |
| Heatmap.FindDayIsFirst | src/features/store/components/HeatmapChart.tsx:18 | `find` returns nothing exactly when the data has no entry for the weekday, and otherwise the first entry for it |
| Heatmap.SortedData | src/features/store/components/HeatmapChart.tsx:17-19 | At most seven rows, all for weekdays (entries with any other day name are dropped), in week order, each the first entry for its weekday, and every weekday of the data has its row |
| Heatmap.Found | src/features/store/components/HeatmapChart.tsx:17-19 | Each weekday contributes at most one row, present exactly when `find` returns an entry, and that entry |
| Heatmap.RowsOrdered | src/features/store/components/HeatmapChart.tsx:17-19 | The rows from weekday k on number at most 7 - k and run in strictly increasing week order |
| Heatmap.RowsAreFirstEntries | src/features/store/components/HeatmapChart.tsx:18 | Every row is the first entry of the data for its weekday |
| Heatmap.RowsCoverData | src/features/store/components/HeatmapChart.tsx:17-19 | Every weekday from k on that the data has an entry for gets a row, and every row is for a weekday from k on, so entries with any other day name are dropped |
| Heatmap.SortedDataShape | src/features/store/components/HeatmapChart.tsx:13-19 | The chart has at most seven rows, Monday to Sunday, no day twice, each the first entry for its day, and every weekday present in the data shown |
| Heatmap.RowLabel | src/features/store/components/HeatmapChart.tsx:13-14 | A row's label is the entry of the label list at its weekday's position in the week order |
| Heatmap.RowLabelAsWritten | src/features/store/components/HeatmapChart.tsx:55 | As written, the label at position i is the right label for its row exactly when that row's weekday is the i-th of the week |
| Heatmap.LabelShiftsWhenDayMissing | src/features/store/components/HeatmapChart.tsx:52-55 | As written, labels follow the position in the filtered list: with only a Tuesday entry, the Tuesday row is labelled '월' instead of '화' |
| Heatmap.LabelsAgreeOnFullWeek | src/features/store/components/HeatmapChart.tsx:52-55 | When all seven weekdays are present, the label by position is the label of the row's own weekday |
| Heatmap.HourValues | src/features/store/components/HeatmapChart.tsx:24 | One value per hour, the chosen count of that hour, in order |
| Heatmap.MaxValue | src/features/store/components/HeatmapChart.tsx:22-26 | No values give no maximum; otherwise the maximum is one of the values and no value exceeds it |
| Heatmap.Intensity | src/features/store/components/HeatmapChart.tsx:29-32 | For a value between 0 and the maximum the intensity lies in [0, 1]; a zero value has intensity 0 and the maximum itself, when positive, intensity 1 |
| Heatmap.IntensityInUnit | src/features/store/components/HeatmapChart.tsx:29-32 | For non-negative counts every intensity lies in [0, 1], a zero count has intensity 0, and a largest positive count has intensity 1 |
| Heatmap.ColorOf | src/features/store/components/HeatmapChart.tsx:35-44 | The blank grey is used exactly for intensity 0; every other intensity gets an orange shade |
| Heatmap.Legend | src/features/store/components/HeatmapChart.tsx:82-88 | The legend has five swatches at intensities 0, 1/4, 1/2, 3/4 and 1, the first blank |
| FeedApi.RealOr | src/features/sns/owner/services/feedApi.ts:37 | `x \|\| fallback` on a number: a missing or zero value gives the fallback, any other is kept |
| FeedApi.ProfileRequests | src/features/sns/owner/services/feedApi.ts:12-24 | The user record is always requested first; the store record is requested, for the user's storeId, exactly when the user reply had status 'success' |
| FeedApi.ReviewCount | src/features/sns/owner/services/feedApi.ts:38 | A missing review list counts 0; otherwise the count is its length |
| FeedApi.GetProfile | src/features/sns/owner/services/feedApi.ts:7-58 | getProfile never rejects: any failure of either request gives the default profile; otherwise name, address, rating (0 when missing), review count and storeId come from the two replies |
| FeedApi.MapReview | src/features/sns/owner/services/feedApi.ts:89-95 | A missing or zero id becomes the position plus one, the rating defaults to 5, the content to '리뷰 내용', the user name to customerName, then author, then '고객', and the time to now |
| FeedApi.MapReviews | src/features/sns/owner/services/feedApi.ts:89-95 | The mapping is one to one and keeps the order |
| FeedApi.GetReviews | src/features/sns/owner/services/feedApi.ts:61-108 | getReviews never rejects: a failed request or a store without reviews gives an empty list; otherwise the store's reviews mapped one to one |
| FeedApi.ReviewCountMatchesList | src/features/sns/owner/services/feedApi.ts:38-98 | From the same replies the profile's review count always equals the length of the review list, failures included |
| FeedApi.MissingIdsArePositions | src/features/sns/owner/services/feedApi.ts:90 | Reviews without ids are numbered 1..n by position, so the ids are all distinct |
| FeedApi.Params | src/features/sns/owner/services/feedApi.ts:125-128 | The query always carries `size`, and carries `cursorPostId` exactly when the caller gave one, a cursor of 0 included |
| FeedApi.Normalize | src/features/sns/owner/services/feedApi.ts:136-139 | Missing values become an empty list; the next cursor is kept exactly when it is present and non-zero |
| FeedApi.GetStorePosts | src/features/sns/owner/services/feedApi.ts:113-188 | A listing requests the owners' or the customers' path with those parameters; it resolves exactly on status 'success' with the normalised page, and otherwise rejects with the server's message, the default message, or the transport's own error |
| FeedApi.NextPageCarriesCursor | src/features/sns/owner/services/feedApi.ts:126-138 | Passing on the cursor a page returned sends it exactly when the server gave a non-zero one, so a server cursor of 0 ends paging |
| FeedApi.NormalizeIdempotent | src/features/sns/owner/services/feedApi.ts:136-139 | Normalising an already normalised page changes nothing |
| FeedApi.AudiencesDifferOnlyInPath | src/features/sns/owner/services/feedApi.ts:113-188 | The owner and customer listings send the same parameters and give the same outcome, and differ only in their path |
| FeedApi.GetPostDetail | src/features/sns/owner/services/feedApi.ts:191-211 | The post resolves exactly on status 'success', as the server sent it; otherwise it rejects with the server's message, the default, or the transport's own error |
| FeedApi.GetPostComments | src/features/sns/owner/services/feedApi.ts:214-234 | The comments resolve exactly on status 'success', a missing list as an empty one; otherwise they reject with the server's message, the default, or the transport's own error |
| FeedApi.CreateComment | src/features/sns/owner/services/feedApi.ts:263-269 | A new comment is a POST of the trimmed text to the post's comments |
| FeedApi.UpdateComment | src/features/sns/owner/services/feedApi.ts:283-289 | An edit is a PATCH of the trimmed text to the comment |
| FeedApi.CommentTextIsTrimmed | src/features/sns/owner/services/feedApi.ts:267-289 | The text sent has no surrounding white space left, is the same for create and edit, and is empty exactly when the typed text was all white space |
| PostDetail.NestedFloor | src/features/sns/owner/screens/PostDetailScreen.tsx:81-86 | Flooring to whole minutes and then to whole hours gives the same hours as flooring the milliseconds to hours directly |
| PostDetail.FormatDate | src/features/sns/owner/screens/PostDetailScreen.tsx:78-94 | Under an hour the result is the whole minutes elapsed, negative and zero included; under a day the whole hours; from a day on the date's own locale text, with no 'just now' case |
| PostDetail.AgreesWithTimeDiffSameDay | src/features/sns/owner/screens/PostDetailScreen.tsx:81-86 | For a gap between one minute and one day on the same calendar day, formatDate and the map's TimeDiff give the same text |
| PostDetail.DiffersUnderAMinute | src/features/sns/owner/screens/PostDetailScreen.tsx:81-84 | Under a minute TimeDiff says '방금 전' while formatDate says '0분 전', or a negative minute count when the clock runs behind |
| PostDetail.GetDisplayData | src/features/sns/owner/screens/PostDetailScreen.tsx:96-119 | There is display data exactly when the route type names a record that is present: a post shows its store name, like count and no rating; a review its user name, zero likes, its rating, and an empty time when it has none |
| PostDetail.ErrorText | src/features/sns/owner/screens/PostDetailScreen.tsx:68 | The error shown is never empty: the error's message when it has one, otherwise '데이터를 불러오는데 실패했습니다.' |
| PostDetail.LoadData | src/features/sns/owner/screens/PostDetailScreen.tsx:48-72 | A post route succeeds exactly when both the detail and the comments load, and then shows the fetched post and comments; a review route succeeds exactly when its comments load and keeps the review; a failure leaves the records as they were and sets a non-empty error; any other route only clears the error |
| PostDetail.Render | src/features/sns/owner/screens/PostDetailScreen.tsx:132-156 | A non-empty error wins; otherwise missing display data gives '데이터를 불러올 수 없습니다.'; otherwise the detail with every loaded comment and their count |
| PostDetail.LoadedPostIsShown | src/features/sns/owner/screens/PostDetailScreen.tsx:53-60 | When both requests of a post succeed the detail view shows the fetched record's store name and like count, no rating, and the fetched comments |
| PostDetail.FailureShowsError | src/features/sns/owner/screens/PostDetailScreen.tsx:53-68 | Any failed request of a post or review route ends in the error view, never in a half-loaded detail |
| PostDetail.MismatchIsUnavailable | src/features/sns/owner/screens/PostDetailScreen.tsx:53-65 | A route whose type names a record it does not carry loads nothing and shows the unavailable view |

## Left out

- `src/shared/utils/tokenUtil` (`getTokenFromLocal`) is not part of this model. The stored credential is an oracle read that either fails or yields optional tokens.
- Transport: axios, `fetch` and Firebase messaging are replaced by their replies as parameters. The model does not cover concurrency between requests, promise interleavings other than the two orders `PostDetail.LoadData` distinguishes, or two simultaneous 401s. The source shares no state between requests, so one request is modelled at a time.
- Timers: `setTimeout` in the push hook and the debounce and blur delays of the store picker appear as delay values, not as elapsed time. Unmount clean-up and timer cancellation are left out.
- Dates: `new Date(...)` parsing, time zones, daylight-saving shifts and `toLocaleDateString` are abstracted. An instant carries its epoch milliseconds, its local day index and its locale date text. The two `toLocaleDateString` formats of the map and the feed are one opaque text.
- `parseInt`: the model covers decimal digits with an optional sign and leading white space. Hexadecimal prefixes and radix handling are left out.
- Strings: lengths count characters, not UTF-16 code units.
- Heatmap colours: the float RGB computation of `getColor` is left out, and `ColorOf` models only the exact-zero colour and the colour's dependence on intensity. Intensities are exact rationals, so NaN and infinities do not arise. `Math.max` over no values is `None`. The day name is a datatype instead of a free string.
- Transient flags: `refreshing` and the screens' own `isLoading`/`loading` spinners are left out. Three are kept: the follow toggle's `isLoading`, which gates presses; the dropdown's `isSearching`, on from the debounced search to its reply; and the detail sheet's `loading`, a parameter of `StoreDetail.ReviewSection`.
- Null entries inside an array payload of the store searches are not modelled; only a null payload as a whole is.
- `mapStore.resetMapState` is modelled only as the effect `AuthStore.ClearAuthOn` returns.
- Owner-feed wrappers with no logic beyond a status check are not modelled: `updatePost`, `deletePost`, `deleteComment`, `addPostLike`, `removePostLike` and `getPostLikeStatus` in `feedApi.ts`. Of `createComment` and `updateComment`, only the request built is modelled.
- `StoreDetail.jsx` fetching: `fetchStoreDetail`, `fetchSnsPosts` and the reload callbacks after a review changes are network calls whose results feed the modelled projections. They are not modelled themselves.
- The follow API (`followAPI.ts`) is an oracle answer to `StoreInfo`.
- Console logging is left out everywhere.
- Rendering, styles and navigation are left out except where a screen's choice of what to show is the property: the error, unavailable and detail views; the add tile; the delete control; the full-text modal.

## Findings

| source | as written | input that shows it | evidently intended | confidence | as-written member | corrected member |
|---|---|---|---|---|---|---|
| src/shared/services/api.ts:14-17, 53-54 | The replay `api(originalRequest)` runs the request interceptor again, which overwrites the freshly set `Bearer <new>` header with the stored access token | A 401 with a stored access token `old` and a refresh that returns `new`: the replay carries `Bearer old` | The replay carries the refreshed token | not executed | Api.ReplayCarriesStoredToken | Api.ReplayCarriesNewToken |
| src/features/sns/customer/components/ImageUpload.tsx:29, 38-40, 71 | `selectionLimit: 5` limits one pick, the add tile shows under 5 photos, and picks are appended | 4 photos, then one pick of 5 images: 9 photos | At most 5 photos in all | not executed | ImageUpload.PickExceedsBound | ImageUpload.OnPickBounded, ImageUpload.BoundedEditsStayBounded |
| src/features/store/components/HeatmapChart.tsx:13-14, 52-55 | Rows are labelled `dayLabels[dayIndex]`, where the index is the position in the filtered list, not the day | Data without Monday: the Tuesday row is labelled '월' | Each row is labelled with its own day | not executed | Heatmap.RowLabelAsWritten, Heatmap.LabelShiftsWhenDayMissing | Heatmap.RowLabel, Heatmap.LabelsAgreeOnFullWeek |
