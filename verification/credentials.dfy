/**
 * The persisted credential as the client reads it back from secure storage
 * (`getTokenFromLocal`). The storage helper itself, src/shared/utils/tokenUtil,
 * is not part of this model: every read is an oracle value that either yields
 * the stored record (possibly none) or fails.
 */
module Credentials {
  import opened Optional
  import JsText

  datatype Credential = Credential(accessToken: Option<string>, refreshToken: Option<string>)

  /** One awaited `getTokenFromLocal()`: resolved with a record (or nothing), or rejected. */
  datatype StorageRead = Loaded(credential: Option<Credential>) | ReadFailed(message: string)

  /** `tokenData?.accessToken`, kept only when truthy. */
  function AccessToken(read: StorageRead): (r: Option<string>)
    ensures r.Some? <==> read.Loaded? && read.credential.Some? && JsText.TruthyText(read.credential.value.accessToken)
    ensures r.Some? ==> r.value != "" && r == read.credential.value.accessToken
  {
    if read.Loaded? && read.credential.Some? && JsText.TruthyText(read.credential.value.accessToken)
    then read.credential.value.accessToken
    else None
  }

  /** `tokenData?.refreshToken`, kept only when truthy. */
  function RefreshToken(read: StorageRead): (r: Option<string>)
    ensures r.Some? <==> read.Loaded? && read.credential.Some? && JsText.TruthyText(read.credential.value.refreshToken)
    ensures r.Some? ==> r.value != "" && r == read.credential.value.refreshToken
  {
    if read.Loaded? && read.credential.Some? && JsText.TruthyText(read.credential.value.refreshToken)
    then read.credential.value.refreshToken
    else None
  }

  /** The Authorization value of the bearer scheme (section 2.1 of RFC 6750). */
  function Bearer(token: string): (h: string)
    ensures |h| == |token| + 7 && h[7..] == token
  {
    "Bearer " + token
  }

  /** Different tokens give different header values. */
  lemma BearerInjective(a: string, b: string)
    ensures Bearer(a) == Bearer(b) <==> a == b
  {
    if Bearer(a) == Bearer(b) {
      assert a == Bearer(a)[7..];
    }
  }
}
