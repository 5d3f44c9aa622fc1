/**
 * The photo list of the post composer
 * (src/features/sns/customer/components/ImageUpload.tsx): picked photos are
 * appended, any one can be removed, and the add tile is offered below five photos.
 *
 * The native picker is an oracle: its response is an input.
 */
module ImageUpload {
  import opened Optional
  import JsText
  import Lists

  /** The add tile disappears at this many photos; it is also the picker's per-pick limit. */
  const MaxImages: nat := 5

  datatype Asset = Asset(uri: Option<string>)

  datatype PickerResponse = PickerResponse(didCancel: bool, errorCode: Option<string>, assets: Option<seq<Asset>>)

  datatype Alert = Alert(title: string, message: string)

  /** `assets.map(a => a.uri).filter(uri => uri)`: the non-empty URIs in picker order. */
  function PickedUris(assets: seq<Asset>): (uris: seq<string>)
    ensures |uris| <= |assets|
    ensures forall k :: 0 <= k < |uris| ==> uris[k] != ""
    ensures (forall k :: 0 <= k < |assets| ==> JsText.TruthyText(assets[k].uri)) ==>
      uris == seq(|assets|, k requires 0 <= k < |assets| => assets[k].uri.value)
  {
    if assets == [] then []
    else
      var rest := PickedUris(assets[1..]);
      if JsText.TruthyText(assets[0].uri) then [assets[0].uri.value] + rest else rest
  }

  /** The picker callback: a cancel changes nothing; an error code alerts and changes
      nothing; a non-empty asset list appends its URIs. */
  function OnPick(images: seq<string>, r: PickerResponse): (out: (seq<string>, Option<Alert>))
    ensures r.didCancel ==> out == (images, None)
    ensures !r.didCancel && JsText.TruthyText(r.errorCode) ==>
      out == (images, Some(Alert("오류", "이미지 선택 중 오류가 발생했습니다.")))
    ensures !r.didCancel && !JsText.TruthyText(r.errorCode) && r.assets.Some? && r.assets.value != [] ==>
      out == (images + PickedUris(r.assets.value), None)
    ensures |images| <= |out.0| && out.0[..|images|] == images
  {
    if r.didCancel then (images, None)
    else if JsText.TruthyText(r.errorCode) then (images, Some(Alert("오류", "이미지 선택 중 오류가 발생했습니다.")))
    else if r.assets.Some? && r.assets.value != [] then (images + PickedUris(r.assets.value), None)
    else (images, None)
  }

  /** `removeImage(index)` */
  function RemoveImage(images: seq<string>, index: int): (out: seq<string>)
    ensures 0 <= index < |images| ==> out == images[..index] + images[index + 1..]
    ensures !(0 <= index < |images|) ==> out == images
  {
    Lists.DropIndexSplices(images, index);
    Lists.DropIndex(images, index)
  }

  /** The picker can be opened (from the empty upload area or the add tile) exactly while
      there are fewer than five photos. */
  function PickerOffered(images: seq<string>): (offered: bool)
    ensures images == [] ==> offered
    ensures offered <==> |images| < MaxImages
  {
    if images == [] then true else |images| < MaxImages
  }

  /** Removing the photo a one-photo pick just added gives back the list before it. */
  lemma RemoveUndoesPick(images: seq<string>, uri: string)
    requires uri != ""
    ensures var picked := OnPick(images, PickerResponse(false, None, Some([Asset(Some(uri))]))).0;
      RemoveImage(picked, |images|) == images
  {
    var picked := images + [uri];
    assert PickedUris([Asset(Some(uri))]) == [uri];
    assert picked[..|images|] == images;
  }

  /** The pick with the total bound the add tile implies: the photos kept are the first
      five of the appended list. */
  function OnPickBounded(images: seq<string>, r: PickerResponse): (out: (seq<string>, Option<Alert>))
    requires |images| <= MaxImages
    ensures |out.0| <= MaxImages
    ensures |images| <= |out.0| && out.0[..|images|] == images
    ensures out.1 == OnPick(images, r).1
    ensures |OnPick(images, r).0| <= MaxImages ==> out == OnPick(images, r)
  {
    var (all, alert) := OnPick(images, r);
    if |all| <= MaxImages then (all, alert) else (all[..MaxImages], alert)
  }

  /** A user action on the photo list. */
  datatype Edit = Pick(response: PickerResponse) | Remove(index: int)

  /** The list after a run of edits, with picks made only while the picker is offered. */
  function RunEdits(images: seq<string>, edits: seq<Edit>, bounded: bool): seq<string>
    requires bounded ==> |images| <= MaxImages
    decreases |edits|
  {
    if edits == [] then images
    else
      var next := match edits[0]
        case Pick(r) =>
          if !PickerOffered(images) then images
          else if bounded then OnPickBounded(images, r).0
          else OnPick(images, r).0
        case Remove(i) => RemoveImage(images, i);
      RunEdits(next, edits[1..], bounded)
  }

  /** As written, the five-photo bound is only a per-pick limit: with four photos the add
      tile is offered, and a pick of five gives nine. */
  lemma PickExceedsBound()
    ensures var images := ["a", "b", "c", "d"];
      var assets := seq(5, _ => Asset(Some("e")));
      PickerOffered(images) &&
      |RunEdits(images, [Pick(PickerResponse(false, None, Some(assets)))], false)| == 9
  {
    var images := ["a", "b", "c", "d"];
    var assets := seq(5, _ => Asset(Some("e")));
    var edits := [Pick(PickerResponse(false, None, Some(assets)))];
    assert PickedUris(assets) == seq(5, k requires 0 <= k < 5 => assets[k].uri.value);
    assert RunEdits(images, edits, false) == RunEdits(OnPick(images, edits[0].response).0, edits[1..], false);
  }

  /** Under the bounded pick, any run of picks and removals from a list of at most five
      photos keeps at most five. */
  lemma {:induction false} BoundedEditsStayBounded(images: seq<string>, edits: seq<Edit>)
    requires |images| <= MaxImages
    ensures |RunEdits(images, edits, true)| <= MaxImages
    decreases |edits|
  {
    if edits != [] {
      var next := match edits[0]
        case Pick(r) => if !PickerOffered(images) then images else OnPickBounded(images, r).0
        case Remove(i) => RemoveImage(images, i);
      assert |next| <= MaxImages;
      BoundedEditsStayBounded(next, edits[1..]);
    }
  }
}
