/** The root copy's detail view (components/AssetDetail.tsx): the values it
    derives from an asset for display, and the story it stores from the
    curator service. */
module DetailView {
  import opened Types
  import opened Text

  // ---------------------------------------------------------------------------
  // Display id
  // ---------------------------------------------------------------------------

  /** The "ID:" badge: the id left-padded with '0' to four characters. */
  function DisplayId(id: string): (r: string)
    ensures |r| == if |id| >= 4 then |id| else 4
    ensures r[|r| - |id|..] == id
    ensures forall i :: 0 <= i < |r| - |id| ==> r[i] == '0'
    ensures |id| >= 4 ==> r == id
  {
    PadStart(id, 4, '0')
  }

  /** The badge ends with the id, so two distinct ids of the same length get distinct badges. */
  lemma DisplayIdInjective(id1: string, id2: string)
    requires DisplayId(id1) == DisplayId(id2)
    requires |id1| == |id2|
    ensures id1 == id2
  {
    var r := DisplayId(id1);
    assert id1 == r[|r| - |id1|..] == id2;
  }

  /** Ids of different lengths can share a badge: "1" and "01" both show as "0001". */
  lemma DisplayIdCollision()
    ensures DisplayId("1") == DisplayId("01") == "0001"
  {
    DisplayIdOfDigit('1');
    var r := DisplayId("01");
    assert r[2..] == "01";
    assert r == [r[0], r[1]] + r[2..];
  }

  /** The single-digit ids of the catalog are displayed as `000<d>`. */
  lemma DisplayIdOfDigit(d: char)
    ensures DisplayId([d]) == ['0', '0', '0', d]
  {
    var r := DisplayId([d]);
    assert r[3..] == [d];
    assert r == [r[0], r[1], r[2]] + r[3..];
  }

  // ---------------------------------------------------------------------------
  // `||` fallbacks
  // ---------------------------------------------------------------------------

  /** JavaScript's `s || fallback` on an optional string: `undefined` and `''`
      are falsy and give the fallback. The result is empty only when both
      sides are, a truthy value wins, and any result other than the fallback
      is that value. */
  function Or(s: Option<string>, fallback: string): (r: string)
    ensures r == "" <==> !Truthy(s) && fallback == ""
    ensures Truthy(s) ==> r == s.value
    ensures r != fallback ==> Truthy(s) && r == s.value
  {
    if Truthy(s) then s.value else fallback
  }

  /** `(s || '') || fallback` is `s || fallback`: normalising to `''` first
      changes nothing downstream. */
  lemma OrEmptyThenFallback(s: Option<string>, fallback: string)
    ensures Or(Some(Or(s, "")), fallback) == Or(s, fallback)
  {
  }

  /** The result is empty only when both the value and the fallback are. */
  lemma OrEmptyIff(s: Option<string>, fallback: string)
    ensures Or(s, fallback) == "" <==> !Truthy(s) && fallback == ""
  {
  }

  /** The sentence shown in "Metadata Summary" for an asset without a description. */
  const DefaultMetadata := "Historical preservation entry. Automated neural reconstruction from 360° photographic source data."

  /** The "Metadata Summary" text. */
  function MetadataText(a: Asset): (r: string)
    ensures r != ""
    ensures Truthy(a.description) ==> r == a.description.value
  {
    Or(a.description, DefaultMetadata)
  }

  /** The summary shows the description when it is non-empty and the fixed
      sentence otherwise, so it is never blank. */
  lemma MetadataTextNeverBlank(a: Asset)
    ensures Truthy(a.description) ==> MetadataText(a) == a.description.value
    ensures !Truthy(a.description) ==> MetadataText(a) == DefaultMetadata
    ensures MetadataText(a) != ""
  {
    OrEmptyIff(a.description, DefaultMetadata);
  }

  /** The description argument of the story request: `description || ''`. */
  function StoryContext(a: Asset): (r: string)
    ensures r == "" <==> !Truthy(a.description)
  {
    Or(a.description, "")
  }

  /** The story request carries the description when there is one, and `''`
      otherwise, never `undefined`. */
  lemma StoryContextIff(a: Asset)
    ensures StoryContext(a) == "" <==> !Truthy(a.description)
    ensures Truthy(a.description) ==> StoryContext(a) == a.description.value
  {
    OrEmptyIff(a.description, "");
  }

  // ---------------------------------------------------------------------------
  // The story service
  // ---------------------------------------------------------------------------

  /** What the generative service did: it answered with a (possibly missing)
      text, or the call threw. The network call itself is not modelled. */
  datatype ServiceOutcome = Replied(text: Option<string>) | Failed

  /** The sentence the service returns when the call throws. */
  const FallbackStory := "A digital silhouette of physical existence."

  /** `generateAssetStory`: the response text, or the fixed sentence on failure. */
  function GenerateStory(outcome: ServiceOutcome): (r: Option<string>)
    ensures outcome.Failed? ==> r == Some(FallbackStory)
    ensures r.None? ==> outcome.Replied?
  {
    match outcome
    case Replied(text) => text
    case Failed => Some(FallbackStory)
  }

  /** What the view stores from the service's answer: `story || ''`. */
  function StoredStory(outcome: ServiceOutcome): (r: string)
    ensures outcome.Failed? ==> r == FallbackStory
    ensures r == "" ==> outcome.Replied?
  {
    Or(GenerateStory(outcome), "")
  }

  /** A failed call stores the fixed sentence; a reply stores its text, and the
      stored story is empty exactly when the reply had no text or empty text. */
  lemma StoredStoryCases(outcome: ServiceOutcome)
    ensures outcome.Failed? ==> StoredStory(outcome) == FallbackStory
    ensures outcome.Replied? && Truthy(outcome.text) ==> StoredStory(outcome) == outcome.text.value
    ensures StoredStory(outcome) == "" <==> outcome.Replied? && !Truthy(outcome.text)
  {
    OrEmptyIff(GenerateStory(outcome), "");
  }

  // ---------------------------------------------------------------------------
  // Viewport
  // ---------------------------------------------------------------------------

  /** What the left pane shows: the processing spinner, the 3D viewer on a
      model URL, or the thumbnail image. */
  datatype Viewport = Spinner | ModelViewer(src: string) | Thumbnail(src: string)

  /** The left pane: the spinner while processing, then the model when the asset
      has a non-empty model URL and the thumbnail otherwise. */
  function ViewportFor(a: Asset, isProcessing: bool): (v: Viewport)
    ensures v == Spinner <==> isProcessing
    ensures v.ModelViewer? <==> !isProcessing && Truthy(a.modelUrl)
  {
    if isProcessing then Spinner
    else if Truthy(a.modelUrl) then ModelViewer(a.modelUrl.value)
    else Thumbnail(a.thumbnail)
  }

  /** Once processing is over, the 3D viewer is shown iff the model URL is
      non-empty, on that URL; otherwise the thumbnail is shown. This unfolds
      `ViewportFor` case by case; it states the choice, it does not check it
      against a second definition. */
  lemma ViewportChoice(a: Asset)
    ensures ViewportFor(a, false).ModelViewer? <==> Truthy(a.modelUrl)
    ensures ViewportFor(a, false).ModelViewer? ==> ViewportFor(a, false).src == a.modelUrl.value
    ensures ViewportFor(a, false).Thumbnail? <==> !Truthy(a.modelUrl)
    ensures ViewportFor(a, false).Thumbnail? ==> ViewportFor(a, false).src == a.thumbnail
    ensures ViewportFor(a, false) != Spinner
  {
  }
}
