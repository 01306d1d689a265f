/** The `src/` copy's detail view (src/components/AssetDetail.tsx): the model on
    display, the selected version of an asset's capture history, and the
    "Temporal Sequence" timeline drawn from them. */
module VersionTimeline {
  import opened Types

  // ---------------------------------------------------------------------------
  // The version index
  // ---------------------------------------------------------------------------

  /** The states the version index can be in: 0 for an asset without a
      version list, -1 for an empty one (an empty array is truthy, so the
      initialiser yields `0 - 1`), otherwise a position in the list. */
  predicate IndexOk(versions: Option<seq<AssetVersion>>, idx: int)
    ensures IndexOk(versions, idx) ==> -1 <= idx
    ensures IndexOk(versions, idx) && idx == -1 ==> versions == Some([])
  {
    match versions
    case None => idx == 0
    case Some(vs) => if vs == [] then idx == -1 else 0 <= idx < |vs|
  }

  /** The initial `activeVersionIndex`: the newest version when there is a list. */
  function InitialIndex(versions: Option<seq<AssetVersion>>): (idx: int)
    ensures IndexOk(versions, idx)
    ensures versions.Some? && versions.value != [] ==> idx == |versions.value| - 1
  {
    if versions.Some? then |versions.value| - 1 else 0
  }

  // ---------------------------------------------------------------------------
  // The timeline overlay
  // ---------------------------------------------------------------------------

  /** What the overlay draws: the archive date, the three captions under the
      track, one highlight flag per dot, the filled width of the track and each
      dot's left offset (both in percent). */
  datatype Timeline = Timeline(
    date: string,
    firstCaption: string, activeCaption: string, lastCaption: string,
    dots: seq<bool>,
    width: real,
    dotLeft: seq<real>)

  /** The percentage `(i / (n - 1)) * 100` used both for the filled width and
      for each dot's position. */
  function Percent(i: int, n: int): (p: real)
    requires n > 1
    ensures i == 0 ==> p == 0.0
    ensures i == n - 1 ==> p == 100.0
  {
    var d := (n - 1) as real;
    assert i == n - 1 ==> (i as real) / d == 1.0;
    (i as real) / d * 100.0
  }

  /** The overlay, drawn only when there are at least two versions, so the
      divisor `n - 1` is never zero. */
  function TimelineOf(versions: Option<seq<AssetVersion>>, idx: int): (t: Option<Timeline>)
    requires IndexOk(versions, idx)
    ensures t.Some? <==> versions.Some? && |versions.value| > 1
    ensures t.Some? ==> |t.value.dots| == |t.value.dotLeft| == |versions.value|
  {
    if versions.Some? && |versions.value| > 1 then
      var vs := versions.value;
      var n := |vs|;
      Some(Timeline(
        vs[idx].date,
        vs[0].caption, vs[idx].caption, vs[n - 1].caption,
        seq(n, i => i <= idx),
        Percent(idx, n),
        seq(n, i => Percent(i, n))))
    else
      None
  }

  /** The number of highlighted dots. */
  function CountTrue(bs: seq<bool>): nat
  {
    if bs == [] then 0 else CountTrue(bs[..|bs| - 1]) + (if bs[|bs| - 1] then 1 else 0)
  }

  /** Among the first `n` dots, those up to `idx` are lit: `min(n, idx + 1)` of them. */
  lemma {:induction false} CountDots(n: nat, idx: int)
    requires idx >= -1
    ensures CountTrue(seq(n, i => i <= idx)) == if n <= idx + 1 then n else idx + 1
  {
    if n > 0 {
      CountDots(n - 1, idx);
      assert seq(n, i => i <= idx)[..n - 1] == seq(n - 1, i => i <= idx);
    }
  }

  /** The overlay exists iff the asset has at least two versions. */
  lemma TimelineShownIff(versions: Option<seq<AssetVersion>>, idx: int)
    requires IndexOk(versions, idx)
    ensures TimelineOf(versions, idx).Some? <==> versions.Some? && |versions.value| > 1
  {
  }

  /** The archive date and the middle caption belong to the active version, the
      outer captions to the oldest and the newest one. This reads the fields
      back out of `TimelineOf`, so it documents the overlay rather than checking
      it against an independent definition. */
  lemma TimelineCaptions(versions: Option<seq<AssetVersion>>, idx: int)
    requires IndexOk(versions, idx)
    requires TimelineOf(versions, idx).Some?
    ensures var vs, t := versions.value, TimelineOf(versions, idx).value;
      && 0 <= idx < |vs|
      && t.date == vs[idx].date
      && t.activeCaption == vs[idx].caption
      && t.firstCaption == vs[0].caption
      && t.lastCaption == vs[|vs| - 1].caption
  {
  }

  /** Dot `i` is lit iff `i <= idx`, so exactly `idx + 1` dots are lit: the
      lit dots are a prefix of the track ending at the active version. */
  lemma HighlightedDots(versions: Option<seq<AssetVersion>>, idx: int)
    requires IndexOk(versions, idx)
    requires TimelineOf(versions, idx).Some?
    ensures var t := TimelineOf(versions, idx).value;
      && |t.dots| == |versions.value|
      && (forall i :: 0 <= i < |t.dots| ==> (t.dots[i] <==> i <= idx))
      && CountTrue(t.dots) == idx + 1
  {
    CountDots(|versions.value|, idx);
  }

  /** The filled width lies between 0% and 100%; it is 0% exactly at the
      oldest version and 100% exactly at the newest. */
  lemma {:induction false} PercentBounds(i: int, n: int)
    requires n > 1 && 0 <= i < n
    ensures 0.0 <= Percent(i, n) <= 100.0
    ensures Percent(i, n) == 0.0 <==> i == 0
    ensures Percent(i, n) == 100.0 <==> i == n - 1
  {
    var d := (n - 1) as real;
    var r := (i as real) / d;
    assert r * d == i as real;
    assert Percent(i, n) == r * 100.0;
    RatioFacts(r, d);
    assert 0.0 <= i as real <= d;
  }

  /** For a positive divisor `d`, the ratio `r` is 0, 1 or between them exactly
      when `r * d` is 0, `d` or between them. */
  lemma RatioFacts(r: real, d: real)
    requires d > 0.0
    ensures r * d == 0.0 <==> r == 0.0
    ensures r * d == d <==> r == 1.0
    ensures 0.0 <= r * d <= d ==> 0.0 <= r <= 1.0
  {
    if r < 0.0 {
      assert r * d < 0.0;
    } else if r > 1.0 {
      assert (r - 1.0) * d > 0.0;
    } else if r < 1.0 {
      assert (1.0 - r) * d > 0.0;
    }
  }

  /** Later versions sit further along the track. */
  lemma PercentIncreasing(i: int, j: int, n: int)
    requires n > 1 && i < j
    ensures Percent(i, n) < Percent(j, n)
  {
    var d := (n - 1) as real;
    assert (i as real) / d < (j as real) / d;
  }

  /** The filled part of the track ends exactly at the active dot, and a dot is
      lit iff it lies under the filled part. */
  lemma FillReachesActiveDot(versions: Option<seq<AssetVersion>>, idx: int)
    requires IndexOk(versions, idx)
    requires TimelineOf(versions, idx).Some?
    ensures var t := TimelineOf(versions, idx).value;
      && |t.dotLeft| == |t.dots|
      && 0 <= idx < |t.dotLeft|
      && t.width == t.dotLeft[idx]
      && forall i :: 0 <= i < |t.dots| ==> (t.dots[i] <==> t.dotLeft[i] <= t.width)
  {
    var n := |versions.value|;
    forall i | 0 <= i < n
      ensures i <= idx <==> Percent(i, n) <= Percent(idx, n)
    {
      if i < idx {
        PercentIncreasing(i, idx, n);
      } else if idx < i {
        PercentIncreasing(idx, i, n);
      }
    }
  }

  // ---------------------------------------------------------------------------
  // The viewer's state
  // ---------------------------------------------------------------------------

  /** The detail component for one asset: the model URL handed to the viewer
      and the selected position in the version list. */
  class VersionViewer {
    const asset: Asset
    var activeModel: Option<string>
    var activeVersionIndex: int

    ghost predicate Valid()
      reads this
    {
      IndexOk(asset.versions, activeVersionIndex)
    }

    /** Mounting: the viewer starts on the asset's own model URL (not the
        newest version's), while the index starts on the newest version. */
    constructor (a: Asset)
      ensures asset == a
      ensures activeModel == a.modelUrl
      ensures activeVersionIndex == InitialIndex(a.versions)
      ensures Valid()
    {
      asset := a;
      activeModel := a.modelUrl;
      activeVersionIndex := InitialIndex(a.versions);
    }

    /** The overlay for the current state. */
    function CurrentTimeline(): Option<Timeline>
      reads this
      requires Valid()
    {
      TimelineOf(asset.versions, activeVersionIndex)
    }

    /** `handleVersionChange`: ignored for an asset without versions; otherwise
        it selects version `index` and loads that version's model. There is no
        bounds check: the range input only produces `0 .. n - 1`. */
    method HandleVersionChange(index: int)
      requires Valid()
      requires asset.versions.Some? ==> 0 <= index < |asset.versions.value|
      modifies this
      ensures Valid()
      ensures asset.versions.None? ==>
        activeModel == old(activeModel) && activeVersionIndex == old(activeVersionIndex)
      ensures asset.versions.Some? ==>
        activeVersionIndex == index && activeModel == Some(asset.versions.value[index].modelUrl)
    {
      if asset.versions.None? {
        return;
      }
      activeVersionIndex := index;
      activeModel := Some(asset.versions.value[index].modelUrl);
    }
  }
}
