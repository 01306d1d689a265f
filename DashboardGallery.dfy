/** The `src/` copy's gallery (src/components/Gallery.tsx): a title-only search
    over the catalog, laid out as a staggered grid of every match followed by a
    "(Copy)" duplicate of every match. */
module DashboardGallery {
  import opened Types
  import opened Sequences
  import opened Text
  import MemoryGallery
  import Catalog

  // ---------------------------------------------------------------------------
  // Search
  // ---------------------------------------------------------------------------

  /** `filteredAssets`: the category buttons set `filter`, which is among the
      memo's dependencies but never read, so only the title search decides. */
  function SearchAssets(catalog: seq<Asset>, filter: string, query: string): (r: seq<Asset>)
    ensures |r| <= |catalog|
    ensures forall k :: 0 <= k < |r| ==> r[k] in catalog && MemoryGallery.MatchesSearch(r[k], query)
    ensures forall k :: 0 <= k < |catalog| && MemoryGallery.MatchesSearch(catalog[k], query) ==> catalog[k] in r
  {
    Filter(catalog, a => MemoryGallery.MatchesSearch(a, query))
  }

  /** An asset is kept iff it is in the catalog and its lower-cased title
      contains the lower-cased query; neither its category nor the selected
      filter takes part. */
  lemma SearchAssetsKeeps(catalog: seq<Asset>, filter: string, query: string, a: Asset)
    ensures a in SearchAssets(catalog, filter, query) <==>
      a in catalog && exists i :: OccursAt(ToLower(a.title), ToLower(query), i)
  {
    var p := x => MemoryGallery.MatchesSearch(x, query);
    assert SearchAssets(catalog, filter, query) == Filter(catalog, p);
    FilterMembership(catalog, p, a);
    MemoryGallery.MatchesSearchIff(a, query);
    assert p(a) == MemoryGallery.MatchesSearch(a, query);
  }

  /** The selected category button has no effect on the list. */
  lemma FilterHasNoEffect(catalog: seq<Asset>, f1: string, f2: string, query: string)
    ensures SearchAssets(catalog, f1, query) == SearchAssets(catalog, f2, query)
  {
  }

  /** The search is the root gallery's filter with the 'All' button pressed. */
  lemma SearchIsUnfilteredMemorySearch(catalog: seq<Asset>, filter: string, query: string)
    ensures SearchAssets(catalog, filter, query) == MemoryGallery.FilterAssets(catalog, MemoryGallery.All, query)
  {
    FilterCongruent(catalog, a => MemoryGallery.MatchesSearch(a, query),
      a => MemoryGallery.Matches(a, MemoryGallery.All, query));
  }

  /** The list keeps the catalog's order. */
  lemma SearchAssetsInOrder(catalog: seq<Asset>, filter: string, query: string)
    ensures IsSubsequence(SearchAssets(catalog, filter, query), catalog)
  {
    FilterIsSubsequence(catalog, a => MemoryGallery.MatchesSearch(a, query));
  }

  // ---------------------------------------------------------------------------
  // The card grid
  // ---------------------------------------------------------------------------

  /** One rendered card: its React key, the asset it displays, its height
      class, and the asset a click on it selects. */
  datatype Card = Card(key: string, shown: Asset, height: string, opens: Asset)

  /** Height classes of the original cards, cycled by position. */
  const OriginalHeights: seq<string> := ["h-[280px]", "h-[380px]", "h-[440px]", "h-[320px]"]

  /** Height classes of the duplicate cards, cycled from an offset of two. */
  const CopyHeights: seq<string> := ["h-[350px]", "h-[300px]", "h-[480px]", "h-[400px]"]

  /** The object spread that makes a duplicate: a new id and title, every
      other field copied. */
  function Duplicate(a: Asset): (d: Asset)
    ensures d.(id := a.id, title := a.title) == a
    ensures d.id != a.id && d.title != a.title
  {
    assert |a.id + "-dup"| == |a.id| + 4 && |a.title + " (Copy)"| == |a.title| + 7;
    a.(id := a.id + "-dup", title := a.title + " (Copy)")
  }

  /** The first map: card `i` shows asset `i` at height `i % 4`. */
  function OriginalCards(assets: seq<Asset>): (cs: seq<Card>)
    ensures |cs| == |assets|
    ensures forall i :: 0 <= i < |cs| ==> cs[i].shown == assets[i] && cs[i].opens == cs[i].shown && cs[i].key == cs[i].shown.id
  {
    seq(|assets|, i requires 0 <= i < |assets| =>
      Card(assets[i].id, assets[i], OriginalHeights[i % |OriginalHeights|], assets[i]))
  }

  /** The second map: card `i` shows the copy of asset `i` at height
      `(i + 2) % 4`, but a click selects the original. */
  function DuplicateCards(assets: seq<Asset>): (cs: seq<Card>)
    ensures |cs| == |assets|
    ensures forall i :: 0 <= i < |cs| ==>
      cs[i].opens == assets[i] && cs[i].shown == Duplicate(cs[i].opens) && cs[i].key == cs[i].shown.id
  {
    seq(|assets|, i requires 0 <= i < |assets| =>
      Card(assets[i].id + "-dup", Duplicate(assets[i]), CopyHeights[(i + 2) % |CopyHeights|], assets[i]))
  }

  /** The whole grid: the originals, then the duplicates. */
  function Grid(assets: seq<Asset>): (g: seq<Card>)
    ensures |g| == 2 * |assets|
    ensures forall i :: 0 <= i < |assets| ==> g[i].opens == assets[i] && g[|assets| + i].opens == assets[i]
  {
    OriginalCards(assets) + DuplicateCards(assets)
  }

  /** The grid holds 2n cards: the n assets in order, then their n copies in
      the same order, each at the height its position picks. This unfolds the
      definition of `Grid` into the layout the two maps promise, index by index;
      it is a restatement in positional form, not independent evidence. */
  lemma GridLayout(assets: seq<Asset>)
    ensures |Grid(assets)| == 2 * |assets|
    ensures forall i :: 0 <= i < |assets| ==>
      && Grid(assets)[i].shown == assets[i]
      && Grid(assets)[i].height == OriginalHeights[i % 4]
    ensures forall i :: 0 <= i < |assets| ==>
      && Grid(assets)[|assets| + i].shown == Duplicate(assets[i])
      && Grid(assets)[|assets| + i].height == CopyHeights[(i + 2) % 4]
  {
    forall i | 0 <= i < |assets|
      ensures Grid(assets)[i] == Card(assets[i].id, assets[i], OriginalHeights[i % 4], assets[i])
      ensures Grid(assets)[|assets| + i] == Card(assets[i].id + "-dup", Duplicate(assets[i]), CopyHeights[(i + 2) % 4], assets[i])
    {
      CardsAt(assets, i);
    }
  }

  /** The two cards that position `i` contributes to the grid. */
  lemma CardsAt(assets: seq<Asset>, i: nat)
    requires i < |assets|
    ensures Grid(assets)[i] == Card(assets[i].id, assets[i], OriginalHeights[i % 4], assets[i])
    ensures Grid(assets)[|assets| + i] == Card(assets[i].id + "-dup", Duplicate(assets[i]), CopyHeights[(i + 2) % 4], assets[i])
  {
    var o, d := OriginalCards(assets), DuplicateCards(assets);
    assert Grid(assets) == o + d;
    assert Grid(assets)[i] == o[i] && Grid(assets)[|assets| + i] == d[i];
  }

  /** Every card of the grid selects one of the listed assets; read in grid
      order, the selected assets are the list twice over. */
  lemma GridOpensOriginals(assets: seq<Asset>)
    ensures forall c :: c in Grid(assets) ==> c.opens in assets
    ensures seq(|Grid(assets)|, i requires 0 <= i < |Grid(assets)| => Grid(assets)[i].opens) == assets + assets
  {
    var g := Grid(assets);
    forall c | c in g
      ensures c.opens in assets
    {
      var k :| 0 <= k < |g| && g[k] == c;
      if k < |assets| {
        assert c.opens == assets[k];
      } else {
        assert c.opens == assets[k - |assets|];
      }
    }
  }

  /** A click on a duplicate selects the original asset, never the copy it shows. */
  lemma ClickOnDuplicateOpensOriginal(assets: seq<Asset>, i: nat)
    requires |assets| <= i < 2 * |assets|
    ensures Grid(assets)[i].opens == assets[i - |assets|]
    ensures Grid(assets)[i].opens != Grid(assets)[i].shown
  {
    var a := assets[i - |assets|];
    assert |Duplicate(a).id| == |a.id| + 4;
  }

  /** A duplicate differs from its original only in its id and title, which
      gain the suffixes "-dup" and " (Copy)". */
  lemma DuplicateChangesOnlyIdAndTitle(a: Asset)
    ensures Duplicate(a).id == a.id + "-dup"
    ensures Duplicate(a).title == a.title + " (Copy)"
    ensures Duplicate(a).(id := a.id, title := a.title) == a
    ensures Duplicate(a) != a
  {
    assert |Duplicate(a).id| == |a.id| + 4;
  }

  /** `s` ends with the suffix "-dup". */
  predicate EndsWithDup(s: string)
  {
    |s| >= 4 && s[|s| - 4..] == "-dup"
  }

  /** The React keys of the grid are pairwise distinct when the asset ids are
      distinct and none of them already ends with "-dup". */
  lemma GridKeysDistinct(assets: seq<Asset>)
    requires forall i, j :: 0 <= i < j < |assets| ==> assets[i].id != assets[j].id
    requires forall i :: 0 <= i < |assets| ==> !EndsWithDup(assets[i].id)
    ensures forall i, j :: 0 <= i < j < |Grid(assets)| ==> Grid(assets)[i].key != Grid(assets)[j].key
  {
    var g := Grid(assets);
    var n := |assets|;
    forall i, j | 0 <= i < j < |g|
      ensures g[i].key != g[j].key
    {
      if j < n {
        assert g[i].key == assets[i].id && g[j].key == assets[j].id;
        assert g[i].key != g[j].key;
      } else if i < n {
        var dup := assets[j - n].id + "-dup";
        assert g[j].key == dup;
        assert dup[|dup| - 4..] == "-dup";
        assert EndsWithDup(dup);
        assert g[i].key == assets[i].id;
        assert g[i].key != g[j].key;
      } else {
        var a, b := assets[i - n].id, assets[j - n].id;
        assert a != b;
        assert (a + "-dup")[..|a|] == a;
        assert (b + "-dup")[..|b|] == b;
        assert g[i].key == a + "-dup" && g[j].key == b + "-dup";
        assert g[i].key != g[j].key;
      }
    }
  }

  /** Card heights repeat with period four in each half of the grid. */
  lemma HeightsRepeatEveryFour(assets: seq<Asset>, i: nat)
    requires i + 4 < |assets|
    ensures Grid(assets)[i].height == Grid(assets)[i + 4].height
    ensures Grid(assets)[|assets| + i].height == Grid(assets)[|assets| + i + 4].height
  {
    CardsAt(assets, i);
    CardsAt(assets, i + 4);
    assert (i + 4) % 4 == i % 4;
    assert (i + 4 + 2) % 4 == (i + 2) % 4;
    assert |assets| + i + 4 == |assets| + (i + 4);
  }

  // ---------------------------------------------------------------------------
  // The dashboard's state
  // ---------------------------------------------------------------------------

  /** The header's two tabs. */
  datatype Tab = Feed | Edit

  /** The dashboard gallery component and its four pieces of state. */
  class Dashboard {
    const catalog: seq<Asset>
    var selectedAsset: Option<Asset>
    var filter: string
    var searchQuery: string
    var activeTab: Tab

    constructor ()
      ensures catalog == Catalog.DashboardAssets
      ensures selectedAsset == None && filter == "All" && searchQuery == "" && activeTab == Feed
    {
      catalog := Catalog.DashboardAssets;
      selectedAsset := None;
      filter := "All";
      searchQuery := "";
      activeTab := Feed;
    }

    function FilteredAssets(): seq<Asset>
      reads this
    {
      SearchAssets(catalog, filter, searchQuery)
    }

    function Cards(): seq<Card>
      reads this
    {
      Grid(FilteredAssets())
    }

    /** A category button: it records the choice, and the grid stays as it was. */
    method SetFilter(f: string)
      modifies this
      ensures filter == f
      ensures searchQuery == old(searchQuery) && selectedAsset == old(selectedAsset) && activeTab == old(activeTab)
      ensures FilteredAssets() == old(FilteredAssets()) && Cards() == old(Cards())
    {
      filter := f;
      FilterHasNoEffect(catalog, old(filter), f, searchQuery);
    }

    /** The header's search box. */
    method SetSearchQuery(q: string)
      modifies this
      ensures searchQuery == q
      ensures filter == old(filter) && selectedAsset == old(selectedAsset) && activeTab == old(activeTab)
    {
      searchQuery := q;
    }

    /** The header's tab switch. */
    method SetActiveTab(t: Tab)
      modifies this
      ensures activeTab == t
      ensures filter == old(filter) && searchQuery == old(searchQuery) && selectedAsset == old(selectedAsset)
    {
      activeTab := t;
    }

    /** A click on card `i` of the grid selects the original asset behind it. */
    method ClickCard(i: nat)
      requires i < |Cards()|
      modifies this
      ensures selectedAsset == Some(old(Cards())[i].opens)
      ensures selectedAsset.value in FilteredAssets()
      ensures filter == old(filter) && searchQuery == old(searchQuery) && activeTab == old(activeTab)
    {
      GridOpensOriginals(FilteredAssets());
      assert Cards()[i] in Cards();
      selectedAsset := Some(Cards()[i].opens);
    }

    /** The overlay's close button. */
    method CloseDetail()
      modifies this
      ensures selectedAsset == None
      ensures filter == old(filter) && searchQuery == old(searchQuery) && activeTab == old(activeTab)
    {
      selectedAsset := None;
    }
  }
}
