/** Worked examples on the two sample catalogs. Each is first proved for any
    sequence with the same pattern of categories or labels, then applied to the
    catalog. */
module Fixtures {
  import opened Types
  import opened Sequences
  import opened Grouping
  import opened MemoryGallery
  import Catalog
  import VersionTimeline
  import DetailView

  function Ids(assets: seq<Asset>): seq<string>
  {
    seq(|assets|, i requires 0 <= i < |assets| => assets[i].id)
  }

  /** A five-element filter that keeps the first, second and fourth element. */
  lemma FilterFiveKeepsFirstSecondFourth<T>(s: seq<T>, p: T -> bool)
    requires |s| == 5
    requires p(s[0]) && p(s[1]) && !p(s[2]) && p(s[3]) && !p(s[4])
    ensures Filter(s, p) == [s[0], s[1], s[3]]
  {
    assert s[..1][..0] == [];
    assert Filter(s[..1], p) == [s[0]];
    assert s[..2][..1] == s[..1];
    assert Filter(s[..2], p) == [s[0], s[1]];
    assert s[..3][..2] == s[..2];
    assert Filter(s[..3], p) == [s[0], s[1]];
    assert s[..4][..3] == s[..3];
    assert Filter(s[..4], p) == [s[0], s[1], s[3]];
    assert s[..|s| - 1] == s[..4];
  }

  /** The root catalog's categories, in order. */
  lemma RootCategories()
    ensures |Catalog.RootAssets| == 5
    ensures Catalog.RootAssets[0].id == "1" && Catalog.RootAssets[1].id == "2"
    ensures Catalog.RootAssets[3].id == "4"
    ensures seq(5, i requires 0 <= i < 5 => Catalog.RootAssets[i].category) == [Object, Object, Art, Object, Environment]
  {
  }

  /** The 'Object' category in the root catalog: assets 1, 2 and 4. */
  lemma RootObjects()
    ensures var c := Catalog.RootAssets;
      OfCategory(c, Object) == [c[0], c[1], c[3]]
  {
    var c := Catalog.RootAssets;
    RootCategories();
    var cats := seq(5, i requires 0 <= i < 5 => c[i].category);
    assert c[0].category == cats[0] && c[1].category == cats[1] && c[2].category == cats[2];
    assert c[3].category == cats[3] && c[4].category == cats[4];
    FilterFiveKeepsFirstSecondFourth(c, (a: Asset) => a.category == Object);
  }

  lemma IdsOfThree(x: Asset, y: Asset, z: Asset)
    ensures Ids([x, y, z]) == [x.id, y.id, z.id]
  {
  }

  /** The ids of the 'Object' assets of the root catalog. */
  lemma RootObjectIds()
    ensures Ids(OfCategory(Catalog.RootAssets, Object)) == ["1", "2", "4"]
  {
    var c := Catalog.RootAssets;
    RootObjects();
    RootCategories();
    IdsOfThree(c[0], c[1], c[3]);
  }

  /** With an empty query, the ids shown for a category button are the ids of
      that category. */
  lemma CategoryButtonIds(catalog: seq<Asset>, c: Category, ids: seq<string>)
    requires Ids(OfCategory(catalog, c)) == ids
    ensures Ids(FilterAssets(catalog, Only(c), "")) == ids
  {
    FilterCategoryEmptyQuery(catalog, c);
  }

  /** The 'Object' button with an empty search keeps assets 1, 2 and 4. */
  lemma ObjectFilterOnRootCatalog()
    ensures Ids(FilterAssets(Catalog.RootAssets, Only(Object), "")) == ["1", "2", "4"]
  {
    RootObjectIds();
    CategoryButtonIds(Catalog.RootAssets, Object, ["1", "2", "4"]);
  }

  /** Four items of one key followed by one of another form two groups. */
  lemma GroupFourThenOne<T, K>(s: seq<T>, key: T -> K)
    requires |s| == 5
    requires key(s[0]) == key(s[1]) == key(s[2]) == key(s[3]) != key(s[4])
    ensures Grouped(s, key) == [Group(key(s[0]), s[..4]), Group(key(s[4]), [s[4]])]
  {
    var k, k' := key(s[0]), key(s[4]);
    KeysFourThenOne(s, key);
    BucketsFourThenOne(s, key);
    var g := Grouped(s, key);
    assert |g| == 2;
    assert g[0] == Group(k, s[..4]);
    assert g[1] == Group(k', [s[4]]);
  }

  lemma BucketsFourThenOne<T, K>(s: seq<T>, key: T -> K)
    requires |s| == 5
    requires key(s[0]) == key(s[1]) == key(s[2]) == key(s[3]) != key(s[4])
    ensures Bucket(s, key, key(s[0])) == s[..4]
    ensures Bucket(s, key, key(s[4])) == [s[4]]
  {
    var k, k' := key(s[0]), key(s[4]);
    KeysFourThenOne(s, key);
    FilterKeepsAll(s[..4], x => key(x) == k);
    assert s[..|s| - 1] == s[..4];
    UnlistedKeyEmptyBucket(s[..4], key, k');
  }

  lemma KeysFourThenOne<T, K>(s: seq<T>, key: T -> K)
    requires |s| == 5
    requires key(s[0]) == key(s[1]) == key(s[2]) == key(s[3]) != key(s[4])
    ensures Keys(s[..4], key) == [key(s[0])]
    ensures Keys(s, key) == [key(s[0]), key(s[4])]
  {
    var k, k' := key(s[0]), key(s[4]);
    assert s[..1][..0] == [];
    assert Keys(s[..1], key) == [k];
    assert s[..2][..1] == s[..1];
    assert Keys(s[..2], key) == [k];
    assert s[..3][..2] == s[..2];
    assert Keys(s[..3], key) == [k];
    assert s[..4][..3] == s[..3];
    assert Keys(s[..4], key) == [k];
    assert s[..|s| - 1] == s[..4];
  }

  /** The root catalog's capture dates, in order. */
  lemma RootDates()
    ensures |Catalog.RootAssets| == 5
    ensures seq(5, i requires 0 <= i < 5 => Catalog.RootAssets[i].date) ==
      ["2024-05-12", "2024-05-10", "2024-05-08", "2024-05-01", "2024-04-28"]
  {
  }

  /** The labels of the root catalog's capture dates. */
  lemma DateLabels()
    ensures LabelOf("2024-05-12") == MonthYear(2024, 5) && LabelOf("2024-05-10") == MonthYear(2024, 5)
    ensures LabelOf("2024-05-08") == MonthYear(2024, 5) && LabelOf("2024-05-01") == MonthYear(2024, 5)
    ensures LabelOf("2024-04-28") == MonthYear(2024, 4)
  {
  }

  /** Four assets of the root catalog are from May 2024, the last from April. */
  lemma RootLabels()
    ensures |Catalog.RootAssets| == 5
    ensures AssetLabel(Catalog.RootAssets[0]) == MonthYear(2024, 5)
    ensures AssetLabel(Catalog.RootAssets[1]) == MonthYear(2024, 5)
    ensures AssetLabel(Catalog.RootAssets[2]) == MonthYear(2024, 5)
    ensures AssetLabel(Catalog.RootAssets[3]) == MonthYear(2024, 5)
    ensures AssetLabel(Catalog.RootAssets[4]) == MonthYear(2024, 4)
  {
    var c := Catalog.RootAssets;
    RootDates();
    DateLabels();
    var dates := seq(5, i requires 0 <= i < 5 => c[i].date);
    assert c[0].date == dates[0] && c[1].date == dates[1] && c[2].date == dates[2];
    assert c[3].date == dates[3] && c[4].date == dates[4];
  }

  /** The root catalog's dates fall into May 2024 (four assets) and then
      April 2024 (one asset). */
  lemma RootCatalogMonths()
    ensures MonthGroups(Catalog.RootAssets) ==
      [ Group(MonthYear(2024, 5), Catalog.RootAssets[..4]),
        Group(MonthYear(2024, 4), [Catalog.RootAssets[4]]) ]
  {
    RootLabels();
    GroupFourThenOne(Catalog.RootAssets, AssetLabel);
  }

  /** Dates in the same month share a label; the next month's first day does
      not, and a month outside 01-12 is an invalid date. */
  lemma MonthBoundaries()
    ensures LabelOf("2024-05-01") == LabelOf("2024-05-31") == MonthYear(2024, 5)
    ensures LabelOf("2024-06-01") == MonthYear(2024, 6)
    ensures LabelOf("2024-13-01") == InvalidDate
  {
  }

  /** Keys k, k', k: the groups are k (first and third item) then k', so
      reading them back moves the third item ahead of the second. */
  lemma InterleavedKeysReorder<T, K>(s: seq<T>, key: T -> K)
    requires |s| == 3
    requires key(s[0]) == key(s[2]) != key(s[1])
    ensures Grouped(s, key) == [Group(key(s[0]), [s[0], s[2]]), Group(key(s[1]), [s[1]])]
    ensures Concat(Grouped(s, key)) == [s[0], s[2], s[1]]
  {
    var k, k' := key(s[0]), key(s[1]);
    InterleavedBuckets(s, key);
    var g := Grouped(s, key);
    assert g == [Group(k, [s[0], s[2]]), Group(k', [s[1]])];
    assert g[1..][1..] == [];
    assert Concat(g[1..]) == [s[1]];
  }

  lemma InterleavedBuckets<T, K>(s: seq<T>, key: T -> K)
    requires |s| == 3
    requires key(s[0]) == key(s[2]) != key(s[1])
    ensures Keys(s, key) == [key(s[0]), key(s[1])]
    ensures Bucket(s, key, key(s[0])) == [s[0], s[2]]
    ensures Bucket(s, key, key(s[1])) == [s[1]]
  {
    InterleavedKeys(s, key);
    InterleavedBucket(s, key, key(s[0]));
    InterleavedBucket(s, key, key(s[1]));
  }

  /** The keys of a three-item sequence whose ends share a key. */
  lemma InterleavedKeys<T, K>(s: seq<T>, key: T -> K)
    requires |s| == 3
    requires key(s[0]) == key(s[2]) != key(s[1])
    ensures Keys(s, key) == [key(s[0]), key(s[1])]
  {
    assert s[..1][..0] == [];
    assert Keys(s[..1], key) == [key(s[0])];
    assert s[..2][..1] == s[..1];
    assert Keys(s[..2], key) == [key(s[0]), key(s[1])];
    assert s[..|s| - 1] == s[..2];
  }

  /** A bucket of a three-item sequence, item by item. */
  lemma InterleavedBucket<T, K>(s: seq<T>, key: T -> K, k: K)
    requires |s| == 3
    ensures Bucket(s, key, k)
      == (if key(s[0]) == k then [s[0]] else []) + (if key(s[1]) == k then [s[1]] else [])
       + (if key(s[2]) == k then [s[2]] else [])
  {
    var p := x => key(x) == k;
    var a, b, c := (if key(s[0]) == k then [s[0]] else []), (if key(s[1]) == k then [s[1]] else []),
                   (if key(s[2]) == k then [s[2]] else []);
    assert Bucket(s, key, k) == Filter(s, p);
    assert s[..1][..0] == [];
    assert Filter(s[..1], p) == a;
    assert s[..2][..1] == s[..1];
    assert Filter(s[..2], p) == a + b;
    assert s[..|s| - 1] == s[..2];
    assert Filter(s, p) == a + b + c;
  }

  /** May, April, May from the root catalog: the grouped view lists the two May
      assets together ahead of April, which differs from the filtered order. */
  lemma InterleavedMonthsReorder()
    ensures var s := [Catalog.RootAssets[0], Catalog.RootAssets[4], Catalog.RootAssets[1]];
            Concat(MonthGroups(s)) == [s[0], s[2], s[1]] != s
  {
    var c := Catalog.RootAssets;
    RootLabels();
    var s := [c[0], c[4], c[1]];
    InterleavedKeysReorder(s, AssetLabel);
    assert AssetLabel(s[1]) != AssetLabel(s[2]);
  }

  /** The `src/` catalog: five assets with ids 1 to 5, of which only the
      astronaut carries a version list, three captures long. */
  lemma DashboardCatalogShape()
    ensures |Catalog.DashboardAssets| == 5
    ensures Ids(Catalog.DashboardAssets) == ["1", "2", "3", "4", "5"]
    ensures Catalog.DashboardAssets[0].versions.Some? && |Catalog.DashboardAssets[0].versions.value| == 3
    ensures forall i :: 1 <= i < |Catalog.DashboardAssets| ==> Catalog.DashboardAssets[i].versions.None?
  {
    var c := Catalog.DashboardAssets;
    assert c[1].versions.None? && c[2].versions.None? && c[3].versions.None? && c[4].versions.None?;
  }

  /** The dashboard's astronaut opens on its newest capture, "Final Archive",
      with all three dots lit and the track full. */
  lemma AstronautTimeline()
    ensures var a := Catalog.DashboardAssets[0];
            var idx := VersionTimeline.InitialIndex(a.versions);
            && idx == 2
            && VersionTimeline.TimelineOf(a.versions, idx).Some?
            && VersionTimeline.TimelineOf(a.versions, idx).value.activeCaption == "Final Archive"
            && VersionTimeline.TimelineOf(a.versions, idx).value.date == "2024-05-12"
            && VersionTimeline.CountTrue(VersionTimeline.TimelineOf(a.versions, idx).value.dots) == 3
            && VersionTimeline.TimelineOf(a.versions, idx).value.width == 100.0
  {
    var a := Catalog.DashboardAssets[0];
    VersionTimeline.HighlightedDots(a.versions, 2);
    VersionTimeline.PercentBounds(2, 3);
  }

  /** The root catalog's gear and moss patch have no model URL and show their
      thumbnails; the astronaut shows its model. */
  lemma RootViewports()
    ensures DetailView.ViewportFor(Catalog.RootAssets[0], false) == DetailView.ModelViewer(Catalog.AstronautModel)
    ensures DetailView.ViewportFor(Catalog.RootAssets[3], false).Thumbnail?
    ensures DetailView.ViewportFor(Catalog.RootAssets[4], false).Thumbnail?
  {
  }
}
