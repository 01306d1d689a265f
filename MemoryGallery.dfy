/** The root copy's gallery (components/Gallery.tsx): a category + search filter
    over the catalog, then the survivors bucketed by the month and year of their
    capture date, in order of first appearance. */
module MemoryGallery {
  import opened Types
  import opened Sequences
  import opened Text
  import opened Grouping
  import Catalog

  // ---------------------------------------------------------------------------
  // Filter
  // ---------------------------------------------------------------------------

  /** The category buttons: 'All' or one of the categories. */
  datatype CategoryFilter = All | Only(category: Category)

  /** The category test: 'All' passes every asset. */
  predicate MatchesFilter(a: Asset, filter: CategoryFilter)
    ensures filter.All? ==> MatchesFilter(a, filter)
  {
    filter.All? || a.category == filter.category
  }

  /** Case-insensitive substring match of the query against the title only. */
  predicate MatchesSearch(a: Asset, query: string)
    ensures query == "" ==> MatchesSearch(a, query)
  {
    IncludesEmpty(ToLower(a.title));
    Includes(ToLower(a.title), ToLower(query))
  }

  /** Both tests; with 'All' and an empty query every asset passes. */
  predicate Matches(a: Asset, filter: CategoryFilter, query: string)
    ensures Matches(a, filter, query) ==> MatchesSearch(a, query)
    ensures filter.All? && query == "" ==> Matches(a, filter, query)
  {
    MatchesFilter(a, filter) && MatchesSearch(a, query)
  }

  /** `filteredAssets`: a stable filter of the catalog. */
  function FilterAssets(catalog: seq<Asset>, filter: CategoryFilter, query: string): (r: seq<Asset>)
    ensures |r| <= |catalog|
    ensures forall k :: 0 <= k < |r| ==> r[k] in catalog && Matches(r[k], filter, query)
    ensures forall k :: 0 <= k < |catalog| && Matches(catalog[k], filter, query) ==> catalog[k] in r
  {
    Filter(catalog, a => Matches(a, filter, query))
  }

  /** The search test holds iff the lower-cased query occurs somewhere in the
      lower-cased title. */
  lemma MatchesSearchIff(a: Asset, query: string)
    ensures MatchesSearch(a, query) <==> exists i :: OccursAt(ToLower(a.title), ToLower(query), i)
  {
    assert MatchesSearch(a, query) == Includes(ToLower(a.title), ToLower(query));
    IncludesIff(ToLower(a.title), ToLower(query));
  }

  /** An asset is kept iff it is in the catalog, its category passes the filter,
      and its lower-cased title contains the lower-cased query somewhere. */
  lemma FilterAssetsKeeps(catalog: seq<Asset>, filter: CategoryFilter, query: string, a: Asset)
    ensures a in FilterAssets(catalog, filter, query) <==>
      && a in catalog
      && (filter.All? || a.category == filter.category)
      && exists i :: OccursAt(ToLower(a.title), ToLower(query), i)
  {
    var p := x => Matches(x, filter, query);
    assert FilterAssets(catalog, filter, query) == Filter(catalog, p);
    FilterMembership(catalog, p, a);
    MatchesSearchIff(a, query);
    assert p(a) <==> MatchesFilter(a, filter) && MatchesSearch(a, query);
  }

  /** The filtered list keeps the catalog's order. */
  lemma FilterAssetsInOrder(catalog: seq<Asset>, filter: CategoryFilter, query: string)
    ensures IsSubsequence(FilterAssets(catalog, filter, query), catalog)
  {
    FilterIsSubsequence(catalog, a => Matches(a, filter, query));
  }

  /** 'All' with an empty query shows the whole catalog: every title includes ''. */
  lemma FilterAllEmptyQuery(catalog: seq<Asset>)
    ensures FilterAssets(catalog, All, "") == catalog
  {
    forall k | 0 <= k < |catalog|
      ensures Matches(catalog[k], All, "")
    {
      IncludesEmpty(ToLower(catalog[k].title));
    }
    FilterKeepsAll(catalog, a => Matches(a, All, ""));
  }

  /** The assets of one category, in catalog order. */
  function OfCategory(catalog: seq<Asset>, c: Category): seq<Asset>
  {
    Filter(catalog, (a: Asset) => a.category == c)
  }

  /** With an empty query, a category filter keeps exactly that category. */
  lemma FilterCategoryEmptyQuery(catalog: seq<Asset>, c: Category)
    ensures FilterAssets(catalog, Only(c), "") == OfCategory(catalog, c)
  {
    forall a | a in catalog
      ensures Matches(a, Only(c), "") == (a.category == c)
    {
      IncludesEmpty(ToLower(a.title));
    }
    FilterCongruent(catalog, a => Matches(a, Only(c), ""), (a: Asset) => a.category == c);
  }

  /** Re-filtering a filtered list by the same filter and query changes nothing. */
  lemma FilterAssetsIdempotent(catalog: seq<Asset>, filter: CategoryFilter, query: string)
    ensures FilterAssets(FilterAssets(catalog, filter, query), filter, query) == FilterAssets(catalog, filter, query)
  {
    FilterIdempotent(catalog, a => Matches(a, filter, query));
  }

  // ---------------------------------------------------------------------------
  // Month label
  // ---------------------------------------------------------------------------

  /** The "Month Year" label of a capture date, kept abstract as the pair
      (year, month); a date the parser rejects is labelled "Invalid Date". */
  datatype MonthLabel = MonthYear(year: nat, month: nat) | InvalidDate

  predicate IsDigit(c: char)
  {
    '0' <= c <= '9'
  }

  function DigitValue(c: char): nat
    requires IsDigit(c)
  {
    c as int - '0' as int
  }

  /** The date has the `YYYY-MM-DD` shape. */
  predicate DateShaped(date: string)
  {
    && |date| == 10 && date[4] == '-' && date[7] == '-'
    && forall i | 0 <= i < 10 && i != 4 && i != 7 :: IsDigit(date[i])
  }

  function Year(date: string): nat
    requires DateShaped(date)
  {
    DigitValue(date[0]) * 1000 + DigitValue(date[1]) * 100 + DigitValue(date[2]) * 10 + DigitValue(date[3])
  }

  function Month(date: string): nat
    requires DateShaped(date)
  {
    DigitValue(date[5]) * 10 + DigitValue(date[6])
  }

  function Day(date: string): nat
    requires DateShaped(date)
  {
    DigitValue(date[8]) * 10 + DigitValue(date[9])
  }

  /** A `YYYY-MM-DD` date with month 01-12 and day 01-31. */
  predicate ValidDate(date: string)
  {
    DateShaped(date) && 1 <= Month(date) <= 12 && 1 <= Day(date) <= 31
  }

  /** `new Date(date).toLocaleString(..., { month: 'long', year: 'numeric' })`. */
  function LabelOf(date: string): (l: MonthLabel)
    ensures l.MonthYear? <==> ValidDate(date)
    ensures l.MonthYear? ==> 1 <= l.month <= 12 && l.year <= 9999
  {
    if ValidDate(date) then MonthYear(Year(date), Month(date)) else InvalidDate
  }

  /** The label of an asset's capture date. */
  function AssetLabel(a: Asset): (l: MonthLabel)
    ensures l == InvalidDate <==> !ValidDate(a.date)
    ensures l.MonthYear? ==> 1 <= l.month <= 12
  {
    LabelOf(a.date)
  }

  /** Two valid dates share a label iff they agree on the `YYYY-MM` part. */
  lemma SameLabelIffSameMonth(d1: string, d2: string)
    requires ValidDate(d1) && ValidDate(d2)
    ensures LabelOf(d1) == LabelOf(d2) <==> d1[..7] == d2[..7]
  {
    if LabelOf(d1) == LabelOf(d2) {
      DigitsDetermined(d1[0], d1[1], d1[2], d1[3], d2[0], d2[1], d2[2], d2[3]);
      DigitsDetermined('0', '0', d1[5], d1[6], '0', '0', d2[5], d2[6]);
      assert d1[..7] == [d1[0], d1[1], d1[2], d1[3], '-', d1[5], d1[6]];
      assert d2[..7] == [d2[0], d2[1], d2[2], d2[3], '-', d2[5], d2[6]];
    } else if d1[..7] == d2[..7] {
      assert forall i | 0 <= i < 7 :: d1[i] == d1[..7][i] == d2[..7][i] == d2[i];
    }
  }

  /** Decimal digits are determined by the number they spell. */
  lemma DigitsDetermined(a: char, b: char, c: char, d: char, e: char, f: char, g: char, h: char)
    requires IsDigit(a) && IsDigit(b) && IsDigit(c) && IsDigit(d)
    requires IsDigit(e) && IsDigit(f) && IsDigit(g) && IsDigit(h)
    requires DigitValue(a) * 1000 + DigitValue(b) * 100 + DigitValue(c) * 10 + DigitValue(d)
          == DigitValue(e) * 1000 + DigitValue(f) * 100 + DigitValue(g) * 10 + DigitValue(h)
    ensures a == e && b == f && c == g && d == h
  {
    var va, vb, vc, vd := DigitValue(a), DigitValue(b), DigitValue(c), DigitValue(d);
    var ve, vf, vg, vh := DigitValue(e), DigitValue(f), DigitValue(g), DigitValue(h);
    assert va == ve;
    assert vb == vf;
    assert vc == vg;
  }

  // ---------------------------------------------------------------------------
  // Grouping by month
  // ---------------------------------------------------------------------------

  /** The groups the gallery renders for a filtered list. */
  function MonthGroups(assets: seq<Asset>): (g: seq<Group<MonthLabel, Asset>>)
    ensures g == [] <==> assets == []
    ensures forall i, a :: 0 <= i < |g| && a in g[i].items ==> AssetLabel(a) == g[i].key
  {
    GroupedEmptyIff(assets, AssetLabel);
    Grouped(assets, AssetLabel)
  }

  // ---------------------------------------------------------------------------
  // The gallery's state
  // ---------------------------------------------------------------------------

  /** The gallery component: its catalog and the three pieces of state its
      setters update. */
  class Gallery {
    const catalog: seq<Asset>
    var selectedAsset: Option<Asset>
    var filter: CategoryFilter
    var searchQuery: string

    constructor ()
      ensures catalog == Catalog.RootAssets
      ensures selectedAsset == None && filter == All && searchQuery == ""
    {
      catalog := Catalog.RootAssets;
      selectedAsset := None;
      filter := All;
      searchQuery := "";
    }

    function FilteredAssets(): seq<Asset>
      reads this
    {
      FilterAssets(catalog, filter, searchQuery)
    }

    /** A category button. */
    method SetFilter(f: CategoryFilter)
      modifies this
      ensures filter == f
      ensures searchQuery == old(searchQuery) && selectedAsset == old(selectedAsset)
    {
      filter := f;
    }

    /** The search box. */
    method SetSearchQuery(q: string)
      modifies this
      ensures searchQuery == q
      ensures filter == old(filter) && selectedAsset == old(selectedAsset)
    {
      searchQuery := q;
    }

    /** A click on a displayed card opens the detail view for that asset. */
    method SelectAsset(a: Asset)
      requires a in FilteredAssets()
      modifies this
      ensures selectedAsset == Some(a)
      ensures filter == old(filter) && searchQuery == old(searchQuery)
    {
      selectedAsset := Some(a);
    }

    /** The detail view's close button. */
    method CloseDetail()
      modifies this
      ensures selectedAsset == None
      ensures filter == old(filter) && searchQuery == old(searchQuery)
    {
      selectedAsset := None;
    }

    /** The groups rendered for the current filter and query. */
    method GroupedAssets() returns (groups: seq<Group<MonthLabel, Asset>>)
      ensures groups == MonthGroups(FilteredAssets())
    {
      groups := GroupBy(FilteredAssets(), AssetLabel);
    }

    /** Whether the "No memories found" panel is rendered. */
    method ShowsEmptyState() returns (empty: bool)
      ensures empty <==> FilteredAssets() == []
    {
      var groups := GroupedAssets();
      GroupedEmptyIff(FilteredAssets(), AssetLabel);
      empty := |groups| == 0;
    }
  }
}
