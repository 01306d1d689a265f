# Volo3D gallery: a Dafny model of its list and state logic

Volo3D is a front-end mock-up of a "museum of memories". Users sign in, browse a
catalog of 3D scans and open one in a detail view. The repository holds two
copies of the app side by side:

- a root copy (`components/`, `constants.ts`, `types.ts`);
- a `src/` copy with a dashboard layout and an optional version history per asset.

Most of the code is markup. This project models the logic between the
hard-coded catalogs and the markup. Each part of the app maps to one Dafny
module:

- **`MemoryGallery`** models the root copy's gallery, `components/Gallery.tsx`.
  - It keeps an asset when its category passes the selected button and its
    lower-cased title contains the lower-cased query.
  - It buckets the survivors by the month and year of their capture date, in
    order of first appearance.
  - It shows a "No memories found" panel when nothing survives.
  - The bucketing is the imperative method `Grouping.GroupBy`. It fills a map
    of buckets and a list of keys in insertion order, and is proved equal to
    the specification function `Grouping.Grouped`.
- **`DashboardGallery`** models the `src/` copy's gallery,
  `src/components/Gallery.tsx`.
  - The search looks only at titles. The selected category button is stored
    and only highlights itself; the search never reads it.
  - The grid has two parts: a card for every match, then a "(Copy)" duplicate
    of every match.
  - Card heights cycle with the card's position modulo four.
- **`VersionTimeline`** models the `src/` copy's detail view,
  `src/components/AssetDetail.tsx`.
  - The viewer holds the model on display and the selected version.
  - `handleVersionChange` is the one guarded update.
  - The "Temporal Sequence" overlay is derived from that state: the captions,
    the lit dots, the filled width and the dot positions.
- **`DetailView`** models the root copy's detail view,
  `components/AssetDetail.tsx`.
  - The zero-padded id badge.
  - The `||` fallbacks for the description and for the stored story.
  - The choice between the 3D viewer, the thumbnail and the processing spinner.
- **`App`** models the application shell, `src/App.tsx`.
  - It is a state machine over the page on screen and the signed-in user.
  - A `Shell` class has one method per handler. Each handler may run only
    while its control is on screen, and each keeps the shell safe.
  - It proves the two states the shell can reach, and that both are safe.

Shared modules:

- `Types` holds the records.
- `Catalog` holds both sample catalogs.
- `Sequences` holds a stable filter and its order lemmas.
- `Text` holds ASCII lower-casing, `includes` and `padStart`.
- `Grouping` holds insertion-ordered grouping and its lemmas.
- `Fixtures` holds worked examples on the sample catalogs.

The code decides wherever it and the app's documented intent differ:

- `handleVersionChange` has no bounds check, so an out-of-range index is not
  ignored. It is excluded by a precondition that the range input meets.
- The stored story is `story || ''`, so an empty or missing reply stores the
  empty string.
- Reading the month groups back in order gives the filtered list itself only
  when same-month assets are adjacent. In general it gives a permutation.
- The `src/` gallery's category buttons only highlight themselves. They have no effect on the list.
- The navbar's Gallery button and avatar are never on screen. They need a
  signed-in user on the landing page, and no sequence of events reaches that
  state.

## Model

| member | source | states |
|---|---|---|
| `Sequences.Filter` | components/Gallery.tsx:16-20 | The result is no longer than the input. Every element it keeps is in the input and passes the predicate. Every input element that passes is kept. |
| `Sequences.FilterMembership` | components/Gallery.tsx:16-20 | `x` is in the filtered list iff `x` is in the input and passes the predicate. |
| `Sequences.FilterIsSubsequence` | components/Gallery.tsx:16-20 | The filtered list embeds in the input at strictly increasing positions, so the filter keeps the input's order. |
| `Sequences.FilterKeepsAll` | components/Gallery.tsx:16-20 | A predicate that holds on every element keeps the whole input unchanged. |
| `Sequences.FilterIdempotent` | components/Gallery.tsx:16-20 | Filtering twice by the same predicate is filtering once. |
| `Sequences.FilterCongruent` | components/Gallery.tsx:16-20 | Two predicates that agree on the input's elements filter it alike. |
| `Sequences.FilterConjunction` | components/Gallery.tsx:17-19 | Filtering by `p && q` equals filtering by `p` and then by `q`. |
| `Text.ToLower` | components/Gallery.tsx:18 | Lower-casing keeps the length and maps each character through ASCII lower-casing. |
| `Text.ToLowerIdempotent` | components/Gallery.tsx:18 | Lower-casing a lower-cased string changes nothing. |
| `Text.IncludesIff` | components/Gallery.tsx:18 | `includes` is true iff the query occurs at some position of the string. |
| `Text.IncludesEmpty` | components/Gallery.tsx:18 | Every string includes the empty query. |
| `Text.PadStart` | components/AssetDetail.tsx:117 | The result has length the larger of the target and the length of `s`. It ends with `s`, and every added character is the fill character. A string already at the target length is returned unchanged. |
| `Grouping.Keys` | components/Gallery.tsx:26-29 | There are no more keys than items, and the key of every item is listed. |
| `Grouping.Bucket` | components/Gallery.tsx:29-30 | A bucket is no longer than the input. Every item in it has the bucket's key, and every input item with that key is in it. |
| `Grouping.Grouped` | components/Gallery.tsx:24-33 | There are no more groups than items, and every group holds only items of its own key. |
| `Grouping.Concat` | components/Gallery.tsx:32 | Every item of every group appears in the read-out. |
| `Grouping.GroupBy` | components/Gallery.tsx:24-33 | The loop over a mutable map of buckets plus an insertion-ordered key list returns exactly `Grouped(items, key)`. |
| `Grouping.KeysMembership` | components/Gallery.tsx:29 | A key is listed iff some item has that key. |
| `Grouping.KeysDistinct` | components/Gallery.tsx:29 | No key is listed twice. |
| `Grouping.GroupedPartitions` | components/Gallery.tsx:25-31 | The group keys are distinct and every group is homogeneous and non-empty. Every grouped item comes from the input. Every input item lies in the group of its own key, and in no other group. |
| `Grouping.GroupsKeepOrder` | components/Gallery.tsx:26-30 | Each group's items are a subsequence of the input, so they keep the input's order. |
| `Grouping.GroupsByFirstAppearance` | components/Gallery.tsx:29-32 | The keys of every prefix of the input are a prefix of the key list. Keys are therefore listed in order of first appearance, not sorted. |
| `Grouping.GroupedSnocNew` | components/Gallery.tsx:29-30 | An item with a new key appends a one-item group at the end. |
| `Grouping.GroupedSnocExisting` | components/Gallery.tsx:30 | An item with a known key is pushed onto that key's group, and the other groups stay as they are. |
| `Grouping.ConcatAppend` | components/Gallery.tsx:32 | Reading out two group lists one after the other reads out their items one after the other. |
| `Grouping.GroupedPermutation` | components/Gallery.tsx:24-33 | Reading out the groups in order gives a permutation (the same multiset) of the input. |
| `Grouping.ContiguousConcatIdentity` | components/Gallery.tsx:24-33 | When items with the same key are adjacent, reading out the groups gives back the input exactly. |
| `Grouping.ConcatContiguous` | components/Gallery.tsx:32 | Any list of homogeneous groups with distinct keys reads out with same-key items adjacent. |
| `Grouping.GroupedConcatIdentityIff` | components/Gallery.tsx:24-33 | Reading out the groups gives back the input iff same-key items are adjacent in the input. |
| `Grouping.GroupedEmptyIff` | components/Gallery.tsx:130 | There are no groups iff the input is empty. |
| `MemoryGallery.MatchesFilter` | components/Gallery.tsx:17 | With 'All' selected, every asset passes the category test. |
| `MemoryGallery.MatchesSearch` | components/Gallery.tsx:18 | The empty query matches every title. |
| `MemoryGallery.MatchesSearchIff` | components/Gallery.tsx:18 | An asset matches the query iff the lower-cased query occurs at some position of the lower-cased title. |
| `MemoryGallery.Matches` | components/Gallery.tsx:16-19 | A kept asset always matches the query, and 'All' with an empty query keeps every asset. |
| `MemoryGallery.FilterAssets` | components/Gallery.tsx:15-21 | The list is no longer than the catalog. Every asset in it is in the catalog and passes both tests. Every catalog asset that passes both tests is in it. |
| `MemoryGallery.FilterAssetsKeeps` | components/Gallery.tsx:15-21 | An asset is kept iff it is in the catalog, the filter is 'All' or matches its category, and its lower-cased title contains the lower-cased query somewhere. |
| `MemoryGallery.FilterAssetsInOrder` | components/Gallery.tsx:16-20 | The filtered list is a subsequence of the catalog, in catalog order. |
| `MemoryGallery.FilterAllEmptyQuery` | components/Gallery.tsx:17-18 | 'All' with an empty query shows the whole catalog. |
| `MemoryGallery.FilterCategoryEmptyQuery` | components/Gallery.tsx:17-18 | A category button with an empty query shows exactly that category's assets, in catalog order. |
| `MemoryGallery.FilterAssetsIdempotent` | components/Gallery.tsx:15-21 | Filtering the filtered list again by the same filter and query changes nothing. |
| `MemoryGallery.SameLabelIffSameMonth` | components/Gallery.tsx:27-28 | Two valid dates get the same month label iff their `YYYY-MM` parts are equal. |
| `MemoryGallery.DigitsDetermined` | components/Gallery.tsx:27-28 | Four decimal digits are determined by the number they spell, so the year and month decode uniquely. |
| `MemoryGallery.LabelOf` | components/Gallery.tsx:27-28 | A date gets a month label iff it is a valid `YYYY-MM-DD` date. The label's month is 1 to 12 and its year has at most four digits. |
| `MemoryGallery.AssetLabel` | components/Gallery.tsx:27-28 | An asset falls under "Invalid Date" iff its date is not valid. Otherwise its label's month is 1 to 12. |
| `MemoryGallery.MonthGroups` | components/Gallery.tsx:24-33 | There are no month groups iff the filtered list is empty. Every asset in a group carries that group's month label. |
| `MemoryGallery.Gallery.constructor` | components/Gallery.tsx:9-11 | On mount, nothing is selected, the filter is 'All', the query is empty, and the catalog is the root catalog. |
| `MemoryGallery.Gallery.SetFilter` | components/Gallery.tsx:62 | A category button sets the filter and leaves the query and the selection alone. |
| `MemoryGallery.Gallery.SetSearchQuery` | components/Gallery.tsx:82 | The search box sets the query and leaves the filter and the selection alone. |
| `MemoryGallery.Gallery.SelectAsset` | components/Gallery.tsx:101 | A click on a shown card selects that asset and leaves the filter and the query alone. |
| `MemoryGallery.Gallery.CloseDetail` | components/Gallery.tsx:144 | Closing the detail view clears the selection only. |
| `MemoryGallery.Gallery.GroupedAssets` | components/Gallery.tsx:24-33 | The groups rendered are the month grouping of the current filtered list. |
| `MemoryGallery.Gallery.ShowsEmptyState` | components/Gallery.tsx:130 | "No memories found" is shown iff the filtered list is empty. |
| `DashboardGallery.SearchAssets` | src/components/Gallery.tsx:37-45 | The list is no longer than the catalog. Every asset in it is in the catalog and matches the query. Every catalog asset that matches the query is in it. |
| `DashboardGallery.SearchAssetsKeeps` | src/components/Gallery.tsx:37-45 | An asset is kept iff it is in the catalog and its lower-cased title contains the lower-cased query. Neither the category nor the filter is consulted. |
| `DashboardGallery.FilterHasNoEffect` | src/components/Gallery.tsx:37-45 | Any two values of the selected filter give the same list. |
| `DashboardGallery.SearchIsUnfilteredMemorySearch` | src/components/Gallery.tsx:37-45 | The search equals the root gallery's filter with 'All' selected. |
| `DashboardGallery.SearchAssetsInOrder` | src/components/Gallery.tsx:38-44 | The list is a subsequence of the catalog, in catalog order. |
| `DashboardGallery.Duplicate` | src/components/Gallery.tsx:119 | A duplicate agrees with its original on every field except the id and the title, and both of those differ from the original's. |
| `DashboardGallery.OriginalCards` | src/components/Gallery.tsx:94-108 | There is one card per asset. Card `i` shows asset `i`, a click on it selects that same asset, and its React key is the asset's id. |
| `DashboardGallery.DuplicateCards` | src/components/Gallery.tsx:111-125 | There is one card per asset. Card `i` shows the duplicate of asset `i`, a click on it selects asset `i` itself, and its React key is the duplicate's id. |
| `DashboardGallery.Grid` | src/components/Gallery.tsx:93-125 | The grid has `2n` cards. Card `i` and card `n + i` both select asset `i`. |
| `DashboardGallery.GridLayout` | src/components/Gallery.tsx:94-125 | The grid has `2n` cards. Card `i` shows asset `i` with height class `heights[i % 4]`. Card `n + i` shows the duplicate of asset `i` with `heights2[(i + 2) % 4]`. |
| `DashboardGallery.GridOpensOriginals` | src/components/Gallery.tsx:103-120 | Every card selects an asset of the list. Read in grid order, the selected assets are the list twice over. |
| `DashboardGallery.ClickOnDuplicateOpensOriginal` | src/components/Gallery.tsx:120 | A click on duplicate card `n + i` selects original asset `i`, never the copy it shows. |
| `DashboardGallery.DuplicateChangesOnlyIdAndTitle` | src/components/Gallery.tsx:119 | A duplicate's id gains "-dup" and its title gains " (Copy)". Every other field is the original's, and the duplicate differs from the original. |
| `DashboardGallery.GridKeysDistinct` | src/components/Gallery.tsx:100-117 | The React keys are pairwise distinct when the asset ids are distinct and none already ends with "-dup". |
| `DashboardGallery.HeightsRepeatEveryFour` | src/components/Gallery.tsx:96-114 | In each half of the grid, a card's height class equals that of the card four places on. |
| `DashboardGallery.Dashboard.constructor` | src/components/Gallery.tsx:14-17 | On mount, nothing is selected, the filter is 'All', the query is empty, the tab is 'feed', and the catalog is the `src/` catalog. |
| `DashboardGallery.Dashboard.SetFilter` | src/components/Gallery.tsx:67-75 | A category button records the filter and changes nothing else. The filtered list and the grid stay exactly as they were. |
| `DashboardGallery.Dashboard.SetSearchQuery` | src/components/Gallery.tsx:59 | The header's search box sets the query and changes nothing else. |
| `DashboardGallery.Dashboard.SetActiveTab` | src/components/Gallery.tsx:61 | The header's tab switch sets the tab and changes nothing else. |
| `DashboardGallery.Dashboard.ClickCard` | src/components/Gallery.tsx:94-125 | A click on card `i` selects the original asset behind the card, which is in the filtered list. Nothing else changes. |
| `DashboardGallery.Dashboard.CloseDetail` | src/components/Gallery.tsx:136 | Closing the overlay clears the selection only. |
| `VersionTimeline.IndexOk` | src/components/AssetDetail.tsx:13-18 | A valid index is at least -1, and it is -1 only for an empty version list. |
| `VersionTimeline.InitialIndex` | src/components/AssetDetail.tsx:13 | The initial index is the last position of the version list when there is one and 0 when there is none. It is a valid index for a non-empty list, and -1 for an empty one. |
| `VersionTimeline.CountDots` | src/components/AssetDetail.tsx:67-68 | Among `n` dots lit up to `idx`, exactly `min(n, idx + 1)` are lit. |
| `VersionTimeline.Percent` | src/components/AssetDetail.tsx:66-68 | The first position is at 0 percent and the last at 100 percent. |
| `VersionTimeline.TimelineOf` | src/components/AssetDetail.tsx:49-75 | The overlay exists iff there are at least two versions. It then has one dot and one dot position per version. |
| `VersionTimeline.TimelineShownIff` | src/components/AssetDetail.tsx:49 | The overlay is drawn iff the asset has more than one version, so the divisor (the number of versions minus one) is never zero. |
| `VersionTimeline.TimelineCaptions` | src/components/AssetDetail.tsx:55-74 | The archive date and the middle caption are the active version's. The outer captions are the first and the last version's. |
| `VersionTimeline.HighlightedDots` | src/components/AssetDetail.tsx:67-68 | There is one dot per version. Dot `i` is lit iff `i <= idx`, so exactly `idx + 1` dots are lit. |
| `VersionTimeline.PercentBounds` | src/components/AssetDetail.tsx:66 | The filled width lies in [0, 100]. It is 0 exactly at the first version and 100 exactly at the last. |
| `VersionTimeline.PercentIncreasing` | src/components/AssetDetail.tsx:68 | Later versions sit strictly further along the track. |
| `VersionTimeline.FillReachesActiveDot` | src/components/AssetDetail.tsx:66-68 | The fill ends exactly at the active dot, and a dot is lit iff it lies under the fill. |
| `VersionTimeline.VersionViewer.constructor` | src/components/AssetDetail.tsx:12-13 | The viewer starts on `asset.modelUrl`, not the newest version's model, and on the initial index. The index invariant holds. |
| `VersionTimeline.VersionViewer.HandleVersionChange` | src/components/AssetDetail.tsx:15-19 | With no version list, nothing changes. Otherwise the index becomes `index` and the model becomes that version's model URL. The index invariant is preserved. |
| `DetailView.DisplayId` | components/AssetDetail.tsx:117 | The badge has length the larger of 4 and the length of the id. It ends with the id, and its added prefix is all '0'. An id of four or more characters is shown unchanged. |
| `DetailView.DisplayIdInjective` | components/AssetDetail.tsx:117 | Two ids of the same length with the same badge are equal. |
| `DetailView.DisplayIdCollision` | components/AssetDetail.tsx:117 | Ids of different lengths can share a badge: "1" and "01" both show as "0001". |
| `DetailView.DisplayIdOfDigit` | components/AssetDetail.tsx:117 | A one-digit id `d` is shown as `000d`. |
| `DetailView.Or` | components/AssetDetail.tsx:23-24 | JavaScript's OR of `s` and a fallback is empty iff `s` is falsy and the fallback is empty. A defined, non-empty `s` wins, and any result other than the fallback is `s` itself. |
| `DetailView.OrEmptyThenFallback` | components/AssetDetail.tsx:23 | OR-ing `s` first with `''` and then with `f` gives the same as OR-ing `s` with `f`. |
| `DetailView.OrEmptyIff` | components/AssetDetail.tsx:24 | OR-ing `s` with `f` gives the empty string iff `s` is falsy and `f` is empty. |
| `DetailView.MetadataText` | components/AssetDetail.tsx:148 | The summary is never empty. It is the description whenever the description is non-empty. |
| `DetailView.MetadataTextNeverBlank` | components/AssetDetail.tsx:148 | The summary is the description when it is non-empty, and the fixed "Historical preservation entry" sentence otherwise. It is never blank. |
| `DetailView.StoryContext` | components/AssetDetail.tsx:23 | The context sent with the request is empty iff the description is missing or empty. |
| `DetailView.StoryContextIff` | components/AssetDetail.tsx:23 | The story request receives the description when it is non-empty, and `''` otherwise (never `undefined`). |
| `DetailView.GenerateStory` | services/geminiService.ts:7-23 | A failed call yields the fixed fallback sentence. Only a reply can yield no text. |
| `DetailView.StoredStory` | components/AssetDetail.tsx:24 | A failed call stores the fallback sentence. An empty stored story comes only from a reply. |
| `DetailView.StoredStoryCases` | services/geminiService.ts:17-21 | A failed call stores the fixed fallback sentence, and a reply stores its text. The stored story is `''` exactly when the reply has no text or empty text. |
| `DetailView.ViewportFor` | components/AssetDetail.tsx:39-66 | The spinner is shown iff processing is under way. The 3D viewer is shown iff processing is over and the model URL is non-empty. |
| `DetailView.ViewportChoice` | components/AssetDetail.tsx:50-66 | Once processing is over, the 3D viewer is shown on `modelUrl` iff `modelUrl` is non-empty. Otherwise the thumbnail is shown. |
| `App.Enabled` | src/App.tsx:31-69 | No control is on screen on the detail page. The navbar's Gallery button is on screen only when a user is signed in. |
| `App.Step` | src/App.tsx:11-46 | Every handler whose control is on screen leads to a safe state. The logo and the Gallery button keep the user. |
| `App.Run` | src/App.tsx:8-69 | A run of on-screen events from a safe state ends in a safe state. A non-empty run that starts signed out ends either on the initial state or signed in. |
| `App.LoginIdempotent` | src/App.tsx:11-21 | Signing in always yields the gallery with the mock user, and signing in twice equals signing in once. |
| `App.LogoutResets` | src/App.tsx:23-26 | Signing out always yields the anonymous landing page, which is the initial state. |
| `App.NavigationKeepsUser` | src/App.tsx:33-50 | The logo sets the landing page and the Gallery button sets the gallery. Neither changes the user. |
| `App.StepStaysReachable` | src/App.tsx:8-50 | From either reachable state, every control on screen leads to a reachable state. |
| `App.RunStaysReachable` | src/App.tsx:8-50 | Every sequence of on-screen events from a reachable state ends in a reachable state. |
| `App.ReachableStatesAreSafe` | src/App.tsx:8-69 | From mount, the shell is only ever on the anonymous landing page or on the gallery as the mock user. So the gallery always has a user, and the detail page is never shown. |
| `App.SignedInNavbarUnreachable` | src/App.tsx:43-54 | In every state reached from mount, the navbar's Gallery button is not on screen, and a landing page has no user. |
| `App.BothStatesReached` | src/App.tsx:8-26 | Both reachable states are reached: mount, sign in, sign out. |
| `App.Shell.constructor` | src/App.tsx:8-9 | The shell starts on the landing page with no user, and it is safe: the gallery has a user and the detail page is not shown. |
| `App.Shell.HandleLogin` | src/App.tsx:11-21 | `handleLogin` runs only while the landing page is on screen. It sets the mock user and the gallery page, as the state machine's Login step does, and keeps the shell safe. |
| `App.Shell.HandleLogout` | src/App.tsx:23-26 | `handleLogout` runs only from the gallery or from a signed-in landing page. It clears the user and shows the landing page, as the Logout step does, and keeps the shell safe. |
| `App.Shell.ClickLogo` | src/App.tsx:33-36 | The logo runs only while the navbar is on screen. It shows the landing page and keeps the user, as the LogoClick step does, and keeps the shell safe. |
| `App.Shell.ClickGalleryNav` | src/App.tsx:43-50 | The Gallery button runs only on a signed-in landing page. It shows the gallery and keeps the user, as the GalleryNav step does, and keeps the shell safe. |
| `Fixtures.RootCategories` | constants.ts:4-58 | The root catalog has five assets. Their categories in order are Object, Object, Art, Object, Environment. |
| `Fixtures.RootDates` | constants.ts:4-58 | The root catalog's capture dates, in order, are 2024-05-12, 2024-05-10, 2024-05-08, 2024-05-01 and 2024-04-28. |
| `Fixtures.ObjectFilterOnRootCatalog` | constants.ts:4-58 | On the root catalog, 'Object' with an empty query keeps the assets with ids 1, 2 and 4, in that order. |
| `Fixtures.RootCatalogMonths` | constants.ts:4-58 | Under the (year, month) reading of the date, the root catalog groups into May 2024 (its first four assets) and then April 2024 (the fifth). |
| `Fixtures.MonthBoundaries` | components/Gallery.tsx:27-28 | Under the (year, month) reading of the date, the first and last days of May share a label, June 1 has the next label, and month 13 is an invalid date. |
| `Fixtures.InterleavedKeysReorder` | components/Gallery.tsx:24-33 | For keys k, k', k the groups are [k: first and third item] and [k': second item]. Reading them out moves the third item ahead of the second. |
| `Fixtures.InterleavedMonthsReorder` | constants.ts:4-58 | For three root assets from May, April and May, the grouped view differs from the filtered order. |
| `Fixtures.DashboardCatalogShape` | src/constants.ts:4-92 | The `src/` catalog has five assets with ids 1 to 5. Only the first, the astronaut, has a version list, and that list has three captures. |
| `Fixtures.AstronautTimeline` | src/constants.ts:4-26 | The `src/` astronaut opens on its newest capture, "Final Archive" of 2024-05-12. All three dots are lit and the track is full. |
| `Fixtures.RootViewports` | constants.ts:4-58 | The root astronaut shows its model. The gear and the moss patch have no model URL and show their thumbnails. |

## Left out

- Markup, styling, animations and the `<model-viewer>` element are rendering, not logic.
- Locale and time zone: the month label is kept abstract as (year, month) read from the `YYYY-MM-DD` text. The locale string is not modelled, nor is the shift to the previous month in zones behind UTC.
- LabelOf: only the `YYYY-MM-DD` form is parsed. A date is valid when its month is 01-12 and its day is 01-31. Other forms that `new Date` accepts, such as `2024-05` or a date with a time part, are labelled as invalid dates. How the JavaScript engine treats days beyond a month's end is not modelled.
- ToLower: lower-casing is modelled for ASCII letters only. Unicode case mapping is not modelled.
- PadStart: lengths are counted in characters (Unicode scalar values). JavaScript's `padStart` counts UTF-16 code units, so for an id holding a character outside the Basic Multilingual Plane the source adds one zero fewer than the model. `DetailView.DisplayId` inherits this.
- The `useEffect` in the root detail view is not modelled: its 1.5-second timer, its async story fetch, and the `loading` and `isProcessing` timing. The processing flag is a parameter of `ViewportFor`.
- The call to the generative-language service is not modelled. Its outcome (a reply text or a failure) is a parameter, and `suggestRemix` is not used by the modelled views.
- PercentBounds: the widths and dot offsets are exact rationals (`real`), not IEEE doubles, and the percent string formatting is not modelled.
- HandleVersionChange (`VersionTimeline.VersionViewer.HandleVersionChange`) requires an index inside the version list. The source has no bounds check and fails on a larger index. The range input only produces `0 .. n - 1`, and `parseInt` of its value is taken as already an integer.
- GroupsByFirstAppearance: first-appearance order is stated as "the keys of each prefix are a prefix of the key list" rather than through first-occurrence indices. `Fixtures.InterleavedKeysReorder` shows the consequence on a concrete input.
- The sidebar, landing page and dashboard header are static components, and `AssetCard`'s display fallbacks are not modelled.
- The `detail` value of `AppView` is declared but never set by any handler. It is modelled as a view no step produces.
- The build configuration is not modelled.
