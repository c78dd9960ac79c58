# Token trading table: the client-side data engine in Dafny

This project models the data engine behind a three-column token trading
table (new pairs, final stretch, migrated). The engine has these parts:

- an id-keyed token store with two writes, the additive upsert `setTokens`
  and the partial patch `updateTokenPrice`;
- the application slice, which keeps one sort/priority state per column plus
  the selected token, the connection flag and the search query;
- each column's view: the fetched list overlaid with the store's entries,
  then stably sorted by the column's field and direction;
- the card helpers: address truncation, the category prefix, the sign of the
  percentage boxes, and the up/down price flash;
- the search dialog's filter and its query state;
- the age formatter and the dummy-token generator;
- `clamp` and the threshold/suffix logic of the number formatters;
- the mock price feed: its one-interval lifecycle and the updates it
  generates.

Everything is a pure function over immutable datatypes. Time (`Date.now`),
the random draws (`Math.random`), timer handles, the random hex of the pair
addresses, and the digit rendering of numbers are all parameters.

Modules, one per file:

| file | module | source |
|---|---|---|
| `types.dfy` | `Types` | `lib/types.ts` |
| `js.dfy` | `Js` | the JavaScript built-ins the code relies on: `slice`, `includes`, `toLowerCase`, `trim`, integer `toString` |
| `token_store.dfy` | `TokenStore` | `store/slices/tokenSlice.ts` |
| `app_state.dfy` | `AppSlice` | `store/slices/appSlice.ts` |
| `stable_sort.dfy` | `StableSort` | the stable `Array.prototype.sort` (section 22.1.3.27 of ECMA-262, 2019 edition) |
| `column_view.dfy` | `ColumnView` | `components/TokenColumn.tsx` |
| `token_card.dfy` | `TokenCard` | `components/TokenCard.tsx` |
| `search.dfy` | `Search` | `components/SearchDialog.tsx` |
| `constants.dfy` | `Constants` | `lib/constants.ts` |
| `utils.dfy` | `Utils` | `lib/utils.ts` |
| `mock_feed.dfy` | `MockFeed` | `hooks/useWebSocket.ts` |
| `page.dfy` | `Page` | the seeding and update wiring of `app/page.tsx` |

Decisions worth knowing when reading the model:

- **Key order.** The store keeps its key insertion order next to the map,
  because the search dialog reads `Object.values(tokens)` and its results
  come out in that order.
- **Comparator input.** The column comparator is modelled on the runtime
  `sortBy` string, so its `default: return 0` branch is reachable.
  `ColumnView.CompareIsRankDifference` shows that the comparator is
  `Rank(a) - Rank(b)`, so it is consistent.
- **Sort stability.** Stability is stated as "for every key value, the
  elements carrying it appear in the same order in input and output".
  `StableSort.StableSortUnique` shows that these facts pin down the result,
  so any stable sort returns the model's result.
- **Price flash.** The flash is a small state machine. Its state is the
  colour, the previous price, and the pending reset times. A reset, once
  scheduled, is never cancelled: the code keeps no timer handle.
- **Behaviour worth knowing.** The model follows the code:
  - A column's view is the fetched list mapped through the store. It does
    not select tokens from the store by category, and ties keep the fetched
    order.
  - `updateTokenPrice` copies price, marketCap, volume24h and
    priceChange24h from the update as given, and `percentageChanges`
    whenever the update carries it, whatever its length.
  - A flash reset, once scheduled, is never cancelled, so an earlier reset
    can end a newer flash early (`TokenCard.StaleResetCutsNewerFlash`).
  - Below 1000, `formatCurrency` uses a plain number formatter, so it prints
    no "$".

## Model

| member | source | states |
|---|---|---|
| Types.ParseCategory | lib/types.ts:26 | a string names a category exactly when it is one of the three category names; parsing inverts naming |
| Types.ParsePriority | lib/types.ts:29 | a string is a priority exactly when it is "P1", "P2" or "P3" |
| Types.ParseSortOption | lib/types.ts:32 | a string is a sort option exactly when it is one of the five option names |
| Types.ParseSortDirection | lib/types.ts:35 | a string is a direction exactly when it is "asc" or "desc" |
| TokenStore.InitialState | store/slices/tokenSlice.ts:8-10 | the store starts with no tokens and an empty key order; it is valid and `Object.values` lists nothing |
| TokenStore.SetTokens | store/slices/tokenSlice.ts:16-20 | the key set grows by exactly the list's ids; ids absent from the list keep their entry or absence; each listed id maps to a list element carrying that id |
| TokenStore.SetTokensLastWins | store/slices/tokenSlice.ts:17-19 | every id maps to the last token in the list with that id (found by an independent backward scan), and other ids are untouched |
| TokenStore.SetTokensIdempotent | store/slices/tokenSlice.ts:16-20 | seeding the same list twice equals seeding it once |
| TokenStore.SetTokensKeepsIdKeyed | store/slices/tokenSlice.ts:18 | if every key maps to a token carrying that id, this still holds after seeding |
| TokenStore.SetTokensReducer | store/slices/tokenSlice.ts:16-20 | the existing key order is kept as a prefix; the keys after it are new ids of the list, in the order each first occurs in the list; the store invariant is preserved |
| TokenStore.UpdateTokenPrice | store/slices/tokenSlice.ts:21-31 | the key set never changes; an unknown id leaves the store unchanged; other tokens are unchanged; the target gets the four numeric fields and, only when supplied, the new percentageChanges; all its other fields are kept |
| TokenStore.PatchedByDetermines | store/slices/tokenSlice.ts:24-30 | the patch fixes every field of the updated token |
| TokenStore.UpdateTokenPriceIdempotent | store/slices/tokenSlice.ts:21-31 | applying the same update twice equals applying it once |
| TokenStore.UpdateTokenPriceReducer | store/slices/tokenSlice.ts:21-31 | the key order never changes and the store invariant is preserved |
| TokenStore.Values | components/SearchDialog.tsx:35 | in a valid store, `Object.values` lists one token per key, in key insertion order, each stored token exactly once |
| AppSlice.InitialState | store/slices/appSlice.ts:12-21 | all three columns start at (P1, price, desc); no selection, disconnected, empty query |
| AppSlice.SetActivePriority | store/slices/appSlice.ts:27-32 | only the named column's activePriority changes |
| AppSlice.SetSortBy | store/slices/appSlice.ts:33-38 | only the named column's sortBy changes |
| AppSlice.SetSortDirection | store/slices/appSlice.ts:39-44 | only the named column's sortDirection changes |
| AppSlice.SetSelectedToken | store/slices/appSlice.ts:45-47 | only selectedToken changes |
| AppSlice.SetConnectionStatus | store/slices/appSlice.ts:48-50 | only isConnected changes |
| AppSlice.SetSearchQuery | store/slices/appSlice.ts:51-53 | only searchQuery changes |
| AppSlice.ReduceIdempotent | store/slices/appSlice.ts:27-53 | dispatching any of the six actions twice equals dispatching it once |
| StableSort.Sort | components/TokenColumn.tsx:72-95 | the sort result is a permutation of the input and is ordered by key |
| StableSort.SortStable | components/TokenColumn.tsx:72 | elements sharing a key keep their input order |
| StableSort.StableSortUnique | components/TokenColumn.tsx:72 | two stable sorts of one input by one key are equal |
| StableSort.SortOfSorted | components/TokenColumn.tsx:72 | an input already ordered by key comes back unchanged |
| ColumnView.MergedTokens | components/TokenColumn.tsx:65-67 | same length and order as the fetched list; element i is the stored token for its id when present, else the fetched one |
| ColumnView.MergeAfterSeed | components/TokenColumn.tsx:65-67 | merging a distinct-id list after seeding the store with it gives the list back |
| ColumnView.GeneratedSurviveSeed | components/TokenColumn.tsx:65-67 | the generator's tokens come back unchanged after a seed-then-merge round |
| ColumnView.SortFieldMatchesOption | components/TokenColumn.tsx:75-92 | the comparator reads price, volume24h, liquidity, priceChange24h or marketCap for the five options, and falls through exactly for other strings |
| ColumnView.CompareIsRankDifference | components/TokenColumn.tsx:72-95 | the comparator is the difference of the key, negated for "desc" |
| ColumnView.SortedTokens | components/TokenColumn.tsx:69-99 | empty gives empty; the result is a permutation of the merged list; the key is non-decreasing for "asc" and non-increasing for "desc"; equal keys keep merged order |
| ColumnView.UnknownSortKeepsOrder | components/TokenColumn.tsx:91-92 | an unrecognised sort key leaves the merged order unchanged |
| ColumnView.View | components/TokenColumn.tsx:65-99 | the column shows exactly as many tokens as were fetched |
| ColumnView.TokenCount | components/TokenColumn.tsx:120 | the header count equals the number of fetched tokens |
| ColumnView.PriorityDoesNotFilter | components/TokenColumn.tsx:62 | changing activePriority does not change the view |
| ColumnView.HandleSort | components/TokenColumn.tsx:105-117 | the current option flips the direction; another option is selected descending; priority and other columns are unchanged |
| ColumnView.HandleSortTwice | components/TokenColumn.tsx:105-117 | clicking the current option twice restores the state; a new option clicked twice ends ascending |
| TokenCard.TruncateAddress | components/TokenCard.tsx:28-35 | a short address is unchanged; otherwise start chars, "...", and the last `end` chars, of length start+end+3; with end 0 the whole address follows the dots |
| TokenCard.TruncatedTailIsAddressTail | components/TokenCard.tsx:98 | the last four characters shown are the address's own last four |
| TokenCard.CategoryPrefix | components/TokenCard.tsx:57-62 | new-pairs gives "newPai", final-stretch "finalS", anything else "migrat" |
| TokenCard.CategoryPrefixInjective | components/TokenCard.tsx:57-62 | the three categories get three different prefixes |
| TokenCard.BoxTone | components/TokenCard.tsx:147-158 | positive exactly for >0, negative exactly for <0, neutral exactly for 0 |
| TokenCard.BoxTones | components/TokenCard.tsx:146-159 | one box per percentage change, in order, each with its tone |
| TokenCard.PriceEffect | components/TokenCard.tsx:45-54 | a rise turns green, a fall red, each scheduling a reset 1000 ms later; an equal price changes nothing; the previous price becomes the current one |
| TokenCard.PriceEffectSettles | components/TokenCard.tsx:53-54 | re-running the effect after the previous price was updated is a no-op |
| TokenCard.Tick | components/TokenCard.tsx:48-51 | any due reset clears the colour, whichever flash scheduled it; with none due the colour is kept |
| TokenCard.FlashDecays | components/TokenCard.tsx:48-51 | a flash is cleared once 1000 ms have passed |
| TokenCard.StaleResetCutsNewerFlash | components/TokenCard.tsx:45-52 | a green flash followed within 1000 ms by a red one has its red cleared by the first reset, while the red flash's own reset is still pending |
| Js.IncludesIffOccurs | components/SearchDialog.tsx:37-40 | the left-to-right `includes` scan succeeds exactly when the substring occurs at some position |
| Js.ToLowerKeepsIncludes | components/SearchDialog.tsx:37-40 | lower-casing both sides keeps every containment |
| Js.Trim | components/SearchDialog.tsx:34 | the result is a window of the input with only white space before and after it, and it neither starts nor ends with white space |
| Js.TrimEmptyIffBlank | components/SearchDialog.tsx:32 | trimming gives the empty string exactly when the input is all white space |
| Js.TrimLowerEmptyIff | components/SearchDialog.tsx:32-34 | the guard on the raw query and the lower-cased trimmed query agree on emptiness |
| Search.Filter | components/SearchDialog.tsx:35-42 | a token is kept exactly when it matches, with as many copies as the input has; the result is a subsequence of the input |
| Search.FilteredTokens | components/SearchDialog.tsx:31-43 | a blank query gives no results; otherwise a token is in the result exactly when its lower-cased symbol, name, pairAddress or category contains the trimmed lower-cased query; each match is kept as often as it occurs; results keep store order |
| Search.SearchStore | components/SearchDialog.tsx:27-43 | the results are exactly the matching tokens among all stored tokens, each once, in `Object.values` order |
| Search.NormaliseNonBlank | components/SearchDialog.tsx:32-34 | the normalised query is empty exactly for a blank query |
| Search.MatchesSubstring | components/SearchDialog.tsx:36-41 | a token matching a query matches every substring of it |
| Search.NormalisedContainment | components/SearchDialog.tsx:34 | containment between raw queries survives lower-casing and trimming |
| Search.LongerQueryNarrows | components/SearchDialog.tsx:31-43 | if q' contains a non-blank q, every result for q' is a result for q |
| Search.PanelFor | components/SearchDialog.tsx:103-173 | "not found" exactly for a non-blank query with no results, the list exactly when there are results, the prompt otherwise |
| Search.BlankQueryPrompts | components/SearchDialog.tsx:32 | a blank query always shows the prompt |
| Search.CountLabel | components/SearchDialog.tsx:110-111 | the label starts with the count and says "results" exactly when the count is not 1 |
| Search.HandleSearchChange | components/SearchDialog.tsx:45-52 | the field and the stored query both take the typed text |
| Search.HandleClear | components/SearchDialog.tsx:92-95 | both queries become empty; the dialog stays open |
| Search.HandleClose | components/SearchDialog.tsx:64-68 | the dialog closes and both queries become empty |
| Search.HandleTokenClick | components/SearchDialog.tsx:54-62 | the clicked token becomes the selected token; the queries are unchanged |
| Search.RunKeepsInSync | components/SearchDialog.tsx:45-95 | through any sequence of dialog events, the field and the stored query stay equal |
| Search.CloseResetsQuery | components/SearchDialog.tsx:64-68 | after closing, the filter yields nothing and the prompt shows |
| Constants.AgeOf | lib/constants.ts:6-15 | under 60 s whole seconds; under 60 min whole minutes; under 24 h hours plus minutes below 60; otherwise days plus hours below 24; each with the interval it stands for |
| Constants.FormatTimeAgo | lib/constants.ts:11-14 | the unit letter at the end ("s", "m" or "h") tells the duration's range |
| Constants.FormatTimeAgoDigits | lib/constants.ts:6-15 | the printed numbers are the floored quotients: whole seconds + "s"; whole minutes + "m"; hours, then minutes mod 60, as "<h>h <m>m"; days, then hours mod 24, as "<d>d <h>h" |
| Constants.TokenData | lib/constants.ts:30-289 | five new pairs, four final-stretch and five migrated entries, each with four percentage changes |
| Constants.GenerateDummyTokens | lib/constants.ts:294-304 | keeps min(count, available) entries (all for a missing or zero count); entry i has id "<category>-<symbol>-<i>", the given category, createdAt = now - 1000*i, and every other field copied |
| Constants.TokenIdIndexInjective | lib/constants.ts:300 | ids built from different indices differ, whatever the symbols |
| Constants.GeneratedIdsDistinct | lib/constants.ts:300 | generated ids are pairwise distinct |
| Constants.GeneratedCreatedAtDecreasing | lib/constants.ts:302 | creation times fall by 1000 ms per position |
| Utils.Clamp | lib/utils.ts:46-48 | with min <= max the result is in [min, max], the value itself when already in range, the nearer bound otherwise; with min > max it is max |
| Utils.ClampIdempotent | lib/utils.ts:46-48 | clamping twice equals clamping once |
| Utils.ScaleOf | lib/utils.ts:16-21 | millions exactly from 1e6, thousands exactly in [1e3, 1e6), units below 1e3 |
| Utils.FormatCurrency | lib/utils.ts:15-26 | from 1e6 up the value in millions between "$" and "M", from 1e3 up in thousands between "$" and "K", below that the plain formatter's output with no sign |
| Utils.FormatPercentage | lib/utils.ts:31-34 | "+" before non-negative values only, then the value with the given decimals, then "%" |
| Utils.FormatNumber | lib/utils.ts:53-61 | from 1e6 up the value in millions with one decimal and "M", from 1e3 up in thousands with "K", below that `toString` |
| Utils.FormatCurrencyShape | lib/utils.ts:15-26 | given numeral renderers: "$" exactly from 1000 up, "M" exactly from 1e6 up, "K" exactly in between; no prefix or suffix below 1000 |
| Utils.FormatPercentageShape | lib/utils.ts:31-34 | given a numeral renderer: always ends in "%", and starts with "+" exactly when value >= 0 |
| Utils.FormatNumberShape | lib/utils.ts:53-61 | given numeral renderers: "M" exactly from 1e6 up, "K" exactly in between, a plain numeral exactly below 1000 |
| MockFeed.Connect | hooks/useWebSocket.ts:15-71 | the held interval is cleared before a new one is held, so one interval is live |
| MockFeed.Disconnect | hooks/useWebSocket.ts:73-78 | the held interval is cleared and the handle dropped |
| MockFeed.DisconnectIdempotent | hooks/useWebSocket.ts:73-78 | disconnecting twice equals disconnecting once |
| MockFeed.ConnectTwiceKeepsOne | hooks/useWebSocket.ts:18-20 | two connects in a row still leave exactly one interval |
| MockFeed.Effect | hooks/useWebSocket.ts:80-86 | connected leads to connect and holds a handle; disconnected leads to disconnect |
| MockFeed.RunEffectsKeepsOne | hooks/useWebSocket.ts:80-90 | across any flag history at most one interval is live, and one is live exactly when the latest flag is true |
| MockFeed.UnmountStopsFeed | hooks/useWebSocket.ts:87-89 | the cleanup leaves no interval running |
| MockFeed.MockIdsAreGeneratedIds | hooks/useWebSocket.ts:23-38 | the 14 ids are, in order, the generator's ids for counts 5, 4 and 5 |
| MockFeed.BoxChange | hooks/useWebSocket.ts:54-57 | each percentage box is a whole number in [-60, 140] |
| MockFeed.GenerateUpdate | hooks/useWebSocket.ts:40-69 | the id is one of the 14; price >= 0.00001 and marketCap >= 50000; four whole-number percentage changes; with draws in [0,1), priceChange24h in [-2,2) and volume24h in [50000,550000) |
| MockFeed.OnInterval | hooks/useWebSocket.ts:40-70 | a tick delivers an update exactly when its interval is live |
| MockFeed.DisconnectedFeedIsSilent | hooks/useWebSocket.ts:73-78 | after disconnecting, no tick delivers an update |
| Page.Seed | app/page.tsx:58-62 | an empty fetch leaves the store unchanged; otherwise the keys grow by the fetched ids; the invariant is kept |
| Page.SeedColumns | app/page.tsx:58-74 | after seeding three columns, the keys are the union of their ids and the invariant holds |
| Page.MockUpdatesHitSeededTokens | app/page.tsx:76-80 | once the columns are seeded, every generated update names a stored token and sets its price |

## Left out

- Presentation, layout, icons, tooltips, popovers and modals are left out, as are the copy-to-clipboard button and its 2-second "copied" toggle. None of them carries logic beyond markup.
- `cn` is left out: it calls `clsx` and `tailwind-merge`, which are outside this code.
- `randomBetween` and `generatePercentageChanges` are left out. Both are random, and the latter is never called.
- `useTokenData` is left out: it is a React Query wrapper with an artificial delay and cache policy.
- The `logo` field of a token is left out. It is display-only.
- Real timers, React re-render scheduling, `useMemo` caching and observers are left out. Time is a parameter, timer firing is an explicit `Tick`, and the interval handle is an abstract counter.
- Utils.FormatCurrencyShape: digit rendering (`toFixed`, `Intl.NumberFormat`, `toString`) is a parameter. The prefix/suffix facts are proved for renderers that produce plain numerals. So effects like a rounded "1000.00K" just below a million are not modelled.
- Utils.FormatPercentageShape: for the same reason, `toFixed` producing "-0" for a small negative value is not modelled.
- Utils.FormatNumberShape: `toString` of NaN, infinities or exponent-form numbers is not modelled. Token fields are reals here, not IEEE doubles.
- Numbers are exact reals, not doubles. Rounding in `Math.random() * 14`, the price arithmetic and the comparator differences is not modelled.
- `Object.values` lists integer-like keys first in JavaScript. The model lists keys in insertion order only, which is what the generated ids ("<category>-<symbol>-<index>") get.
- Js.LowerChar: `toLowerCase` is modelled on ASCII letters only. Other Unicode case mappings are not.
- TokenCard.TruncateAddress: `start` and `end` are natural numbers. Negative or fractional arguments are not modelled; the code only passes 5 and 4.
- The pair addresses in the token table come from `Math.random().toString(16)` at load time. They are a parameter.
- MockFeed.GenerateUpdate: it requires the index draw to lie in [0, 1), as `Math.random` guarantees. The update price does not depend on the stored price, as in the code.
- Constants.GenerateDummyTokens: `Date.now()` is read once for the whole list, where the code reads it again for every element. The exact 1000 ms gap in `Constants.GeneratedCreatedAtDecreasing` therefore holds only when the clock does not advance during the `map`.
- TokenCard.TruncateAddress: Dafny strings are sequences of Unicode scalar values, while JavaScript's `length`, `slice`, `includes` and `trim` count UTF-16 code units. For text with characters outside the Basic Multilingual Plane, the cut points of `Js.Slice` and `TokenCard.TruncateAddress` and the positions in `Js.Includes` differ from the code's.
- TokenStore.SetTokens: the store is a map, whereas the code indexes a plain object. Ids that name `Object.prototype` members (`"__proto__"`, `"constructor"`, `"toString"`, ...) behave differently there: writing `"__proto__"` replaces the prototype instead of adding a key, and reading an inherited name yields a built-in function. Such ids are not modelled; the generated ids ("<category>-<symbol>-<index>") never take these values. The same holds for `TokenStore.UpdateTokenPrice` and `ColumnView.MergedTokens`.
