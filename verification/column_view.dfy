/** A column's view: the fetched list overlaid with the store's entries, then
    stably sorted by the column's field and direction; plus the sort-toggle
    rule of the column header and the token count it shows. */
module ColumnView {
  import opened Types
  import StableSort
  import TokenStore
  import AppSlice
  import Constants

  // ---------------------------------------------------------------------------
  // Merging

  /** `tokens.map(token => storedTokens[token.id] || token)`. A stored token is
      an object and therefore truthy, so a present entry always wins. */
  function MergedTokens(fetched: seq<Token>, stored: TokenStore.Tokens): (r: seq<Token>)
    ensures |r| == |fetched|
    ensures forall i :: 0 <= i < |r| && fetched[i].id in stored ==> r[i] == stored[fetched[i].id]
    ensures forall i :: 0 <= i < |r| && fetched[i].id !in stored ==> r[i] == fetched[i]
    ensures TokenStore.IdKeyed(stored) ==> forall i :: 0 <= i < |r| ==> r[i].id == fetched[i].id
  {
    seq(|fetched|, i requires 0 <= i < |fetched| =>
      if fetched[i].id in stored then stored[fetched[i].id] else fetched[i])
  }

  ghost predicate DistinctIds(list: seq<Token>) {
    forall i, j :: 0 <= i < j < |list| ==> list[i].id != list[j].id
  }

  lemma {:induction false} LastWithIdDistinct(list: seq<Token>, i: int)
    requires DistinctIds(list) && 0 <= i < |list|
    ensures TokenStore.LastWithId(list, list[i].id) == Some(list[i])
    decreases |list|
  {
    if i < |list| - 1 {
      LastWithIdDistinct(list[..|list| - 1], i);
    }
  }

  /** Seeding the store with a fetched list of distinct ids and then merging
      gives back the fetched list itself. */
  lemma MergeAfterSeed(m: TokenStore.Tokens, fetched: seq<Token>)
    requires DistinctIds(fetched)
    ensures MergedTokens(fetched, TokenStore.SetTokens(m, fetched)) == fetched
  {
    var stored := TokenStore.SetTokens(m, fetched);
    forall i | 0 <= i < |fetched| ensures fetched[i].id in stored && stored[fetched[i].id] == fetched[i] {
      LastWithIdDistinct(fetched, i);
      TokenStore.SetTokensLastWins(m, fetched, fetched[i].id);
    }
  }

  /** The generator's tokens survive a seed-then-merge round unchanged. */
  lemma GeneratedSurviveSeed(m: TokenStore.Tokens, c: TokenCategory, count: Option<int>, now: int, hex: Constants.HexDraws)
    ensures var fetched := Constants.GenerateDummyTokens(c, count, now, hex);
            MergedTokens(fetched, TokenStore.SetTokens(m, fetched)) == fetched
  {
    var fetched := Constants.GenerateDummyTokens(c, count, now, hex);
    forall i, j | 0 <= i < j < |fetched| ensures fetched[i].id != fetched[j].id {
      Constants.GeneratedIdsDistinct(c, count, now, hex, i, j);
    }
    MergeAfterSeed(m, fetched);
  }

  // ---------------------------------------------------------------------------
  // The comparator

  /** The field the comparator's `switch (sortBy)` reads; `None` is its
      `default` branch, reachable only by a value outside the five options. */
  function SortField(sortBy: string, t: Token): Option<real> {
    if sortBy == "price" then Some(t.price)
    else if sortBy == "volume" then Some(t.volume24h)
    else if sortBy == "liquidity" then Some(t.liquidity)
    else if sortBy == "change" then Some(t.priceChange24h)
    else if sortBy == "marketCap" then Some(t.marketCap)
    else None
  }

  /** The token field each sort option names. */
  function FieldOf(o: SortOption, t: Token): real {
    match o
    case Price => t.price
    case Volume => t.volume24h
    case Liquidity => t.liquidity
    case Change => t.priceChange24h
    case MarketCap => t.marketCap
  }

  /** The switch reads the field the option names, and falls through to its
      default exactly for strings that are not a sort option. */
  lemma SortFieldMatchesOption(sortBy: string, t: Token)
    ensures match ParseSortOption(sortBy)
            case Some(o) => SortField(sortBy, t) == Some(FieldOf(o, t))
            case None => SortField(sortBy, t) == None
  {
  }

  /** The sort key: the selected field, or 0 for every token when the switch
      falls through. */
  function Key(sortBy: string, t: Token): real {
    match SortField(sortBy, t) case Some(k) => k case None => 0.0
  }

  function KeyFn(sortBy: string): Token -> real {
    t => Key(sortBy, t)
  }

  /** The comparator as written: `default: return 0`, otherwise the field
      difference, negated for a descending column. */
  function Compare(sortBy: string, dir: SortDirection, a: Token, b: Token): real {
    if SortField(sortBy, a).None? then 0.0
    else
      var comparison := SortField(sortBy, a).value - SortField(sortBy, b).value;
      if dir == Asc then comparison else -comparison
  }

  /** The ascending-sorted quantity: the key itself, or its negation for "desc". */
  function Rank(sortBy: string, dir: SortDirection, t: Token): real {
    if dir == Asc then Key(sortBy, t) else -Key(sortBy, t)
  }

  function RankFn(sortBy: string, dir: SortDirection): Token -> real {
    t => Rank(sortBy, dir, t)
  }

  /** The comparator orders tokens by Rank, so it is a consistent comparator and
      a stable sort by it is a stable sort by Rank. */
  lemma CompareIsRankDifference(sortBy: string, dir: SortDirection, a: Token, b: Token)
    ensures Compare(sortBy, dir, a, b) == Rank(sortBy, dir, a) - Rank(sortBy, dir, b)
  {
  }

  // ---------------------------------------------------------------------------
  // Sorting

  /** `sortedTokens`: empty for an empty list, otherwise `[...merged].sort(cmp)`
      with a stable sort. The result is a permutation of the merged list,
      ordered on the selected field in the column's direction, and tokens with
      equal field values keep their merged-list order. */
  function SortedTokens(merged: seq<Token>, sortBy: string, dir: SortDirection): (r: seq<Token>)
    ensures |merged| == 0 ==> r == []
    ensures multiset(r) == multiset(merged)
    ensures dir == Asc ==> forall i, j :: 0 <= i < j < |r| ==> Key(sortBy, r[i]) <= Key(sortBy, r[j])
    ensures dir == Desc ==> forall i, j :: 0 <= i < j < |r| ==> Key(sortBy, r[i]) >= Key(sortBy, r[j])
    ensures forall v :: StableSort.WithKey(r, KeyFn(sortBy), v) == StableSort.WithKey(merged, KeyFn(sortBy), v)
  {
    if |merged| == 0 then []
    else
      var rank := RankFn(sortBy, dir);
      var key := KeyFn(sortBy);
      var r := StableSort.Sort(merged, rank);
      assert forall i :: 0 <= i < |r| ==> rank(r[i]) == Rank(sortBy, dir, r[i]);
      StableSort.SortIsStableSort(merged, rank);
      RankSelectsKey(r, merged, sortBy, dir);
      r
  }

  lemma RankSelectsKey(r: seq<Token>, s: seq<Token>, sortBy: string, dir: SortDirection)
    requires forall w :: StableSort.WithKey(r, RankFn(sortBy, dir), w) == StableSort.WithKey(s, RankFn(sortBy, dir), w)
    ensures forall v :: StableSort.WithKey(r, KeyFn(sortBy), v) == StableSort.WithKey(s, KeyFn(sortBy), v)
  {
    var rank := RankFn(sortBy, dir);
    var key := KeyFn(sortBy);
    forall v ensures StableSort.WithKey(r, key, v) == StableSort.WithKey(s, key, v) {
      var w := if dir == Asc then v else -v;
      StableSort.WithKeyRekey(r, key, v, rank, w);
      StableSort.WithKeyRekey(s, key, v, rank, w);
      assert StableSort.WithKey(r, rank, w) == StableSort.WithKey(s, rank, w);
    }
  }

  /** When `sortBy` is not one of the five options the comparator always answers
      0 and the merged order is kept. */
  lemma UnknownSortKeepsOrder(merged: seq<Token>, sortBy: string, dir: SortDirection)
    requires ParseSortOption(sortBy) == None
    ensures SortedTokens(merged, sortBy, dir) == merged
  {
    if |merged| > 0 {
      var rank := RankFn(sortBy, dir);
      assert forall t :: rank(t) == 0.0;
      StableSort.SortOfSorted(merged, rank);
    }
  }

  /** The column view: merge, then sort by the column's settings. The
      column's activePriority is not consulted. */
  function View(fetched: seq<Token>, stored: TokenStore.Tokens, col: ColumnState): (r: seq<Token>)
    ensures |r| == |fetched|
  {
    SortedTokens(MergedTokens(fetched, stored), SortOptionName(col.sortBy), col.sortDirection)
  }

  /** The token count shown in the header is the number of fetched tokens. */
  function TokenCount(fetched: seq<Token>, stored: TokenStore.Tokens, col: ColumnState): (n: nat)
    ensures n == |fetched|
  {
    |View(fetched, stored, col)|
  }

  /** Changing the priority tab does not change the view. */
  lemma PriorityDoesNotFilter(fetched: seq<Token>, stored: TokenStore.Tokens, col: ColumnState, p: Priority)
    ensures View(fetched, stored, col.(activePriority := p)) == View(fetched, stored, col)
  {
  }

  // ---------------------------------------------------------------------------
  // The sort toggle

  function Flip(d: SortDirection): SortDirection {
    if d == Asc then Desc else Asc
  }

  /** `handleSort(option)`: choosing the current field flips the direction;
      choosing another field selects it, descending. */
  function HandleSort(s: AppSlice.AppState, c: TokenCategory, o: SortOption): (r: AppSlice.AppState)
    ensures AppSlice.Column(r.columns, c).sortBy == o
    ensures AppSlice.Column(s.columns, c).sortBy == o ==>
              AppSlice.Column(r.columns, c).sortDirection != AppSlice.Column(s.columns, c).sortDirection
    ensures AppSlice.Column(s.columns, c).sortBy != o ==> AppSlice.Column(r.columns, c).sortDirection == Desc
    ensures AppSlice.Column(r.columns, c).activePriority == AppSlice.Column(s.columns, c).activePriority
    ensures AppSlice.SameExceptColumn(r, s, c)
  {
    var col := AppSlice.Column(s.columns, c);
    if col.sortBy == o then
      AppSlice.SetSortDirection(s, c, Flip(col.sortDirection))
    else
      AppSlice.SetSortDirection(AppSlice.SetSortBy(s, c, o), c, Desc)
  }

  /** Choosing the current field twice restores the state; choosing a new
      field twice leaves it selected ascending. */
  lemma HandleSortTwice(s: AppSlice.AppState, c: TokenCategory, o: SortOption)
    ensures AppSlice.Column(s.columns, c).sortBy == o ==> HandleSort(HandleSort(s, c, o), c, o) == s
    ensures AppSlice.Column(s.columns, c).sortBy != o ==>
              AppSlice.Column(HandleSort(HandleSort(s, c, o), c, o).columns, c).sortDirection == Asc
  {
    var twice := HandleSort(HandleSort(s, c, o), c, o);
    if AppSlice.Column(s.columns, c).sortBy == o {
      forall d ensures AppSlice.Column(twice.columns, d) == AppSlice.Column(s.columns, d) { }
      AppSlice.ColumnsEqual(twice.columns, s.columns);
    }
  }
}
