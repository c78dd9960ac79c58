/** The application slice: one column state per category plus the selected
    token, the connection flag and the search query. Every reducer writes
    exactly one field. */
module AppSlice {
  import opened Types
  import Constants

  /** `Record<TokenCategory, ColumnState>`: one entry per category, so no
      reducer can remove a column. */
  datatype Columns = Columns(newPairs: ColumnState, finalStretch: ColumnState, migrated: ColumnState)

  function Column(cols: Columns, c: TokenCategory): ColumnState {
    match c
    case NewPairs => cols.newPairs
    case FinalStretch => cols.finalStretch
    case Migrated => cols.migrated
  }

  /** Replaces the column of `c` and no other. */
  function WithColumn(cols: Columns, c: TokenCategory, cs: ColumnState): (r: Columns)
    ensures Column(r, c) == cs
    ensures forall d :: d != c ==> Column(r, d) == Column(cols, d)
  {
    match c
    case NewPairs => cols.(newPairs := cs)
    case FinalStretch => cols.(finalStretch := cs)
    case Migrated => cols.(migrated := cs)
  }

  datatype AppState = AppState(
    columns: Columns,
    selectedToken: Option<Token>,
    isConnected: bool,
    searchQuery: string
  )

  /** Every column starts at the default, nothing is selected, the feed is
      disconnected and the query is empty. */
  function InitialState(): (s: AppState)
    ensures forall c :: Column(s.columns, c) == ColumnState(P1, Price, Desc)
    ensures s.selectedToken == None && !s.isConnected && s.searchQuery == ""
  {
    var d := Constants.DefaultColumnState;
    AppState(Columns(d, d, d), None, false, "")
  }

  /** The scalar fields and the other categories' columns agree. */
  ghost predicate SameExceptColumn(a: AppState, b: AppState, c: TokenCategory) {
    && a.selectedToken == b.selectedToken
    && a.isConnected == b.isConnected
    && a.searchQuery == b.searchQuery
    && forall d :: d != c ==> Column(a.columns, d) == Column(b.columns, d)
  }

  function SetActivePriority(s: AppState, c: TokenCategory, p: Priority): (r: AppState)
    ensures Column(r.columns, c).activePriority == p
    ensures Column(r.columns, c).sortBy == Column(s.columns, c).sortBy
    ensures Column(r.columns, c).sortDirection == Column(s.columns, c).sortDirection
    ensures SameExceptColumn(r, s, c)
  {
    s.(columns := WithColumn(s.columns, c, Column(s.columns, c).(activePriority := p)))
  }

  function SetSortBy(s: AppState, c: TokenCategory, o: SortOption): (r: AppState)
    ensures Column(r.columns, c).sortBy == o
    ensures Column(r.columns, c).activePriority == Column(s.columns, c).activePriority
    ensures Column(r.columns, c).sortDirection == Column(s.columns, c).sortDirection
    ensures SameExceptColumn(r, s, c)
  {
    s.(columns := WithColumn(s.columns, c, Column(s.columns, c).(sortBy := o)))
  }

  function SetSortDirection(s: AppState, c: TokenCategory, d: SortDirection): (r: AppState)
    ensures Column(r.columns, c).sortDirection == d
    ensures Column(r.columns, c).activePriority == Column(s.columns, c).activePriority
    ensures Column(r.columns, c).sortBy == Column(s.columns, c).sortBy
    ensures SameExceptColumn(r, s, c)
  {
    s.(columns := WithColumn(s.columns, c, Column(s.columns, c).(sortDirection := d)))
  }

  function SetSelectedToken(s: AppState, t: Option<Token>): (r: AppState)
    ensures r.selectedToken == t
    ensures r.columns == s.columns && r.isConnected == s.isConnected && r.searchQuery == s.searchQuery
  {
    s.(selectedToken := t)
  }

  function SetConnectionStatus(s: AppState, b: bool): (r: AppState)
    ensures r.isConnected == b
    ensures r.columns == s.columns && r.selectedToken == s.selectedToken && r.searchQuery == s.searchQuery
  {
    s.(isConnected := b)
  }

  function SetSearchQuery(s: AppState, q: string): (r: AppState)
    ensures r.searchQuery == q
    ensures r.columns == s.columns && r.selectedToken == s.selectedToken && r.isConnected == s.isConnected
  {
    s.(searchQuery := q)
  }

  /** The six actions of the slice, as dispatched. */
  datatype Action =
    | ActivePriority(category: TokenCategory, priority: Priority)
    | SortBy(category: TokenCategory, sortBy: SortOption)
    | SortDir(category: TokenCategory, direction: SortDirection)
    | SelectedToken(token: Option<Token>)
    | ConnectionStatus(connected: bool)
    | SearchQuery(query: string)

  function Reduce(s: AppState, a: Action): AppState {
    match a
    case ActivePriority(c, p) => SetActivePriority(s, c, p)
    case SortBy(c, o) => SetSortBy(s, c, o)
    case SortDir(c, d) => SetSortDirection(s, c, d)
    case SelectedToken(t) => SetSelectedToken(s, t)
    case ConnectionStatus(b) => SetConnectionStatus(s, b)
    case SearchQuery(q) => SetSearchQuery(s, q)
  }

  /** Every reducer is idempotent: dispatching an action twice is dispatching it once. */
  lemma ReduceIdempotent(s: AppState, a: Action)
    ensures Reduce(Reduce(s, a), a) == Reduce(s, a)
  {
    var once := Reduce(s, a);
    var twice := Reduce(once, a);
    forall c ensures Column(twice.columns, c) == Column(once.columns, c) { }
    ColumnsEqual(twice.columns, once.columns);
  }

  lemma ColumnsEqual(a: Columns, b: Columns)
    requires forall c :: Column(a, c) == Column(b, c)
    ensures a == b
  {
    assert Column(a, NewPairs) == Column(b, NewPairs);
    assert Column(a, FinalStretch) == Column(b, FinalStretch);
    assert Column(a, Migrated) == Column(b, Migrated);
  }
}
