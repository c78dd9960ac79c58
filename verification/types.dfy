/** The token engine's data model: tokens, the closed string-literal enums,
    price updates and the per-category column state. */
module Types {

  datatype Option<+T> = None | Some(value: T)

  // ---------------------------------------------------------------------------
  // Closed enums. Each is a union of string literals in the source, so each
  // has its literal spelling and a parser that accepts exactly those spellings.

  datatype TokenCategory = NewPairs | FinalStretch | Migrated

  function CategoryName(c: TokenCategory): string {
    match c
    case NewPairs => "new-pairs"
    case FinalStretch => "final-stretch"
    case Migrated => "migrated"
  }

  /** A string is a category exactly when it is the spelling of one of the three. */
  function ParseCategory(s: string): (r: Option<TokenCategory>)
    ensures forall c :: CategoryName(c) == s <==> r == Some(c)
  {
    if s == "new-pairs" then Some(NewPairs)
    else if s == "final-stretch" then Some(FinalStretch)
    else if s == "migrated" then Some(Migrated)
    else None
  }

  datatype Priority = P1 | P2 | P3

  function PriorityName(p: Priority): string {
    match p
    case P1 => "P1"
    case P2 => "P2"
    case P3 => "P3"
  }

  function ParsePriority(s: string): (r: Option<Priority>)
    ensures forall p :: PriorityName(p) == s <==> r == Some(p)
  {
    if s == "P1" then Some(P1)
    else if s == "P2" then Some(P2)
    else if s == "P3" then Some(P3)
    else None
  }

  datatype SortOption = Price | Volume | Liquidity | Change | MarketCap

  function SortOptionName(o: SortOption): string {
    match o
    case Price => "price"
    case Volume => "volume"
    case Liquidity => "liquidity"
    case Change => "change"
    case MarketCap => "marketCap"
  }

  function ParseSortOption(s: string): (r: Option<SortOption>)
    ensures forall o :: SortOptionName(o) == s <==> r == Some(o)
  {
    if s == "price" then Some(Price)
    else if s == "volume" then Some(Volume)
    else if s == "liquidity" then Some(Liquidity)
    else if s == "change" then Some(Change)
    else if s == "marketCap" then Some(MarketCap)
    else None
  }

  datatype SortDirection = Asc | Desc

  function SortDirectionName(d: SortDirection): string {
    match d
    case Asc => "asc"
    case Desc => "desc"
  }

  function ParseSortDirection(s: string): (r: Option<SortDirection>)
    ensures forall d :: SortDirectionName(d) == s <==> r == Some(d)
  {
    if s == "asc" then Some(Asc)
    else if s == "desc" then Some(Desc)
    else None
  }

  // ---------------------------------------------------------------------------
  // Records

  /** A token. Market figures are `real`; counts and the creation time in
      milliseconds are `int`. `percentageChanges` is documented as holding four
      entries but the type does not enforce it. The optional display-only
      `logo` is not modelled. */
  datatype Token = Token(
    id: string,
    symbol: string,
    name: string,
    price: real,
    priceChange24h: real,
    volume24h: real,
    liquidity: real,
    marketCap: real,
    pairAddress: string,
    createdAt: int,
    category: TokenCategory,
    holders: int,
    transactions: int,
    rank: int,
    fees: int,
    txCount: int,
    percentageChanges: seq<real>,
    age: string
  )

  /** A streamed patch. It names no field other than these, so it cannot touch
      liquidity, holders, category, createdAt or any identity field.
      `percentageChanges` is optional at the point of use: an update whose array
      is missing keeps the stored one. */
  datatype PriceUpdate = PriceUpdate(
    tokenId: string,
    price: real,
    priceChange24h: real,
    volume24h: real,
    marketCap: real,
    percentageChanges: Option<seq<real>>,
    timestamp: int
  )

  /** The per-category column configuration. */
  datatype ColumnState = ColumnState(
    activePriority: Priority,
    sortBy: SortOption,
    sortDirection: SortDirection
  )
}
