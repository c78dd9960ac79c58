/** The data helpers: the relative-age formatter, the fixed per-category token
    table, the dummy-token generator and the default column state. */
module Constants {
  import opened Types
  import opened Js

  /** Every column starts as (P1, price, desc). */
  const DefaultColumnState := ColumnState(P1, Price, Desc)

  // ---------------------------------------------------------------------------
  // formatTimeAgo

  /** The four shapes of an age string. */
  datatype Age =
    | Seconds(s: int)
    | Minutes(m: int)
    | HoursMinutes(h: int, m: int)
    | DaysHours(d: int, h: int)

  /** The age of a duration of `ms` milliseconds, chosen by the thresholds
      60 s, 60 min and 24 h. Each shape is characterised by the interval of
      durations it stands for. */
  function AgeOf(ms: int): (a: Age)
    ensures a.Seconds? <==> ms < 60000
    ensures a.Seconds? ==> a.s * 1000 <= ms < a.s * 1000 + 1000
    ensures a.Minutes? <==> 60000 <= ms < 3600000
    ensures a.Minutes? ==> a.m * 60000 <= ms < a.m * 60000 + 60000
    ensures a.HoursMinutes? <==> 3600000 <= ms < 86400000
    ensures a.HoursMinutes? ==> 0 <= a.m < 60 && a.h * 3600000 + a.m * 60000 <= ms < a.h * 3600000 + a.m * 60000 + 60000
    ensures a.DaysHours? <==> 86400000 <= ms
    ensures a.DaysHours? ==> 0 <= a.h < 24 && a.d * 86400000 + a.h * 3600000 <= ms < a.d * 86400000 + a.h * 3600000 + 3600000
  {
    // Math.floor of a quotient by a positive divisor is Dafny's `/` on int.
    var seconds := ms / 1000;
    var minutes := seconds / 60;
    var hours := minutes / 60;
    if seconds < 60 then Seconds(seconds)
    else if minutes < 60 then Minutes(minutes)
    else if hours < 24 then HoursMinutes(hours, minutes % 60)
    else DaysHours(hours / 24, hours % 24)
  }

  function RenderAge(a: Age): string {
    match a
    case Seconds(s) => IntToString(s) + "s"
    case Minutes(m) => IntToString(m) + "m"
    case HoursMinutes(h, m) => IntToString(h) + "h " + IntToString(m) + "m"
    case DaysHours(d, h) => IntToString(d) + "d " + IntToString(h) + "h"
  }

  /** `formatTimeAgo(ms)`: the unit letter at the end tells the range of the
      duration. */
  function FormatTimeAgo(ms: int): (r: string)
    ensures EndsWith(r, "s") <==> ms < 60000
    ensures EndsWith(r, "m") <==> 60000 <= ms < 86400000
    ensures EndsWith(r, "h") <==> 86400000 <= ms
  {
    var r := RenderAge(AgeOf(ms));
    assert EndsWith(r, [r[|r| - 1]]);
    r
  }

  /** The numbers `formatTimeAgo` prints are the floored quotients of the
      duration: whole seconds, whole minutes, hours with the minutes left
      over, or days with the hours left over. */
  lemma FormatTimeAgoDigits(ms: int)
    ensures ms < 60000 ==> FormatTimeAgo(ms) == IntToString(ms / 1000) + "s"
    ensures 60000 <= ms < 3600000 ==> FormatTimeAgo(ms) == IntToString(ms / 60000) + "m"
    ensures 3600000 <= ms < 86400000 ==>
              FormatTimeAgo(ms) == IntToString(ms / 3600000) + "h " + IntToString(ms / 60000 % 60) + "m"
    ensures 86400000 <= ms ==>
              FormatTimeAgo(ms) == IntToString(ms / 86400000) + "d " + IntToString(ms / 3600000 % 24) + "h"
  {
    if ms < 60000 {
      SecondsAge(ms);
    } else if ms < 3600000 {
      MinutesAge(ms);
    } else if ms < 86400000 {
      HoursAge(ms);
    } else {
      DaysAge(ms);
    }
  }

  lemma SecondsAge(ms: int)
    requires ms < 60000
    ensures AgeOf(ms) == Seconds(ms / 1000)
  {
  }

  lemma MinutesAge(ms: int)
    requires 60000 <= ms < 3600000
    ensures AgeOf(ms) == Minutes(ms / 60000)
  {
    assert ms / 1000 / 60 == ms / 60000;
  }

  lemma HoursAge(ms: int)
    requires 3600000 <= ms < 86400000
    ensures AgeOf(ms) == HoursMinutes(ms / 3600000, ms / 60000 % 60)
  {
    assert ms / 1000 / 60 == ms / 60000;
    assert ms / 60000 / 60 == ms / 3600000;
  }

  lemma DaysAge(ms: int)
    requires 86400000 <= ms
    ensures AgeOf(ms) == DaysHours(ms / 86400000, ms / 3600000 % 24)
  {
    assert ms / 1000 / 60 == ms / 60000;
    assert ms / 60000 / 60 == ms / 3600000;
    assert ms / 3600000 / 24 == ms / 86400000;
  }

  // ---------------------------------------------------------------------------
  // TOKEN_DATA

  /** An entry of the token table: a token without id, category and createdAt. */
  datatype Template = Template(
    symbol: string, name: string, price: real, priceChange24h: real, volume24h: real,
    liquidity: real, marketCap: real, pairAddress: string, holders: int, transactions: int,
    rank: int, fees: int, txCount: int, percentageChanges: seq<real>, age: string)

  /** The hex digits each entry's pair address draws at load time
      (`Math.random().toString(16).substring(2, 42)`), per category and index. */
  type HexDraws = (TokenCategory, nat) -> string

  function Address(hex: HexDraws, c: TokenCategory, i: nat): string {
    "0x" + hex(c, i)
  }

  /** The fixed table of five new pairs, four final-stretch tokens and five
      migrated tokens; every entry carries four percentage changes. */
  function TokenData(c: TokenCategory, hex: HexDraws): (r: seq<Template>)
    ensures |r| == (if c == FinalStretch then 4 else 5)
    ensures forall i :: 0 <= i < |r| ==> |r[i].percentageChanges| == 4
    ensures forall i :: 0 <= i < |r| ==> r[i].pairAddress == Address(hex, c, i)
  {
    match c
    case NewPairs => [
      Template("MEMECHASE", "MEMECHASE", 0.000895, 58.0, 249000.0, 0.0, 895000.0, Address(hex, c, 0), 14, 52, 0, 0, 14, [58.0, 62.0, 39.0, 7.0], "4s"),
      Template("STEVE", "First Trench Assistant", 0.000972, -76.0, 172000.0, 0.0, 972000.0, Address(hex, c, 1), 42, 390, 0, 3, 34, [-76.0, -23.0, 30.0, 16.0], "2s"),
      Template("VTIFC", "Venus the Two Faced Cat", 0.000402, 72.0, 285000.0, 0.0, 402000.0, Address(hex, c, 2), 1, 18, 0, 4, 0, [72.0, 2.0, 7.0, 0.0], "3s"),
      Template("Tiotlon", "Tiotlon", 0.000302, 42.0, 283000.0, 0.0, 302000.0, Address(hex, c, 3), 46, 421, 0, 0, 36, [42.0, -72.0, 52.0, 12.0], "2s"),
      Template("OKS", "One Of A Kind Sentences", 0.000345, 15.0, 110000.0, 0.0, 345000.0, Address(hex, c, 4), 44, 406, 0, 0, 0, [15.0, 8.0, -5.0, 12.0], "5s")
      ]
    case FinalStretch => [
      Template("VTIFC", "Venus the Two Faced Cat", 0.000790, 79.0, 77000.0, 0.0, 790000.0, Address(hex, c, 0), 33, 129, 0, 0, 51, [79.0, 91.0, 94.0, 25.0], "11h 24m"),
      Template("INNO", "InnoWeb3", 0.000763, 11.0, 53000.0, 0.0, 763000.0, Address(hex, c, 1), 37, 47, 0, 2, 62, [11.0, 75.0, 27.0, 12.0], "11h 33m"),
      Template("NDI69...", "National Debt Index 6...", 0.000960, -85.0, 465000.0, 0.0, 960000.0, Address(hex, c, 2), 40, 266, 0, 5, 84, [-85.0, -100.0, 5.0, 2.0], "9h 37m"),
      Template("BART", "BART", 0.000718, 11.0, 270000.0, 0.0, 718000.0, Address(hex, c, 3), 46, 101, 0, 6, 5, [11.0, 81.0, 60.0, 47.0], "11h 2m")
      ]
    case Migrated => [
      Template("PET", "cutie pussy cat", 0.000125, 46.0, 89000.0, 0.0, 125000.0, Address(hex, c, 0), 12, 347, 0, 8, 0, [46.0, 39.0, 10.0, 48.0], "25m"),
      Template("$SWAL", "Sorry we are late", 0.000234, 40.0, 67000.0, 0.0, 234000.0, Address(hex, c, 1), 28, 137, 0, 0, 0, [40.0, -41.0, 11.0, 10.0], "25m"),
      Template("crashy", "Crashy the almost gone", 0.000089, -99.0, 45000.0, 0.0, 89000.0, Address(hex, c, 2), 22, 270, 0, 3, 0, [-99.0, -3.0, 47.0, 41.0], "17m"),
      Template("IMPEROOTER", "imperooterxbt", 0.000456, 59.0, 123000.0, 0.0, 456000.0, Address(hex, c, 3), 20, 422, 0, 3, 0, [59.0, 82.0, 86.0, 17.0], "34m"),
      Template("BART", "BART", 0.000312, 25.0, 78000.0, 0.0, 312000.0, Address(hex, c, 4), 19, 114, 0, 0, 0, [25.0, 15.0, 8.0, 12.0], "24m")
      ]
  }

  // ---------------------------------------------------------------------------
  // generateDummyTokens

  /** The id of the `index`-th generated token: "<category>-<symbol>-<index>". */
  function TokenId(c: TokenCategory, symbol: string, index: nat): string {
    CategoryName(c) + "-" + symbol + "-" + NatToString(index)
  }

  /** `tok` carries every field of the table entry `t` unchanged. */
  ghost predicate CopiesTemplate(tok: Token, t: Template) {
    && tok.symbol == t.symbol && tok.name == t.name && tok.price == t.price
    && tok.priceChange24h == t.priceChange24h && tok.volume24h == t.volume24h
    && tok.liquidity == t.liquidity && tok.marketCap == t.marketCap
    && tok.pairAddress == t.pairAddress && tok.holders == t.holders
    && tok.transactions == t.transactions && tok.rank == t.rank && tok.fees == t.fees
    && tok.txCount == t.txCount && tok.percentageChanges == t.percentageChanges && tok.age == t.age
  }

  function Instantiate(t: Template, c: TokenCategory, index: nat, now: int): Token {
    Token(TokenId(c, t.symbol, index), t.symbol, t.name, t.price, t.priceChange24h, t.volume24h,
          t.liquidity, t.marketCap, t.pairAddress, now - index * 1000, c, t.holders,
          t.transactions, t.rank, t.fees, t.txCount, t.percentageChanges, t.age)
  }

  /** How many tokens `tokens.slice(0, count || tokens.length)` keeps out of
      `available`: all of them for a missing or zero count, at most `count` for
      a positive one, and all but the last `-count` for a negative one. */
  function KeptCount(count: Option<int>, available: nat): nat {
    match count
    case None => available
    case Some(k) =>
      if k == 0 then available
      else if k > 0 then (if k < available then k else available)
      else if available + k > 0 then available + k else 0
  }

  /** The generator over a given table: `tokens.slice(0, count || tokens.length)`
      with ids, category and staggered creation times filled in. */
  function Generate(tokens: seq<Template>, c: TokenCategory, count: Option<int>, now: int): (r: seq<Token>)
    ensures |r| == KeptCount(count, |tokens|)
    ensures forall i :: 0 <= i < |r| ==>
              && r[i].id == TokenId(c, tokens[i].symbol, i)
              && r[i].category == c
              && r[i].createdAt == now - 1000 * i
              && CopiesTemplate(r[i], tokens[i])
  {
    var limit := match count case None => |tokens| case Some(k) => if k == 0 then |tokens| else k;
    var kept := Slice(tokens, 0, limit);
    assert kept == tokens[..|kept|];
    seq(|kept|, i requires 0 <= i < |kept| => Instantiate(kept[i], c, i, now))
  }

  /** `generateDummyTokens(category, count)` at time `now`. */
  function GenerateDummyTokens(c: TokenCategory, count: Option<int>, now: int, hex: HexDraws): (r: seq<Token>)
    ensures |r| == KeptCount(count, |TokenData(c, hex)|)
    ensures forall i :: 0 <= i < |r| ==>
              && r[i].id == TokenId(c, TokenData(c, hex)[i].symbol, i)
              && r[i].category == c
              && r[i].createdAt == now - 1000 * i
              && CopiesTemplate(r[i], TokenData(c, hex)[i])
  {
    Generate(TokenData(c, hex), c, count, now)
  }

  /** Of two strings "<p>-<d>" whose tails `d` hold no '-', the tails agree:
      the last '-' separates the index from the rest of the id. */
  lemma {:induction false} DashTailUnique(p1: string, d1: string, p2: string, d2: string)
    requires p1 + "-" + d1 == p2 + "-" + d2
    requires forall i :: 0 <= i < |d1| ==> d1[i] != '-'
    requires forall i :: 0 <= i < |d2| ==> d2[i] != '-'
    ensures d1 == d2
  {
    var s := p1 + "-" + d1;
    var n := |s|;
    if |d1| < |d2| {
      DashSplit(p1, d1, |p1|);
      DashSplit(p2, d2, |p1|);
      assert false;
    } else if |d2| < |d1| {
      DashSplit(p2, d2, |p2|);
      DashSplit(p1, d1, |p2|);
      assert false;
    } else {
      assert d1 == s[n - |d1|..];
      assert d2 == (p2 + "-" + d2)[n - |d2|..];
    }
  }

  lemma DashSplit(p: string, d: string, k: int)
    ensures k == |p| ==> (p + "-" + d)[k] == '-'
    ensures |p| < k < |p| + 1 + |d| ==> (p + "-" + d)[k] == d[k - |p| - 1]
  {
  }

  /** Ids built from different indices differ, whatever the symbols. */
  lemma TokenIdIndexInjective(c: TokenCategory, s1: string, i: nat, s2: string, j: nat)
    requires TokenId(c, s1, i) == TokenId(c, s2, j)
    ensures i == j
  {
    DashTailUnique(CategoryName(c) + "-" + s1, NatToString(i), CategoryName(c) + "-" + s2, NatToString(j));
    NatToStringInjective(i, j);
  }

  /** The generated ids are pairwise distinct. */
  lemma GeneratedIdsDistinct(c: TokenCategory, count: Option<int>, now: int, hex: HexDraws, i: int, j: int)
    requires 0 <= i < j < |GenerateDummyTokens(c, count, now, hex)|
    ensures GenerateDummyTokens(c, count, now, hex)[i].id != GenerateDummyTokens(c, count, now, hex)[j].id
  {
    var r := GenerateDummyTokens(c, count, now, hex);
    var data := TokenData(c, hex);
    if r[i].id == r[j].id {
      TokenIdIndexInjective(c, data[i].symbol, i, data[j].symbol, j);
    }
  }

  /** Creation times are staggered one second apart, newest first. */
  lemma GeneratedCreatedAtDecreasing(c: TokenCategory, count: Option<int>, now: int, hex: HexDraws, i: int, j: int)
    requires 0 <= i < j < |GenerateDummyTokens(c, count, now, hex)|
    ensures GenerateDummyTokens(c, count, now, hex)[j].createdAt + 1000 * (j - i)
         == GenerateDummyTokens(c, count, now, hex)[i].createdAt
  {
  }
}
