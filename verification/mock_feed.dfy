/** The mock price feed: a single interval handle that `connect` replaces and
    `disconnect` clears, driven by the connection flag, and the random price
    update each interval tick produces. Timer handles are an abstract counter
    and the random draws are parameters. */
module MockFeed {
  import opened Types
  import Constants
  import opened Js

  // ---------------------------------------------------------------------------
  // The interval handle

  /** `intervalRef.current`, the set of intervals still scheduled, and the
      handle the next `setInterval` returns. Handles are positive, so a held
      handle is always truthy. */
  datatype Feed = Feed(interval: Option<nat>, live: set<nat>, next: nat)

  const Idle := Feed(None, {}, 1)

  function Held(o: Option<nat>): set<nat> {
    match o case Some(h) => {h} case None => {}
  }

  /** The live intervals are exactly the one the ref holds, and every handle
      was issued before. */
  ghost predicate Valid(f: Feed) {
    && f.next > 0
    && (forall h :: h in f.live ==> 0 < h < f.next)
    && f.live == Held(f.interval)
  }

  /** `connect`: clears the held interval, if any, then schedules a new one and
      holds it. */
  function Connect(f: Feed): (r: Feed)
    ensures r.interval == Some(f.next) && r.next == f.next + 1
    ensures r.live == (f.live - Held(f.interval)) + {f.next}
    ensures Valid(f) ==> Valid(r) && r.live == {f.next}
  {
    Feed(Some(f.next), (f.live - Held(f.interval)) + {f.next}, f.next + 1)
  }

  /** `disconnect`: clears the held interval, if any, and drops the handle. */
  function Disconnect(f: Feed): (r: Feed)
    ensures r.interval == None && r.next == f.next
    ensures r.live == f.live - Held(f.interval)
    ensures Valid(f) ==> Valid(r) && r.live == {}
  {
    Feed(None, f.live - Held(f.interval), f.next)
  }

  lemma DisconnectIdempotent(f: Feed)
    ensures Disconnect(Disconnect(f)) == Disconnect(f)
  {
  }

  /** Calling `connect` twice in a row still leaves one interval running. */
  lemma ConnectTwiceKeepsOne(f: Feed)
    requires Valid(f)
    ensures Valid(Connect(Connect(f))) && |Connect(Connect(f)).live| == 1
  {
  }

  /** The effect body: connect when connected, otherwise disconnect. */
  function Effect(f: Feed, isConnected: bool): (r: Feed)
    ensures r.interval.Some? <==> isConnected
    ensures Valid(f) ==> Valid(r) && (r.live != {} <==> isConnected)
  {
    if isConnected then Connect(f) else Disconnect(f)
  }

  /** One render with a changed flag: React runs the previous effect's cleanup
      (`disconnect`), then the effect again. */
  function Rerun(f: Feed, isConnected: bool): Feed {
    Effect(Disconnect(f), isConnected)
  }

  /** The effect over a sequence of flag values, starting from state `f`. */
  function RunEffects(f: Feed, flags: seq<bool>): Feed
    decreases |flags|
  {
    if |flags| == 0 then f else RunEffects(Rerun(f, flags[0]), flags[1..])
  }

  /** However the flag changes, at most one interval is ever live, and one is
      live exactly when the latest flag is true. */
  lemma {:induction false} RunEffectsKeepsOne(f: Feed, flags: seq<bool>)
    requires Valid(f)
    ensures Valid(RunEffects(f, flags))
    ensures |RunEffects(f, flags).live| <= 1
    ensures |flags| > 0 ==> (RunEffects(f, flags).live != {} <==> flags[|flags| - 1])
    decreases |flags|
  {
    if |flags| > 0 {
      var g := Rerun(f, flags[0]);
      RunEffectsKeepsOne(g, flags[1..]);
      if |flags| > 1 {
        assert flags[1..][|flags[1..]| - 1] == flags[|flags| - 1];
      }
    }
  }

  /** Unmounting runs the cleanup: no interval is left behind. */
  lemma UnmountStopsFeed(f: Feed, flags: seq<bool>)
    requires Valid(f)
    ensures Disconnect(RunEffects(f, flags)).live == {}
  {
    RunEffectsKeepsOne(f, flags);
  }

  // ---------------------------------------------------------------------------
  // The generated update

  /** The 14 ids the mock draws from: five new pairs, four final-stretch
      tokens and five migrated tokens. */
  const MockTokenIds: seq<string> := NewPairsMockIds + FinalStretchMockIds + MigratedMockIds

  const NewPairsMockIds: seq<string> := [
    "new-pairs-MEMECHASE-0",
    "new-pairs-STEVE-1",
    "new-pairs-VTIFC-2",
    "new-pairs-Tiotlon-3",
    "new-pairs-OKS-4"
  ]

  const FinalStretchMockIds: seq<string> := [
    "final-stretch-VTIFC-0",
    "final-stretch-INNO-1",
    "final-stretch-NDI69...-2",
    "final-stretch-BART-3"
  ]

  const MigratedMockIds: seq<string> := [
    "migrated-PET-0",
    "migrated-$SWAL-1",
    "migrated-crashy-2",
    "migrated-IMPEROOTER-3",
    "migrated-BART-4"
  ]

  function IdsOf(list: seq<Token>): (r: seq<string>)
    ensures |r| == |list| && forall i :: 0 <= i < |r| ==> r[i] == list[i].id
  {
    seq(|list|, i requires 0 <= i < |list| => list[i].id)
  }

  /** The mock's ids are exactly the ids the generator gives the page's three
      columns (5 new pairs, 4 final stretch, 5 migrated), in the same order, so
      every update names a token the page has seeded. */
  lemma MockIdsAreGeneratedIds(now: int, hex: Constants.HexDraws)
    ensures MockTokenIds ==
              IdsOf(Constants.GenerateDummyTokens(NewPairs, Some(5), now, hex))
              + IdsOf(Constants.GenerateDummyTokens(FinalStretch, Some(4), now, hex))
              + IdsOf(Constants.GenerateDummyTokens(Migrated, Some(5), now, hex))
  {
    NewPairsIds(now, hex);
    FinalStretchIds(now, hex);
    MigratedIds(now, hex);
  }

  lemma SmallNumerals()
    ensures NatToString(0) == "0" && NatToString(1) == "1" && NatToString(2) == "2"
    ensures NatToString(3) == "3" && NatToString(4) == "4"
  {
  }

  /** The generated ids of category `c` for the given count are the listed
      ones when the table's symbols are `syms` and each listed id is spelled
      from its symbol and index. */
  lemma GeneratedIdsAre(c: TokenCategory, count: nat, now: int, hex: Constants.HexDraws, syms: seq<string>, expected: seq<string>)
    requires 0 < count <= |Constants.TokenData(c, hex)| && |syms| == count && |expected| == count
    requires forall k :: 0 <= k < count ==> Constants.TokenData(c, hex)[k].symbol == syms[k]
    requires forall k :: 0 <= k < count ==> expected[k] == Constants.TokenId(c, syms[k], k)
    ensures IdsOf(Constants.GenerateDummyTokens(c, Some(count), now, hex)) == expected
  {
    var ids := IdsOf(Constants.GenerateDummyTokens(c, Some(count), now, hex));
    assert |ids| == count;
    forall k | 0 <= k < count ensures ids[k] == expected[k] {
      assert ids[k] == Constants.TokenId(c, Constants.TokenData(c, hex)[k].symbol, k);
    }
  }

  const NewPairsSymbols: seq<string> := ["MEMECHASE", "STEVE", "VTIFC", "Tiotlon", "OKS"]
  const FinalStretchSymbols: seq<string> := ["VTIFC", "INNO", "NDI69...", "BART"]
  const MigratedSymbols: seq<string> := ["PET", "$SWAL", "crashy", "IMPEROOTER", "BART"]

  /** The symbols of each category's table entries, in order. */
  lemma TableSymbols(c: TokenCategory, hex: Constants.HexDraws)
    ensures var t := Constants.TokenData(c, hex);
            var syms := match c
              case NewPairs => NewPairsSymbols
              case FinalStretch => FinalStretchSymbols
              case Migrated => MigratedSymbols;
            |syms| == |t| && forall k :: 0 <= k < |t| ==> t[k].symbol == syms[k]
  {
  }

  /** Each listed mock id is spelled "<category>-<symbol>-<index>". */
  lemma NewPairsSpelling()
    ensures forall k :: 0 <= k < 5 ==> NewPairsMockIds[k] == Constants.TokenId(NewPairs, NewPairsSymbols[k], k)
  {
    SmallNumerals();
  }

  lemma FinalStretchSpelling()
    ensures forall k :: 0 <= k < 4 ==> FinalStretchMockIds[k] == Constants.TokenId(FinalStretch, FinalStretchSymbols[k], k)
  {
    SmallNumerals();
  }

  lemma MigratedSpelling()
    ensures forall k :: 0 <= k < 5 ==> MigratedMockIds[k] == Constants.TokenId(Migrated, MigratedSymbols[k], k)
  {
    SmallNumerals();
  }

  lemma NewPairsIds(now: int, hex: Constants.HexDraws)
    ensures IdsOf(Constants.GenerateDummyTokens(NewPairs, Some(5), now, hex)) == NewPairsMockIds
  {
    TableSymbols(NewPairs, hex);
    NewPairsSpelling();
    GeneratedIdsAre(NewPairs, 5, now, hex, NewPairsSymbols, NewPairsMockIds);
  }

  lemma FinalStretchIds(now: int, hex: Constants.HexDraws)
    ensures IdsOf(Constants.GenerateDummyTokens(FinalStretch, Some(4), now, hex)) == FinalStretchMockIds
  {
    TableSymbols(FinalStretch, hex);
    FinalStretchSpelling();
    GeneratedIdsAre(FinalStretch, 4, now, hex, FinalStretchSymbols, FinalStretchMockIds);
  }

  lemma MigratedIds(now: int, hex: Constants.HexDraws)
    ensures IdsOf(Constants.GenerateDummyTokens(Migrated, Some(5), now, hex)) == MigratedMockIds
  {
    TableSymbols(Migrated, hex);
    MigratedSpelling();
    GeneratedIdsAre(Migrated, 5, now, hex, MigratedSymbols, MigratedMockIds);
  }

  /** The random draws of one tick, in the order the tick makes them. */
  datatype Draws = Draws(
    pick: real,
    change: real,
    basePrice: real,
    baseMarketCap: real,
    box0: real, box1: real, box2: real, box3: real,
    volume: real
  )

  /** `Math.random()` returns values in [0, 1). */
  predicate Unit(x: real) {
    0.0 <= x < 1.0
  }

  ghost predicate ValidDraws(d: Draws) {
    && Unit(d.pick) && Unit(d.change) && Unit(d.basePrice) && Unit(d.baseMarketCap)
    && Unit(d.box0) && Unit(d.box1) && Unit(d.box2) && Unit(d.box3) && Unit(d.volume)
  }

  function RealMax(a: real, b: real): real {
    if a >= b then a else b
  }

  /** `Math.round`: the nearest integer, halves rounded up. */
  function Round(x: real): int {
    (x + 0.5).Floor
  }

  /** One percentage box: `Math.round((random - 0.3) * 200)`. */
  function BoxChange(x: real): (r: real)
    ensures Unit(x) ==> -60.0 <= r <= 140.0
    ensures r == r.Floor as real
  {
    Round((x - 0.3) * 200.0) as real
  }

  /** The update one tick produces at time `now`. */
  function GenerateUpdate(d: Draws, now: int): (u: PriceUpdate)
    requires Unit(d.pick)
    ensures u.tokenId in MockTokenIds
    ensures u.price >= 0.00001 && u.marketCap >= 50000.0
    ensures u.percentageChanges.Some? && |u.percentageChanges.value| == 4
    ensures forall i :: 0 <= i < |u.percentageChanges.value| ==>
              u.percentageChanges.value[i] == u.percentageChanges.value[i].Floor as real
    ensures Unit(d.change) ==> -2.0 <= u.priceChange24h < 2.0
    ensures Unit(d.volume) ==> 50000.0 <= u.volume24h < 550000.0
    ensures ValidDraws(d) ==> forall i :: 0 <= i < |u.percentageChanges.value| ==>
              -60.0 <= u.percentageChanges.value[i] <= 140.0
    ensures u.timestamp == now
  {
    var index := (d.pick * 14.0).Floor;
    var percent := (d.change - 0.5) * 4.0;
    var basePrice := d.basePrice * 0.001 + 0.0001;
    var newPrice := basePrice * (1.0 + percent / 100.0);
    var baseMarketCap := d.baseMarketCap * 1000000.0 + 100000.0;
    var newMarketCap := baseMarketCap * (1.0 + percent / 100.0);
    PriceUpdate(
      MockTokenIds[index],
      RealMax(0.00001, newPrice),
      percent,
      d.volume * 500000.0 + 50000.0,
      RealMax(50000.0, newMarketCap),
      Some([BoxChange(d.box0), BoxChange(d.box1), BoxChange(d.box2), BoxChange(d.box3)]),
      now)
  }

  /** An interval callback delivers an update only while its interval is live. */
  function OnInterval(f: Feed, h: nat, d: Draws, now: int): (r: Option<PriceUpdate>)
    requires Unit(d.pick)
    ensures r.Some? <==> h in f.live
    ensures r.Some? ==> r.value.tokenId in MockTokenIds && r.value.timestamp == now
  {
    if h in f.live then Some(GenerateUpdate(d, now)) else None
  }

  /** Once disconnected, no interval callback delivers anything. */
  lemma DisconnectedFeedIsSilent(f: Feed, h: nat, d: Draws, now: int)
    requires Valid(f) && Unit(d.pick)
    ensures OnInterval(Disconnect(f), h, d, now) == None
  {
  }
}
