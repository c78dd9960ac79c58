/** The page's wiring, as far as the data engine sees it: each column's fetch
    is written to the store only when it is not empty, and the mock feed's
    updates are dispatched to `updateTokenPrice`. */
module Page {
  import opened Types
  import TokenStore
  import Constants
  import MockFeed

  /** The seeding effect of one column: an empty fetch leaves the store alone. */
  function Seed(st: TokenStore.TokenState, fetched: seq<Token>): (r: TokenStore.TokenState)
    ensures |fetched| == 0 ==> r == st
    ensures r.tokens.Keys == st.tokens.Keys + TokenStore.Ids(fetched)
    ensures TokenStore.Valid(st) ==> TokenStore.Valid(r)
  {
    if |fetched| > 0 then TokenStore.SetTokensReducer(st, fetched) else st
  }

  /** The store once the three columns' fetches have been seeded in turn. */
  function SeedColumns(newPairs: seq<Token>, finalStretch: seq<Token>, migrated: seq<Token>): (st: TokenStore.TokenState)
    ensures TokenStore.Valid(st)
    ensures st.tokens.Keys == TokenStore.Ids(newPairs) + TokenStore.Ids(finalStretch) + TokenStore.Ids(migrated)
  {
    var s0 := TokenStore.InitialState();
    Seed(Seed(Seed(s0, newPairs), finalStretch), migrated)
  }

  /** The store once all three columns (5 new pairs, 4 final stretch,
      5 migrated) have been fetched at time `now` and seeded. */
  function Seeded(now: int, hex: Constants.HexDraws): TokenStore.TokenState {
    SeedColumns(
      Constants.GenerateDummyTokens(NewPairs, Some(5), now, hex),
      Constants.GenerateDummyTokens(FinalStretch, Some(4), now, hex),
      Constants.GenerateDummyTokens(Migrated, Some(5), now, hex))
  }

  lemma IdOfListIsIn(list: seq<Token>, k: int)
    requires 0 <= k < |list|
    ensures list[k].id in TokenStore.Ids(list)
  {
    assert list[k] in list;
  }

  /** Every id of a list made of the seeded lists' ids, in order, is a key
      of the seeded store. */
  lemma ListedIdsSeeded(ids: seq<string>, np: seq<Token>, fs: seq<Token>, mg: seq<Token>)
    requires ids == MockFeed.IdsOf(np) + MockFeed.IdsOf(fs) + MockFeed.IdsOf(mg)
    ensures forall id :: id in ids ==> id in SeedColumns(np, fs, mg).tokens
  {
    forall id | id in ids ensures id in SeedColumns(np, fs, mg).tokens {
      var k :| 0 <= k < |ids| && ids[k] == id;
      if k < |np| {
        assert ids[k] == np[k].id;
        IdOfListIsIn(np, k);
      } else if k < |np| + |fs| {
        assert ids[k] == fs[k - |np|].id;
        IdOfListIsIn(fs, k - |np|);
      } else {
        assert ids[k] == mg[k - |np| - |fs|].id;
        IdOfListIsIn(mg, k - |np| - |fs|);
      }
    }
  }

  /** Once the page has seeded its columns, every update the mock feed
      generates names a stored token, so `updateTokenPrice` is never a no-op
      for it and the token takes the update's price. */
  lemma MockUpdatesHitSeededTokens(now: int, hex: Constants.HexDraws, d: MockFeed.Draws, t: int)
    requires MockFeed.Unit(d.pick)
    ensures MockFeed.GenerateUpdate(d, t).tokenId in Seeded(now, hex).tokens
    ensures var u := MockFeed.GenerateUpdate(d, t);
            TokenStore.UpdateTokenPrice(Seeded(now, hex).tokens, u)[u.tokenId].price == u.price
  {
    MockFeed.MockIdsAreGeneratedIds(now, hex);
    ListedIdsSeeded(
      MockFeed.MockTokenIds,
      Constants.GenerateDummyTokens(NewPairs, Some(5), now, hex),
      Constants.GenerateDummyTokens(FinalStretch, Some(4), now, hex),
      Constants.GenerateDummyTokens(Migrated, Some(5), now, hex));
  }
}
