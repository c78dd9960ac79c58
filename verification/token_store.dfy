/** The token store: tokens keyed by id with two writes, the additive upsert
    `setTokens` and the partial patch `updateTokenPrice`. Object property
    order (insertion order of the keys) is kept beside the map because
    `Object.values` reads the store in that order. */
module TokenStore {
  import opened Types

  type Tokens = map<string, Token>

  /** The store slice: the keyed tokens and the order in which keys were first added. */
  datatype TokenState = TokenState(tokens: Tokens, order: seq<string>)

  /** The store starts with no tokens and no keys; it is valid, and
      `Object.values` lists nothing. */
  function InitialState(): (st: TokenState)
    ensures Valid(st)
    ensures st.tokens.Keys == {} && st.order == []
    ensures Values(st) == []
  {
    TokenState(map[], [])
  }

  /** `tokens[id]` as an optional value. */
  function Get(m: Tokens, id: string): Option<Token> {
    if id in m then Some(m[id]) else None
  }

  lemma MapsEqualByGet(a: Tokens, b: Tokens)
    requires forall id :: Get(a, id) == Get(b, id)
    ensures a == b
  {
    assert forall id :: id in a <==> Get(a, id).Some?;
    assert forall id :: id in b <==> Get(b, id).Some?;
    assert a.Keys == b.Keys;
  }

  /** Every key maps to the token carrying that id. */
  ghost predicate IdKeyed(m: Tokens) {
    forall k :: k in m ==> m[k].id == k
  }

  ghost predicate Distinct<T>(s: seq<T>) {
    forall i, j :: 0 <= i < j < |s| ==> s[i] != s[j]
  }

  /** The slice's invariant: ids are keys, and `order` lists each key once. */
  ghost predicate Valid(st: TokenState) {
    && IdKeyed(st.tokens)
    && Distinct(st.order)
    && (forall k :: k in st.tokens <==> k in st.order)
  }

  function Ids(list: seq<Token>): set<string> {
    set t | t in list :: t.id
  }

  lemma IdsCons(list: seq<Token>)
    requires |list| > 0
    ensures Ids(list) == {list[0].id} + Ids(list[1..])
  {
    assert list == [list[0]] + list[1..];
    assert forall t :: t in list <==> t == list[0] || t in list[1..];
  }

  // ---------------------------------------------------------------------------
  // setTokens

  /** `setTokens`: for each token of the list in turn, `tokens[token.id] = token`. */
  function SetTokens(m: Tokens, list: seq<Token>): (r: Tokens)
    ensures r.Keys == m.Keys + Ids(list)
    ensures forall id :: id !in Ids(list) ==> Get(r, id) == Get(m, id)
    ensures forall id :: id in Ids(list) ==> r[id] in list && r[id].id == id
    decreases |list|
  {
    if |list| == 0 then m
    else
      IdsCons(list);
      SetTokens(m[list[0].id := list[0]], list[1..])
  }

  /** The last token of the list carrying `id`, found by scanning from the end:
      an independent statement of "the last write wins". */
  function LastWithId(list: seq<Token>, id: string): Option<Token> {
    if |list| == 0 then None
    else if list[|list| - 1].id == id then Some(list[|list| - 1])
    else LastWithId(list[..|list| - 1], id)
  }

  lemma {:induction false} LastWithIdCons(x: Token, rest: seq<Token>, id: string)
    ensures LastWithId([x] + rest, id)
         == if LastWithId(rest, id).Some? then LastWithId(rest, id)
            else if x.id == id then Some(x) else None
    decreases |rest|
  {
    var xs := [x] + rest;
    if |rest| == 0 {
      assert xs[..|xs| - 1] == [];
    } else {
      assert xs[..|xs| - 1] == [x] + rest[..|rest| - 1];
      if rest[|rest| - 1].id != id {
        LastWithIdCons(x, rest[..|rest| - 1], id);
      }
    }
  }

  /** After `setTokens(list)`, each id of the list maps to the LAST token of the
      list with that id, and every other id keeps its previous entry (or absence). */
  lemma {:induction false} SetTokensLastWins(m: Tokens, list: seq<Token>, id: string)
    ensures Get(SetTokens(m, list), id)
         == match LastWithId(list, id) case Some(t) => Some(t) case None => Get(m, id)
    decreases |list|
  {
    if |list| > 0 {
      var x := list[0];
      SetTokensLastWins(m[x.id := x], list[1..], id);
      assert list == [x] + list[1..];
      LastWithIdCons(x, list[1..], id);
    }
  }

  /** Seeding the same list twice gives the same store as seeding it once. */
  lemma SetTokensIdempotent(m: Tokens, list: seq<Token>)
    ensures SetTokens(SetTokens(m, list), list) == SetTokens(m, list)
  {
    var once := SetTokens(m, list);
    forall id ensures Get(SetTokens(once, list), id) == Get(once, id) {
      SetTokensLastWins(m, list, id);
      SetTokensLastWins(once, list, id);
    }
    MapsEqualByGet(SetTokens(once, list), once);
  }

  lemma {:induction false} SetTokensKeepsIdKeyed(m: Tokens, list: seq<Token>)
    ensures IdKeyed(m) ==> IdKeyed(SetTokens(m, list))
    decreases |list|
  {
    if |list| > 0 {
      SetTokensKeepsIdKeyed(m[list[0].id := list[0]], list[1..]);
    }
  }

  /** The position of the first token of the list carrying `id` (`|list|` if none). */
  function FirstIndex(list: seq<Token>, id: string): (n: nat)
    ensures n <= |list|
    ensures n < |list| ==> list[n].id == id
    ensures forall i :: 0 <= i < n ==> list[i].id != id
  {
    if |list| == 0 then 0
    else if list[0].id == id then 0
    else 1 + FirstIndex(list[1..], id)
  }

  /** The key order after `setTokens`: ids not yet present are appended in the
      order of their first occurrence in the list. */
  function AppendNewKeys(order: seq<string>, list: seq<Token>): (r: seq<string>)
    ensures |order| <= |r| && r[..|order|] == order
    ensures forall k :: k in r <==> k in order || k in Ids(list)
    ensures Distinct(order) ==> Distinct(r)
    decreases |list|
  {
    if |list| == 0 then order
    else
      IdsCons(list);
      var id := list[0].id;
      var next := if id in order then order else order + [id];
      assert next[..|order|] == order;
      var r := AppendNewKeys(next, list[1..]);
      assert r[..|order|] == r[..|next|][..|order|];
      r
  }

  /** The keys `r` adds after `order` were absent from it and come from the
      list, in the order of their first occurrence there. */
  ghost predicate AppendedInListOrder(order: seq<string>, list: seq<Token>, r: seq<string>) {
    && (forall i :: |order| <= i < |r| ==> r[i] !in order && FirstIndex(list, r[i]) < |list|)
    && (forall i, j :: |order| <= i < j < |r| ==> FirstIndex(list, r[i]) < FirstIndex(list, r[j]))
  }

  lemma {:induction false} AppendNewKeysFirstSeen(order: seq<string>, list: seq<Token>)
    ensures AppendedInListOrder(order, list, AppendNewKeys(order, list))
    decreases |list|
  {
    if |list| > 0 {
      var id := list[0].id;
      var next := if id in order then order else order + [id];
      var r := AppendNewKeys(next, list[1..]);
      assert r == AppendNewKeys(order, list);
      AppendNewKeysFirstSeen(next, list[1..]);
      assert AppendedInListOrder(next, list[1..], r);
      StepFirstSeen(order, list, next, r);
    }
  }

  /** One step of `AppendNewKeys`: the head's id, if new, goes first. */
  lemma StepFirstSeen(order: seq<string>, list: seq<Token>, next: seq<string>, r: seq<string>)
    requires |list| > 0
    requires next == if list[0].id in order then order else order + [list[0].id]
    requires |next| <= |r| && r[..|next|] == next
    requires AppendedInListOrder(next, list[1..], r)
    ensures AppendedInListOrder(order, list, r)
  {
    var id := list[0].id;
    forall i | |next| <= i < |r| ensures r[i] != id && r[i] !in order && FirstIndex(list, r[i]) == 1 + FirstIndex(list[1..], r[i]) {
      assert r[i] !in next;
      assert id in next;
    }
    if id !in order {
      assert r[|order|] == r[..|next|][|order|] == id;
    }
  }

  /** The `setTokens` reducer on the slice: existing keys keep their places and
      the new ids follow, in the order they first appear in the list. */
  function SetTokensReducer(st: TokenState, list: seq<Token>): (r: TokenState)
    ensures r.tokens == SetTokens(st.tokens, list)
    ensures |st.order| <= |r.order| && r.order[..|st.order|] == st.order
    ensures forall i :: |st.order| <= i < |r.order| ==> r.order[i] !in st.order && FirstIndex(list, r.order[i]) < |list|
    ensures forall i, j :: |st.order| <= i < j < |r.order| ==> FirstIndex(list, r.order[i]) < FirstIndex(list, r.order[j])
    ensures Valid(st) ==> Valid(r)
  {
    SetTokensKeepsIdKeyed(st.tokens, list);
    AppendNewKeysFirstSeen(st.order, list);
    TokenState(SetTokens(st.tokens, list), AppendNewKeys(st.order, list))
  }

  // ---------------------------------------------------------------------------
  // updateTokenPrice

  /** The fields of a token that a price update never writes. */
  datatype Identity = Identity(
    id: string, symbol: string, name: string, liquidity: real, pairAddress: string,
    createdAt: int, category: TokenCategory, holders: int, transactions: int,
    rank: int, fees: int, txCount: int, age: string)

  function IdentityOf(t: Token): Identity {
    Identity(t.id, t.symbol, t.name, t.liquidity, t.pairAddress, t.createdAt, t.category,
             t.holders, t.transactions, t.rank, t.fees, t.txCount, t.age)
  }

  /** `after` is `before` patched by `u`: the four market figures are the
      update's, `percentageChanges` is the update's when it carries one and
      otherwise unchanged, and every other field is unchanged. */
  ghost predicate PatchedBy(before: Token, after: Token, u: PriceUpdate) {
    && after.price == u.price
    && after.priceChange24h == u.priceChange24h
    && after.volume24h == u.volume24h
    && after.marketCap == u.marketCap
    && after.percentageChanges == (match u.percentageChanges case Some(pc) => pc case None => before.percentageChanges)
    && IdentityOf(after) == IdentityOf(before)
  }

  /** PatchedBy leaves no freedom: it fixes every field of the result. */
  lemma PatchedByDetermines(before: Token, a: Token, b: Token, u: PriceUpdate)
    requires PatchedBy(before, a, u) && PatchedBy(before, b, u)
    ensures a == b
  {
  }

  /** `updateTokenPrice`: patches the stored token with the update's id; an
      update for an unknown id is dropped. */
  function UpdateTokenPrice(m: Tokens, u: PriceUpdate): (r: Tokens)
    ensures r.Keys == m.Keys
    ensures u.tokenId !in m ==> r == m
    ensures forall id :: id in m && id != u.tokenId ==> r[id] == m[id]
    ensures u.tokenId in m ==> PatchedBy(m[u.tokenId], r[u.tokenId], u)
    ensures IdKeyed(m) ==> IdKeyed(r)
  {
    if u.tokenId in m then
      var t := m[u.tokenId];
      var pc := match u.percentageChanges case Some(pc) => pc case None => t.percentageChanges;
      m[u.tokenId := t.(price := u.price, priceChange24h := u.priceChange24h,
                        volume24h := u.volume24h, marketCap := u.marketCap,
                        percentageChanges := pc)]
    else m
  }

  /** Applying the same update twice is the same as applying it once. */
  lemma UpdateTokenPriceIdempotent(m: Tokens, u: PriceUpdate)
    ensures UpdateTokenPrice(UpdateTokenPrice(m, u), u) == UpdateTokenPrice(m, u)
  {
    var once := UpdateTokenPrice(m, u);
    if u.tokenId in m {
      PatchedByDetermines(m[u.tokenId], UpdateTokenPrice(once, u)[u.tokenId], once[u.tokenId], u);
    }
  }

  /** The `updateTokenPrice` reducer on the slice: the key order never changes. */
  function UpdateTokenPriceReducer(st: TokenState, u: PriceUpdate): (r: TokenState)
    ensures r.tokens == UpdateTokenPrice(st.tokens, u) && r.order == st.order
    ensures Valid(st) ==> Valid(r)
  {
    TokenState(UpdateTokenPrice(st.tokens, u), st.order)
  }

  // ---------------------------------------------------------------------------
  // Object.values

  /** The stored tokens in key order, as `Object.values(tokens)` lists them. */
  function ValuesIn(m: Tokens, order: seq<string>): (r: seq<Token>)
    ensures forall t :: t in r <==> exists k :: k in order && k in m && m[k] == t
    ensures |r| <= |order|
    ensures (forall k :: k in order ==> k in m) ==>
              |r| == |order| && forall i :: 0 <= i < |r| ==> r[i] == m[order[i]]
  {
    if |order| == 0 then []
    else
      var rest := ValuesIn(m, order[1..]);
      assert forall k :: k in order <==> k == order[0] || k in order[1..];
      (if order[0] in m then [m[order[0]]] else []) + rest
  }

  /** In a valid store `Object.values` lists one token per key, in key order,
      and no token twice. */
  function Values(st: TokenState): (r: seq<Token>)
    ensures Valid(st) ==> forall t :: t in r <==> t in st.tokens.Values
    ensures Valid(st) ==> |r| == |st.order| && forall i :: 0 <= i < |r| ==> r[i] == st.tokens[st.order[i]]
    ensures Valid(st) ==> Distinct(r)
  {
    ValuesInDistinct(st.tokens, st.order);
    ValuesIn(st.tokens, st.order)
  }

  /** Listing an id-keyed map along distinct keys lists distinct tokens. */
  lemma ValuesInDistinct(m: Tokens, order: seq<string>)
    ensures IdKeyed(m) && Distinct(order) && (forall k :: k in order ==> k in m) ==>
              Distinct(ValuesIn(m, order))
  {
    var r := ValuesIn(m, order);
    if IdKeyed(m) && Distinct(order) && (forall k :: k in order ==> k in m) {
      assert forall i :: 0 <= i < |r| ==> r[i].id == order[i];
    }
  }
}
