/** The search dialog: a case-insensitive substring filter over every stored
    token, and the dialog's local query kept in step with the slice's
    `searchQuery`. */
module Search {
  import opened Types
  import opened Js
  import TokenStore
  import AppSlice

  // ---------------------------------------------------------------------------
  // The filter

  /** The query the filter compares with: lower-cased, then trimmed. */
  function NormaliseQuery(q: string): string {
    Trim(ToLower(q))
  }

  /** A token matches when its lower-cased symbol, name, pair address or
      category contains the query. */
  predicate Matches(t: Token, query: string) {
    || Includes(ToLower(t.symbol), query)
    || Includes(ToLower(t.name), query)
    || Includes(ToLower(t.pairAddress), query)
    || Includes(ToLower(CategoryName(t.category)), query)
  }

  /** `a` is `b` with some elements dropped and the rest kept in order. */
  ghost predicate IsSubsequence<T>(a: seq<T>, b: seq<T>)
    decreases |b|
  {
    |a| == 0 || (|b| > 0 && ((a[0] == b[0] && IsSubsequence(a[1..], b[1..])) || IsSubsequence(a, b[1..])))
  }

  /** `values.filter(t => Matches(t, query))`. */
  function Filter(values: seq<Token>, query: string): (r: seq<Token>)
    ensures forall t :: t in r <==> t in values && Matches(t, query)
    ensures forall t :: multiset(r)[t] == if Matches(t, query) then multiset(values)[t] else 0
    ensures IsSubsequence(r, values)
  {
    if |values| == 0 then []
    else
      var rest := Filter(values[1..], query);
      assert forall t :: t in values <==> t == values[0] || t in values[1..];
      assert values == [values[0]] + values[1..];
      if Matches(values[0], query) then
        assert ([values[0]] + rest)[1..] == rest;
        [values[0]] + rest
      else rest
  }

  /** `filteredTokens`: nothing for a blank query, otherwise the values of the
      store that match the normalised query, in `Object.values` order. */
  function FilteredTokens(values: seq<Token>, localQuery: string): (r: seq<Token>)
    ensures Blank(localQuery) ==> r == []
    ensures forall t :: t in r <==> !Blank(localQuery) && t in values && Matches(t, NormaliseQuery(localQuery))
    ensures forall t :: multiset(r)[t] ==
              if !Blank(localQuery) && Matches(t, NormaliseQuery(localQuery)) then multiset(values)[t] else 0
    ensures IsSubsequence(r, values)
  {
    TrimEmptyIffBlank(localQuery);
    if Trim(localQuery) == "" then [] else Filter(values, NormaliseQuery(localQuery))
  }

  /** The dialog searches every token in the store, not one column. */
  function SearchStore(st: TokenStore.TokenState, localQuery: string): (r: seq<Token>)
    ensures TokenStore.Valid(st) ==>
              forall t :: t in r <==> !Blank(localQuery) && t in st.tokens.Values && Matches(t, NormaliseQuery(localQuery))
    ensures TokenStore.Valid(st) ==> TokenStore.Distinct(r)
    ensures IsSubsequence(r, TokenStore.Values(st))
  {
    var r := FilteredTokens(TokenStore.Values(st), localQuery);
    FewerCopiesKeepDistinct(r, TokenStore.Values(st));
    r
  }

  /** Each element of a distinct sequence occurs once. */
  lemma {:induction false} DistinctCounts<T>(s: seq<T>)
    requires TokenStore.Distinct(s)
    ensures forall t :: multiset(s)[t] <= 1
    decreases |s|
  {
    if |s| > 0 {
      assert TokenStore.Distinct(s[1..]) by {
        forall i, j | 0 <= i < j < |s[1..]| ensures s[1..][i] != s[1..][j] {
          assert s[1..][i] == s[i + 1] && s[1..][j] == s[j + 1];
        }
      }
      DistinctCounts(s[1..]);
      forall k | 0 <= k < |s[1..]| ensures s[1..][k] != s[0] {
        assert s[1..][k] == s[k + 1];
      }
      assert s == [s[0]] + s[1..];
    }
  }

  /** A sequence in which nothing occurs twice is distinct. */
  lemma CountsDistinct<T>(s: seq<T>)
    requires forall t :: multiset(s)[t] <= 1
    ensures TokenStore.Distinct(s)
  {
    forall i, j | 0 <= i < j < |s| ensures s[i] != s[j] {
      var x := s[j];
      assert s == s[..j] + ([x] + s[j + 1..]);
      assert multiset(s)[x] == multiset(s[..j])[x] + 1 + multiset(s[j + 1..])[x];
      assert x !in s[..j];
      assert s[i] == s[..j][i];
    }
  }

  /** Keeping no more copies of anything than a distinct sequence has keeps
      the result distinct. */
  lemma FewerCopiesKeepDistinct<T>(r: seq<T>, s: seq<T>)
    ensures TokenStore.Distinct(s) && (forall t :: multiset(r)[t] <= multiset(s)[t]) ==> TokenStore.Distinct(r)
  {
    if TokenStore.Distinct(s) && (forall t :: multiset(r)[t] <= multiset(s)[t]) {
      DistinctCounts(s);
      CountsDistinct(r);
    }
  }

  /** A non-blank query normalises to a non-empty string. */
  lemma NormaliseNonBlank(q: string)
    ensures Blank(q) <==> NormaliseQuery(q) == ""
  {
    TrimLowerEmptyIff(q);
    TrimEmptyIffBlank(q);
  }

  /** An occurrence of a string with non-white ends survives trimming. */
  lemma TrimKeepsInner(s: string, u: string)
    requires Includes(s, u)
    requires |u| > 0 && !IsWhiteSpace(u[0]) && !IsWhiteSpace(u[|u| - 1])
    ensures Includes(Trim(s), u)
  {
    var i := OccurrenceOf(s, u);
    var a := TrimOffset(s);
    OccursInside(s, a, Trim(s), u, i);
    OccursIncludes(Trim(s), u, i - a);
  }

  /** An occurrence that starts and ends on non-white characters lies inside
      the window `r` of `s` that only white space surrounds. */
  lemma OccursInside(s: string, a: int, r: string, u: string, i: int)
    requires 0 <= a && a + |r| <= |s| && r == s[a..a + |r|]
    requires forall k :: 0 <= k < a ==> IsWhiteSpace(s[k])
    requires forall k :: a + |r| <= k < |s| ==> IsWhiteSpace(s[k])
    requires OccursAt(s, u, i) && |u| > 0 && !IsWhiteSpace(u[0]) && !IsWhiteSpace(u[|u| - 1])
    ensures OccursAt(r, u, i - a)
  {
    assert s[i] == u[0];
    assert s[i + |u| - 1] == u[|u| - 1];
    OccursInWindow(s, a, r, u, i);
  }

  lemma OccursInWindow(s: string, a: int, r: string, u: string, i: int)
    requires 0 <= a <= a + |r| <= |s| && r == s[a..a + |r|]
    requires OccursAt(s, u, i) && a <= i && i + |u| <= a + |r|
    ensures OccursAt(r, u, i - a)
  {
    forall k | 0 <= k < |u| ensures r[i - a..i - a + |u|][k] == u[k] {
      assert r[i - a + k] == s[a..a + |r|][i - a + k] == s[i + k] == s[i..i + |u|][k];
    }
    assert r[i - a..i - a + |u|] == u;
  }

  /** The normalised query is a substring of the lower-cased raw query. */
  lemma NormaliseWithin(q: string)
    ensures Includes(ToLower(q), NormaliseQuery(q))
  {
    var s := ToLower(q);
    var a := TrimOffset(s);
    assert OccursAt(s, Trim(s), a);
    IncludesIffOccurs(s, Trim(s));
  }

  /** A non-blank query contained in another stays contained after both are
      normalised. */
  lemma NormalisedContainment(q: string, longer: string)
    requires !Blank(q) && Includes(longer, q)
    ensures NormaliseQuery(q) != "" && Includes(NormaliseQuery(longer), NormaliseQuery(q))
  {
    var nq := NormaliseQuery(q);
    assert nq != "" by {
      NormaliseNonBlank(q);
    }
    assert Includes(ToLower(longer), nq) by {
      NormaliseWithin(q);
      ToLowerKeepsIncludes(longer, q);
      IncludesTransitive(ToLower(longer), ToLower(q), nq);
    }
    assert !IsWhiteSpace(nq[0]) && !IsWhiteSpace(nq[|nq| - 1]);
    TrimKeepsInner(ToLower(longer), nq);
  }

  /** A token matching a query matches every substring of it. */
  lemma MatchesSubstring(t: Token, query: string, sub: string)
    requires Matches(t, query) && Includes(query, sub)
    ensures Matches(t, sub)
  {
    if Includes(ToLower(t.symbol), query) {
      IncludesTransitive(ToLower(t.symbol), query, sub);
    } else if Includes(ToLower(t.name), query) {
      IncludesTransitive(ToLower(t.name), query, sub);
    } else if Includes(ToLower(t.pairAddress), query) {
      IncludesTransitive(ToLower(t.pairAddress), query, sub);
    } else {
      IncludesTransitive(ToLower(CategoryName(t.category)), query, sub);
    }
  }

  /** Typing more narrows the results: when the new query contains the old one
      and the old one is not blank, every token found by the new query was
      found by the old one. */
  lemma LongerQueryNarrows(values: seq<Token>, q: string, longer: string)
    requires !Blank(q) && Includes(longer, q)
    ensures forall t :: t in FilteredTokens(values, longer) ==> t in FilteredTokens(values, q)
  {
    NormalisedContainment(q, longer);
    forall t | t in FilteredTokens(values, longer) ensures t in FilteredTokens(values, q) {
      MatchesSubstring(t, NormaliseQuery(longer), NormaliseQuery(q));
    }
  }

  // ---------------------------------------------------------------------------
  // The dialog

  /** What the result area shows. */
  datatype Panel = NotFound | Found(count: nat) | Prompt

  /** "No tokens found" for a non-blank query with no match, the result list
      when something matches, and the prompt otherwise. */
  function PanelFor(localQuery: string, results: seq<Token>): (p: Panel)
    ensures p == NotFound <==> !Blank(localQuery) && |results| == 0
    ensures p.Found? <==> |results| > 0
    ensures p.Found? ==> p.count == |results|
    ensures p == Prompt <==> Blank(localQuery) && |results| == 0
  {
    TrimEmptyIffBlank(localQuery);
    if Trim(localQuery) != "" && |results| == 0 then NotFound
    else if |results| > 0 then Found(|results|)
    else Prompt
  }

  /** The dialog never shows results for a blank query. */
  lemma BlankQueryPrompts(values: seq<Token>, localQuery: string)
    requires Blank(localQuery)
    ensures PanelFor(localQuery, FilteredTokens(values, localQuery)) == Prompt
  {
  }

  /** "<n> result found" or "<n> results found". */
  function CountLabel(n: nat): (r: string)
    ensures EndsWith(r, "results found") <==> n != 1
    ensures StartsWith(r, NatToString(n))
  {
    var r := NatToString(n) + " result" + (if n != 1 then "s" else "") + " found";
    assert r[..|NatToString(n)|] == NatToString(n);
    CountLabelEnding(n, r);
    r
  }

  lemma CountLabelEnding(n: nat, r: string)
    requires r == NatToString(n) + " result" + (if n != 1 then "s" else "") + " found"
    ensures EndsWith(r, "results found") <==> n != 1
  {
    if n == 1 {
      assert r == "1 result found";
    } else {
      assert r[|r| - 13..] == "results found";
    }
  }

  /** The dialog's own state next to the application slice. */
  datatype Screen = Screen(open: bool, localQuery: string, app: AppSlice.AppState)

  /** The dialog's field and the slice's query agree. */
  predicate InSync(s: Screen) {
    s.localQuery == s.app.searchQuery
  }

  /** `handleSearchChange`: the field and the slice both take the typed text. */
  function HandleSearchChange(s: Screen, value: string): (r: Screen)
    ensures r.localQuery == value && InSync(r)
    ensures r.open == s.open
    ensures r.app == AppSlice.SetSearchQuery(s.app, value)
  {
    Screen(s.open, value, AppSlice.SetSearchQuery(s.app, value))
  }

  /** The clear button: both queries become empty and the dialog stays open. */
  function HandleClear(s: Screen): (r: Screen)
    ensures r.localQuery == "" && InSync(r)
    ensures r.open == s.open
    ensures r.app.columns == s.app.columns && r.app.selectedToken == s.app.selectedToken
  {
    Screen(s.open, "", AppSlice.SetSearchQuery(s.app, ""))
  }

  /** `handleClose`, which also serves as the dialog's `onOpenChange`: it
      closes the dialog and empties both queries, whatever it is passed. */
  function HandleClose(s: Screen): (r: Screen)
    ensures !r.open && r.localQuery == "" && InSync(r)
    ensures r.app.columns == s.app.columns && r.app.selectedToken == s.app.selectedToken
    ensures r.app.isConnected == s.app.isConnected
  {
    Screen(false, "", AppSlice.SetSearchQuery(s.app, ""))
  }

  /** `handleTokenClick`: the clicked result becomes the selected token. */
  function HandleTokenClick(s: Screen, t: Token): (r: Screen)
    ensures r.app.selectedToken == Some(t)
    ensures r.open == s.open && r.localQuery == s.localQuery && r.app.searchQuery == s.app.searchQuery
  {
    s.(app := AppSlice.SetSelectedToken(s.app, Some(t)))
  }

  /** The dialog's events, as the user produces them. */
  datatype Event = Type(value: string) | Clear | Close | Pick(token: Token)

  function Step(s: Screen, e: Event): Screen {
    match e
    case Type(v) => HandleSearchChange(s, v)
    case Clear => HandleClear(s)
    case Close => HandleClose(s)
    case Pick(t) => HandleTokenClick(s, t)
  }

  function Run(s: Screen, events: seq<Event>): Screen
    decreases |events|
  {
    if |events| == 0 then s else Run(Step(s, events[0]), events[1..])
  }

  /** Starting in step, the dialog's field and the slice's query stay equal
      through any sequence of dialog events. */
  lemma {:induction false} RunKeepsInSync(s: Screen, events: seq<Event>)
    requires InSync(s)
    ensures InSync(Run(s, events))
    decreases |events|
  {
    if |events| > 0 {
      RunKeepsInSync(Step(s, events[0]), events[1..]);
    }
  }

  /** Closing always leaves an empty query behind, so the next opening starts
      with the prompt. */
  lemma CloseResetsQuery(s: Screen, values: seq<Token>)
    ensures var r := HandleClose(s);
            FilteredTokens(values, r.localQuery) == [] && PanelFor(r.localQuery, []) == Prompt
  {
  }
}
