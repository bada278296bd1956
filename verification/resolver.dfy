/**
  The two remote lookups of the handler, `findCoinId` and `getCryptoPrice`,
  reduced to what they do with the answer their HTTP request produced, and the
  two-tier coin resolution that combines the alias table with the search.
 */
module Resolver {
  import opened Wrappers
  import opened Js
  import Coins
  import Strings

  /** One entry of the search service's `coins` list; its `id` field may be missing. */
  datatype CoinHit = CoinHit(id: Option<string>)

  /** What the search request produced: it threw (network failure, error
      status), or it answered with a body whose `coins` field may be absent. */
  datatype SearchOutcome =
    | SearchFailed
    | SearchReturned(coins: Option<seq<CoinHit>>)

  /** What the price request produced: it threw, or it answered with a body in
      which `data[coinId]?.usd` is either missing or some number. */
  datatype QuoteOutcome =
    | QuoteFailed
    | QuoteReturned(usd: Option<Number>)

  /** `findCoinId`: the `id` of the top search hit, or nothing when the call
      failed, `coins` is missing or empty, or the top hit carries no `id`. */
  function FindCoinId(search: SearchOutcome): (r: Option<string>)
    ensures r.Some? ==> search.SearchReturned? && search.coins.Some? && |search.coins.value| > 0
    ensures r.Some? ==> search.coins.value[0].id == r
    ensures search.SearchFailed? || search.coins.None? || search.coins == Some([]) ==> r.None?
    ensures search.SearchReturned? && search.coins.Some? && |search.coins.value| > 0 ==> r == search.coins.value[0].id
  {
    match search
    case SearchFailed => None
    case SearchReturned(coins) =>
      if coins.Some? && |coins.value| > 0 then coins.value[0].id else None
  }

  /** `findCoinId` on an answered search reports the top hit, whatever follows it. */
  lemma FindCoinIdTopHit(hit: CoinHit, rest: seq<CoinHit>)
    ensures FindCoinId(SearchReturned(Some([hit] + rest))) == hit.id
  {
  }

  /** `getCryptoPrice`: the `usd` figure only when it is present and truthy;
      a missing, zero or NaN figure and a failed call all give nothing. */
  function GetCryptoPrice(quote: QuoteOutcome): (r: Option<Number>)
    ensures r.Some? ==> NumberTruthy(r.value)
    ensures r.Some? <==> quote.QuoteReturned? && quote.usd.Some? && NumberTruthy(quote.usd.value)
    ensures r.Some? ==> r == quote.usd
  {
    match quote
    case QuoteFailed => None
    case QuoteReturned(usd) =>
      if usd.Some? && NumberTruthy(usd.value) then usd else None
  }

  /** The result of resolving a text: the coin id, if any, and the query passed
      to the search service when it was consulted. */
  datatype Resolution = Resolution(coinId: Option<string>, searched: Option<string>)

  /** `coinKey ? supportedCoins[coinKey] : await findCoinId(text)`. */
  function Resolve(text: string, search: SearchOutcome): (r: Resolution)
    ensures Coins.Lookup(text).Some? ==> r.coinId == Coins.Lookup(text) && r.searched.None?
    ensures Coins.Lookup(text).None? ==> r.coinId == FindCoinId(search) && r.searched == Some(text)
  {
    match Coins.Lookup(text)
    case Some(id) => Resolution(Some(id), None)
    case None => Resolution(FindCoinId(search), Some(text))
  }

  /** Search is consulted, with the text itself, exactly when no alias key occurs in the text. */
  lemma SearchOnlyOnAliasMiss(text: string, search: SearchOutcome)
    ensures Resolve(text, search).searched.Some? <==> forall j :: 0 <= j < |Coins.Table| ==> !Strings.Includes(text, Coins.Table[j].0)
    ensures Resolve(text, search).searched.Some? ==> Resolve(text, search).searched == Some(text)
  {
    Coins.LookupNoneIff(text);
  }

  /** When an alias hits, the search outcome cannot influence the resolution. */
  lemma AliasHitIgnoresSearch(text: string, s1: SearchOutcome, s2: SearchOutcome)
    requires Coins.Lookup(text).Some?
    ensures Resolve(text, s1) == Resolve(text, s2)
  {
  }

  /** A resolved id is either a table identifier (no search made) or the top
      search hit's id. */
  lemma ResolvedIdOrigin(text: string, search: SearchOutcome)
    ensures var r := Resolve(text, search);
      r.coinId.Some? ==>
        || (r.searched.None? && r.coinId.value in Coins.Ids)
        || (&& r.searched.Some? && search.SearchReturned? && search.coins.Some?
            && |search.coins.value| > 0 && search.coins.value[0].id == r.coinId)
  {
  }
}
