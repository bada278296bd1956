# CryptoMate `/a2a` handler — a Dafny model

CryptoMate is a small HTTP bridge that answers chat messages about
cryptocurrency prices. Its one endpoint, `POST /a2a`, takes a JSON-RPC-shaped
`sendMessage` request and does the following:

- lower-cases the message text;
- resolves a coin identifier, first through a fixed alias table and then
  through a remote coin search;
- fetches the coin's USD price;
- replies in natural language. When no coin resolves, it asks a
  conversational agent instead.

For every request the model covers, the handler answers with exactly one envelope.

This project models that handler as pure functions. The three network
collaborators are replaced by the outcomes they produced:

- the search answer (`SearchOutcome`);
- the price answer (`QuoteOutcome`);
- the agent's answer or exception (`AgentOutcome`).

`price.toLocaleString()` becomes an opaque `render` parameter. Besides its HTTP
status and envelope, the handler returns the collaborator calls it made, in
order. Those calls are what the "search is skipped", "agent only when
unresolved" and "price asked for the resolved coin" properties are stated on.

Modules, leaf first:

- `Wrappers`: `Option`.
- `Js`: JSON values and JavaScript truthiness (`if (x)`, `x || y`).
- `Strings`: ASCII `toLowerCase`/`toUpperCase` and `includes`, plus a scanning
  implementation of `includes` proved equal to the substring definition.
- `Coins`: the `supportedCoins` table and the first-match lookup of
  `Object.keys(...).find(...)`, with a loop implementation proved equal to it.
- `Resolver`: `findCoinId`, `getCryptoPrice` and the two-tier resolution.
- `Handler`: validation, the `try` block, the `catch` block and envelope
  construction.
- `Scenarios`: concrete texts and whole exchanges.

Behaviour of `server.js` worth noting:

- Validation failure answers with HTTP status 400 and error code -32601.
  That is the only error envelope the handler produces.
- A fault inside the `try` block yields a `result` envelope with a fixed
  "Oops" text, and `channelId` defaults to `"unknown"`.
- The agent call has no timeout around it.
- Only the method name `"sendMessage"` and the field `params.text` are
  accepted.
- The search service receives the lower-cased text.
- A search hit whose `id` is the empty string is falsy. The handler then
  treats the coin as unresolved and asks the agent.

## Model

| member | source | states |
|---|---|---|
| `Strings.Contains` | server.js:81 | the scanning search returns true exactly when the key occurs as a contiguous substring of the text (`text.includes(key)`) |
| `Strings.ToLower` | server.js:75 | lower-casing keeps the length, turns each upper-case letter into its lower-case counterpart and changes no other character |
| `Strings.ToUpper` | server.js:88 | upper-casing keeps the length, leaves no lower-case letter, changes nothing but lower-case letters, and agrees with the original once both are lower-cased |
| `Strings.IncludesBounds` | server.js:81 | containment needs the key to be no longer than the text, and holds for the empty key and for the text itself |
| `Coins.FirstMatchFrom` | server.js:81 | the index found holds a key contained in the text, no earlier index from the start point does, and none is found only when no remaining key is contained |
| `Coins.MatchIndex` | server.js:81 | the index `.find` stops at is the first table entry whose key occurs in the text; none means no key occurs |
| `Coins.MatchIndexIsFirstMatch` | server.js:81 | the lookup returns index `i` if and only if entry `i` is the first entry, in declaration order, whose key occurs in the text |
| `Coins.LookupKey` | server.js:81 | the key found is one of the table's keys; none only when no key occurs in the text |
| `Coins.LookupKeyFirstMatch` | server.js:81 | `.find` returns a key exactly when it is the first key, in declaration order, that occurs in the text |
| `Coins.Lookup` | server.js:81-82 | the identifier found is one of the table's identifiers, found exactly when a key is, and paired in the table with that key |
| `Coins.LookupFirstMatch` | server.js:81-82 | the alias lookup yields `id` if and only if the first contained key in declaration order maps to `id` |
| `Coins.LookupNoneIff` | server.js:81 | the alias lookup misses if and only if no key of the table occurs in the text |
| `Coins.KeyExcludesEarlier` | server.js:16-26 | no key occurs inside a key declared after it |
| `Coins.EveryKeySelectsItself` | server.js:16-26 | each alias looked up on its own selects its own entry and identifier, so the order shadows no alias |
| `Coins.KeysAreLowerCase` | server.js:16-26 | every key is non-empty and has no upper-case letter |
| `Coins.LowerKeepsMatch` | server.js:75-81 | a key with no upper-case letter that occurs in a text still occurs in the lower-cased text |
| `Coins.UpperKeyMatchesLowered` | server.js:75-81 | a lower-case key written in capitals in the text occurs in the lower-cased text, so the lookup is case-insensitive |
| `Coins.LookupHitsAfterLower` | server.js:75-81 | whenever some table key occurs in the raw text, the lookup on the lower-cased text hits |
| `Coins.FindKey` | server.js:81 | the loop over the keys in order, testing each with `includes`, returns the same key as the first-match lookup |
| `Resolver.FindCoinId` | server.js:44-56 | a non-empty `coins` list gives the top hit's `id`; a failed call, a missing or empty list give nothing; a result exists only in the first case |
| `Resolver.FindCoinIdTopHit` | server.js:48-49 | an answered search reports the first hit's id whatever hits follow |
| `Resolver.GetCryptoPrice` | server.js:29-41 | a price is returned if and only if the answer carried a truthy `usd` figure, and it is that figure; zero, NaN, a missing figure and a failed call give nothing |
| `Resolver.Resolve` | server.js:81-82 | an alias hit gives the table identifier without consulting search; an alias miss consults search once with the text and takes its result |
| `Resolver.SearchOnlyOnAliasMiss` | server.js:81-82 | search is consulted, with the text itself, if and only if no alias key occurs in the text |
| `Resolver.AliasHitIgnoresSearch` | server.js:82 | after an alias hit the resolution is the same whatever the search would have answered |
| `Resolver.ResolvedIdOrigin` | server.js:81-82 | a resolved id is either a table identifier with no search made, or the top search hit's id |
| `Js.Or` | server.js:125 | `a \|\| b` yields `a` when `a` is truthy and `b` otherwise, and is truthy exactly when either operand is |
| `Js.FalsyValues` | server.js:64 | a value is falsy exactly when it is `undefined`, `null`, `false`, `NaN`, `0` or `""` |
| `Handler.PricedReply` | server.js:88 | the price reply contains the coin id upper-cased and the rendered price |
| `Handler.UnavailableReply` | server.js:90 | the apology contains the coin id |
| `Handler.Valid` | server.js:64 | validation passes exactly when the method is `"sendMessage"` and `params.text` is present and non-empty |
| `Handler.RequestText` | server.js:75 | the handler's working text is the request text lower-cased: non-empty, same length, each upper-case letter replaced by its lower-case counterpart and every other character kept |
| `Handler.ResolvedId` | server.js:81-82 | the coin id is the alias table's on a hit and `findCoinId`'s answer on a miss |
| `Handler.ResolvedCases` | server.js:85 | an alias hit always counts as resolved; on a miss, resolution holds exactly when the search gave a non-empty id |
| `Handler.Try` | server.js:79-102 | the `try` block makes one or two collaborator calls and can only throw when the agent throws |
| `Handler.Handle` | server.js:59-130 | one envelope per modelled request (`params.text` a string or missing), echoing `id` with `jsonrpc` "2.0"; status 400 with error -32601 "Invalid method or parameters" and no calls exactly when validation fails; otherwise status 200, a `result` of type "message" and one or two calls |
| `Handler.InvalidIgnoresCollaborators` | server.js:64-73 | a rejected request's response does not depend on any collaborator outcome |
| `Handler.AliasHitSkipsSearch` | server.js:81-82 | with an alias hit, no search call is made, the search outcome cannot change the response, and the resolved id is the table's |
| `Handler.AliasMissSearchesOnce` | server.js:81-82 | with an alias miss, the first call is a search with the lower-cased text, no other search follows, and the id is the search's result |
| `Handler.PricedBranch` | server.js:85-88 | resolved id and truthy price: status 200, the price reply naming the upper-cased id and the rendered price on the request's channel, the last call a price request for that id, no agent call |
| `Handler.UnavailableBranch` | server.js:85-91 | resolved id and no truthy price: the apology naming the id, the last call a price request for that id, no agent call |
| `Handler.AgentOnlyWhenUnresolved` | server.js:85-94 | the agent is called with the lower-cased text if and only if no coin resolved, and never with anything else |
| `Handler.CallTrace` | server.js:81-94 | a valid request calls search only on an alias miss, then the price service for a resolved coin or the agent otherwise, and nothing else |
| `Handler.QuoteOnlyWhenResolved` | server.js:85-86 | the price service is called if and only if a coin resolved, and only for that coin |
| `Handler.AgentBranch` | server.js:92-102 | no coin and an answering agent: the reply is the agent's output when truthy, the capability text otherwise, on the request's channel |
| `Handler.AgentThrowsBranch` | server.js:117-129 | no coin and a throwing agent: status 200, a `result` with the Oops text, the channel id kept when truthy and "unknown" otherwise |
| `Handler.FaultOnlyFromAgent` | server.js:104-129 | the channel is replaced only when the agent was called and threw; the Oops text is sent only then or when the agent itself answered with it |
| `Handler.TryOopsOnlyFromAgent` | server.js:81-101 | inside the `try` block, a reply equal to the Oops text comes only from an unresolved coin and an agent that answered with that text |
| `Handler.OnlyOopsIsOops` | server.js:88-126 | neither the price reply, the apology nor the capability text equals the Oops text |
| `Handler.ResolvedIgnoresAgent` | server.js:85-91 | once a coin resolved, the agent outcome cannot change the response |
| `Handler.UnresolvedIgnoresQuote` | server.js:92-102 | when no coin resolved, the price outcome cannot change the response |
| `Scenarios.EthTonResolvesToEthereum` | server.js:16-26 | "eth ton" resolves to ethereum: `eth` is declared before `ton` |
| `Scenarios.BitcoinCashResolvesToBitcoin` | server.js:81 | "bitcoin cash" resolves to bitcoin by containment |
| `Scenarios.SomethingResolvesToEthereum` | server.js:81 | "tell me something" resolves to ethereum, because "something" contains `eth` |
| `Scenarios.JokeMissesTable` | server.js:81 | "tell me a joke" contains no alias key |
| `Scenarios.JokeLacksBitcoinEthereumTon` | server.js:17-25 | "tell me a joke" contains none of `bitcoin`, `btc`, `ethereum`, `eth`, `ton` |
| `Scenarios.JokeLacksSolanaDogeAliases` | server.js:21-24 | "tell me a joke" contains none of `solana`, `sol`, `dogecoin`, `doge` |
| `Scenarios.BtcResolvesToBitcoin` | server.js:75-82 | "price of btc?" is unchanged by lower-casing and resolves to bitcoin through `btc` |
| `Scenarios.ShoutedBtcResolvesToBitcoin` | server.js:75-82 | "PRICE OF BTC?" lower-cases to "price of btc?" and so resolves to bitcoin |
| `Scenarios.BitcoinUpperCased` | server.js:88 | the price reply spells bitcoin as BITCOIN |
| `Scenarios.PriceOfBtc` | server.js:75-113 | "price of btc?" with a 65000 USD quote gives status 200, the price reply for BITCOIN on channel "c1", and a single price call |
| `Scenarios.TellMeAJoke` | server.js:92-102 | "tell me a joke" with an empty search answer calls search then the agent, and replies with its output or the capability text |
| `Scenarios.UnknownMethod` | server.js:64-73 | method "unknown" gives status 400 and error -32601 with no calls |
| `Scenarios.EmptyTextRejected` | server.js:64 | an empty text fails validation |
| `Scenarios.EmptySearchIdFallsBackToAgent` | server.js:82-94 | an empty-string search id is treated as unresolved: the agent is asked, and its exception gives the Oops envelope on channel "unknown" |

## Left out

- Express, body-parser and dotenv set-up, `app.listen` and the `GET /` health check (server.js:1-13, 132-136) are process and transport plumbing.
- The HTTP requests and their URLs (server.js:31-32, 46) are not modelled. Only their outcomes enter, as `SearchOutcome` and `QuoteOutcome`.
- `console.log` and `console.error` calls are logging side effects.
- `price.toLocaleString()` is locale-dependent number formatting. It is the opaque `render` parameter.
- `toLowerCase` and `toUpperCase` are modelled on ASCII letters only. Unicode case mapping is not modelled. Every alias key is lower-case ASCII.
- agent.js only configures the language-model agent (model name, prompt, API key). `cryptoTrackerBot.run` is the `AgentOutcome` input.
- Numbers are finite reals or NaN. Infinities and floating-point rounding are not modelled. A `usd` field holding a non-number is not modelled.
- `params.text` is a string or missing. A non-string text makes `toLowerCase` throw outside the `try` block, and that case is not modelled. A search hit's `id` is likewise a string or missing.
- The agent's `output` is a string or missing. server.js:96-97 copies any truthy `output` into `result.text`, including a number or an object, and such values are not modelled.
- A missing request body is not modelled. The body parser always supplies an object.
- Exceptions from `coinId.toUpperCase()` or `price.toLocaleString()` on non-string or non-number values cannot arise with the types above. The agent is the only fault that reaches the `catch` block.
