/**
  Concrete requests and what the model answers to them: the alias table's first-match rule
  on particular texts, and whole request/response exchanges.
 */
module Scenarios {
  import opened Wrappers
  import opened Js
  import opened Strings
  import opened Resolver
  import opened Handler
  import Coins

  /** "eth ton" holds two aliases; the one declared first, `eth`, wins. */
  lemma EthTonResolvesToEthereum()
    ensures Coins.Lookup("eth ton") == Some("ethereum")
  {
    var text := "eth ton";
    IncludesInfix("", "eth", " ton");
    assert "" + "eth" + " ton" == text;
    MissingCharExcludes(text, "bitcoin", 'b');
    MissingCharExcludes(text, "btc", 'b');
    assert Coins.IsFirstMatch(text, 3);
    Coins.MatchIndexIsFirstMatch(text, 3);
  }

  /** "bitcoin cash" is matched by containment, so it resolves to bitcoin. */
  lemma BitcoinCashResolvesToBitcoin()
    ensures Coins.Lookup("bitcoin cash") == Some("bitcoin")
  {
    IncludesInfix("", "bitcoin", " cash");
    assert "" + "bitcoin" + " cash" == "bitcoin cash";
    assert Coins.IsFirstMatch("bitcoin cash", 0);
    Coins.MatchIndexIsFirstMatch("bitcoin cash", 0);
  }

  /** Containment is not word matching: "something" holds `eth`. */
  lemma SomethingResolvesToEthereum(text: string)
    requires text == "tell me something"
    ensures Coins.Lookup(text) == Some("ethereum")
  {
    IncludesInfix("tell me som", "eth", "ing");
    assert "tell me som" + "eth" + "ing" == text;
    MissingCharExcludes(text, "bitcoin", 'b');
    MissingCharExcludes(text, "btc", 'b');
    MissingCharExcludes(text, "ethereum", 'r');
    assert Coins.IsFirstMatch(text, 3);
    Coins.MatchIndexIsFirstMatch(text, 3);
  }

  /** "tell me a joke" holds no `b`, `h` or `n`, so neither the bitcoin nor the
      ethereum aliases nor `ton` occur in it. */
  lemma JokeLacksBitcoinEthereumTon(text: string)
    requires text == "tell me a joke"
    ensures !Includes(text, "bitcoin") && !Includes(text, "btc")
    ensures !Includes(text, "ethereum") && !Includes(text, "eth")
    ensures !Includes(text, "ton")
  {
    MissingCharExcludes(text, "bitcoin", 'b');
    MissingCharExcludes(text, "btc", 'b');
    MissingCharExcludes(text, "ethereum", 'h');
    MissingCharExcludes(text, "eth", 'h');
    MissingCharExcludes(text, "ton", 'n');
  }

  /** Nor the solana and dogecoin aliases: it holds no `s` and no `d`. */
  lemma JokeLacksSolanaDogeAliases(text: string)
    requires text == "tell me a joke"
    ensures !Includes(text, "solana") && !Includes(text, "sol")
    ensures !Includes(text, "dogecoin") && !Includes(text, "doge")
  {
    MissingCharExcludes(text, "solana", 's');
    MissingCharExcludes(text, "sol", 's');
    MissingCharExcludes(text, "dogecoin", 'd');
    MissingCharExcludes(text, "doge", 'd');
  }

  /** A text holding no alias misses the table. */
  lemma JokeMissesTable(text: string)
    requires text == "tell me a joke"
    ensures Coins.Lookup(text) == None
  {
    JokeLacksBitcoinEthereumTon(text);
    JokeLacksSolanaDogeAliases(text);
    Coins.LookupNoneIff(text);
  }

  /** "price of btc?" is already lower-case, and its first alias is `btc`. */
  lemma BtcResolvesToBitcoin(text: string)
    requires text == "price of btc?"
    ensures ToLower(text) == text
    ensures Coins.Lookup(text) == Some("bitcoin")
  {
    ToLowerOfNoUpper(text);
    IncludesInfix("price of ", "btc", "?");
    assert "price of " + "btc" + "?" == text;
    MissingCharExcludes(text, "bitcoin", 'n');
    assert Coins.IsFirstMatch(text, 1);
    Coins.MatchIndexIsFirstMatch(text, 1);
  }

  /** "PRICE OF BTC?" lower-cases to "price of btc?", so the capitals still select bitcoin. */
  lemma ShoutedBtcResolvesToBitcoin(text: string)
    requires text == "PRICE OF BTC?"
    ensures ToLower(text) == "price of btc?"
    ensures Coins.Lookup(ToLower(text)) == Some("bitcoin")
  {
    var lowered := ToLower(text);
    forall k | 0 <= k < |text|
      ensures lowered[k] == "price of btc?"[k]
    {
    }
    BtcResolvesToBitcoin("price of btc?");
  }

  /** The price reply spells the coin id in capitals. */
  lemma BitcoinUpperCased()
    ensures ToUpper("bitcoin") == "BITCOIN"
  {
    assert ToUpper("bitcoin") == "BITCOIN";
  }

  /** "price of btc?" on channel "c1", the quote service answering 65000 USD:
      the price reply for BITCOIN, and only the price service was called. */
  lemma PriceOfBtc(text: string, search: SearchOutcome, agent: AgentOutcome, render: Number -> string)
    requires text == "price of btc?"
    ensures var req := Request(Str("1"), Str("sendMessage"), Some(Params(Some(text), Str("c1"))));
      var out := Handle(req, search, QuoteReturned(Some(Finite(65000.0))), agent, render);
      && out.response.status == 200
      && out.response.envelope == Envelope("2.0", Str("1"), Result("message", Str("c1"), PricedReply("bitcoin", render(Finite(65000.0)))))
      && Includes(out.response.envelope.body.text, "BITCOIN")
      && out.calls == [QuoteCall("bitcoin")]
  {
    var req := Request(Str("1"), Str("sendMessage"), Some(Params(Some(text), Str("c1"))));
    BtcResolvesToBitcoin(text);
    assert RequestText(req) == text;
    assert ResolvedId(req, search) == Some("bitcoin");
    PricedBranch(req, search, QuoteReturned(Some(Finite(65000.0))), agent, render);
    BitcoinUpperCased();
  }

  /** "tell me a joke" with an empty search answer: search, then the agent; the
      reply is the agent's output, or the capability text when it has none. */
  lemma TellMeAJoke(text: string, output: Option<string>, quote: QuoteOutcome, render: Number -> string)
    requires text == "tell me a joke"
    ensures var req := Request(Str("2"), Str("sendMessage"), Some(Params(Some(text), Str("c2"))));
      var out := Handle(req, SearchReturned(Some([])), quote, AgentOk(output), render);
      && out.response.status == 200
      && out.calls == [SearchCall(text), AgentCall(text)]
      && out.response.envelope.body.channelId == Str("c2")
      && out.response.envelope.body.text == (if OptStrTruthy(output) then output.value else CapabilityReply)
  {
    ToLowerOfNoUpper(text);
    JokeMissesTable(text);
  }

  /** An unknown method is rejected with -32601 and status 400, before any collaborator is called. */
  lemma UnknownMethod(search: SearchOutcome, quote: QuoteOutcome, agent: AgentOutcome, render: Number -> string)
    ensures var out := Handle(Request(Str("3"), Str("unknown"), Some(Params(None, Undefined))), search, quote, agent, render);
      && out.response == Response(400, Envelope("2.0", Str("3"), Error(-32601, "Invalid method or parameters")))
      && out.calls == []
  {
  }

  /** An empty text is falsy and fails validation even with the right method. */
  lemma EmptyTextRejected(search: SearchOutcome, quote: QuoteOutcome, agent: AgentOutcome, render: Number -> string)
    ensures Handle(Request(Null, Str("sendMessage"), Some(Params(Some(""), Str("c")))), search, quote, agent, render).response.status == 400
  {
  }

  /** A search hit whose id is the empty string counts as no coin: the agent is asked. */
  lemma EmptySearchIdFallsBackToAgent(text: string, quote: QuoteOutcome, render: Number -> string)
    requires text == "tell me a joke"
    ensures var req := Request(Str("4"), Str("sendMessage"), Some(Params(Some(text), Undefined)));
      var out := Handle(req, SearchReturned(Some([CoinHit(Some(""))])), quote, AgentThrows, render);
      && out.calls == [SearchCall(text), AgentCall(text)]
      && out.response.envelope.body == Result("message", Str("unknown"), OopsReply)
  {
    var req := Request(Str("4"), Str("sendMessage"), Some(Params(Some(text), Undefined)));
    ToLowerOfNoUpper(text);
    JokeMissesTable(text);
    assert RequestText(req) == text;
    AgentThrowsBranch(req, SearchReturned(Some([CoinHit(Some(""))])), quote, render);
  }
}
