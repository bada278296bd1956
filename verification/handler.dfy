/**
  The `POST /a2a` request handler: validation, the resolve / price / agent
  pipeline inside the `try` block, and the construction of the single JSON
  envelope the request is answered with. The three network collaborators are
  replaced by the outcomes they produced, and the handler reports, beside its
  response, the collaborator calls it made, in order.
 */
module Handler {
  import opened Wrappers
  import opened Js
  import opened Strings
  import opened Resolver
  import Coins

  /** `req.body.params`: the message text (modelled as a string when present) and an opaque channel id. */
  datatype Params = Params(text: Option<string>, channelId: Value)

  /** `req.body`, destructured into `{ id, method, params }`; `params` may be missing. */
  datatype Request = Request(id: Value, methodName: Value, params: Option<Params>)

  /** What `cryptoTrackerBot.run(text)` did: returned a response whose `output`
      may be missing, or threw. */
  datatype AgentOutcome = AgentOk(output: Option<string>) | AgentThrows

  /** The `error` or `result` member of the JSON-RPC envelope. */
  datatype Body =
    | Error(code: int, message: string)
    | Result(kind: string, channelId: Value, text: string)

  datatype Envelope = Envelope(jsonrpc: string, id: Value, body: Body)

  /** The HTTP status and JSON body sent back. */
  datatype Response = Response(status: int, envelope: Envelope)

  /** A call made to a collaborator, with the argument it was given. */
  datatype Call =
    | SearchCall(query: string)
    | QuoteCall(coinId: string)
    | AgentCall(prompt: string)

  /** The response together with the collaborator calls made while computing it. */
  datatype Outcome = Outcome(response: Response, calls: seq<Call>)

  /** How the `try` block ended: with a reply string, or with the agent's exception. */
  datatype Attempt = Replied(reply: string) | Threw

  datatype Trace = Trace(attempt: Attempt, calls: seq<Call>)

  const InvalidCode: int := -32601
  const InvalidMessage: string := "Invalid method or parameters"
  const UnknownChannel: Value := Str("unknown")

  /** The reply used when no coin resolved and the agent produced no output. */
  const CapabilityReply: string :=
    "\U{1F916} I specialize"
    + " in live cryptocurrency prices and info \U{2014} try asking about any coin like Bitcoin or Solana!"

  /** The reply used when the `try` block threw. */
  const OopsReply: string :=
    "\U{26A0}\U{FE0F} Oops!"
    + " Something went wrong while processing your request."

  /** The validation guard: the method is exactly `"sendMessage"` and `params?.text` is truthy. */
  predicate Valid(req: Request)
    ensures Valid(req) <==>
      (&& req.methodName == Str("sendMessage")
       && req.params.Some? && req.params.value.text.Some?
       && |req.params.value.text.value| > 0)
  {
    && req.methodName == Str("sendMessage")
    && req.params.Some?
    && OptStrTruthy(req.params.value.text)
  }

  /** `params.text.toLowerCase()`. */
  function RequestText(req: Request): (r: string)
    requires Valid(req)
    ensures |r| == |req.params.value.text.value| > 0
    ensures NoUpper(r)
    ensures forall i :: 0 <= i < |r| && !IsUpperAscii(req.params.value.text.value[i]) ==>
      r[i] == req.params.value.text.value[i]
    ensures forall i :: 0 <= i < |r| && IsUpperAscii(req.params.value.text.value[i]) ==>
      r[i] == (req.params.value.text.value[i] as int + 32) as char
  {
    ToLower(req.params.value.text.value)
  }

  /** The coin id the handler resolves for a valid request. */
  function ResolvedId(req: Request, search: SearchOutcome): (r: Option<string>)
    requires Valid(req)
    ensures Coins.Lookup(RequestText(req)).Some? ==> r == Coins.Lookup(RequestText(req))
    ensures Coins.Lookup(RequestText(req)).None? ==> r == FindCoinId(search)
  {
    Resolve(RequestText(req), search).coinId
  }

  /** `if (coinId)`: an id was resolved and it is not the empty string. */
  predicate Resolved(req: Request, search: SearchOutcome)
    requires Valid(req)
  {
    OptStrTruthy(ResolvedId(req, search))
  }

  /** An alias hit always resolves; on a miss, the search's top hit decides. */
  lemma ResolvedCases(req: Request, search: SearchOutcome)
    requires Valid(req)
    ensures Coins.Lookup(RequestText(req)).Some? ==> Resolved(req, search)
    ensures Coins.Lookup(RequestText(req)).None? ==> (Resolved(req, search) <==> OptStrTruthy(FindCoinId(search)))
  {
  }

  /** The reply quoting a price; `rendered` is `price.toLocaleString()`. */
  function PricedReply(coinId: string, rendered: string): (r: string)
    ensures Includes(r, ToUpper(coinId))
    ensures Includes(r, rendered)
  {
    var pre := "\U{1F4B0} The current price of **";
    var mid := "** is **$";
    IncludesInfix(pre, ToUpper(coinId), mid + rendered + " USD**");
    IncludesInfix(pre + ToUpper(coinId) + mid, rendered, " USD**");
    assert pre + ToUpper(coinId) + (mid + rendered + " USD**")
        == pre + ToUpper(coinId) + mid + rendered + " USD**";
    pre + ToUpper(coinId) + mid + rendered + " USD**"
  }

  /** The apology used when the price is unavailable; it names the coin id. */
  function UnavailableReply(coinId: string): (r: string)
    ensures Includes(r, coinId)
  {
    var pre := "\U{26A0}\U{FE0F} I couldn\U{2019}t fetch the latest price for ";
    var post := ". Try again later or ask about another coin.";
    IncludesInfix(pre, coinId, post);
    pre + coinId + post
  }

  /** The body of the `try` block, given the lower-cased text. */
  function Try(text: string, search: SearchOutcome, quote: QuoteOutcome, agent: AgentOutcome,
               render: Number -> string): (t: Trace)
    ensures 1 <= |t.calls| <= 2
    ensures t.attempt.Threw? ==> agent.AgentThrows?
  {
    var res := Resolve(text, search);
    var searchCalls := if res.searched.Some? then [SearchCall(res.searched.value)] else [];
    if OptStrTruthy(res.coinId) then
      var coinId := res.coinId.value;
      var price := GetCryptoPrice(quote);
      var reply :=
        if price.Some? && NumberTruthy(price.value) then PricedReply(coinId, render(price.value))
        else UnavailableReply(coinId);
      Trace(Replied(reply), searchCalls + [QuoteCall(coinId)])
    else
      var calls := searchCalls + [AgentCall(text)];
      match agent
      case AgentThrows => Trace(Threw, calls)
      case AgentOk(output) =>
        Trace(Replied(if OptStrTruthy(output) then output.value else CapabilityReply), calls)
  }

  /** The `/a2a` handler: exactly one envelope per modelled request, an `error` envelope
      with status 400 exactly when validation fails, a `result` envelope with
      status 200 otherwise. */
  function Handle(req: Request, search: SearchOutcome, quote: QuoteOutcome, agent: AgentOutcome,
                  render: Number -> string): (out: Outcome)
    ensures out.response.envelope.jsonrpc == "2.0"
    ensures out.response.envelope.id == req.id
    ensures out.response.status == 400 <==> !Valid(req)
    ensures out.response.status == 200 <==> Valid(req)
    ensures out.response.envelope.body.Error? <==> !Valid(req)
    ensures !Valid(req) ==> out.response.envelope.body == Error(-32601, "Invalid method or parameters")
    ensures !Valid(req) ==> out.calls == []
    ensures Valid(req) ==> out.response.envelope.body.kind == "message" && 1 <= |out.calls| <= 2
  {
    if !Valid(req) then
      Outcome(Response(400, Envelope("2.0", req.id, Error(InvalidCode, InvalidMessage))), [])
    else
      var channelId := req.params.value.channelId;
      var t := Try(RequestText(req), search, quote, agent, render);
      match t.attempt
      case Replied(reply) =>
        Outcome(Response(200, Envelope("2.0", req.id, Result("message", channelId, reply))), t.calls)
      case Threw =>
        Outcome(Response(200, Envelope("2.0", req.id, Result("message", Or(channelId, UnknownChannel), OopsReply))), t.calls)
  }

  /** A rejected request reaches no collaborator: its response does not depend on their outcomes. */
  lemma InvalidIgnoresCollaborators(req: Request,
                                    s1: SearchOutcome, q1: QuoteOutcome, a1: AgentOutcome, f1: Number -> string,
                                    s2: SearchOutcome, q2: QuoteOutcome, a2: AgentOutcome, f2: Number -> string)
    requires !Valid(req)
    ensures Handle(req, s1, q1, a1, f1) == Handle(req, s2, q2, a2, f2)
  {
  }

  /** When an alias key occurs in the text, search is never called and its outcome is irrelevant. */
  lemma AliasHitSkipsSearch(req: Request, s1: SearchOutcome, s2: SearchOutcome, quote: QuoteOutcome,
                            agent: AgentOutcome, render: Number -> string)
    requires Valid(req) && Coins.Lookup(RequestText(req)).Some?
    ensures forall c :: c in Handle(req, s1, quote, agent, render).calls ==> !c.SearchCall?
    ensures Handle(req, s1, quote, agent, render) == Handle(req, s2, quote, agent, render)
    ensures ResolvedId(req, s1) == Coins.Lookup(RequestText(req))
  {
  }

  /** When no alias key occurs in the text, search is the first call, made once, with the lower-cased text. */
  lemma AliasMissSearchesOnce(req: Request, search: SearchOutcome, quote: QuoteOutcome,
                              agent: AgentOutcome, render: Number -> string)
    requires Valid(req) && Coins.Lookup(RequestText(req)).None?
    ensures var calls := Handle(req, search, quote, agent, render).calls;
      calls[0] == SearchCall(RequestText(req)) && forall k :: 1 <= k < |calls| ==> !calls[k].SearchCall?
    ensures ResolvedId(req, search) == FindCoinId(search)
  {
  }

  /** A resolved coin with a truthy price gets the price reply naming the coin in
      upper case; the agent is not called and the price was asked for that coin. */
  lemma PricedBranch(req: Request, search: SearchOutcome, quote: QuoteOutcome,
                     agent: AgentOutcome, render: Number -> string)
    requires Valid(req) && Resolved(req, search) && GetCryptoPrice(quote).Some?
    ensures var out := Handle(req, search, quote, agent, render);
      var id := ResolvedId(req, search).value;
      var price := GetCryptoPrice(quote).value;
      && out.response.status == 200
      && out.response.envelope.body == Result("message", req.params.value.channelId, PricedReply(id, render(price)))
      && Includes(out.response.envelope.body.text, ToUpper(id))
      && Includes(out.response.envelope.body.text, render(price))
      && out.calls[|out.calls| - 1] == QuoteCall(id)
      && forall c :: c in out.calls ==> !c.AgentCall?
  {
  }

  /** A resolved coin without a truthy price gets the apology naming the coin; the agent is not called. */
  lemma UnavailableBranch(req: Request, search: SearchOutcome, quote: QuoteOutcome,
                          agent: AgentOutcome, render: Number -> string)
    requires Valid(req) && Resolved(req, search) && GetCryptoPrice(quote).None?
    ensures var out := Handle(req, search, quote, agent, render);
      var id := ResolvedId(req, search).value;
      && out.response.status == 200
      && out.response.envelope.body == Result("message", req.params.value.channelId, UnavailableReply(id))
      && Includes(out.response.envelope.body.text, id)
      && out.calls[|out.calls| - 1] == QuoteCall(id)
      && forall c :: c in out.calls ==> !c.AgentCall?
  {
  }

  /** The calls a valid request makes: the search (only on an alias miss), then
      the price service for a resolved coin or the agent otherwise. */
  lemma CallTrace(req: Request, search: SearchOutcome, quote: QuoteOutcome,
                  agent: AgentOutcome, render: Number -> string)
    requires Valid(req)
    ensures var calls := Handle(req, search, quote, agent, render).calls;
      var searchCalls := if Coins.Lookup(RequestText(req)).None? then [SearchCall(RequestText(req))] else [];
      && (Resolved(req, search) ==> calls == searchCalls + [QuoteCall(ResolvedId(req, search).value)])
      && (!Resolved(req, search) ==> calls == searchCalls + [AgentCall(RequestText(req))])
  {
    assert Handle(req, search, quote, agent, render).calls == Try(RequestText(req), search, quote, agent, render).calls;
  }

  /** The agent is called, with the lower-cased text, exactly when no coin resolved. */
  lemma AgentOnlyWhenUnresolved(req: Request, search: SearchOutcome, quote: QuoteOutcome,
                                agent: AgentOutcome, render: Number -> string)
    requires Valid(req)
    ensures var calls := Handle(req, search, quote, agent, render).calls;
      && (AgentCall(RequestText(req)) in calls <==> !Resolved(req, search))
      && (forall c :: c in calls && c.AgentCall? ==> !Resolved(req, search) && c.prompt == RequestText(req))
  {
    CallTrace(req, search, quote, agent, render);
    var text := RequestText(req);
    var searchCalls := if Coins.Lookup(text).None? then [SearchCall(text)] else [];
    if Resolved(req, search) {
      LastCallDecides(searchCalls, QuoteCall(ResolvedId(req, search).value));
    } else {
      LastCallDecides(searchCalls, AgentCall(text));
    }
  }

  /** In a trace of searches followed by one last call, every non-search call is that last one. */
  lemma LastCallDecides(searches: seq<Call>, last: Call)
    requires forall c :: c in searches ==> c.SearchCall?
    ensures forall c :: c in searches + [last] && !c.SearchCall? ==> c == last
    ensures last in searches + [last]
  {
    assert (searches + [last])[|searches|] == last;
  }

  /** The price service is called exactly when a coin resolved, and only for that coin. */
  lemma QuoteOnlyWhenResolved(req: Request, search: SearchOutcome, quote: QuoteOutcome,
                              agent: AgentOutcome, render: Number -> string)
    requires Valid(req)
    ensures var calls := Handle(req, search, quote, agent, render).calls;
      && (forall c :: c in calls && c.QuoteCall? ==> Resolved(req, search) && c.coinId == ResolvedId(req, search).value)
      && ((exists c :: c in calls && c.QuoteCall?) <==> Resolved(req, search))
  {
    CallTrace(req, search, quote, agent, render);
    var calls := Handle(req, search, quote, agent, render).calls;
    if Resolved(req, search) {
      assert calls[|calls| - 1] in calls;
    }
  }

  /** With no coin resolved and an agent that answered, the reply is its output
      when truthy and the capability text otherwise. */
  lemma AgentBranch(req: Request, search: SearchOutcome, quote: QuoteOutcome,
                    output: Option<string>, render: Number -> string)
    requires Valid(req) && !Resolved(req, search)
    ensures var out := Handle(req, search, quote, AgentOk(output), render);
      && out.response.status == 200
      && out.response.envelope.body.channelId == req.params.value.channelId
      && (OptStrTruthy(output) ==> out.response.envelope.body.text == output.value)
      && (!OptStrTruthy(output) ==> out.response.envelope.body.text == CapabilityReply)
  {
  }

  /** When the agent throws, the fault is absorbed: a `result` envelope with the
      fixed Oops text, status 200, and the channel id defaulting to "unknown". */
  lemma AgentThrowsBranch(req: Request, search: SearchOutcome, quote: QuoteOutcome, render: Number -> string)
    requires Valid(req) && !Resolved(req, search)
    ensures var out := Handle(req, search, quote, AgentThrows, render);
      var channelId := req.params.value.channelId;
      && out.response.status == 200
      && out.response.envelope.body.Result?
      && out.response.envelope.body.text == OopsReply
      && (Truthy(channelId) ==> out.response.envelope.body.channelId == channelId)
      && (!Truthy(channelId) ==> out.response.envelope.body.channelId == Str("unknown"))
  {
  }

  /** The channel id is replaced only when the agent was called and threw, and
      the Oops text is sent only then, or when the agent itself answered with it. */
  lemma FaultOnlyFromAgent(req: Request, search: SearchOutcome, quote: QuoteOutcome,
                           agent: AgentOutcome, render: Number -> string)
    requires Valid(req)
    ensures var out := Handle(req, search, quote, agent, render);
      out.response.envelope.body.channelId != req.params.value.channelId ==> agent.AgentThrows? && !Resolved(req, search)
    ensures !(agent.AgentThrows? && !Resolved(req, search)) ==>
      Handle(req, search, quote, agent, render).response.envelope.body.channelId == req.params.value.channelId
    ensures Handle(req, search, quote, agent, render).response.envelope.body.text == OopsReply ==>
      !Resolved(req, search) && (agent.AgentThrows? || agent == AgentOk(Some(OopsReply)))
  {
    var t := Try(RequestText(req), search, quote, agent, render);
    if t.attempt.Replied? {
      TryOopsOnlyFromAgent(RequestText(req), search, quote, agent, render);
    }
  }

  /** Inside the `try` block, the Oops text can only be the agent's own output. */
  lemma TryOopsOnlyFromAgent(text: string, search: SearchOutcome, quote: QuoteOutcome,
                             agent: AgentOutcome, render: Number -> string)
    ensures Try(text, search, quote, agent, render).attempt == Replied(OopsReply) ==>
      !OptStrTruthy(Resolve(text, search).coinId) && agent == AgentOk(Some(OopsReply))
  {
    var res := Resolve(text, search);
    if OptStrTruthy(res.coinId) {
      var price := GetCryptoPrice(quote);
      OnlyOopsIsOops(res.coinId.value, if price.Some? then render(price.value) else "");
    } else {
      OnlyOopsIsOops("", "");
    }
  }

  /** None of the handler's own replies but the Oops text reads as the Oops text. */
  lemma OnlyOopsIsOops(coinId: string, rendered: string)
    ensures PricedReply(coinId, rendered) != OopsReply
    ensures UnavailableReply(coinId) != OopsReply
    ensures CapabilityReply != OopsReply
  {
    assert OopsReply[0] == '\U{26A0}' && OopsReply[3] == 'O';
    var priced := PricedReply(coinId, rendered);
    assert priced[0] == '\U{1F4B0}';
    var apology := UnavailableReply(coinId);
    assert apology[3] == 'I';
    assert CapabilityReply[0] == '\U{1F916}';
  }

  /** Once a coin resolved, the agent's outcome cannot influence the response. */
  lemma ResolvedIgnoresAgent(req: Request, search: SearchOutcome, quote: QuoteOutcome,
                             a1: AgentOutcome, a2: AgentOutcome, render: Number -> string)
    requires Valid(req) && Resolved(req, search)
    ensures Handle(req, search, quote, a1, render) == Handle(req, search, quote, a2, render)
  {
  }

  /** When no coin resolved, the price outcome cannot influence the response. */
  lemma UnresolvedIgnoresQuote(req: Request, search: SearchOutcome, q1: QuoteOutcome, q2: QuoteOutcome,
                               agent: AgentOutcome, render: Number -> string)
    requires Valid(req) && !Resolved(req, search)
    ensures Handle(req, search, q1, agent, render) == Handle(req, search, q2, agent, render)
  {
  }
}
