/**
  Whole runs of the strict chain: any number of requests at the BFF and the Agent,
  their steps interleaved at will, with the network, the signature check and the
  token endpoint free to answer anything.
 */
module ChainRuns {
  import opened Json
  import opened Evaluators
  import opened PyText
  import opened StrictChain
  import Guards

  datatype Config = Config(py: Runtime, bff: BffSettings, agent: AgentSettings)

  predicate StrictConfig(config: Config) {
    config.bff.mode == Strict && config.agent.mode == Strict
  }

  /** The BFF calls the Agent, the Agent calls MCP. */
  datatype Site = AtBff | AtAgent

  /** How far a request has come. */
  datatype Progress = Arrived | Validated(token: string) | Ready(header: Option<string>) | Over

  datatype Request = Request(site: Site, authorization: Option<string>, progress: Progress)

  /** What has happened, by request number. */
  datatype Event =
    | TokenValidated(request: nat, token: string)
    | TokenExchanged(request: nat, assertion: string, header: string, reply: EndpointReply)
    | DownstreamCalled(request: nat, carried: Option<string>)

  datatype World = World(requests: seq<Request>, log: seq<Event>)

  const EMPTY := World([], [])

  datatype Action =
    | Arrive(site: Site, authorization: Option<string>)
    | Validate(request: nat, accepted: bool)
    | Prepare(request: nat, context: Guards.AuthContext, reply: EndpointReply)
    | CallDownstream(request: nat)

  function Advance(w: World, r: nat, progress: Progress, events: seq<Event>): World
    requires r < |w.requests|
  {
    World(w.requests[r := w.requests[r].(progress := progress)], w.log + events)
  }

  /** The strict token of the header is extracted and its signature and claims are checked. */
  function DoValidate(w: World, r: nat, accepted: bool): World
    requires r < |w.requests|
  {
    match ValidatedToken(w.requests[r].authorization)
    case Some(token) =>
      if accepted then Advance(w, r, Validated(token), [TokenValidated(r, token)]) else Advance(w, r, Over, [])
    case None => Advance(w, r, Over, [])
  }

  function ExchangeEvents(r: nat, exchange: ExchangeResult, reply: EndpointReply): seq<Event> {
    match exchange
    case Raised => []
    case Minted(assertion, header) => [TokenExchanged(r, assertion, header, reply)]
  }

  /** The BFF builds its forward headers, if the chain is enabled. */
  function DoForward(config: Config, w: World, r: nat, reply: EndpointReply): World
    requires r < |w.requests|
  {
    var authorization := w.requests[r].authorization;
    if !config.bff.chainEnabled then Advance(w, r, Over, [])
    else
      match ForwardedAuthorization(config.bff, authorization, reply)
      case None => Advance(w, r, Over, [])
      case Some(header) =>
        Advance(w, r, Ready(header),
                if Present(authorization) && config.bff.mode == Strict
                then ExchangeEvents(r, ExchangeEntra(config.bff.obo, authorization, reply), reply) else [])
  }

  /** The Agent exchanges, if the caller is authorised with a delegated token and the chain is enabled. */
  function DoInvoke(config: Config, w: World, r: nat, context: Guards.AuthContext, reply: EndpointReply): World
    requires r < |w.requests|
  {
    var authorization := w.requests[r].authorization;
    var exchange := AgentExchanges(config.py, config.agent, context, authorization, reply);
    var events := if exchange.ExchangeDone? && config.agent.mode == Strict
                  then ExchangeEvents(r, ExchangeEntra(config.agent.obo, authorization, reply), reply) else [];
    match SentToMcp(config.agent, exchange)
    case Some(header) => Advance(w, r, Ready(Some(header)), events)
    case None => Advance(w, r, Over, events)
  }

  /** One step; an action that is not enabled changes nothing. */
  function Step(config: Config, w: World, action: Action): World {
    match action
    case Arrive(site, authorization) => w.(requests := w.requests + [Request(site, authorization, Arrived)])
    case Validate(r, accepted) =>
      if r < |w.requests| && w.requests[r].progress.Arrived? then DoValidate(w, r, accepted) else w
    case Prepare(r, context, reply) =>
      if r < |w.requests| && w.requests[r].progress.Validated? then
        if w.requests[r].site == AtBff then DoForward(config, w, r, reply)
        else DoInvoke(config, w, r, context, reply)
      else w
    case CallDownstream(r) =>
      if r < |w.requests| && w.requests[r].progress.Ready? then
        Advance(w, r, Over, [DownstreamCalled(r, w.requests[r].progress.header)])
      else w
  }

  function Run(config: Config, actions: seq<Action>): World {
    if actions == [] then EMPTY
    else Step(config, Run(config, actions[..|actions| - 1]), actions[|actions| - 1])
  }

  // ---------- safety ----------

  /** Before position n, request r validated a token and then exchanged that same token for this header. */
  ghost predicate MintedFor(log: seq<Event>, n: nat, r: nat, header: string) {
    exists k, m :: && 0 <= k < m < n && m < |log| && Exchanges(log[k], log[m], r, header)
  }

  predicate Exchanges(validated: Event, exchanged: Event, r: nat, header: string) {
    && validated.TokenValidated? && validated.request == r
    && exchanged.TokenExchanged? && exchanged.request == r
    && exchanged.assertion == validated.token && exchanged.header == header
    && MintedHeader(exchanged.reply) == Some(header)
  }

  ghost predicate RequestOk(w: World, r: nat)
    requires r < |w.requests|
  {
    match w.requests[r].progress
    case Arrived => true
    case Validated(token) =>
      && ValidatedToken(w.requests[r].authorization) == Some(token)
      && TokenValidated(r, token) in w.log
    case Ready(header) => header.Some? && MintedFor(w.log, |w.log|, r, header.value)
    case Over => true
  }

  ghost predicate EventOk(w: World, n: nat)
    requires n < |w.log|
  {
    match w.log[n]
    case TokenValidated(r, token) => true
    case TokenExchanged(r, assertion, header, reply) =>
      && r < |w.requests|
      && Assertion(w.requests[r].authorization) == Some(assertion)
      && TokenValidated(r, assertion) in w.log[..n]
    case DownstreamCalled(r, header) => header.Some? && MintedFor(w.log, n, r, header.value)
  }

  ghost predicate Inv(w: World) {
    && (forall r :: 0 <= r < |w.requests| ==> RequestOk(w, r))
    && (forall n :: 0 <= n < |w.log| ==> EventOk(w, n))
  }

  lemma MintedForStays(log: seq<Event>, events: seq<Event>, n: nat, r: nat, header: string)
    requires n <= |log| && MintedFor(log, n, r, header)
    ensures MintedFor(log + events, n, r, header)
    ensures MintedFor(log + events, |log + events|, r, header)
  {
    var k, m :| 0 <= k < m < n && m < |log| && Exchanges(log[k], log[m], r, header);
    assert Exchanges((log + events)[k], (log + events)[m], r, header);
  }

  /** Moving one request on keeps what is known of the other requests and of past events. */
  lemma AdvanceKeeps(w: World, r: nat, progress: Progress, events: seq<Event>)
    requires Inv(w) && r < |w.requests|
    ensures var v := Advance(w, r, progress, events);
            && (forall q :: 0 <= q < |w.requests| && q != r ==> RequestOk(v, q))
            && (forall n :: 0 <= n < |w.log| ==> EventOk(v, n))
  {
    var v := Advance(w, r, progress, events);
    forall q | 0 <= q < |w.requests| && q != r ensures RequestOk(v, q) {
      assert RequestOk(w, q);
      if w.requests[q].progress.Ready? {
        MintedForStays(w.log, events, |w.log|, q, w.requests[q].progress.header.value);
      }
    }
    forall n | 0 <= n < |w.log| ensures EventOk(v, n) {
      assert EventOk(w, n);
      assert v.log[..n] == w.log[..n];
      if w.log[n].DownstreamCalled? {
        MintedForStays(w.log, events, n, w.log[n].request, w.log[n].carried.value);
      }
    }
  }

  lemma FinishKeeps(w: World, r: nat)
    requires Inv(w) && r < |w.requests|
    ensures Inv(Advance(w, r, Over, []))
  {
    AdvanceKeeps(w, r, Over, []);
  }

  lemma ValidateKeeps(w: World, r: nat, accepted: bool)
    requires Inv(w) && r < |w.requests|
    ensures Inv(DoValidate(w, r, accepted))
  {
    var found := ValidatedToken(w.requests[r].authorization);
    if found.Some? && accepted {
      AdvanceKeeps(w, r, Validated(found.value), [TokenValidated(r, found.value)]);
      var v := DoValidate(w, r, accepted);
      assert v.log[|w.log|] == TokenValidated(r, found.value);
    } else {
      FinishKeeps(w, r);
    }
  }

  /** An exchange by a request that has validated its token exchanges exactly that token. */
  lemma ExchangeKeeps(config: OboConfig, w: World, r: nat, reply: EndpointReply)
    requires Inv(w) && r < |w.requests| && w.requests[r].progress.Validated?
    requires ExchangeEntra(config, w.requests[r].authorization, reply).Minted?
    ensures var exchange := ExchangeEntra(config, w.requests[r].authorization, reply);
            Inv(Advance(w, r, Ready(Some(exchange.header)), ExchangeEvents(r, exchange, reply)))
  {
    var authorization := w.requests[r].authorization;
    var exchange := ExchangeEntra(config, authorization, reply);
    var token := w.requests[r].progress.token;
    assert RequestOk(w, r);
    BearerParsersAgree(authorization);
    assert exchange.assertion == token;
    var event := TokenExchanged(r, token, exchange.header, reply);
    AdvanceKeeps(w, r, Ready(Some(exchange.header)), [event]);
    var v := Advance(w, r, Ready(Some(exchange.header)), [event]);
    var k :| 0 <= k < |w.log| && w.log[k] == TokenValidated(r, token);
    assert v.log[k] == TokenValidated(r, token) && v.log[|w.log|] == event;
    assert v.log[..|w.log|] == w.log;
    assert Exchanges(v.log[k], v.log[|w.log|], r, exchange.header);
  }

  lemma CallKeeps(w: World, r: nat)
    requires Inv(w) && r < |w.requests| && w.requests[r].progress.Ready?
    ensures Inv(Advance(w, r, Over, [DownstreamCalled(r, w.requests[r].progress.header)]))
  {
    var header := w.requests[r].progress.header;
    var event := DownstreamCalled(r, header);
    assert RequestOk(w, r);
    AdvanceKeeps(w, r, Over, [event]);
    MintedForStays(w.log, [event], |w.log|, r, header.value);
    var v := Advance(w, r, Over, [event]);
    assert v.log[|w.log|] == event;
    assert EventOk(v, |w.log|);
  }

  lemma StepKeeps(config: Config, w: World, action: Action)
    requires StrictConfig(config) && Inv(w)
    ensures Inv(Step(config, w, action))
  {
    match action
    case Arrive(site, authorization) =>
      var v := Step(config, w, action);
      forall q | 0 <= q < |v.requests| ensures RequestOk(v, q) {
        if q < |w.requests| {
          assert RequestOk(w, q);
        }
      }
      forall n | 0 <= n < |v.log| ensures EventOk(v, n) {
        assert EventOk(w, n);
      }
    case Validate(r, accepted) =>
      if r < |w.requests| && w.requests[r].progress.Arrived? {
        ValidateKeeps(w, r, accepted);
      }
    case Prepare(r, context, reply) =>
      if r < |w.requests| && w.requests[r].progress.Validated? {
        PrepareKeeps(config, w, r, context, reply);
      }
    case CallDownstream(r) =>
      if r < |w.requests| && w.requests[r].progress.Ready? {
        CallKeeps(w, r);
      }
  }

  lemma PrepareKeeps(config: Config, w: World, r: nat, context: Guards.AuthContext, reply: EndpointReply)
    requires StrictConfig(config) && Inv(w)
    requires r < |w.requests| && w.requests[r].progress.Validated?
    ensures w.requests[r].site == AtBff ==> Inv(DoForward(config, w, r, reply))
    ensures w.requests[r].site == AtAgent ==> Inv(DoInvoke(config, w, r, context, reply))
  {
    var authorization := w.requests[r].authorization;
    assert RequestOk(w, r);
    assert Present(authorization) by {
      if authorization == Some("") {
        NoSpaceNoToken("");
      }
    }
    FinishKeeps(w, r);
    if ExchangeEntra(config.bff.obo, authorization, reply).Minted? {
      ExchangeKeeps(config.bff.obo, w, r, reply);
    }
    if ExchangeEntra(config.agent.obo, authorization, reply).Minted? {
      ExchangeKeeps(config.agent.obo, w, r, reply);
    }
  }

  lemma {:induction false} RunsKeepInv(config: Config, actions: seq<Action>)
    requires StrictConfig(config)
    ensures Inv(Run(config, actions))
  {
    if actions == [] {
    } else {
      RunsKeepInv(config, actions[..|actions| - 1]);
      StepKeeps(config, Run(config, actions[..|actions| - 1]), actions[|actions| - 1]);
    }
  }

  /**
    On every run, a downstream call carries a header, and that header was minted
    earlier by the same request in exchange for exactly the token it had validated.
   */
  lemma EveryCallWasMinted(config: Config, actions: seq<Action>, n: nat)
    requires StrictConfig(config)
    requires var log := Run(config, actions).log; n < |log| && log[n].DownstreamCalled?
    ensures var log := Run(config, actions).log;
            log[n].carried.Some? && MintedFor(log, n, log[n].request, log[n].carried.value)
  {
    RunsKeepInv(config, actions);
    assert EventOk(Run(config, actions), n);
  }

  /**
    Custody across hops: when a request arrives with the header some earlier call
    carried and exchanges in its turn, an exchange before that call had minted the
    header, and what is handed over now, after being validated, is the very access
    token the endpoint issued then, exactly if it named its token type bearer.
   */
  lemma CustodyAcrossHops(config: Config, actions: seq<Action>, call: nat, n: nat) returns (mint: nat)
    requires StrictConfig(config)
    requires var w := Run(config, actions);
             && call < |w.log| && w.log[call].DownstreamCalled?
             && n < |w.log| && w.log[n].TokenExchanged? && w.log[n].request < |w.requests|
             && w.requests[w.log[n].request].authorization == w.log[call].carried
    ensures var log := Run(config, actions).log;
            && mint < call && log[mint].TokenExchanged? && log[mint].request == log[call].request
            && Issues(log[mint].reply) && MintedHeader(log[mint].reply) == log[call].carried
            && (log[n].assertion == Strip(log[mint].reply.accessToken.s) <==>
                var named := log[mint].reply.tokenType;
                named.Str? && Strip(named.s) != "" ==> Lower(Strip(named.s)) == "bearer")
            && TokenValidated(log[n].request, log[n].assertion) in log[..n]
  {
    var log := Run(config, actions).log;
    RunsKeepInv(config, actions);
    assert EventOk(Run(config, actions), n);
    assert EventOk(Run(config, actions), call);
    var k, m :| 0 <= k < m < call && Exchanges(log[k], log[m], log[call].request, log[call].carried.value);
    mint := m;
    MintedHeaderIs(log[mint].reply);
    MintedTokenRoundTrips(log[mint].reply);
  }

  // ---------- and it does happen ----------

  lemma RunOne(config: Config, actions: seq<Action>, action: Action)
    ensures Run(config, actions + [action]) == Step(config, Run(config, actions), action)
  {
    assert (actions + [action])[..|actions|] == actions;
  }

  function OneRequest(site: Site, authorization: Option<string>, progress: Progress, log: seq<Event>): World {
    World([Request(site, authorization, progress)], log)
  }

  lemma RequestArrives(config: Config, site: Site, authorization: Option<string>)
    ensures Step(config, EMPTY, Arrive(site, authorization)) == OneRequest(site, authorization, Arrived, [])
  {
  }

  lemma RequestValidates(config: Config, site: Site, authorization: Option<string>, token: string)
    requires ValidatedToken(authorization) == Some(token)
    ensures Step(config, OneRequest(site, authorization, Arrived, []), Validate(0, true)) ==
            OneRequest(site, authorization, Validated(token), [TokenValidated(0, token)])
  {
  }

  /** The exchange the configuration of a site makes possible. */
  function ExchangeAt(config: Config, site: Site, authorization: Option<string>, reply: EndpointReply)
    : ExchangeResult
  {
    ExchangeEntra(if site == AtBff then config.bff.obo else config.agent.obo, authorization, reply)
  }

  predicate ChainOpen(config: Config, site: Site, context: Guards.AuthContext) {
    if site == AtBff then config.bff.chainEnabled
    else config.agent.mcpChainEnabled && context.authorized && context.tokenType == Guards.Delegated
  }

  lemma RequestPrepares(config: Config, site: Site, authorization: Option<string>, context: Guards.AuthContext,
                        reply: EndpointReply, token: string, header: string)
    requires StrictConfig(config) && ChainOpen(config, site, context)
    requires ExchangeAt(config, site, authorization, reply) == Minted(token, header)
    ensures var w := OneRequest(site, authorization, Validated(token), [TokenValidated(0, token)]);
            Step(config, w, Prepare(0, context, reply)) ==
            OneRequest(site, authorization, Ready(Some(header)),
                       [TokenValidated(0, token), TokenExchanged(0, token, header, reply)])
  {
    if authorization == Some("") {
      NoSpaceNoToken("");
    }
  }

  lemma RequestCalls(config: Config, site: Site, authorization: Option<string>, header: string, log: seq<Event>)
    ensures Step(config, OneRequest(site, authorization, Ready(Some(header)), log), CallDownstream(0)) ==
            OneRequest(site, authorization, Over, log + [DownstreamCalled(0, Some(header))])
  {
  }

  lemma RunTwo(config: Config, actions: seq<Action>, a: Action, b: Action, u: World, v: World, w: World)
    requires Run(config, actions) == u && Step(config, u, a) == v && Step(config, v, b) == w
    ensures Run(config, actions + [a] + [b]) == w
  {
    RunOne(config, actions, a);
    RunOne(config, actions + [a], b);
  }

  /**
    A request whose token is accepted and exchanged can call downstream: the token is
    validated, exchanged and the minted header sent, in that order and nothing else.
   */
  lemma AcceptedRequestCalls(config: Config, site: Site, authorization: Option<string>,
                             context: Guards.AuthContext, reply: EndpointReply, token: string, header: string)
    returns (actions: seq<Action>)
    requires StrictConfig(config) && ChainOpen(config, site, context)
    requires ExchangeAt(config, site, authorization, reply) == Minted(token, header)
    ensures Run(config, actions) ==
            OneRequest(site, authorization, Over,
                       [TokenValidated(0, token), TokenExchanged(0, token, header, reply),
                        DownstreamCalled(0, Some(header))])
  {
    BearerParsersAgree(authorization);
    RequestArrives(config, site, authorization);
    RequestValidates(config, site, authorization, token);
    var before := [] + [Arrive(site, authorization)] + [Validate(0, true)];
    RunTwo(config, [], Arrive(site, authorization), Validate(0, true), EMPTY,
           OneRequest(site, authorization, Arrived, []),
           OneRequest(site, authorization, Validated(token), [TokenValidated(0, token)]));
    var log := [TokenValidated(0, token), TokenExchanged(0, token, header, reply)];
    RequestPrepares(config, site, authorization, context, reply, token, header);
    RequestCalls(config, site, authorization, header, log);
    actions := before + [Prepare(0, context, reply)] + [CallDownstream(0)];
    RunTwo(config, before, Prepare(0, context, reply), CallDownstream(0),
           OneRequest(site, authorization, Validated(token), [TokenValidated(0, token)]),
           OneRequest(site, authorization, Ready(Some(header)), log),
           OneRequest(site, authorization, Over, log + [DownstreamCalled(0, Some(header))]));
  }

  /** A request whose token is rejected, or that has none, goes nowhere. */
  lemma RejectedRequestStops(config: Config, w: World, r: nat, accepted: bool)
    requires r < |w.requests| && w.requests[r].progress == Arrived
    requires !accepted || ValidatedToken(w.requests[r].authorization).None?
    ensures var v := Step(config, w, Validate(r, accepted));
            v.log == w.log && v.requests == w.requests[r := w.requests[r].(progress := Over)]
  {
  }
}
