/**
  The strict delegated chain: BFF to Agent to MCP, one Entra token exchange per hop
  (`identity_lab_auth/obo.py`, `identity_lab_auth/auth_settings.py`, the two `main.py`).
 */
module StrictChain {
  import opened PyText
  import opened Json
  import opened Evaluators
  import Guards
  import OnBehalfOf

  const BEARER := "bearer"

  // ---------- the two bearer parsers ----------

  /** `extract_bearer_token`: the token a hop validates. */
  function ValidatedToken(authorization: Option<string>): Option<string> {
    if authorization.None? then None
    else
      var value := Strip(authorization.value);
      var i := IndexOf(value, ' ');
      if value == "" || i == |value| || Lower(value[..i]) != BEARER then None
      else if Strip(value[i + 1..]) == "" then None
      else Some(Strip(value[i + 1..]))
  }

  /** `_extract_bearer_assertion`: the token a hop exchanges; None is the ValueError. */
  function Assertion(authorization: Option<string>): Option<string> {
    if authorization.None? || authorization.value == "" then None
    else
      var value := authorization.value;
      var i := IndexOf(value, ' ');
      var rest := if i < |value| then value[i + 1..] else "";
      if Lower(value[..i]) != BEARER || Strip(rest) == "" then None
      else Some(Strip(rest))
  }

  /** Trailing white space only. */
  function RStrip(s: string): (t: string)
    ensures |t| <= |s| && t == s[..|t|]
    ensures t != "" ==> !IsSpace(t[|t| - 1])
  {
    if s != "" && IsSpace(s[|s| - 1]) then RStrip(s[..|s| - 1]) else s
  }

  lemma {:induction false} StripIsRStrip(s: string)
    requires s != "" && !IsSpace(s[0])
    ensures Strip(s) == RStrip(s)
    decreases |s|
  {
    if IsSpace(s[|s| - 1]) {
      StripIsRStrip(s[..|s| - 1]);
    }
  }

  lemma {:induction false} StripDropsLastSpace(s: string)
    requires s != "" && IsSpace(s[|s| - 1])
    ensures Strip(s) == Strip(s[..|s| - 1])
    decreases |s|
  {
    var p := s[..|s| - 1];
    if IsSpace(s[0]) && p != "" {
      StripDropsLastSpace(s[1..]);
      assert s[1..][..|s| - 2] == p[1..];
    }
  }

  lemma {:induction false} StripOfRStrip(s: string)
    ensures Strip(RStrip(s)) == Strip(s)
    decreases |s|
  {
    if s != "" && IsSpace(s[|s| - 1]) {
      StripDropsLastSpace(s);
      StripOfRStrip(s[..|s| - 1]);
    }
  }

  /** Trimming the end of a text leaves a prefix alone when something solid follows it. */
  lemma {:induction false} RStripAfterPrefix(p: string, r: string)
    ensures RStrip(p + r) == if RStrip(r) != "" then p + RStrip(r) else RStrip(p)
    decreases |r|
  {
    if r == "" {
      assert p + r == p;
    } else if IsSpace(r[|r| - 1]) {
      assert (p + r)[..|p + r| - 1] == p + r[..|r| - 1];
      RStripAfterPrefix(p, r[..|r| - 1]);
    }
  }

  lemma {:induction false} IndexOfIs(s: string, c: char, i: nat)
    requires i < |s| && s[i] == c && forall j :: 0 <= j < i ==> s[j] != c
    ensures IndexOf(s, c) == i
  {
    if i > 0 {
      IndexOfIs(s[1..], c, i - 1);
    }
  }

  /** A header, trimmed: the scheme, one space and the rest trimmed at its end; or no space at all. */
  lemma TrimmedHeader(scheme: string, rest: string)
    requires scheme != "" && !IsSpace(scheme[0])
    ensures var v := Strip(scheme + " " + rest);
            && (Strip(rest) != "" ==> v == scheme + " " + RStrip(rest) && Strip(RStrip(rest)) == Strip(rest))
            && (Strip(rest) == "" ==> v == RStrip(scheme))
  {
    var p := scheme + " ";
    StripIsRStrip(p + rest);
    RStripAfterPrefix(p, rest);
    StripOfRStrip(rest);
    assert p[..|p| - 1] == scheme;
    if RStrip(rest) != "" {
      StripNotBlank(RStrip(rest));
    }
  }

  lemma StripNotBlank(s: string)
    requires s != "" && !IsSpace(s[|s| - 1])
    ensures Strip(s) != ""
    decreases |s|
  {
    if IsSpace(s[0]) {
      StripNotBlank(s[1..]);
    }
  }

  lemma AssertionAtFirstSpace(scheme: string, rest: string)
    requires ' ' !in scheme
    ensures Assertion(Some(scheme + " " + rest)) ==
            if Lower(scheme) == BEARER && Strip(rest) != "" then Some(Strip(rest)) else None
  {
    FirstSpace(scheme + " " + rest, scheme, rest);
  }

  lemma TokenAtFirstSpace(scheme: string, rest: string)
    requires ' ' !in scheme && scheme != "" && !IsSpace(scheme[0])
    ensures ValidatedToken(Some(scheme + " " + rest)) ==
            if Lower(scheme) == BEARER && Strip(rest) != "" then Some(Strip(rest)) else None
  {
    TrimmedHeader(scheme, rest);
    var v := Strip(scheme + " " + rest);
    if Strip(rest) != "" {
      FirstSpace(v, scheme, RStrip(rest));
    } else {
      assert forall j :: 0 <= j < |v| ==> v[j] == scheme[j];
      assert IndexOf(v, ' ') == |v|;
    }
  }

  lemma FirstSpace(v: string, scheme: string, rest: string)
    requires ' ' !in scheme && v == scheme + " " + rest
    ensures IndexOf(v, ' ') == |scheme| < |v|
    ensures v[..|scheme|] == scheme && v[|scheme| + 1..] == rest
  {
    IndexOfIs(v, ' ', |scheme|);
  }

  /** Both parsers on a header cut at its first space. */
  lemma ParsersAtFirstSpace(scheme: string, rest: string)
    requires ' ' !in scheme && scheme != "" && !IsSpace(scheme[0])
    ensures var header := Some(scheme + " " + rest);
            && ValidatedToken(header) == Assertion(header)
            && Assertion(header) ==
               if Lower(scheme) == BEARER && Strip(rest) != "" then Some(Strip(rest)) else None
  {
    AssertionAtFirstSpace(scheme, rest);
    TokenAtFirstSpace(scheme, rest);
  }

  lemma NoSpaceNoToken(s: string)
    requires ' ' !in s
    ensures ValidatedToken(Some(s)) == None && Assertion(Some(s)) == None
  {
    var i, j := StripIsSlice(s);
    assert ' ' !in Strip(s);
    assert IndexOf(s, ' ') == |s| && IndexOf(Strip(s), ' ') == |Strip(s)|;
  }

  /**
    Where the parsers agree: the exchange parser succeeds exactly when the validation
    parser does and the header has no leading white space, and then both read the
    same token.
   */
  lemma BearerParsersAgree(authorization: Option<string>)
    ensures Assertion(authorization).Some? ==> Assertion(authorization) == ValidatedToken(authorization)
    ensures Assertion(authorization).Some? <==>
            && ValidatedToken(authorization).Some?
            && authorization.value != "" && !IsSpace(authorization.value[0])
  {
    if authorization.Some? && authorization.value != "" {
      var s := authorization.value;
      if IsSpace(s[0]) {
        LeadingSpaceFails(s);
      } else if ' ' in s {
        var i := IndexOf(s, ' ');
        assert i < |s|;
        assert s == s[..i] + " " + s[i + 1..];
        assert s[..i][0] == s[0];
        ParsersAtFirstSpace(s[..i], s[i + 1..]);
      } else {
        NoSpaceNoToken(s);
      }
    }
  }

  lemma LeadingSpaceFails(s: string)
    requires s != "" && IsSpace(s[0])
    ensures Assertion(Some(s)) == None
  {
    var i := IndexOf(s, ' ');
    if i > 0 {
      assert Lower(s[..i])[0] == LowerChar(s[0]) == s[0];
      assert BEARER[0] == 'b';
    }
  }

  /** Text up to the first space is the scheme `bearer` in any case, and the rest, trimmed, is the token. */
  ghost predicate BearerText(s: string, token: string) {
    exists i :: && 0 <= i < |s| && s[i] == ' ' && (forall j :: 0 <= j < i ==> s[j] != ' ')
                && Lower(s[..i]) == "bearer" && Strip(s[i + 1..]) == token != ""
  }

  lemma BearerTextIff(s: string, token: string)
    ensures BearerText(s, token) <==>
            var i := IndexOf(s, ' ');
            i < |s| && Lower(s[..i]) == "bearer" && Strip(s[i + 1..]) == token != ""
  {
    if i :| 0 <= i < |s| && s[i] == ' ' && forall j :: 0 <= j < i ==> s[j] != ' ' {
      IndexOfIs(s, ' ', i);
    }
  }

  /** What each parser reads: the exchange parser the header as it is, the validation parser the trimmed header. */
  lemma ParsersRead(header: string, token: string)
    ensures Assertion(Some(header)) == Some(token) <==> BearerText(header, token)
    ensures ValidatedToken(Some(header)) == Some(token) <==> BearerText(Strip(header), token)
    ensures Assertion(None) == None && ValidatedToken(None) == None
  {
    BearerTextIff(header, token);
    BearerTextIff(Strip(header), token);
    assert Lower("") == "";
  }

  // ---------- the exchange endpoint ----------

  datatype OboConfig = OboConfig(tokenUrl: string, clientId: string, clientSecret: string, scopes: seq<string>)

  /** `_missing_obo_fields` finds nothing. */
  predicate Complete(config: OboConfig) {
    && Strip(config.tokenUrl) != "" && Strip(config.clientId) != "" && Strip(config.clientSecret) != ""
    && config.scopes != []
  }

  /** What comes back from the token endpoint. */
  datatype EndpointReply = Unreachable | NotJson(status: int) | NotDict(status: int)
                         | Payload(status: int, accessToken: Value, tokenType: Value)

  /** The scheme of the minted header. */
  function Scheme(tokenType: Value): string {
    if tokenType.Str? && Strip(tokenType.s) != "" then Strip(tokenType.s) else "Bearer"
  }

  /** The header `exchange_entra_on_behalf_of` returns for a reply; None where it raises. */
  function MintedHeader(reply: EndpointReply): Option<string> {
    match reply
    case Payload(status, Str(access), tokenType) =>
      if status >= 400 || Strip(access) == "" then None
      else Some(Scheme(tokenType) + " " + Strip(access))
    case _ => None
  }

  datatype ExchangeResult = Raised | Minted(assertion: string, header: string)

  function ExchangeEntra(config: OboConfig, authorization: Option<string>, reply: EndpointReply): ExchangeResult {
    if !Complete(config) then Raised
    else if Assertion(authorization).None? then Raised
    else if MintedHeader(reply).None? then Raised
    else Minted(Assertion(authorization).value, MintedHeader(reply).value)
  }

  /** A token is issued by a JSON object without an error status whose access token is a text that is not blank. */
  predicate Issues(reply: EndpointReply) {
    reply.Payload? && reply.status < 400 && reply.accessToken.Str? && Strip(reply.accessToken.s) != ""
  }

  /** The header a reply is turned into, on the reply's own fields. */
  lemma MintedHeaderIs(reply: EndpointReply)
    ensures MintedHeader(reply).Some? <==>
            reply.Payload? && reply.status < 400 && reply.accessToken.Str? && Strip(reply.accessToken.s) != ""
    ensures Issues(reply) && reply.tokenType.Str? && Strip(reply.tokenType.s) != "" ==>
              MintedHeader(reply) == Some(Strip(reply.tokenType.s) + " " + Strip(reply.accessToken.s))
    ensures Issues(reply) && !(reply.tokenType.Str? && Strip(reply.tokenType.s) != "") ==>
              MintedHeader(reply) == Some("Bearer" + " " + Strip(reply.accessToken.s))
  {
  }

  /** When an exchange succeeds, what it hands over and what it returns. */
  lemma ExchangeEntraIs(config: OboConfig, authorization: Option<string>, reply: EndpointReply)
    ensures var result := ExchangeEntra(config, authorization, reply);
            && (result.Minted? <==>
                && Strip(config.tokenUrl) != "" && Strip(config.clientId) != "" && Strip(config.clientSecret) != ""
                && config.scopes != []
                && Assertion(authorization).Some? && MintedHeader(reply).Some?)
            && (result.Minted? ==>
                  Some(result.assertion) == Assertion(authorization) && Some(result.header) == MintedHeader(reply))
  {
  }

  /** Solid text before a trimmed one leaves more than that one after trimming. */
  lemma {:induction false} StripLonger(b: string, a: string)
    requires Strip(b) != "" && a != "" && Trimmed(a)
    ensures |Strip(b + " " + a)| > |a|
    decreases |b|
  {
    var s := b + " " + a;
    assert s[|s| - 1] == a[|a| - 1];
    if IsSpace(b[0]) {
      StripLonger(b[1..], a);
      assert s[1..] == b[1..] + " " + a;
    } else {
      assert s[0] == b[0] && Trimmed(s);
    }
  }

  lemma LowerHasSpace(s: string)
    requires ' ' in s
    ensures Lower(s) != BEARER
  {
    var i :| 0 <= i < |s| && s[i] == ' ';
    assert Lower(s)[i] == ' ';
  }

  /** A scheme of two words makes both parsers read a token that is too long, if any. */
  lemma SchemeOfTwoWords(scheme: string, access: string)
    requires ' ' in scheme && scheme != "" && Trimmed(scheme) && access != "" && Trimmed(access)
    ensures var header := Some(scheme + " " + access);
            ValidatedToken(header) != Some(access) && Assertion(header) != Some(access)
  {
    var i := IndexOf(scheme, ' ');
    assert i < |scheme|;
    var first, rest := scheme[..i], scheme[i + 1..];
    assert scheme[|scheme| - 1] == rest[|rest| - 1] by {
      assert !IsSpace(scheme[|scheme| - 1]);
    }
    StripNotBlank(rest);
    StripLonger(rest, access);
    assert first != "" && first[0] == scheme[0];
    assert scheme + " " + access == first + " " + (rest + " " + access);
    ParsersAtFirstSpace(first, rest + " " + access);
  }

  /**
    The next hop reads back exactly the access token the endpoint issued, with either
    parser, exactly when the reply names no token type or, in any case, bearer. (With
    "Bearer x" it reads "x" and the token.)
   */
  lemma MintedTokenRoundTrips(reply: EndpointReply)
    requires reply.Payload? && reply.status < 400 && reply.accessToken.Str? && Strip(reply.accessToken.s) != ""
    ensures var header, token := MintedHeader(reply), Strip(reply.accessToken.s);
            var bearer := reply.tokenType.Str? && Strip(reply.tokenType.s) != "" ==>
                            Lower(Strip(reply.tokenType.s)) == "bearer";
            && header.Some?
            && (ValidatedToken(header) == Some(token) <==> bearer)
            && (Assertion(header) == Some(token) <==> bearer)
  {
    var access, scheme := Strip(reply.accessToken.s), Scheme(reply.tokenType);
    assert Trimmed(scheme) && scheme != "" && Lower("Bearer") == BEARER;
    if ' ' in scheme {
      LowerHasSpace(scheme);
      SchemeOfTwoWords(scheme, access);
    } else {
      assert Strip(access) == access;
      ParsersAtFirstSpace(scheme, access);
    }
  }

  // ---------- BFF: forward headers ----------

  datatype BffSettings = BffSettings(mode: Mode, chainEnabled: bool, correlationHeader: string, obo: OboConfig)

  type Headers = map<string, string>

  datatype Forward = BadGateway | Forwarded(headers: Headers)

  const AUTHORIZATION := "Authorization"
  const TRACEPARENT := "traceparent"

  function Present(v: Option<string>): bool { v.Some? && v.value != "" }

  /** The authorization a BFF forwards; the outer None is the failed exchange. */
  function ForwardedAuthorization(settings: BffSettings, authorization: Option<string>, reply: EndpointReply)
    : Option<Option<string>>
  {
    if !Present(authorization) then Some(None)
    else if settings.mode == Strict then
      match ExchangeEntra(settings.obo, authorization, reply)
      case Raised => None
      case Minted(_, header) => Some(Some(header))
    else Some(authorization)
  }

  /** Which authorization is forwarded: none without one, the minted one in strict mode, else the inbound one. */
  lemma ForwardsWhat(settings: BffSettings, authorization: Option<string>, reply: EndpointReply)
    ensures var forwarded := ForwardedAuthorization(settings, authorization, reply);
            var exchange := ExchangeEntra(settings.obo, authorization, reply);
            if authorization.None? || authorization.value == "" then forwarded == Some(None)
            else if settings.mode != Strict then forwarded == Some(authorization)
            else if exchange.Raised? then forwarded == None
            else forwarded == Some(Some(exchange.header))
  {
  }

  function Named(header: string, present: bool): set<string> {
    if present then {header} else {}
  }

  /** `_build_forward_headers`, filling the headers branch by branch; a later header replaces one of the same name. */
  method BuildForwardHeaders(settings: BffSettings, authorization: Option<string>, correlationId: Option<string>,
                             traceparent: Option<string>, reply: EndpointReply) returns (result: Forward)
    ensures result.BadGateway? <==> ForwardedAuthorization(settings, authorization, reply).None?
    ensures result.Forwarded? ==>
              var forwarded := ForwardedAuthorization(settings, authorization, reply).value;
              && result.headers.Keys == {settings.correlationHeader} + Named(AUTHORIZATION, forwarded.Some?)
                                        + Named(TRACEPARENT, Present(traceparent))
              && (forwarded.Some? ==> result.headers[AUTHORIZATION] == forwarded.value)
              && (Present(traceparent) ==> result.headers[TRACEPARENT] == traceparent.value)
              && (settings.correlationHeader
                  !in Named(AUTHORIZATION, forwarded.Some?) + Named(TRACEPARENT, Present(traceparent)) ==>
                    result.headers[settings.correlationHeader]
                    == if correlationId.Some? then correlationId.value else "")
  {
    var headers: Headers := map[settings.correlationHeader := if correlationId.Some? then correlationId.value else ""];
    assert AUTHORIZATION[0] != TRACEPARENT[0];
    if Present(authorization) && settings.mode == Strict {
      var exchanged := ExchangeEntra(settings.obo, authorization, reply);
      if exchanged.Raised? {
        return BadGateway;
      }
      headers := headers[AUTHORIZATION := exchanged.header];
    } else if Present(authorization) {
      headers := headers[AUTHORIZATION := authorization.value];
    }
    if Present(traceparent) {
      headers := headers[TRACEPARENT := traceparent.value];
    }
    result := Forwarded(headers);
  }

  // ---------- Agent: one invocation ----------

  /** `audience` and the scopes in `obo` are what either exchange asks for. */
  datatype AgentSettings = AgentSettings(mode: Mode, mcpChainEnabled: bool, audience: string, obo: OboConfig)

  const MOCK_AUTHORIZATION := "Bearer obo-token"

  datatype AgentExchange = NotTried | ExchangeFailed | ExchangeDone(authorization: string)

  /** Whether `_invoke_response` exchanges at all. */
  predicate ShouldExchange(settings: AgentSettings, context: Guards.AuthContext) {
    && context.authorized && context.tokenType == Guards.Delegated
    && (settings.mode != Strict || settings.mcpChainEnabled)
  }

  /** `exchange_for_mcp`: against the Entra endpoint in strict mode, else the mock exchange. */
  function AgentExchanges(py: Runtime, settings: AgentSettings, context: Guards.AuthContext,
                          authorization: Option<string>, reply: EndpointReply): AgentExchange
  {
    if !ShouldExchange(settings, context) then NotTried
    else if settings.mode == Strict then
      match ExchangeEntra(settings.obo, authorization, reply)
      case Raised => ExchangeFailed
      case Minted(_, header) => ExchangeDone(header)
    else
      match OnBehalfOf.ExchangeOnBehalfOf(py, context, settings.audience, OnBehalfOf.Items(settings.obo.scopes))
      case Exchanged(_) => ExchangeDone(MOCK_AUTHORIZATION)
      case _ => ExchangeFailed
  }

  /**
    Whether an invocation exchanges, when that fails, and with what authorization it
    goes on. The context of a granted request in strict or mock mode is
    authenticated, so the mock exchange only fails on a blank audience.
   */
  lemma AgentExchangeIs(py: Runtime, settings: AgentSettings, context: Guards.AuthContext,
                        authorization: Option<string>, reply: EndpointReply)
    ensures var exchange := AgentExchanges(py, settings, context, authorization, reply);
            var entra := ExchangeEntra(settings.obo, authorization, reply);
            && (exchange == NotTried <==>
                || !context.authorized || context.tokenType != Guards.Delegated
                || (settings.mode == Strict && !settings.mcpChainEnabled))
            && (exchange != NotTried && settings.mode == Strict ==>
                  exchange == if entra.Minted? then ExchangeDone(entra.header) else ExchangeFailed)
            && (exchange != NotTried && settings.mode != Strict ==>
                  exchange == if context.authenticated && Strip(settings.audience) != ""
                              then ExchangeDone("Bearer obo-token") else ExchangeFailed)
  {
  }

  /** A request the Agent grants outside disabled mode fails in the mock exchange only for a blank audience. */
  lemma GrantedMockExchange(py: Runtime, settings: AgentSettings, agent: Settings, source: Source, now: real,
                            correlationId: Option<string>, authorization: Option<string>, endpoint: EndpointReply)
    requires settings.mode == agent.mode == Mock
    ensures var reply := AgentReply(py, agent, source, now, correlationId);
            reply.Granted? ==>
              AgentExchanges(py, settings, reply.context, authorization, endpoint) ==
              if Strip(settings.audience) == "" then ExchangeFailed else ExchangeDone(MOCK_AUTHORIZATION)
  {
    var reply := AgentReply(py, agent, source, now, correlationId);
    if reply.Granted? {
      OnBehalfOf.AgentGrantMeans(py, agent, source.claims, now, correlationId);
    }
  }

  /** The MCP service's answer to the authorization check. */
  datatype McpAnswer = McpUnreachable | McpError | McpNotDict | McpSays(authorized: bool)

  datatype Invocation = Refused502 | Accepted(chainExercised: bool, mcpAuthorized: Option<bool>)

  /** The authorization header sent to MCP, if it is called. */
  function SentToMcp(settings: AgentSettings, exchange: AgentExchange): Option<string> {
    if settings.mcpChainEnabled && exchange.ExchangeDone? then Some(exchange.authorization) else None
  }

  /** `_invoke_response`, setting and resetting its flags as it goes. */
  method Invoke(py: Runtime, settings: AgentSettings, context: Guards.AuthContext, authorization: Option<string>,
                reply: EndpointReply, mcp: McpAnswer)
    returns (result: Invocation, sent: Option<string>)
    ensures var exchange := AgentExchanges(py, settings, context, authorization, reply);
            && sent == SentToMcp(settings, exchange)
            && (sent.Some? <==> settings.mcpChainEnabled && exchange.ExchangeDone?)
            && (sent.Some? ==> sent.value == exchange.authorization)
            && (result.Refused502? <==> exchange.ExchangeFailed? || (sent.Some? && !mcp.McpSays?))
            && (result.Accepted? ==>
                  && (result.chainExercised <==> sent.Some?)
                  && result.mcpAuthorized == if sent.Some? then Some(mcp.authorized) else None)
  {
    var oboExchange := NotTried;
    sent := None;
    if ShouldExchange(settings, context) {
      oboExchange := AgentExchanges(py, settings, context, authorization, reply);
      if oboExchange.ExchangeFailed? {
        return Refused502, None;
      }
    }
    var mcpAuthorized: Option<bool> := None;
    var chainExercised := false;
    if settings.mcpChainEnabled && oboExchange.ExchangeDone? {
      sent := Some(oboExchange.authorization);
      if !mcp.McpSays? {
        return Refused502, sent;
      }
      mcpAuthorized := Some(mcp.authorized);
      chainExercised := true;
    }
    result := Accepted(chainExercised, mcpAuthorized);
  }
}
