/**
  The three authorisation evaluators: the BFF stops at the first failed check, the
  Agent collects every failure and maps the set to a status, and the MCP service
  decides on claims that were sanitised beforehand.
 */
module Evaluators {
  import opened Json
  import opened ClaimSanitizer
  import opened Guards

  datatype Mode = Disabled | Mock | Strict

  datatype Settings = Settings(mode: Mode, policy: Policy, audiences: seq<string>, scopes: seq<string>)

  /** What loading the claims produced: a strict token that failed, nothing, or a dict. */
  datatype Source = BadToken | Absent | Loaded(claims: Claims)

  datatype Reply = Granted(context: AuthContext) | Refused(status: nat, detail: Reason) | Crashed

  const UNAUTHORIZED := 401
  const FORBIDDEN := 403

  function Anonymous(py: Runtime, correlationId: Option<string>): AuthContext {
    FromClaims(py, map[], NoToken, false, true, correlationId)
  }

  // ---------- BFF ----------

  function BffReply(py: Runtime, settings: Settings, source: Source, now: real, correlationId: Option<string>): Reply {
    if settings.mode == Disabled then Granted(Anonymous(py, correlationId))
    else if source.BadToken? then Refused(UNAUTHORIZED, InvalidToken)
    else if source.Absent? || source.claims == map[] then Refused(UNAUTHORIZED, MissingClaims)
    else
      match ValidateClaims(py, source.claims, settings.policy, now)
      case Raised => Crashed
      case Reasons(reasons) =>
        if reasons != [] then Refused(UNAUTHORIZED, reasons[0])
        else if !RequireAudience(py, source.claims, settings.audiences) then Refused(UNAUTHORIZED, InvalidAudience)
        else if !RequireDelegated(source.claims) then Refused(FORBIDDEN, DelegatedRequired)
        else if !RequireScope(py, source.claims, settings.scopes) then Refused(FORBIDDEN, MissingScope)
        else Granted(FromClaims(py, source.claims, Classify(source.claims), true, true, correlationId))
  }

  // ---------- Agent ----------

  /** The reasons `_status_for_failures` maps to 401. */
  const UNAUTHORIZED_REASONS: set<Reason> :=
    {InvalidAudience, MissingClaims, MissingIssuer, InvalidIssuer, MissingTenant, UntrustedTenant,
     MissingExp, InvalidExp, TokenExpired, MissingNbf, InvalidNbf, TokenNotYetValid, InvalidIat, TokenIssuedInFuture}

  function StatusForFailures(reasons: seq<Reason>): nat {
    if exists r :: r in reasons && r in UNAUTHORIZED_REASONS then UNAUTHORIZED else FORBIDDEN
  }

  function LaterReasons(delegated: bool, audience: bool, scope: bool): seq<Reason> {
    (if delegated then [] else [DelegatedRequired])
    + (if audience then [] else [InvalidAudience])
    + (if scope then [] else [MissingScope])
  }

  /** Every failure the Agent records for non-empty claims, in order. */
  function AgentReasons(py: Runtime, settings: Settings, claims: Claims, now: real): Checked {
    match ValidateClaims(py, claims, settings.policy, now)
    case Raised => Raised
    case Reasons(reasons) =>
      Reasons(reasons + LaterReasons(RequireDelegated(claims), RequireAudience(py, claims, settings.audiences),
                                     RequireScope(py, claims, settings.scopes)))
  }

  function AgentReply(py: Runtime, settings: Settings, source: Source, now: real, correlationId: Option<string>): Reply
  {
    if settings.mode == Disabled then Granted(Anonymous(py, correlationId))
    else if source.BadToken? then Refused(UNAUTHORIZED, InvalidToken)
    else if source.Absent? || source.claims == map[] then Refused(UNAUTHORIZED, MissingClaims)
    else
      match AgentReasons(py, settings, source.claims, now)
      case Raised => Crashed
      case Reasons(reasons) =>
        if reasons != [] then Refused(StatusForFailures(reasons), AuthorizationFailed)
        else Granted(FromClaims(py, source.claims, Classify(source.claims), true, true, correlationId))
  }

  /** The failure list `resolve_auth_context` grows for non-empty claims. */
  method CollectAgentFailures(py: Runtime, settings: Settings, claims: Claims, now: real) returns (checked: Checked)
    ensures checked == AgentReasons(py, settings, claims, now)
  {
    checked := CollectClaimFailures(py, claims, settings.policy, now);
    if checked.Raised? {
      return;
    }
    var failureReasons := AddLaterFailures(checked.reasons, RequireDelegated(claims),
                                           RequireAudience(py, claims, settings.audiences),
                                           RequireScope(py, claims, settings.scopes));
    checked := Reasons(failureReasons);
  }

  method AddLaterFailures(sofar: seq<Reason>, delegated: bool, audience: bool, scope: bool)
    returns (failureReasons: seq<Reason>)
    ensures failureReasons == sofar + LaterReasons(delegated, audience, scope)
  {
    failureReasons := sofar;
    if !delegated {
      failureReasons := failureReasons + [DelegatedRequired];
    }
    if !audience {
      failureReasons := failureReasons + [InvalidAudience];
    }
    if !scope {
      failureReasons := failureReasons + [MissingScope];
    }
  }

  /** `resolve_auth_context` as the source runs it. */
  method ResolveAuthContext(py: Runtime, settings: Settings, source: Source, now: real, correlationId: Option<string>)
    returns (reply: Reply)
    ensures reply == AgentReply(py, settings, source, now, correlationId)
  {
    if settings.mode == Disabled {
      return Granted(FromClaims(py, map[], NoToken, false, true, correlationId));
    }
    if source.BadToken? {
      return Refused(UNAUTHORIZED, InvalidToken);
    }
    if source.Absent? || source.claims == map[] {
      return Refused(UNAUTHORIZED, MissingClaims);
    }
    var tokenType := Classify(source.claims);
    var checked := CollectAgentFailures(py, settings, source.claims, now);
    if checked.Raised? {
      return Crashed;
    }
    var authorized := tokenType != NoToken && checked.reasons == [];
    if !authorized {
      return Refused(StatusForFailures(checked.reasons), AuthorizationFailed);
    }
    reply := Granted(FromClaims(py, source.claims, tokenType, true, authorized, correlationId));
  }

  lemma PartyReasonsAre(v: Value, accepted: set<string>, r: Reason)
    ensures r in IssuerReasons(v, accepted) ==> r == MissingIssuer || r == InvalidIssuer
    ensures r in TenantReasons(v, accepted) ==> r == MissingTenant || r == UntrustedTenant
  {
  }

  /** Every code `validate_claims` emits is one the Agent answers with 401. */
  lemma ValidationFailuresAreUnauthorized(py: Runtime, claims: Claims, policy: Policy, now: real, r: Reason)
    ensures match ValidateClaims(py, claims, policy, now)
            case Reasons(reasons) => r in reasons ==> r in UNAUTHORIZED_REASONS && r != InvalidAudience
            case Raised => true
  {
    var i := IssuerReasons(Get(claims, "iss"), EffectiveIssuers(policy));
    var t := TenantReasons(Get(claims, "tid"), NormalizeRequired(policy.trustedTenants));
    var e := ExpReasons(Get(claims, "exp"), Exp(py, claims), policy.skew, now);
    var n := NbfReasons(Get(claims, "nbf"), Nbf(py, claims), policy.skew, now);
    var a := IatReasons("iat" in claims, Iat(py, claims), policy.skew, now);
    assert r in i + t + e + n + a ==> r in i || r in t || r in e || r in n || r in a;
    PartyReasonsAre(Get(claims, "iss"), EffectiveIssuers(policy), r);
    PartyReasonsAre(Get(claims, "tid"), NormalizeRequired(policy.trustedTenants), r);
  }

  /** The collected reasons answer 401 exactly when validation or the audience check failed. */
  lemma StatusOfCollected(found: seq<Reason>, delegated: bool, audience: bool, scope: bool)
    requires found != [] ==> found[0] in UNAUTHORIZED_REASONS
    ensures var all := found + LaterReasons(delegated, audience, scope);
            && (all == [] <==> found == [] && delegated && audience && scope)
            && (StatusForFailures(all) == UNAUTHORIZED <==> found != [] || !audience)
  {
    var all := found + LaterReasons(delegated, audience, scope);
    if found != [] {
      assert all[0] == found[0];
    } else if !audience {
      assert InvalidAudience in all;
    } else {
      assert forall r :: r in all ==> r == DelegatedRequired || r == MissingScope;
    }
  }

  /** Same verdict, same status, same context. */
  predicate Agree(a: Reply, b: Reply) {
    || (a.Crashed? && b.Crashed?)
    || (a.Refused? && b.Refused? && a.status == b.status)
    || (a.Granted? && a == b)
  }

  /** Stopping at the first failure and collecting all of them come to the same reply. */
  lemma ShortCircuitAgreesWithCollectAll(py: Runtime, settings: Settings, source: Source, now: real,
                                         correlationId: Option<string>)
    ensures Agree(BffReply(py, settings, source, now, correlationId),
                  AgentReply(py, settings, source, now, correlationId))
  {
    if settings.mode != Disabled && source.Loaded? && source.claims != map[] {
      var claims := source.claims;
      var checked := ValidateClaims(py, claims, settings.policy, now);
      if checked.Reasons? {
        if checked.reasons != [] {
          ValidationFailuresAreUnauthorized(py, claims, settings.policy, now, checked.reasons[0]);
        }
        StatusOfCollected(checked.reasons, RequireDelegated(claims),
                          RequireAudience(py, claims, settings.audiences), RequireScope(py, claims, settings.scopes));
      }
    }
  }

  /** The one reason the BFF names is among those the Agent collected. */
  lemma BffNamesACollectedReason(py: Runtime, settings: Settings, claims: Claims, now: real,
                                 correlationId: Option<string>)
    requires settings.mode != Disabled && claims != map[]
    requires BffReply(py, settings, Loaded(claims), now, correlationId).Refused?
    ensures AgentReasons(py, settings, claims, now).Reasons?
    ensures BffReply(py, settings, Loaded(claims), now, correlationId).detail
            in AgentReasons(py, settings, claims, now).reasons
  {
    var checked := ValidateClaims(py, claims, settings.policy, now);
    var all := AgentReasons(py, settings, claims, now).reasons;
    if checked.reasons != [] {
      assert all[0] == checked.reasons[0];
    } else if RequireAudience(py, claims, settings.audiences) && RequireDelegated(claims) {
      assert all == [MissingScope];
    }
  }

  // ---------- MCP ----------

  function ResolveRequiredScopes(scopes: seq<string>, scope: string): seq<string> {
    if scopes == [] then [scope] else if scope in scopes then [scope] else scopes
  }

  function McpContext(py: Runtime, mode: Mode, source: Source, correlationId: Option<string>): Option<AuthContext> {
    match source
    case BadToken => None
    case Absent =>
      Some(FromClaims(py, map[], NoToken, false, false, correlationId).(failureReasons := [ClaimsUnavailable]))
    case Loaded(claims) =>
      Some(FromClaims(py, claims, Classify(claims), mode != Disabled && claims != map[], mode == Disabled,
                      correlationId))
  }

  function McpEnforce(py: Runtime, settings: Settings, context: AuthContext, required: seq<string>, now: real): Reply {
    if settings.mode == Disabled then
      Granted(FromClaims(py, context.claims, context.tokenType, false, true, context.correlationId))
    else if !context.authenticated then Refused(UNAUTHORIZED, AuthenticationRequired)
    else
      match ValidateClaims(py, context.claims, settings.policy, now)
      case Raised => Crashed
      case Reasons(reasons) =>
        if reasons != [] then Refused(UNAUTHORIZED, reasons[0])
        else if !RequireAudience(py, context.claims, settings.audiences) then Refused(UNAUTHORIZED, InvalidAudience)
        else if !RequireDelegated(context.claims) then Refused(FORBIDDEN, DelegatedRequired)
        else if !RequireScope(py, context.claims, required) then Refused(FORBIDDEN, MissingScope)
        else Granted(FromClaims(py, context.claims, context.tokenType, true, true, context.correlationId))
  }

  /** `require_mcp_access` and `require_mcp_write`, for the scope each names. */
  function McpReply(py: Runtime, settings: Settings, source: Source, scope: string, now: real,
                    correlationId: Option<string>): Reply
  {
    match McpContext(py, settings.mode, source, correlationId)
    case None => Refused(UNAUTHORIZED, InvalidToken)
    case Some(context) =>
      McpEnforce(py, settings, context, ResolveRequiredScopes(settings.scopes, scope), now)
  }

  // ---------- deciding on sanitised claims ----------

  /** The checks every evaluator makes, on whatever claims it is given. */
  predicate ChecksPass(py: Runtime, claims: Claims, settings: Settings, required: seq<string>, now: real) {
    && Valid(py, claims, settings.policy, now)
    && RequireAudience(py, claims, settings.audiences)
    && RequireDelegated(claims)
    && RequireScope(py, claims, required)
  }

  /** The BFF grants exactly when the checks pass on the raw claims. */
  lemma BffGrantsIff(py: Runtime, settings: Settings, claims: Claims, now: real, correlationId: Option<string>)
    requires settings.mode != Disabled
    ensures BffReply(py, settings, Loaded(claims), now, correlationId).Granted? <==>
            ChecksPass(py, claims, settings, settings.scopes, now)
  {
  }

  /** MCP grants exactly when the checks pass on the sanitised claims. */
  lemma McpGrantsIff(py: Runtime, settings: Settings, claims: Claims, scope: string, now: real,
                     correlationId: Option<string>)
    requires settings.mode != Disabled
    ensures McpReply(py, settings, Loaded(claims), scope, now, correlationId).Granted? <==>
            ChecksPass(py, SanitizeClaims(py, claims), settings, ResolveRequiredScopes(settings.scopes, scope), now)
  {
    if claims == map[] {
      assert SanitizeClaims(py, claims) == map[];
    }
  }

  /** The BFF without claims to check: switched off, a bad token, nothing there. */
  lemma BffAnswersWithoutClaims(py: Runtime, settings: Settings, source: Source, now: real,
                                correlationId: Option<string>)
    ensures var reply := BffReply(py, settings, source, now, correlationId);
            && (settings.mode == Disabled ==>
                  && reply.Granted? && !reply.context.authenticated && reply.context.authorized
                  && reply.context.claims == map[] && reply.context.tokenType == NoToken
                  && reply.context.correlationId == correlationId)
            && (settings.mode != Disabled && source.BadToken? ==> reply == Refused(401, InvalidToken))
            && (settings.mode != Disabled && (source.Absent? || source == Loaded(map[])) ==>
                  reply == Refused(401, MissingClaims))
  {
    assert SanitizeClaims(py, map[]) == map[];
  }

  /** The BFF on claims: the first check that fails decides, and who passes gets a context of the sanitised claims. */
  lemma BffAnswersClaims(py: Runtime, settings: Settings, claims: Claims, now: real, correlationId: Option<string>)
    requires settings.mode != Disabled && claims != map[]
    ensures var reply := BffReply(py, settings, Loaded(claims), now, correlationId);
            match ValidateClaims(py, claims, settings.policy, now)
            case Raised => reply == Crashed
            case Reasons(reasons) =>
              && (reasons != [] ==> reply == Refused(401, reasons[0]))
              && (reasons == [] && !RequireAudience(py, claims, settings.audiences) ==>
                    reply == Refused(401, InvalidAudience))
              && (reasons == [] && RequireAudience(py, claims, settings.audiences) && !RequireDelegated(claims) ==>
                    reply == Refused(403, DelegatedRequired))
              && (reasons == [] && RequireAudience(py, claims, settings.audiences) && RequireDelegated(claims) &&
                  !RequireScope(py, claims, settings.scopes) ==>
                    reply == Refused(403, MissingScope))
              && (ChecksPass(py, claims, settings, settings.scopes, now) ==>
                    && reply.Granted? && reply.context.authenticated && reply.context.authorized
                    && reply.context.claims == SanitizeClaims(py, claims) && reply.context.tokenType == Delegated
                    && reply.context.correlationId == correlationId)
  {
  }

  /** All the checks together. */
  lemma ChecksPassIff(py: Runtime, claims: Claims, settings: Settings, required: seq<string>, now: real)
    ensures ChecksPass(py, claims, settings, required, now) <==>
            && ValidateClaims(py, claims, settings.policy, now) == Reasons([])
            && RequireAudience(py, claims, settings.audiences)
            && Classify(claims) == Delegated
            && RequireScope(py, claims, required)
  {
  }

  /** What the Agent tells a caller it refuses, or cannot check. */
  lemma AgentAnswers(py: Runtime, settings: Settings, source: Source, now: real, correlationId: Option<string>)
    ensures var reply := AgentReply(py, settings, source, now, correlationId);
            && (settings.mode == Disabled ==> reply == BffReply(py, settings, source, now, correlationId))
            && (settings.mode != Disabled && source.BadToken? ==> reply == Refused(401, InvalidToken))
            && (settings.mode != Disabled && (source.Absent? || source == Loaded(map[])) ==>
                  reply == Refused(401, MissingClaims))
            && (settings.mode != Disabled && source.Loaded? && source.claims != map[] && reply.Refused? ==>
                  reply.detail == AuthorizationFailed)
  {
  }

  /** The context MCP builds before it enforces anything: authenticated by claims, authorised by being switched off. */
  lemma McpContextIs(py: Runtime, mode: Mode, source: Source, correlationId: Option<string>)
    ensures var made := McpContext(py, mode, source, correlationId);
            && (made.None? <==> source.BadToken?)
            && (source.Absent? ==>
                  && !made.value.authenticated && !made.value.authorized && made.value.claims == map[]
                  && made.value.tokenType == NoToken && made.value.failureReasons == [ClaimsUnavailable]
                  && made.value.correlationId == correlationId)
            && (source.Loaded? ==>
                  && (made.value.authenticated <==> mode != Disabled && source.claims != map[])
                  && (made.value.authorized <==> mode == Disabled)
                  && made.value.claims == SanitizeClaims(py, source.claims)
                  && made.value.tokenType == Classify(source.claims) && made.value.failureReasons == []
                  && made.value.correlationId == correlationId)
  {
    assert SanitizeClaims(py, map[]) == map[];
  }

  /** The scopes an MCP endpoint asks for: its own unless others are configured and it is not among them. */
  lemma McpRequires(scopes: seq<string>, scope: string)
    ensures scopes == [] || scope in scopes ==> ResolveRequiredScopes(scopes, scope) == [scope]
    ensures scopes != [] && scope !in scopes ==> ResolveRequiredScopes(scopes, scope) == scopes
  {
  }

  /** MCP without claims to check: a bad token is refused in every mode, nothing there outside disabled mode. */
  lemma McpAnswersWithoutClaims(py: Runtime, settings: Settings, source: Source, scope: string, now: real,
                                correlationId: Option<string>)
    ensures var reply := McpReply(py, settings, source, scope, now, correlationId);
            && (source.BadToken? ==> reply == Refused(401, InvalidToken))
            && (source.Absent? && settings.mode == Disabled ==>
                  && reply.Granted? && !reply.context.authenticated && reply.context.authorized
                  && reply.context.claims == map[] && reply.context.tokenType == NoToken
                  && reply.context.correlationId == correlationId)
            && (settings.mode != Disabled && (source.Absent? || source == Loaded(map[])) ==>
                  reply == Refused(401, AuthenticationRequired))
  {
    assert SanitizeClaims(py, map[]) == map[];
  }

  /**
    MCP on claims. Switched off it lets anyone in, unauthenticated; otherwise the first
    check that fails on the sanitised claims decides.
   */
  lemma McpAnswersClaims(py: Runtime, settings: Settings, claims: Claims, scope: string, now: real,
                         correlationId: Option<string>)
    requires claims != map[]
    ensures var reply := McpReply(py, settings, Loaded(claims), scope, now, correlationId);
            var clean, required := SanitizeClaims(py, claims), ResolveRequiredScopes(settings.scopes, scope);
            if settings.mode == Disabled then
              && reply.Granted? && !reply.context.authenticated && reply.context.authorized
              && reply.context.claims == SanitizeClaims(py, clean) && reply.context.tokenType == Classify(claims)
              && reply.context.correlationId == correlationId
            else
              match ValidateClaims(py, clean, settings.policy, now)
              case Raised => reply == Crashed
              case Reasons(reasons) =>
                && (reasons != [] ==> reply == Refused(401, reasons[0]))
                && (reasons == [] && !RequireAudience(py, clean, settings.audiences) ==>
                      reply == Refused(401, InvalidAudience))
                && (reasons == [] && RequireAudience(py, clean, settings.audiences) && !RequireDelegated(clean) ==>
                      reply == Refused(403, DelegatedRequired))
                && (reasons == [] && RequireAudience(py, clean, settings.audiences) && RequireDelegated(clean) &&
                    !RequireScope(py, clean, required) ==>
                      reply == Refused(403, MissingScope))
                && (ChecksPass(py, clean, settings, required, now) ==>
                      && reply.Granted? && reply.context.authenticated && reply.context.authorized
                      && reply.context.claims == SanitizeClaims(py, clean)
                      && reply.context.tokenType == Classify(claims)
                      && reply.context.correlationId == correlationId)
  {
  }

  /** Same verdict and, on a refusal, the same status. */
  predicate SameVerdict(a: Reply, b: Reply) {
    (a.Granted? <==> b.Granted?) && (a.Crashed? <==> b.Crashed?) && (a.Refused? && b.Refused? ==> a.status == b.status)
  }

  lemma EnforceAsBff(py: Runtime, settings: Settings, context: AuthContext, required: seq<string>, now: real,
                     correlationId: Option<string>)
    requires settings.mode != Disabled && context.authenticated && context.claims != map[]
    ensures SameVerdict(McpEnforce(py, settings, context, required, now),
                        BffReply(py, settings.(scopes := required), Loaded(context.claims), now, correlationId))
  {
  }

  /** MCP answers raw claims as the BFF, given MCP's scopes, would answer their sanitised form. */
  lemma McpAnswersAsBffOnSanitized(py: Runtime, settings: Settings, claims: Claims, scope: string, now: real,
                                   correlationId: Option<string>)
    requires settings.mode != Disabled
    ensures SameVerdict(McpReply(py, settings, Loaded(claims), scope, now, correlationId),
                        BffReply(py, settings.(scopes := ResolveRequiredScopes(settings.scopes, scope)),
                                 Loaded(SanitizeClaims(py, claims)), now, correlationId))
  {
    var context := McpContext(py, settings.mode, Loaded(claims), correlationId).value;
    assert context.claims == SanitizeClaims(py, claims);
    if claims == map[] {
      assert SanitizeClaims(py, claims) == map[];
    } else if context.claims == map[] {
      NoClaimsRefused(py, context.claims, settings.policy, now);
    } else {
      EnforceAsBff(py, settings, context, ResolveRequiredScopes(settings.scopes, scope), now, correlationId);
    }
  }

  lemma NoClaimsRefused(py: Runtime, claims: Claims, policy: Policy, now: real)
    requires claims == map[]
    ensures ValidateClaims(py, claims, policy, now).Reasons?
    ensures ValidateClaims(py, claims, policy, now).reasons != []
  {
    AcceptedInstants(py, claims, policy, now);
  }

  /** The claims both decisions read. */
  const DECIDING_KEYS: set<string> := {"iss", "tid", "exp", "nbf", "iat", "aud", "scp"}

  /** Every deciding claim is within the sanitiser's limits and `scope` does not stand in for `scp`. */
  predicate WithinLimits(py: Runtime, claims: Claims) {
    && (forall k :: k in DECIDING_KEYS ==> Normal(py, Get(claims, k)))
    && (Truthy(Get(claims, "scp")) || !Truthy(Get(claims, "scope")))
    && ("iat" in claims ==> claims["iat"] != Null)
  }

  /** A claim within the limits reads the same after sanitising. */
  lemma NormalClaimKept(py: Runtime, claims: Claims, k: string)
    requires k in SAFE_CLAIM_KEYS && Normal(py, Get(claims, k))
    ensures Get(SanitizeClaims(py, claims), k) == Get(claims, k)
    ensures Get(claims, k) != Null ==> k in SanitizeClaims(py, claims)
    ensures k in SanitizeClaims(py, claims) ==> k in claims
  {
    SanitizedClaim(py, claims, k);
    FixedPointsAreNormal(py, Get(claims, k));
  }

  /** Validation reads five claims and whether `iat` is there. */
  lemma ValidationReadsFiveClaims(py: Runtime, a: Claims, b: Claims, policy: Policy, now: real)
    requires Get(a, "iss") == Get(b, "iss") && Get(a, "tid") == Get(b, "tid")
    requires Get(a, "exp") == Get(b, "exp") && Get(a, "nbf") == Get(b, "nbf") && Get(a, "iat") == Get(b, "iat")
    requires "iat" in a <==> "iat" in b
    ensures ValidateClaims(py, a, policy, now) == ValidateClaims(py, b, policy, now)
  {
  }

  lemma SameExtraction(py: Runtime, a: Claims, b: Claims)
    requires Get(a, "aud") == Get(b, "aud") && Get(a, "scp") == Get(b, "scp")
    requires Truthy(Get(a, "scp")) || (!Truthy(Get(a, "scope")) && !Truthy(Get(b, "scope")))
    ensures ExtractAudiences(py, a) == ExtractAudiences(py, b)
    ensures ExtractScopes(py, a) == ExtractScopes(py, b)
    ensures RequireDelegated(a) <==> RequireDelegated(b)
  {
    DelegatedIffScopes(a);
    DelegatedIffScopes(b);
  }

  /** Within the limits, deciding on sanitised claims and deciding on raw claims are the same decision. */
  lemma DecisionsCoincide(py: Runtime, settings: Settings, claims: Claims, required: seq<string>, now: real)
    requires WithinLimits(py, claims)
    ensures ChecksPass(py, SanitizeClaims(py, claims), settings, required, now)
            <==> ChecksPass(py, claims, settings, required, now)
  {
    var sanitized := SanitizeClaims(py, claims);
    forall k | k in DECIDING_KEYS ensures Get(sanitized, k) == Get(claims, k) {
      NormalClaimKept(py, claims, k);
    }
    NormalClaimKept(py, claims, "iat");
    ValidationReadsFiveClaims(py, sanitized, claims, settings.policy, now);
    SanitizedClaim(py, claims, "scope");
    SameExtraction(py, sanitized, claims);
  }
}
