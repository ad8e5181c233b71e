/**
  Claim extraction and validation (`identity_lab_auth/guards.py`,
  `identity_lab_auth/token_type.py`).
 */
module Guards {
  import opened PyText
  import opened Json
  import opened ClaimSanitizer

  /** The reason codes of `validate_claims` and of the services that call it. */
  datatype Reason =
    | MissingIssuer | InvalidIssuer | MissingTenant | UntrustedTenant
    | MissingExp | InvalidExp | TokenExpired
    | MissingNbf | InvalidNbf | TokenNotYetValid
    | InvalidIat | TokenIssuedInFuture
    | InvalidAudience | DelegatedRequired | MissingScope
    | MissingClaims | ClaimsUnavailable | InvalidToken | AuthenticationRequired | AuthorizationFailed

  datatype TokenType = NoToken | Delegated | AppOnly | Unknown

  // ---------- token_type.py ----------

  /** `_has_scopes` and `_has_roles`: some word of a string, or some truthy item of a list. */
  predicate HasEntries(v: Value) {
    match v
    case Str(s) => Words(s) != []
    case List(items) => exists i :: 0 <= i < |items| && Truthy(items[i])
    case _ => false
  }

  /** `claims.get("scp") or claims.get("scope")` */
  function RawScopes(claims: Claims): Value {
    if Truthy(Get(claims, "scp")) then Get(claims, "scp") else Get(claims, "scope")
  }

  function Classify(claims: Claims): TokenType {
    if claims == map[] then NoToken
    else if HasEntries(RawScopes(claims)) then Delegated
    else if HasEntries(Get(claims, "roles")) then AppOnly
    else Unknown
  }

  // ---------- extraction ----------

  /** `[str(item) for item in raw if item]` */
  function TruthyTexts(py: Runtime, items: seq<Value>): seq<string> {
    if items == [] then []
    else (if Truthy(items[0]) then [py.str(items[0])] else []) + TruthyTexts(py, items[1..])
  }

  function ScopeTexts(py: Runtime, raw: Value): seq<string> {
    match raw
    case Str(s) => Words(s)
    case List(items) => TruthyTexts(py, items)
    case _ => []
  }

  function ExtractScopes(py: Runtime, claims: Claims): seq<string> {
    ScopeTexts(py, RawScopes(claims))
  }

  function AudienceTexts(py: Runtime, raw: Value): seq<string> {
    match raw
    case Str(s) => if s != "" then [s] else []
    case List(items) => TruthyTexts(py, items)
    case _ => []
  }

  function ExtractAudiences(py: Runtime, claims: Claims): seq<string> {
    AudienceTexts(py, Get(claims, "aud"))
  }

  function NormalizeRequired(values: seq<string>): set<string> {
    set v | v in values && Strip(v) != ""
  }

  /** No requirement, or one of the values meets it. */
  predicate Meets(values: seq<string>, required: seq<string>) {
    NormalizeRequired(required) == {} || exists v :: v in values && v in NormalizeRequired(required)
  }

  lemma MeetsWith(values: seq<string>, required: seq<string>, v: string)
    requires v in values && v in required && Strip(v) != ""
    ensures Meets(values, required)
  {
    assert v in NormalizeRequired(required);
  }

  predicate RequireScope(py: Runtime, claims: Claims, required: seq<string>) {
    Meets(ExtractScopes(py, claims), required)
  }

  predicate RequireAudience(py: Runtime, claims: Claims, required: seq<string>) {
    Meets(ExtractAudiences(py, claims), required)
  }

  predicate RequireDelegated(claims: Claims) {
    Classify(claims) == Delegated
  }

  lemma DelegatedIffScopes(claims: Claims)
    ensures RequireDelegated(claims) <==> HasEntries(RawScopes(claims))
  {
  }

  /** There is an entry: something but white space in a string, or an item of a list that counts as true. */
  lemma HasEntriesIff(v: Value)
    ensures HasEntries(v) <==>
            || (v.Str? && exists i :: 0 <= i < |v.s| && !IsSpace(v.s[i]))
            || (v.List? && exists i :: 0 <= i < |v.items| && Truthy(v.items[i]))
  {
    if v.Str? {
      SomeWordIffNotBlank(v.s);
      BlankIff(v.s);
    }
  }

  lemma BlankIff(s: string)
    ensures Strip(s) == "" <==> forall i :: 0 <= i < |s| ==> IsSpace(s[i])
  {
    var before, after := StripRemovesSpace(s);
    if forall i :: 0 <= i < |s| ==> IsSpace(s[i]) {
      StripAllSpace(s);
    }
  }

  /** The token type, from the three claims that decide it. */
  lemma ClassifyMeans(claims: Claims)
    ensures var scp, scope, roles := Get(claims, "scp"), Get(claims, "scope"), Get(claims, "roles");
            && (Classify(claims) == NoToken <==> claims == map[])
            && (Classify(claims) == Delegated <==> HasEntries(if Truthy(scp) then scp else scope))
            && (Classify(claims) == AppOnly <==> Classify(claims) != Delegated && HasEntries(roles))
  {
  }

  lemma {:induction false} TextFromItem(py: Runtime, items: seq<Value>, t: string)
    ensures t in TruthyTexts(py, items) <==>
            exists i :: 0 <= i < |items| && Truthy(items[i]) && py.str(items[i]) == t
  {
    if items == [] {
    } else {
      TextFromItem(py, items[1..], t);
      if i :| 0 <= i < |items| && Truthy(items[i]) && py.str(items[i]) == t {
        if i > 0 {
          assert items[1..][i - 1] == items[i];
        }
      }
      if i :| 0 <= i < |items[1..]| && Truthy(items[1..][i]) && py.str(items[1..][i]) == t {
        assert items[i + 1] == items[1..][i];
      }
    }
  }

  lemma TruthyTextsFirst(py: Runtime, item: Value, rest: seq<Value>)
    ensures TruthyTexts(py, [item]) == if Truthy(item) then [py.str(item)] else []
    ensures TruthyTexts(py, [item] + rest) == TruthyTexts(py, [item]) + TruthyTexts(py, rest)
  {
    assert ([item] + rest)[1..] == rest && [item][1..] == [];
  }

  lemma {:induction false} TruthyTextsInOrder(py: Runtime, a: seq<Value>, b: seq<Value>)
    ensures TruthyTexts(py, a + b) == TruthyTexts(py, a) + TruthyTexts(py, b)
  {
    if a == [] {
      assert a + b == b;
    } else {
      var item, rest := a[0], a[1..];
      TruthyTextsInOrder(py, rest, b);
      TruthyTextsFirst(py, item, rest);
      TruthyTextsFirst(py, item, rest + b);
      Reassociate(TruthyTexts(py, [item]), TruthyTexts(py, rest), TruthyTexts(py, b));
      assert a == [item] + rest && a + b == [item] + (rest + b);
    }
  }

  /** Which texts count as scopes and as audiences. */
  lemma ExtractMeans(py: Runtime, claims: Claims, x: string)
    ensures var raw := if Truthy(Get(claims, "scp")) then Get(claims, "scp") else Get(claims, "scope");
            x in ExtractScopes(py, claims) <==>
              || (raw.Str? && x in Words(raw.s))
              || (raw.List? && exists i :: 0 <= i < |raw.items| && Truthy(raw.items[i]) && py.str(raw.items[i]) == x)
    ensures var aud := Get(claims, "aud");
            x in ExtractAudiences(py, claims) <==>
              || (aud.Str? && x == aud.s != "")
              || (aud.List? && exists i :: 0 <= i < |aud.items| && Truthy(aud.items[i]) && py.str(aud.items[i]) == x)
  {
    if RawScopes(claims).List? {
      TextFromItem(py, RawScopes(claims).items, x);
    }
    if Get(claims, "aud").List? {
      TextFromItem(py, Get(claims, "aud").items, x);
    }
  }

  /** A requirement is met when nothing but blanks is listed or one of the texts is listed and not blank. */
  lemma RequirementsIff(py: Runtime, claims: Claims, required: seq<string>)
    ensures RequireScope(py, claims, required) <==>
            || (forall r :: r in required ==> Strip(r) == "")
            || (exists r :: r in required && Strip(r) != "" && r in ExtractScopes(py, claims))
    ensures RequireAudience(py, claims, required) <==>
            || (forall r :: r in required ==> Strip(r) == "")
            || (exists r :: r in required && Strip(r) != "" && r in ExtractAudiences(py, claims))
  {
    assert NormalizeRequired(required) == {} <==> forall r :: r in required ==> Strip(r) == "" by {
      assert forall r :: r in required && Strip(r) != "" <==> r in NormalizeRequired(required);
    }
  }

  // ---------- timestamps ----------

  /** `Uncaught` is the exception `int(value)` raises outside the handler's reach. */
  datatype Parsed = NoTime | At(t: int) | Uncaught

  /** Python's `int(float)`: towards zero. */
  function Truncate(r: real): int {
    if r >= 0.0 then r.Floor else -((-r).Floor)
  }

  function ParseTimestamp(py: Runtime, v: Value): Parsed {
    match v
    case Num(Int(i)) => At(i)
    case Num(Float(r)) => At(Truncate(r))
    case Num(_) => Uncaught
    case Str(s) =>
      if Strip(s) == "" then NoTime
      else
        (match py.parseFloat(Strip(s))
         case NotANumber => NoTime
         case Whole(t) => At(t)
         case Overflow => Uncaught)
    case _ => NoTime
  }

  /** Numbers are cut towards zero, texts are read after trimming, and nothing else names a time. */
  lemma ParseTimestampMeans(py: Runtime, v: Value)
    ensures var p := ParseTimestamp(py, v);
            match v
            case Num(Int(i)) => p == At(i)
            case Num(Float(r)) =>
              && p.At?
              && (r >= 0.0 ==> 0 <= p.t && p.t as real <= r < p.t as real + 1.0)
              && (r < 0.0 ==> p.t <= 0 && p.t as real - 1.0 < r <= p.t as real)
            case Num(_) => p == Uncaught
            case Str(s) =>
              if Strip(s) == "" || py.parseFloat(Strip(s)) == NotANumber then p == NoTime
              else if py.parseFloat(Strip(s)) == Overflow then p == Uncaught
              else py.parseFloat(Strip(s)) == Whole(p.t)
            case _ => p == NoTime
  {
  }

  // ---------- validate_claims ----------

  /** What a service's configuration says about acceptable tokens. */
  datatype Policy = Policy(
    issuer: Option<string>,
    allowedIssuers: seq<string>,
    trustedTenants: seq<string>,
    skew: int)

  function EffectiveIssuers(policy: Policy): set<string> {
    if policy.allowedIssuers != [] then
      set v | v in policy.allowedIssuers && Strip(v) != "" :: Strip(v)
    else if policy.issuer.Some? && Strip(policy.issuer.value) != "" then {Strip(policy.issuer.value)}
    else {}
  }

  function IssuerReasons(iss: Value, issuers: set<string>): seq<Reason> {
    if issuers == {} then []
    else
      match iss
      case Str(s) =>
        if Strip(s) == "" then [MissingIssuer]
        else if Strip(s) !in issuers then [InvalidIssuer] else []
      case _ => [MissingIssuer]
  }

  function TenantReasons(tid: Value, trusted: set<string>): seq<Reason> {
    if trusted == {} then []
    else
      match tid
      case Str(s) =>
        if Strip(s) == "" then [MissingTenant] else if s !in trusted then [UntrustedTenant] else []
      case _ => [MissingTenant]
  }

  function ExpReasons(raw: Value, exp: Parsed, skew: int, now: real): seq<Reason> {
    if !exp.At? then [if raw == Null then MissingExp else InvalidExp]
    else if now - skew as real > exp.t as real then [TokenExpired] else []
  }

  function NbfReasons(raw: Value, nbf: Parsed, skew: int, now: real): seq<Reason> {
    if !nbf.At? then [if raw == Null then MissingNbf else InvalidNbf]
    else if now + skew as real < nbf.t as real then [TokenNotYetValid] else []
  }

  function IatReasons(present: bool, iat: Parsed, skew: int, now: real): seq<Reason> {
    if !present then []
    else if !iat.At? then [InvalidIat]
    else if iat.t as real > now + skew as real then [TokenIssuedInFuture] else []
  }

  datatype Checked = Raised | Reasons(reasons: seq<Reason>)

  function Exp(py: Runtime, claims: Claims): Parsed { ParseTimestamp(py, Get(claims, "exp")) }
  function Nbf(py: Runtime, claims: Claims): Parsed { ParseTimestamp(py, Get(claims, "nbf")) }
  function Iat(py: Runtime, claims: Claims): Parsed { ParseTimestamp(py, Get(claims, "iat")) }

  predicate TimestampRaises(py: Runtime, claims: Claims) {
    Exp(py, claims).Uncaught? || Nbf(py, claims).Uncaught? || Iat(py, claims).Uncaught?
  }

  /** The checks on the five claims validation reads. */
  function ValidateValues(py: Runtime, iss: Value, tid: Value, exp: Value, nbf: Value, iat: Value, iatPresent: bool,
                          policy: Policy, now: real): Checked
  {
    var e, n, i := ParseTimestamp(py, exp), ParseTimestamp(py, nbf), ParseTimestamp(py, iat);
    if e.Uncaught? || n.Uncaught? || i.Uncaught? then Raised
    else Reasons(
           IssuerReasons(iss, EffectiveIssuers(policy))
           + TenantReasons(tid, NormalizeRequired(policy.trustedTenants))
           + ExpReasons(exp, e, policy.skew, now)
           + NbfReasons(nbf, n, policy.skew, now)
           + IatReasons(iatPresent, i, policy.skew, now))
  }

  function ValidateClaims(py: Runtime, claims: Claims, policy: Policy, now: real): Checked {
    ValidateValues(py, Get(claims, "iss"), Get(claims, "tid"), Get(claims, "exp"), Get(claims, "nbf"),
                   Get(claims, "iat"), "iat" in claims, policy, now)
  }

  /** `validate_claims` as the source runs it: a list of failures grown check by check. */
  method CollectClaimFailures(py: Runtime, claims: Claims, policy: Policy, now: real) returns (r: Checked)
    ensures r == ValidateClaims(py, claims, policy, now)
  {
    var failures := AddIssuerFailure(Get(claims, "iss"), EffectiveIssuers(policy));
    failures := AddTenantFailure(failures, Get(claims, "tid"), NormalizeRequired(policy.trustedTenants));
    var exp, nbf := Exp(py, claims), Nbf(py, claims);
    if exp.Uncaught? || nbf.Uncaught? {
      return Raised;
    }
    failures := AddExpFailure(failures, Get(claims, "exp"), exp, policy.skew, now);
    failures := AddNbfFailure(failures, Get(claims, "nbf"), nbf, policy.skew, now);
    if "iat" in claims {
      var iat := Iat(py, claims);
      if iat.Uncaught? {
        return Raised;
      }
      failures := failures + IatReasons(true, iat, policy.skew, now);
    }
    r := Reasons(failures);
  }

  method AddIssuerFailure(iss: Value, issuers: set<string>) returns (failures: seq<Reason>)
    ensures failures == IssuerReasons(iss, issuers)
  {
    failures := [];
    if issuers != {} {
      if !iss.Str? || Strip(iss.s) == "" {
        failures := [MissingIssuer];
      } else if Strip(iss.s) !in issuers {
        failures := [InvalidIssuer];
      }
    }
  }

  method AddTenantFailure(sofar: seq<Reason>, tid: Value, trusted: set<string>) returns (failures: seq<Reason>)
    ensures failures == sofar + TenantReasons(tid, trusted)
  {
    failures := sofar;
    if trusted != {} {
      if !tid.Str? || Strip(tid.s) == "" {
        failures := failures + [MissingTenant];
      } else if tid.s !in trusted {
        failures := failures + [UntrustedTenant];
      }
    }
  }

  method AddExpFailure(sofar: seq<Reason>, raw: Value, exp: Parsed, skew: int, now: real)
    returns (failures: seq<Reason>)
    ensures failures == sofar + ExpReasons(raw, exp, skew, now)
  {
    failures := sofar;
    if !exp.At? {
      failures := failures + [if raw == Null then MissingExp else InvalidExp];
    } else if now - skew as real > exp.t as real {
      failures := failures + [TokenExpired];
    }
  }

  method AddNbfFailure(sofar: seq<Reason>, raw: Value, nbf: Parsed, skew: int, now: real)
    returns (failures: seq<Reason>)
    ensures failures == sofar + NbfReasons(raw, nbf, skew, now)
  {
    failures := sofar;
    if !nbf.At? {
      failures := failures + [if raw == Null then MissingNbf else InvalidNbf];
    } else if now + skew as real < nbf.t as real {
      failures := failures + [TokenNotYetValid];
    }
  }

  // ---------- AuthContext ----------

  datatype AuthContext = AuthContext(
    authenticated: bool,
    authorized: bool,
    failureReasons: seq<Reason>,
    claims: Claims,
    tokenType: TokenType,
    scopes: seq<string>,
    audiences: seq<string>,
    correlationId: Option<string>)

  function FromClaims(py: Runtime, claims: Claims, tokenType: TokenType, authenticated: bool, authorized: bool,
                      correlationId: Option<string>): AuthContext
  {
    var sanitized := SanitizeClaims(py, claims);
    AuthContext(authenticated, authorized, [], sanitized, tokenType,
                ExtractScopes(py, sanitized), ExtractAudiences(py, sanitized), correlationId)
  }

  /** A context's scopes come from the sanitised `scp` alone, its audiences from the sanitised `aud`. */
  lemma ContextMeans(py: Runtime, claims: Claims, tokenType: TokenType, authenticated: bool, authorized: bool,
                     correlationId: Option<string>)
    ensures var c := FromClaims(py, claims, tokenType, authenticated, authorized, correlationId);
            var scp, aud := Sanitize(py, Get(claims, "scp")), Sanitize(py, Get(claims, "aud"));
            && c.claims == SanitizeClaims(py, claims) && c.failureReasons == []
            && c.authenticated == authenticated && c.authorized == authorized
            && c.tokenType == tokenType && c.correlationId == correlationId
            && c.scopes == (if scp.Str? then Words(scp.s) else if scp.List? then TruthyTexts(py, scp.items) else [])
            && c.audiences == (if aud.Str? then (if aud.s == "" then [] else [aud.s])
                               else if aud.List? then TruthyTexts(py, aud.items) else [])
  {
    SanitizedClaim(py, claims, "scp");
    SanitizedClaim(py, claims, "scope");
    SanitizedClaim(py, claims, "aud");
  }

  // ---------- acceptance over time ----------

  predicate Valid(py: Runtime, claims: Claims, policy: Policy, now: real) {
    ValidateClaims(py, claims, policy, now) == Reasons([])
  }

  /** Issuer and tenant pass and every timestamp that is looked at parses. */
  predicate TimelessOk(py: Runtime, claims: Claims, policy: Policy) {
    && IssuerReasons(Get(claims, "iss"), EffectiveIssuers(policy)) == []
    && TenantReasons(Get(claims, "tid"), NormalizeRequired(policy.trustedTenants)) == []
    && Exp(py, claims).At?
    && Nbf(py, claims).At?
    && ("iat" in claims ==> Iat(py, claims).At?)
  }

  /** The later of `nbf` and, where there is one, `iat`. */
  function NotBefore(py: Runtime, claims: Claims): int
    requires Nbf(py, claims).At? && ("iat" in claims ==> Iat(py, claims).At?)
  {
    var nbf := Nbf(py, claims).t;
    if "iat" in claims && Iat(py, claims).t > nbf then Iat(py, claims).t else nbf
  }

  /** The accepted instants are exactly the closed interval the claims name, widened by the skew. */
  lemma AcceptedInstants(py: Runtime, claims: Claims, policy: Policy, now: real)
    ensures Valid(py, claims, policy, now) <==>
            && TimelessOk(py, claims, policy)
            && (NotBefore(py, claims) - policy.skew) as real <= now <= (Exp(py, claims).t + policy.skew) as real
  {
    var i := IssuerReasons(Get(claims, "iss"), EffectiveIssuers(policy));
    var t := TenantReasons(Get(claims, "tid"), NormalizeRequired(policy.trustedTenants));
    var e := ExpReasons(Get(claims, "exp"), Exp(py, claims), policy.skew, now);
    var n := NbfReasons(Get(claims, "nbf"), Nbf(py, claims), policy.skew, now);
    var a := IatReasons("iat" in claims, Iat(py, claims), policy.skew, now);
    assert |i + t + e + n + a| == |i| + |t| + |e| + |n| + |a|;
  }

  /** Which issuers are accepted, by the policy's own fields. */
  lemma IssuersIff(policy: Policy, v: string)
    ensures v in EffectiveIssuers(policy) <==>
            && v != ""
            && if policy.allowedIssuers != [] then exists a :: a in policy.allowedIssuers && Strip(a) == v
               else policy.issuer.Some? && Strip(policy.issuer.value) == v
  {
  }

  /** No issuer is configured that is not blank. */
  lemma NoIssuersIff(policy: Policy)
    ensures EffectiveIssuers(policy) == {} <==>
            if policy.allowedIssuers != [] then forall a :: a in policy.allowedIssuers ==> Strip(a) == ""
            else policy.issuer.None? || Strip(policy.issuer.value) == ""
  {
    if policy.allowedIssuers != [] && EffectiveIssuers(policy) == {} {
      forall a | a in policy.allowedIssuers ensures Strip(a) == "" {
        IssuersIff(policy, Strip(a));
      }
    }
  }

  /** Nor any tenant. */
  lemma TenantsIff(policy: Policy, v: string)
    ensures v in NormalizeRequired(policy.trustedTenants) <==> v in policy.trustedTenants && Strip(v) != ""
  {
  }

  lemma NoTenantsIff(policy: Policy)
    ensures NormalizeRequired(policy.trustedTenants) == {} <==>
            forall r :: r in policy.trustedTenants ==> Strip(r) == ""
  {
    forall r | r in policy.trustedTenants && Strip(r) != "" ensures NormalizeRequired(policy.trustedTenants) != {} {
      TenantsIff(policy, r);
    }
  }

  /** When the issuer check passes: nothing is configured, or the trimmed issuer is a configured one, trimmed. */
  lemma IssuerPassesIff(iss: Value, policy: Policy)
    ensures IssuerReasons(iss, EffectiveIssuers(policy)) == [] <==>
            if policy.allowedIssuers != [] then
              || (forall a :: a in policy.allowedIssuers ==> Strip(a) == "")
              || (iss.Str? && Strip(iss.s) != "" && exists a :: a in policy.allowedIssuers && Strip(a) == Strip(iss.s))
            else
              || policy.issuer.None? || Strip(policy.issuer.value) == ""
              || (iss.Str? && Strip(iss.s) == Strip(policy.issuer.value))
  {
    NoIssuersIff(policy);
    if iss.Str? {
      IssuersIff(policy, Strip(iss.s));
    }
  }

  /** When the tenant check passes: nothing is configured, or the tenant as it stands is. */
  lemma TenantPassesIff(tid: Value, policy: Policy)
    ensures TenantReasons(tid, NormalizeRequired(policy.trustedTenants)) == [] <==>
            || (forall r :: r in policy.trustedTenants ==> Strip(r) == "")
            || (tid.Str? && Strip(tid.s) != "" && tid.s in policy.trustedTenants)
  {
    NoTenantsIff(policy);
    if tid.Str? {
      TenantsIff(policy, tid.s);
    }
  }

  /**
    When claims are valid, on the fields of the policy and of the claims: the issuer is
    accepted, the tenant is trusted, and `now` lies in the interval the timestamps name,
    widened by the skew.
   */
  lemma ValidIff(py: Runtime, claims: Claims, policy: Policy, now: real)
    ensures var iss, tid := Get(claims, "iss"), Get(claims, "tid");
            var exp, nbf := ParseTimestamp(py, Get(claims, "exp")), ParseTimestamp(py, Get(claims, "nbf"));
            var iat := ParseTimestamp(py, Get(claims, "iat"));
            Valid(py, claims, policy, now) <==>
              && (if policy.allowedIssuers != [] then
                    || (forall a :: a in policy.allowedIssuers ==> Strip(a) == "")
                    || (iss.Str? && Strip(iss.s) != "" &&
                        exists a :: a in policy.allowedIssuers && Strip(a) == Strip(iss.s))
                  else
                    || policy.issuer.None? || Strip(policy.issuer.value) == ""
                    || (iss.Str? && Strip(iss.s) == Strip(policy.issuer.value)))
              && ((forall r :: r in policy.trustedTenants ==> Strip(r) == "")
                  || (tid.Str? && Strip(tid.s) != "" && tid.s in policy.trustedTenants))
              && exp.At? && now <= (exp.t + policy.skew) as real
              && nbf.At? && (nbf.t - policy.skew) as real <= now
              && ("iat" in claims ==> iat.At? && (iat.t - policy.skew) as real <= now)
  {
    AcceptedInstants(py, claims, policy, now);
    IssuerPassesIff(Get(claims, "iss"), policy);
    TenantPassesIff(Get(claims, "tid"), policy);
  }

  /** The order in which `validate_claims` makes its checks. */
  function Rank(r: Reason): nat {
    match r
    case MissingIssuer => 0 case InvalidIssuer => 0
    case MissingTenant => 1 case UntrustedTenant => 1
    case MissingExp => 2 case InvalidExp => 2 case TokenExpired => 2
    case MissingNbf => 3 case InvalidNbf => 3 case TokenNotYetValid => 3
    case InvalidIat => 4 case TokenIssuedInFuture => 4
    case _ => 5
  }

  predicate OneOfRank(reasons: seq<Reason>, rank: nat) {
    |reasons| <= 1 && forall r :: r in reasons ==> Rank(r) == rank
  }

  lemma FiveInOrder(i: seq<Reason>, t: seq<Reason>, e: seq<Reason>, n: seq<Reason>, a: seq<Reason>, r: Reason)
    requires OneOfRank(i, 0) && OneOfRank(t, 1) && OneOfRank(e, 2) && OneOfRank(n, 3) && OneOfRank(a, 4)
    ensures var all := i + t + e + n + a;
            && (forall j, k :: 0 <= j < k < |all| ==> Rank(all[j]) < Rank(all[k]))
            && (r in all <==> r in i || r in t || r in e || r in n || r in a)
  {
  }

  lemma ChecksRanked(iss: Value, tid: Value, issuers: set<string>, tenants: set<string>, skew: int, now: real,
                     rawExp: Value, exp: Parsed, rawNbf: Value, nbf: Parsed, present: bool, iat: Parsed)
    ensures OneOfRank(IssuerReasons(iss, issuers), 0) && OneOfRank(TenantReasons(tid, tenants), 1)
    ensures OneOfRank(ExpReasons(rawExp, exp, skew, now), 2) && OneOfRank(NbfReasons(rawNbf, nbf, skew, now), 3)
    ensures OneOfRank(IatReasons(present, iat, skew, now), 4)
  {
  }

  /** What validation reports when no timestamp raises, check by check. */
  lemma ReportedByCheck(py: Runtime, claims: Claims, policy: Policy, now: real, r: Reason)
    requires ValidateClaims(py, claims, policy, now).Reasons?
    ensures var all := ValidateClaims(py, claims, policy, now).reasons;
            && (forall j, k :: 0 <= j < k < |all| ==> Rank(all[j]) < Rank(all[k]))
            && (r in all <==>
                match Rank(r)
                case 0 => r in IssuerReasons(Get(claims, "iss"), EffectiveIssuers(policy))
                case 1 => r in TenantReasons(Get(claims, "tid"), NormalizeRequired(policy.trustedTenants))
                case 2 => r in ExpReasons(Get(claims, "exp"), Exp(py, claims), policy.skew, now)
                case 3 => r in NbfReasons(Get(claims, "nbf"), Nbf(py, claims), policy.skew, now)
                case 4 => r in IatReasons("iat" in claims, Iat(py, claims), policy.skew, now)
                case _ => false)
  {
    var i := IssuerReasons(Get(claims, "iss"), EffectiveIssuers(policy));
    var t := TenantReasons(Get(claims, "tid"), NormalizeRequired(policy.trustedTenants));
    var e := ExpReasons(Get(claims, "exp"), Exp(py, claims), policy.skew, now);
    var n := NbfReasons(Get(claims, "nbf"), Nbf(py, claims), policy.skew, now);
    var a := IatReasons("iat" in claims, Iat(py, claims), policy.skew, now);
    ChecksRanked(Get(claims, "iss"), Get(claims, "tid"), EffectiveIssuers(policy),
                 NormalizeRequired(policy.trustedTenants), policy.skew, now, Get(claims, "exp"), Exp(py, claims),
                 Get(claims, "nbf"), Nbf(py, claims), "iat" in claims, Iat(py, claims));
    FiveInOrder(i, t, e, n, a, r);
  }

  /** An exception escapes exactly when some timestamp raises; reasons come in the order of the checks, one each. */
  lemma ReasonsInOrder(py: Runtime, claims: Claims, policy: Policy, now: real)
    ensures var checked := ValidateClaims(py, claims, policy, now);
            && (checked.Raised? <==>
                || ParseTimestamp(py, Get(claims, "exp")).Uncaught?
                || ParseTimestamp(py, Get(claims, "nbf")).Uncaught?
                || ParseTimestamp(py, Get(claims, "iat")).Uncaught?)
            && (checked.Reasons? ==>
                  forall j, k :: 0 <= j < k < |checked.reasons| ==> Rank(checked.reasons[j]) < Rank(checked.reasons[k]))
  {
    if ValidateClaims(py, claims, policy, now).Reasons? {
      ReportedByCheck(py, claims, policy, now, MissingIssuer);
    }
  }

  /** Which issuer and tenant failures are reported: missing when there is no text, otherwise wrong. */
  lemma PartyReasonsReported(py: Runtime, claims: Claims, policy: Policy, now: real)
    requires ValidateClaims(py, claims, policy, now).Reasons?
    ensures var all := ValidateClaims(py, claims, policy, now).reasons;
            var iss, tid := Get(claims, "iss"), Get(claims, "tid");
            var issuers, tenants := EffectiveIssuers(policy), NormalizeRequired(policy.trustedTenants);
            && (MissingIssuer in all <==> issuers != {} && !(iss.Str? && Strip(iss.s) != ""))
            && (InvalidIssuer in all <==>
                issuers != {} && iss.Str? && Strip(iss.s) != "" && Strip(iss.s) !in issuers)
            && (MissingTenant in all <==> tenants != {} && !(tid.Str? && Strip(tid.s) != ""))
            && (UntrustedTenant in all <==>
                tenants != {} && tid.Str? && Strip(tid.s) != "" && tid.s !in tenants)
  {
    ReportedByCheck(py, claims, policy, now, MissingIssuer);
    ReportedByCheck(py, claims, policy, now, InvalidIssuer);
    ReportedByCheck(py, claims, policy, now, MissingTenant);
    ReportedByCheck(py, claims, policy, now, UntrustedTenant);
  }

  /** Which failures of the expiry are reported. */
  lemma ExpiryReasonsReported(py: Runtime, claims: Claims, policy: Policy, now: real)
    requires ValidateClaims(py, claims, policy, now).Reasons?
    ensures var all, skew := ValidateClaims(py, claims, policy, now).reasons, policy.skew as real;
            var raw, exp := Get(claims, "exp"), ParseTimestamp(py, Get(claims, "exp"));
            && (MissingExp in all <==> !exp.At? && raw == Null)
            && (InvalidExp in all <==> !exp.At? && raw != Null)
            && (TokenExpired in all <==> exp.At? && exp.t as real < now - skew)
  {
    ReportedByCheck(py, claims, policy, now, MissingExp);
    ReportedByCheck(py, claims, policy, now, InvalidExp);
    ReportedByCheck(py, claims, policy, now, TokenExpired);
  }

  /** Of the beginning, */
  lemma StartReasonsReported(py: Runtime, claims: Claims, policy: Policy, now: real)
    requires ValidateClaims(py, claims, policy, now).Reasons?
    ensures var all, skew := ValidateClaims(py, claims, policy, now).reasons, policy.skew as real;
            var raw, nbf := Get(claims, "nbf"), ParseTimestamp(py, Get(claims, "nbf"));
            && (MissingNbf in all <==> !nbf.At? && raw == Null)
            && (InvalidNbf in all <==> !nbf.At? && raw != Null)
            && (TokenNotYetValid in all <==> nbf.At? && nbf.t as real > now + skew)
  {
    ReportedByCheck(py, claims, policy, now, MissingNbf);
    ReportedByCheck(py, claims, policy, now, InvalidNbf);
    ReportedByCheck(py, claims, policy, now, TokenNotYetValid);
  }

  /** And of the time of issue, which is only looked at where there is one. */
  lemma IssueReasonsReported(py: Runtime, claims: Claims, policy: Policy, now: real)
    requires ValidateClaims(py, claims, policy, now).Reasons?
    ensures var all, skew := ValidateClaims(py, claims, policy, now).reasons, policy.skew as real;
            var iat := ParseTimestamp(py, Get(claims, "iat"));
            && (InvalidIat in all <==> "iat" in claims && !iat.At?)
            && (TokenIssuedInFuture in all <==> "iat" in claims && iat.At? && iat.t as real > now + skew)
  {
    ReportedByCheck(py, claims, policy, now, InvalidIat);
    ReportedByCheck(py, claims, policy, now, TokenIssuedInFuture);
  }

  /** 0: not yet valid, 1: neither early nor late, 2: expired. */
  function Phase(reasons: seq<Reason>): nat {
    if TokenExpired in reasons then 2
    else if TokenNotYetValid in reasons || TokenIssuedInFuture in reasons then 0
    else 1
  }

  lemma PhaseByClock(py: Runtime, claims: Claims, policy: Policy, now: real)
    requires ValidateClaims(py, claims, policy, now).Reasons?
    ensures var reasons := ValidateClaims(py, claims, policy, now).reasons;
            && (TokenExpired in reasons <==>
                  Exp(py, claims).At? && now - policy.skew as real > Exp(py, claims).t as real)
            && (TokenNotYetValid in reasons <==>
                  Nbf(py, claims).At? && now + policy.skew as real < Nbf(py, claims).t as real)
            && (TokenIssuedInFuture in reasons <==>
                  "iat" in claims && Iat(py, claims).At? && Iat(py, claims).t as real > now + policy.skew as real)
  {
    var e := ExpReasons(Get(claims, "exp"), Exp(py, claims), policy.skew, now);
    var n := NbfReasons(Get(claims, "nbf"), Nbf(py, claims), policy.skew, now);
    var a := IatReasons("iat" in claims, Iat(py, claims), policy.skew, now);
    var i := IssuerReasons(Get(claims, "iss"), EffectiveIssuers(policy));
    var t := TenantReasons(Get(claims, "tid"), NormalizeRequired(policy.trustedTenants));
    assert forall r :: r in i + t + e + n + a <==> r in i || r in t || r in e || r in n || r in a;
  }

  /** Along a clock that does not run backwards the verdict moves not-yet, valid, expired and never back. */
  lemma PhaseNeverGoesBack(py: Runtime, claims: Claims, policy: Policy, clock: seq<real>)
    requires forall i, j :: 0 <= i <= j < |clock| ==> clock[i] <= clock[j]
    requires !TimestampRaises(py, claims)
    ensures forall i, j :: 0 <= i <= j < |clock| ==>
              Phase(ValidateClaims(py, claims, policy, clock[i]).reasons)
              <= Phase(ValidateClaims(py, claims, policy, clock[j]).reasons)
    ensures TimelessOk(py, claims, policy) ==>
              forall i :: 0 <= i < |clock| ==>
                (Valid(py, claims, policy, clock[i]) <==>
                 Phase(ValidateClaims(py, claims, policy, clock[i]).reasons) == 1)
  {
    forall i, j | 0 <= i <= j < |clock|
      ensures Phase(ValidateClaims(py, claims, policy, clock[i]).reasons)
              <= Phase(ValidateClaims(py, claims, policy, clock[j]).reasons)
    {
      PhaseByClock(py, claims, policy, clock[i]);
      PhaseByClock(py, claims, policy, clock[j]);
    }
    forall i | 0 <= i < |clock| && TimelessOk(py, claims, policy)
      ensures Valid(py, claims, policy, clock[i]) <==>
              Phase(ValidateClaims(py, claims, policy, clock[i]).reasons) == 1
    {
      PhaseByClock(py, claims, policy, clock[i]);
      AcceptedInstants(py, claims, policy, clock[i]);
    }
  }
}
