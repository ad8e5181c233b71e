/**
  The mock on-behalf-of exchange (`identity_lab_auth/obo.py`) and what it does to
  claims on their way from the Agent to the MCP service.
 */
module OnBehalfOf {
  import opened PyText
  import opened Json
  import opened ClaimSanitizer
  import opened Guards
  import opened Evaluators

  /** `downstream_scopes`: nothing, one text, or a list. */
  datatype ScopesArgument = NoScopes | Text(text: string) | Items(items: seq<string>)

  function CommasToSpaces(s: string): string {
    seq(|s|, i requires 0 <= i < |s| => if s[i] == ',' then ' ' else s[i])
  }

  function NotBlank(items: seq<string>): seq<string> {
    if items == [] then []
    else (if Strip(items[0]) != "" then [items[0]] else []) + NotBlank(items[1..])
  }

  lemma {:induction false} NotBlankHas(items: seq<string>, s: string)
    ensures s in NotBlank(items) <==> s in items && Strip(s) != ""
  {
    if items == [] {
    } else {
      NotBlankHas(items[1..], s);
      assert items == [items[0]] + items[1..];
    }
  }

  function NormalizeScopes(scopes: ScopesArgument): seq<string> {
    match scopes
    case NoScopes => []
    case Text(text) => Words(CommasToSpaces(text))
    case Items(items) => NotBlank(items)
  }

  datatype Exchange = Exchanged(claims: Claims) | NotAuthorized | NotDelegated | NoAudience

  /** The claims after the audience, and the scopes if any are asked for, are overwritten. */
  function Rewritten(claims: Claims, audience: string, scopes: seq<string>): Claims {
    var withAudience := claims["aud" := Str(Strip(audience))];
    if scopes != [] then withAudience["scp" := Str(JoinSpace(scopes))] else withAudience
  }

  function ExchangeOnBehalfOf(py: Runtime, context: AuthContext, audience: string, scopes: ScopesArgument): Exchange {
    if !context.authenticated || !context.authorized then NotAuthorized
    else if context.tokenType != Delegated then NotDelegated
    else if Strip(audience) == "" then NoAudience
    else Exchanged(SanitizeClaims(py, Rewritten(context.claims, audience, NormalizeScopes(scopes))))
  }

  /** The exchange as the source runs it: keys of a copied dict overwritten in place. */
  method RunExchange(py: Runtime, context: AuthContext, audience: string, scopes: ScopesArgument)
    returns (result: Exchange)
    ensures result == ExchangeOnBehalfOf(py, context, audience, scopes)
  {
    if !context.authenticated || !context.authorized {
      return NotAuthorized;
    }
    if context.tokenType != Delegated {
      return NotDelegated;
    }
    if Strip(audience) == "" {
      return NoAudience;
    }
    var oboClaims := context.claims;
    oboClaims := oboClaims["aud" := Str(Strip(audience))];
    var normalized := NormalizeScopes(scopes);
    if normalized != [] {
      oboClaims := oboClaims["scp" := Str(JoinSpace(normalized))];
    }
    result := Exchanged(SanitizeClaims(py, oboClaims));
  }

  lemma NotBlankFirst(items: seq<string>)
    requires items != []
    ensures NotBlank(items) == (if Strip(items[0]) == "" then [] else [items[0]]) + NotBlank(items[1..])
  {
  }

  lemma SplitLater<T>(a: seq<T>, b: seq<T>)
    requires a != []
    ensures (a + b)[0] == a[0] && (a + b)[1..] == a[1..] + b
  {
  }

  /** Items that are not blank keep their order. */
  lemma {:induction false} NotBlankInOrder(a: seq<string>, b: seq<string>)
    ensures NotBlank(a + b) == NotBlank(a) + NotBlank(b)
    decreases |a|
  {
    if |a| == 0 {
      assert a + b == b;
    } else {
      NotBlankInOrder(a[1..], b);
      NotBlankFirst(a);
      NotBlankFirst(a + b);
      SplitLater(a, b);
      Reassociate(if Strip(a[0]) == "" then [] else [a[0]], NotBlank(a[1..]), NotBlank(b));
    }
  }

  /** Requested scopes: none, the words of a text with commas for spaces, or the items that are not blank. */
  lemma NormalizeScopesMeans(text: string, item: string)
    ensures NormalizeScopes(NoScopes) == []
    ensures ',' !in text ==> NormalizeScopes(Text(text)) == Words(text)
    ensures NormalizeScopes(Text(text + "," + item)) == NormalizeScopes(Text(text + " " + item))
    ensures NormalizeScopes(Items([item])) == if Strip(item) == "" then [] else [item]
  {
    if ',' !in text {
      assert CommasToSpaces(text) == text;
    }
    assert CommasToSpaces(text + "," + item) == CommasToSpaces(text + " " + item);
    NotBlankFirst([item]);
  }

  /** Which contexts and audiences an exchange refuses, in which order, and what the others get. */
  lemma ExchangeAnswers(py: Runtime, context: AuthContext, audience: string, scopes: ScopesArgument)
    ensures var result := ExchangeOnBehalfOf(py, context, audience, scopes);
            && (result == NotAuthorized <==> !context.authenticated || !context.authorized)
            && (result == NotDelegated <==>
                context.authenticated && context.authorized && context.tokenType != Delegated)
            && (result == NoAudience <==>
                && context.authenticated && context.authorized && context.tokenType == Delegated
                && Strip(audience) == "")
            && (result.Exchanged? ==> forall k ::
                  Get(result.claims, k) ==
                  if k == "aud" then Str(SanitizeString(audience))
                  else if k == "scp" && NormalizeScopes(scopes) != [] then
                    Str(SanitizeString(JoinSpace(NormalizeScopes(scopes))))
                  else if k in SAFE_CLAIM_KEYS then Sanitize(py, Get(context.claims, k))
                  else Null)
  {
    if ExchangeOnBehalfOf(py, context, audience, scopes).Exchanged? {
      forall k {
        ExchangedClaim(py, context.claims, audience, NormalizeScopes(scopes), k);
      }
    }
  }

  lemma ExchangedClaim(py: Runtime, claims: Claims, audience: string, scopes: seq<string>, k: string)
    ensures Get(SanitizeClaims(py, Rewritten(claims, audience, scopes)), k) ==
            if k == "aud" then Str(SanitizeString(audience))
            else if k == "scp" && scopes != [] then Str(SanitizeString(JoinSpace(scopes)))
            else if k in SAFE_CLAIM_KEYS then Sanitize(py, Get(claims, k))
            else Null
  {
    SanitizedClaim(py, Rewritten(claims, audience, scopes), k);
    SanitizeOfStrip(audience);
  }

  // ---------- hop stability ----------

  /** What happens to claims between services: a context is built from them, or they are exchanged. */
  datatype Hop = Rebuild | Obo(audience: string, scopes: ScopesArgument)

  function AfterHop(py: Runtime, claims: Claims, hop: Hop): Claims {
    var context := SanitizeClaims(py, claims);
    match hop
    case Rebuild => context
    case Obo(audience, scopes) =>
      SanitizeClaims(py, Rewritten(context, audience, NormalizeScopes(scopes)))
  }

  function AfterHops(py: Runtime, claims: Claims, hops: seq<Hop>): Claims {
    if hops == [] then claims
    else AfterHop(py, AfterHops(py, claims, hops[..|hops| - 1]), hops[|hops| - 1])
  }

  /** `AfterHop` is the exchange applied to a freshly built, authorised, delegated context. */
  lemma HopIsExchange(py: Runtime, claims: Claims, audience: string, scopes: ScopesArgument,
                      correlationId: Option<string>)
    requires Strip(audience) != ""
    ensures ExchangeOnBehalfOf(py, FromClaims(py, claims, Delegated, true, true, correlationId), audience, scopes)
            == Exchanged(AfterHop(py, claims, Obo(audience, scopes)))
  {
  }

  /** An exchange keeps the exact key set of the context, adding only `aud` and the requested `scp`. */
  lemma ExchangeKeepsKeys(py: Runtime, claims: Claims, audience: string, scopes: ScopesArgument)
    ensures AfterHop(py, claims, Obo(audience, scopes)).Keys ==
            SanitizeClaims(py, claims).Keys + {"aud"} + (if NormalizeScopes(scopes) != [] then {"scp"} else {})
  {
    var context := SanitizeClaims(py, claims);
    var rewritten := Rewritten(context, audience, NormalizeScopes(scopes));
    forall k ensures k in SanitizeClaims(py, rewritten) <==> k in rewritten {
      SanitizedClaim(py, rewritten, k);
      SanitizedClaim(py, claims, k);
    }
    assert SanitizeClaims(py, rewritten).Keys == rewritten.Keys;
  }

  predicate Rewrites(hop: Hop, k: string) {
    hop.Obo? && (k == "aud" || k == "scp")
  }

  /** A hop that does not rewrite a claim sanitises it: once on a rebuild, twice on an exchange. */
  lemma HopOnOtherClaim(py: Runtime, claims: Claims, hop: Hop, k: string)
    requires !Rewrites(hop, k)
    ensures k in SAFE_CLAIM_KEYS ==>
              Get(AfterHop(py, claims, hop), k) ==
              var once := Sanitize(py, Get(claims, k)); if hop.Rebuild? then once else Sanitize(py, once)
    ensures k !in SAFE_CLAIM_KEYS ==> Get(AfterHop(py, claims, hop), k) == Null
  {
    SanitizedClaim(py, claims, k);
    if hop.Obo? {
      var rewritten := Rewritten(SanitizeClaims(py, claims), hop.audience, NormalizeScopes(hop.scopes));
      SanitizedClaim(py, rewritten, k);
      assert Get(rewritten, k) == Get(SanitizeClaims(py, claims), k);
    }
  }

  /** A settled claim, one the sanitiser leaves alone or a dropped one, passes any hop unchanged. */
  predicate Settled(py: Runtime, claims: Claims, k: string) {
    if k in SAFE_CLAIM_KEYS then Normal(py, Get(claims, k)) else Get(claims, k) == Null
  }

  lemma SettledClaimStays(py: Runtime, claims: Claims, hop: Hop, k: string)
    requires Settled(py, claims, k) && !Rewrites(hop, k)
    ensures Get(AfterHop(py, claims, hop), k) == Get(claims, k)
  {
    HopOnOtherClaim(py, claims, hop, k);
    FixedPointsAreNormal(py, Get(claims, k));
  }

  /** After one exchange every claim but `aud` and `scp` keeps its value through any further hops. */
  lemma {:induction false} HopStability(py: Runtime, claims: Claims, audience: string, scopes: ScopesArgument,
                                        hops: seq<Hop>, k: string)
    requires k != "aud" && k != "scp"
    ensures Get(AfterHops(py, AfterHop(py, claims, Obo(audience, scopes)), hops), k)
            == Get(AfterHop(py, claims, Obo(audience, scopes)), k)
  {
    var first := AfterHop(py, claims, Obo(audience, scopes));
    if hops == [] {
    } else {
      HopStability(py, claims, audience, scopes, hops[..|hops| - 1], k);
      HopOnOtherClaim(py, claims, Obo(audience, scopes), k);
      TwoPassesNormal(py, Get(claims, k));
      SettledClaimStays(py, AfterHops(py, first, hops[..|hops| - 1]), hops[|hops| - 1], k);
    }
  }

  lemma RewrittenClaim(context: Claims, audience: string, scopes: seq<string>, k: string)
    ensures var v := Get(Rewritten(context, audience, scopes), k); v == Get(context, k) || v.Str?
  {
  }

  /** Every claim of an exchanged dict is within the sanitiser's limits, the rewritten ones included. */
  lemma ExchangedClaimNormal(py: Runtime, claims: Claims, audience: string, scopes: ScopesArgument, k: string)
    ensures Normal(py, Get(AfterHop(py, claims, Obo(audience, scopes)), k))
  {
    var context := SanitizeClaims(py, claims);
    var v := Get(Rewritten(context, audience, NormalizeScopes(scopes)), k);
    RewrittenClaim(context, audience, NormalizeScopes(scopes), k);
    SanitizedClaim(py, claims, k);
    SanitizedClaim(py, Rewritten(context, audience, NormalizeScopes(scopes)), k);
    if v == Get(context, k) {
      TwoPassesNormal(py, Get(claims, k));
    } else {
      SanitizeStringIsNormal(v.s);
    }
  }

  /** So a rebuild does not change an exchanged dict. */
  lemma ExchangedClaimsAreFixed(py: Runtime, claims: Claims, audience: string, scopes: ScopesArgument)
    ensures var out := AfterHop(py, claims, Obo(audience, scopes)); AfterHop(py, out, Rebuild) == out
  {
    var out := AfterHop(py, claims, Obo(audience, scopes));
    var again := SanitizeClaims(py, out);
    var rewritten := Rewritten(SanitizeClaims(py, claims), audience, NormalizeScopes(scopes));
    forall k
      ensures k in out <==> k in again
      ensures Get(out, k) == Get(again, k)
    {
      ExchangedClaimNormal(py, claims, audience, scopes, k);
      SanitizedClaim(py, rewritten, k);
      SanitizedClaim(py, out, k);
      FixedPointsAreNormal(py, Get(out, k));
    }
    SameClaims(out, again);
  }

  /** The scope claim after an exchange: the requested scopes, else the caller's own, sanitised twice. */
  function ExchangedScopes(py: Runtime, claims: Claims, scopes: ScopesArgument): Value {
    if NormalizeScopes(scopes) != [] then Str(SanitizeString(JoinSpace(NormalizeScopes(scopes))))
    else Sanitize(py, Sanitize(py, Get(claims, "scp")))
  }

  lemma ExchangedScopesNormal(py: Runtime, claims: Claims, scopes: ScopesArgument)
    ensures Normal(py, ExchangedScopes(py, claims, scopes))
  {
    if NormalizeScopes(scopes) != [] {
      SanitizeStringIsNormal(JoinSpace(NormalizeScopes(scopes)));
    } else {
      TwoPassesNormal(py, Get(claims, "scp"));
    }
  }

  /** What the exchange puts under `aud` and `scp`, both within the sanitiser's limits. */
  lemma RewrittenClaims(py: Runtime, claims: Claims, audience: string, scopes: ScopesArgument)
    ensures var out := AfterHop(py, claims, Obo(audience, scopes));
            && Get(out, "aud") == Str(SanitizeString(audience))
            && Get(out, "scp") == ExchangedScopes(py, claims, scopes)
            && Normal(py, Get(out, "aud")) && Normal(py, Get(out, "scp"))
  {
    var rewritten := Rewritten(SanitizeClaims(py, claims), audience, NormalizeScopes(scopes));
    SanitizedClaim(py, claims, "scp");
    SanitizedClaim(py, rewritten, "aud");
    SanitizedClaim(py, rewritten, "scp");
    assert Get(rewritten, "aud") == Str(Strip(audience));
    SanitizeOfStrip(audience);
    SanitizeStringIsNormal(audience);
    ExchangedScopesNormal(py, claims, scopes);
  }

  // ---------- Agent to MCP ----------

  lemma NormalizedNotBlank(scopes: ScopesArgument)
    ensures forall w :: w in NormalizeScopes(scopes) ==> Strip(w) != ""
  {
    forall w | w in NormalizeScopes(scopes) ensures Strip(w) != "" {
      if scopes.Text? {
        WordsAreWords(CommasToSpaces(scopes.text));
        assert IsWord(w);
        assert Trimmed(w);
      } else {
        NotBlankHas(scopes.items, w);
      }
    }
  }

  /** Sanitising a non-blank text leaves a word. */
  lemma SanitizedKeepsAWord(s: string)
    requires Words(s) != []
    ensures Words(SanitizeString(s)) != []
  {
    SomeWordIffNotBlank(s);
    CutKeepsAWord(Strip(s), MAX_STRING);
  }

  lemma CutKeepsAWord(t: string, n: nat)
    requires t != "" && Trimmed(t) && n > 0
    ensures Words(Cut(t, n)) != []
  {
    assert Cut(t, n)[0] == t[0];
  }

  /** The claims that carry the caller's identity and lifetime. */
  const CORE_KEYS: set<string> := {"iss", "tid", "exp", "nbf", "iat"}

  predicate CoreWithinLimits(py: Runtime, claims: Claims) {
    forall k :: k in CORE_KEYS ==> Normal(py, Get(claims, k))
  }

  /** The claims MCP decides on: the exchanged ones, sanitised again on arrival. */
  function Arrived(py: Runtime, claims: Claims, audience: string, scopes: ScopesArgument): Claims {
    SanitizeClaims(py, AfterHop(py, claims, Obo(audience, scopes)))
  }

  lemma CoreClaimArrives(py: Runtime, claims: Claims, audience: string, scopes: ScopesArgument, k: string)
    requires k in SAFE_CLAIM_KEYS && k != "aud" && k != "scp" && Normal(py, Get(claims, k))
    ensures Get(Arrived(py, claims, audience, scopes), k) == Get(claims, k)
    ensures k in Arrived(py, claims, audience, scopes) <==> Get(claims, k) != Null
  {
    var out := AfterHop(py, claims, Obo(audience, scopes));
    SettledClaimStays(py, claims, Obo(audience, scopes), k);
    SanitizedClaim(py, out, k);
    FixedPointsAreNormal(py, Get(claims, k));
  }

  /** The claims without a null `iat`: sanitising drops it, and with it the failure it causes. */
  function WithoutNullIat(claims: Claims): Claims {
    if Get(claims, "iat") == Null then claims - {"iat"} else claims
  }

  lemma NullIatGone(claims: Claims, k: string)
    ensures Get(WithoutNullIat(claims), k) == Get(claims, k)
    ensures "iat" in WithoutNullIat(claims) <==> Get(claims, "iat") != Null
  {
  }

  /** The arrived claims validate exactly as the Agent's raw claims did, but for a null `iat`. */
  lemma CoreSurvivesExchange(py: Runtime, claims: Claims, audience: string, scopes: ScopesArgument,
                             policy: Policy, now: real)
    requires CoreWithinLimits(py, claims)
    ensures ValidateClaims(py, Arrived(py, claims, audience, scopes), policy, now)
            == ValidateClaims(py, WithoutNullIat(claims), policy, now)
  {
    CoreClaimArrives(py, claims, audience, scopes, "iss");
    CoreClaimArrives(py, claims, audience, scopes, "tid");
    CoreClaimArrives(py, claims, audience, scopes, "exp");
    CoreClaimArrives(py, claims, audience, scopes, "nbf");
    CoreClaimArrives(py, claims, audience, scopes, "iat");
    forall k: string {
      NullIatGone(claims, k);
    }
    ValidationReadsFiveClaims(py, Arrived(py, claims, audience, scopes), WithoutNullIat(claims), policy, now);
  }

  /** The claims as two passes of the sanitiser leave them. */
  function TwiceSanitized(py: Runtime, claims: Claims): Claims {
    SanitizeClaims(py, SanitizeClaims(py, claims))
  }

  lemma OtherClaimArrives(py: Runtime, claims: Claims, audience: string, scopes: ScopesArgument, k: string)
    requires k in SAFE_CLAIM_KEYS && k != "aud" && k != "scp"
    ensures var arrived, twice := Arrived(py, claims, audience, scopes), TwiceSanitized(py, claims);
            Get(arrived, k) == Get(twice, k) && (k in arrived <==> k in twice)
  {
    HopOnOtherClaim(py, claims, Obo(audience, scopes), k);
    SanitizedClaim(py, AfterHop(py, claims, Obo(audience, scopes)), k);
    SanitizedClaim(py, claims, k);
    SanitizedClaim(py, SanitizeClaims(py, claims), k);
    SanitizeStabilises(py, Get(claims, k));
    NullOnlyFromNull(py, Get(claims, k));
    NullOnlyFromNull(py, Sanitize(py, Get(claims, k)));
  }

  /** Whatever the caller's claims, those that arrive validate as two passes leave them. */
  lemma IdentityArrives(py: Runtime, claims: Claims, audience: string, scopes: ScopesArgument, policy: Policy,
                        now: real)
    ensures ValidateClaims(py, Arrived(py, claims, audience, scopes), policy, now)
            == ValidateClaims(py, TwiceSanitized(py, claims), policy, now)
  {
    OtherClaimArrives(py, claims, audience, scopes, "iss");
    OtherClaimArrives(py, claims, audience, scopes, "tid");
    OtherClaimArrives(py, claims, audience, scopes, "exp");
    OtherClaimArrives(py, claims, audience, scopes, "nbf");
    OtherClaimArrives(py, claims, audience, scopes, "iat");
    ValidationReadsFiveClaims(py, Arrived(py, claims, audience, scopes), TwiceSanitized(py, claims), policy, now);
  }

  lemma ArrivedRewrittenClaims(py: Runtime, claims: Claims, audience: string, scopes: ScopesArgument)
    ensures var arrived := Arrived(py, claims, audience, scopes);
            && Get(arrived, "aud") == Str(SanitizeString(audience))
            && Get(arrived, "scp") == ExchangedScopes(py, claims, scopes)
            && Get(arrived, "scope") == Null
  {
    var out := AfterHop(py, claims, Obo(audience, scopes));
    RewrittenClaims(py, claims, audience, scopes);
    NormalPairKept(py, out);
  }

  lemma NormalPairKept(py: Runtime, out: Claims)
    requires Normal(py, Get(out, "aud")) && Normal(py, Get(out, "scp"))
    ensures var arrived := SanitizeClaims(py, out);
            Get(arrived, "aud") == Get(out, "aud") && Get(arrived, "scp") == Get(out, "scp")
            && Get(arrived, "scope") == Null
  {
    NormalClaimKept(py, out, "aud");
    NormalClaimKept(py, out, "scp");
    SanitizedClaim(py, out, "scope");
  }

  /** How claims with a plain string audience and no `scope` key are read. */
  lemma ReadsAs(py: Runtime, claims: Claims, aud: string, scp: Value)
    requires Get(claims, "aud") == Str(aud) && aud != ""
    requires Get(claims, "scp") == scp && Get(claims, "scope") == Null
    ensures ExtractAudiences(py, claims) == [aud]
    ensures RequireDelegated(claims) <==> HasEntries(scp)
    ensures HasEntries(scp) ==> ExtractScopes(py, claims) == ScopeTexts(py, scp)
  {
    DelegatedIffScopes(claims);
    if HasEntries(scp) {
      assert Truthy(scp);
    }
  }

  lemma SanitizedNotEmpty(s: string)
    requires Strip(s) != ""
    ensures SanitizeString(s) != ""
  {
    assert |SanitizeString(s)| > 0;
  }

  /** What MCP reads as audience and scopes of exchanged claims. */
  lemma ArrivedAudienceAndScopes(py: Runtime, claims: Claims, audience: string, scopes: ScopesArgument)
    requires Strip(audience) != ""
    ensures var arrived, scp := Arrived(py, claims, audience, scopes), ExchangedScopes(py, claims, scopes);
            && ExtractAudiences(py, arrived) == [SanitizeString(audience)]
            && (RequireDelegated(arrived) <==> HasEntries(scp))
            && (HasEntries(scp) ==> ExtractScopes(py, arrived) == ScopeTexts(py, scp))
  {
    ArrivedRewrittenClaims(py, claims, audience, scopes);
    SanitizedNotEmpty(audience);
    ReadsAs(py, Arrived(py, claims, audience, scopes), SanitizeString(audience), ExchangedScopes(py, claims, scopes));
  }

  /** Requested scopes always leave a delegated token. */
  lemma RequestedScopesDelegate(py: Runtime, claims: Claims, scopes: ScopesArgument)
    requires NormalizeScopes(scopes) != []
    ensures HasEntries(ExchangedScopes(py, claims, scopes))
    ensures ScopeTexts(py, ExchangedScopes(py, claims, scopes))
            == Words(SanitizeString(JoinSpace(NormalizeScopes(scopes))))
  {
    NormalizedNotBlank(scopes);
    JoinNotBlank(NormalizeScopes(scopes));
    SanitizedKeepsAWord(JoinSpace(NormalizeScopes(scopes)));
  }

  /** The scope claim MCP sees makes the token delegated and meets what it requires. */
  predicate ScopesAccepted(py: Runtime, scp: Value, required: seq<string>) {
    HasEntries(scp) && Meets(ScopeTexts(py, scp), required)
  }

  lemma ArrivedChecks(py: Runtime, claims: Claims, audience: string, scopes: ScopesArgument, mcp: Settings,
                      required: seq<string>, later: real)
    requires Strip(audience) != ""
    ensures ChecksPass(py, Arrived(py, claims, audience, scopes), mcp, required, later) <==>
            && Valid(py, TwiceSanitized(py, claims), mcp.policy, later)
            && Meets([SanitizeString(audience)], mcp.audiences)
            && ScopesAccepted(py, ExchangedScopes(py, claims, scopes), required)
  {
    IdentityArrives(py, claims, audience, scopes, mcp.policy, later);
    ArrivedAudienceAndScopes(py, claims, audience, scopes);
    if Valid(py, TwiceSanitized(py, claims), mcp.policy, later) {
      ChecksRead(py, Arrived(py, claims, audience, scopes), SanitizeString(audience),
                 ExchangedScopes(py, claims, scopes), mcp, required, later);
    }
  }

  lemma ChecksRead(py: Runtime, arrived: Claims, aud: string, scp: Value, mcp: Settings, required: seq<string>,
                   now: real)
    requires Valid(py, arrived, mcp.policy, now)
    requires ExtractAudiences(py, arrived) == [aud]
    requires RequireDelegated(arrived) <==> HasEntries(scp)
    requires HasEntries(scp) ==> ExtractScopes(py, arrived) == ScopeTexts(py, scp)
    ensures ChecksPass(py, arrived, mcp, required, now) <==>
            Meets([aud], mcp.audiences) && ScopesAccepted(py, scp, required)
  {
  }

  /** The context of a granted Agent request, and what the grant says about the raw claims. */
  lemma AgentGrantMeans(py: Runtime, agent: Settings, claims: Claims, now: real, correlationId: Option<string>)
    requires agent.mode != Disabled
    ensures AgentReply(py, agent, Loaded(claims), now, correlationId).Granted? ==>
              && ChecksPass(py, claims, agent, agent.scopes, now)
              && AgentReply(py, agent, Loaded(claims), now, correlationId).context
                 == FromClaims(py, claims, Delegated, true, true, correlationId)
              && ("iat" in claims ==> claims["iat"] != Null)
  {
    ShortCircuitAgreesWithCollectAll(py, agent, Loaded(claims), now, correlationId);
    AcceptedInstants(py, claims, agent.policy, now);
  }

  /** What MCP replies to the claims an Agent context is exchanged for; None when the exchange fails. */
  function McpAfterExchange(py: Runtime, mcp: Settings, context: AuthContext, audience: string, scopes: ScopesArgument,
                            scope: string, later: real): Option<Reply>
  {
    match ExchangeOnBehalfOf(py, context, audience, scopes)
    case Exchanged(claims) => Some(McpReply(py, mcp, Loaded(claims), scope, later, context.correlationId))
    case _ => None
  }

  /**
    When MCP accepts what the Agent exchanged, for any Agent-authorised caller, any
    two policies and any two times. What decides is the caller's identity as two
    passes of the sanitiser leave it, the rewritten audience and the scopes; without
    requested scopes the caller's own `scp`, again after two passes, while its
    `scope` is lost.
   */
  lemma ChainExact(py: Runtime, agent: Settings, mcp: Settings, claims: Claims, audience: string,
                   scopes: ScopesArgument, scope: string, now: real, later: real, correlationId: Option<string>)
    requires agent.mode != Disabled && mcp.mode != Disabled
    ensures var agentReply := AgentReply(py, agent, Loaded(claims), now, correlationId);
            agentReply.Granted? ==>
              var mcpReply := McpAfterExchange(py, mcp, agentReply.context, audience, scopes, scope, later);
              && (mcpReply.Some? <==> Strip(audience) != "")
              && (mcpReply.Some? ==>
                    (mcpReply.value.Granted? <==>
                     && Valid(py, TwiceSanitized(py, claims), mcp.policy, later)
                     && Meets([SanitizeString(audience)], mcp.audiences)
                     && ScopesAccepted(py, ExchangedScopes(py, claims, scopes),
                                       ResolveRequiredScopes(mcp.scopes, scope))))
  {
    AgentGrantMeans(py, agent, claims, now, correlationId);
    if AgentReply(py, agent, Loaded(claims), now, correlationId).Granted? && Strip(audience) != "" {
      HopIsExchange(py, claims, audience, scopes, correlationId);
      var out := AfterHop(py, claims, Obo(audience, scopes));
      McpGrantsIff(py, mcp, out, scope, later, correlationId);
      ArrivedChecks(py, claims, audience, scopes, mcp, ResolveRequiredScopes(mcp.scopes, scope), later);
    }
  }

  /** A caller the Agent accepts can be lost: an issuer that is cut to one that is not accepted. */
  lemma LongIssuerIsLost(py: Runtime, claims: Claims, policy: Policy, now: real)
    requires Get(claims, "iss").Str? && SanitizeString(Get(claims, "iss").s) !in EffectiveIssuers(policy)
    requires EffectiveIssuers(policy) != {}
    ensures !Valid(py, TwiceSanitized(py, claims), policy, now)
  {
    var s := Get(claims, "iss").s;
    SanitizedClaim(py, claims, "iss");
    SanitizedClaim(py, SanitizeClaims(py, claims), "iss");
    SanitizeStringIsNormal(s);
    NormalStringIsFixed(SanitizeString(s));
    AcceptedInstants(py, TwiceSanitized(py, claims), policy, now);
  }

  /** Within the limits two passes do not change what validation says. */
  lemma LimitsKeepIdentity(py: Runtime, claims: Claims, policy: Policy, now: real)
    requires CoreWithinLimits(py, claims) && ("iat" in claims ==> claims["iat"] != Null)
    ensures ValidateClaims(py, TwiceSanitized(py, claims), policy, now) == ValidateClaims(py, claims, policy, now)
  {
    CoreSurvivesExchange(py, claims, "", NoScopes, policy, now);
    IdentityArrives(py, claims, "", NoScopes, policy, now);
    assert WithoutNullIat(claims) == claims;
  }

  /** For a caller within the limits, one policy and one time, nothing but audience and scopes decides. */
  lemma ChainWithinLimits(py: Runtime, agent: Settings, mcp: Settings, claims: Claims, audience: string,
                          scopes: ScopesArgument, scope: string, now: real, correlationId: Option<string>)
    requires agent.mode != Disabled && mcp.mode != Disabled && mcp.policy == agent.policy
    requires CoreWithinLimits(py, claims) && Strip(audience) != ""
    ensures var agentReply := AgentReply(py, agent, Loaded(claims), now, correlationId);
            agentReply.Granted? ==>
              var mcpReply := McpAfterExchange(py, mcp, agentReply.context, audience, scopes, scope, now);
              && mcpReply.Some?
              && (mcpReply.value.Granted? <==>
                  && Meets([SanitizeString(audience)], mcp.audiences)
                  && ScopesAccepted(py, ExchangedScopes(py, claims, scopes), ResolveRequiredScopes(mcp.scopes, scope)))
  {
    AgentGrantMeans(py, agent, claims, now, correlationId);
    ChainExact(py, agent, mcp, claims, audience, scopes, scope, now, now, correlationId);
    if AgentReply(py, agent, Loaded(claims), now, correlationId).Granted? {
      LimitsKeepIdentity(py, claims, agent.policy, now);
    }
  }

  lemma ShortTextKept(s: string)
    requires |Strip(s)| <= MAX_STRING
    ensures SanitizeString(s) == Strip(s) && Words(SanitizeString(s)) == Words(s)
  {
    WordsOfStrip(s);
  }

  lemma ShortAudienceMeets(audience: string, accepted: seq<string>)
    requires 0 < |Strip(audience)| <= MAX_STRING && Strip(audience) in accepted
    ensures Meets([SanitizeString(audience)], accepted)
  {
    ShortTextKept(audience);
    var a := Strip(audience);
    assert Strip(a) == a;
    MeetsWith([a], accepted, a);
  }

  lemma WordNotBlank(w: string)
    requires IsWord(w)
    ensures Strip(w) == w != ""
  {
    assert Trimmed(w);
  }

  lemma ShortScopesMeet(scopes: seq<string>, granted: string, required: seq<string>)
    requires forall w :: w in scopes ==> IsWord(w)
    requires |Strip(JoinSpace(scopes))| <= MAX_STRING
    requires granted in scopes && granted in required
    ensures NormalizeScopes(Items(scopes)) != []
    ensures Meets(Words(SanitizeString(JoinSpace(NormalizeScopes(Items(scopes))))), required)
  {
    AllKept(scopes);
    assert NormalizeScopes(Items(scopes)) == scopes;
    WordsOfJoin(scopes);
    ShortTextKept(JoinSpace(scopes));
    WordNotBlank(granted);
    MeetsWith(scopes, required, granted);
  }

  /**
    Chain completeness: with configured words within 256 characters, one of them
    required, and an allowed audience, MCP accepts exactly the callers whose identity
    two passes leave valid; within the limits, under one policy and at one time,
    those are all the Agent accepts.
   */
  lemma ChainCompletes(py: Runtime, agent: Settings, mcp: Settings, claims: Claims, audience: string,
                       scopes: seq<string>, granted: string, scope: string, now: real, later: real,
                       correlationId: Option<string>)
    requires agent.mode != Disabled && mcp.mode != Disabled
    requires 0 < |Strip(audience)| <= MAX_STRING && Strip(audience) in mcp.audiences
    requires forall w :: w in scopes ==> IsWord(w)
    requires |Strip(JoinSpace(scopes))| <= MAX_STRING
    requires granted in scopes && granted in ResolveRequiredScopes(mcp.scopes, scope)
    ensures var agentReply := AgentReply(py, agent, Loaded(claims), now, correlationId);
            agentReply.Granted? ==>
              var mcpReply := McpAfterExchange(py, mcp, agentReply.context, audience, Items(scopes), scope, later);
              && mcpReply.Some?
              && (mcpReply.value.Granted? <==> Valid(py, TwiceSanitized(py, claims), mcp.policy, later))
              && (CoreWithinLimits(py, claims) && mcp.policy == agent.policy && later == now ==>
                    mcpReply.value.Granted?)
  {
    ShortScopesMeet(scopes, granted, ResolveRequiredScopes(mcp.scopes, scope));
    ShortAudienceMeets(audience, mcp.audiences);
    RequestedScopesDelegate(py, claims, Items(scopes));
    ChainExact(py, agent, mcp, claims, audience, Items(scopes), scope, now, later, correlationId);
    AgentGrantMeans(py, agent, claims, now, correlationId);
    if AgentReply(py, agent, Loaded(claims), now, correlationId).Granted? && CoreWithinLimits(py, claims) {
      LimitsKeepIdentity(py, claims, agent.policy, now);
    }
  }

  lemma {:induction false} AllKept(items: seq<string>)
    requires forall w :: w in items ==> IsWord(w)
    ensures NotBlank(items) == items
  {
    if items == [] {
    } else {
      assert IsWord(items[0]) && Trimmed(items[0]);
      AllKept(items[1..]);
    }
  }
}
