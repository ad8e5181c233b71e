/**
  When deciding on sanitised claims refines deciding on raw ones. The BFF and the
  Agent check raw claims, MCP checks what is left of them after the sanitiser has
  trimmed and cut: for which settings does every token MCP accepts pass the same
  checks raw?
 */
module RawRefinement {
  import opened PyText
  import opened Json
  import opened ClaimSanitizer
  import opened Guards
  import opened Evaluators

  /** A trimmed string or a value that is no container. */
  predicate Flat(v: Value) {
    match v
    case Str(s) => Trimmed(s)
    case List(_) => false
    case Dict(_) => false
    case _ => true
  }

  /** The shapes section 4.1.3 of RFC 7519 allows for `aud`: a string, or a list of them. */
  predicate FlatOrList(v: Value) {
    Flat(v) || (v.List? && forall i :: 0 <= i < |v.items| ==> Flat(v.items[i]))
  }

  predicate TokenShape(claims: Claims) {
    && FlatOrList(Get(claims, "aud"))
    && FlatOrList(Get(claims, "scp"))
    && (Get(claims, "tid").Str? ==> Trimmed(Get(claims, "tid").s))
    && ("iat" in claims ==> claims["iat"] != Null)
  }

  /** Every token-shaped dict that passes once sanitised also passes raw. */
  ghost predicate Refines(py: Runtime, settings: Settings, required: seq<string>) {
    forall claims: Claims, now: real ::
      TokenShape(claims) && ChecksPass(py, SanitizeClaims(py, claims), settings, required, now)
      ==> ChecksPass(py, claims, settings, required, now)
  }

  // ---------- configured values the sanitiser can forge ----------

  /** What a trimmed string that is too long is cut to looks like. */
  predicate CutText(t: string) {
    Trimmed(t) && |t| == MAX_STRING + 1 && EndsIn(t, ELLIPSIS)
  }

  /** As an issuer or a tenant. */
  ghost predicate Forged(py: Runtime, t: string) {
    CutText(t) || CollapsedText(py, t)
  }

  /**
    As a scope: an item of a list that is cut, or the last word of a string that is
    cut, behind a word that is not itself required.
   */
  ghost predicate ForgedScope(t: string, required: seq<string>) {
    || CutText(t)
    || (IsWord(t) && EndsIn(t, ELLIPSIS) && exists u :: IsWord(u) && u !in required && |u| + |t| <= MAX_STRING)
  }

  ghost predicate AnyForged(py: Runtime, configured: set<string>) {
    exists v :: v in configured && Forged(py, v)
  }

  ghost predicate AnyCutText(configured: set<string>) {
    exists v :: v in configured && CutText(v)
  }

  ghost predicate AnyForgedScope(required: seq<string>) {
    exists v :: v in NormalizeRequired(required) && ForgedScope(v, required)
  }

  ghost predicate Forgeable(py: Runtime, settings: Settings, required: seq<string>) {
    || AnyForged(py, EffectiveIssuers(settings.policy))
    || AnyForged(py, NormalizeRequired(settings.policy.trustedTenants))
    || AnyCutText(NormalizeRequired(settings.audiences))
    || AnyForgedScope(required)
  }

  // ---------- what survives sanitising ----------

  lemma CutOrKept(s: string)
    ensures CutText(SanitizeString(s)) || SanitizeString(s) == Strip(s)
  {
    var t := Strip(s);
    if |t| > MAX_STRING {
      assert SanitizeString(s)[0] == t[0];
    }
  }

  lemma DictText(py: Runtime, entries: Entries)
    requires entries != []
    ensures |Serialise(py, Dict(entries))| > 2 && Serialise(py, Dict(entries))[..2] == "{\""
  {
    var inner := SerialiseEntries(py, entries);
    assert inner[0] == Quote(py, entries[0].key)[0] == '"';
  }

  lemma CollapseLooks(py: Runtime, entries: Entries)
    requires Collapse(py, entries).Str?
    ensures var t := Collapse(py, entries).s;
            |t| == MAX_SERIALISED + 1 && EndsIn(t, ELLIPSIS) && t[..2] == "{\""
  {
    var serialised := Serialise(py, Dict(entries));
    DictText(py, entries);
    assert serialised[..MAX_SERIALISED][..2] == serialised[..2];
  }

  /** Such a text is easily told: 512 characters of a JSON object and the mark. */
  lemma CollapsedTextLooks(py: Runtime, t: string)
    ensures CollapsedText(py, t) ==> |t| == MAX_SERIALISED + 1 && EndsIn(t, ELLIPSIS) && t[..2] == "{\""
  {
    if CollapsedText(py, t) {
      var entries :| Sanitize(py, Dict(entries)) == Str(t);
      CollapseLooks(py, SanitizeEntries(py, entries));
    }
  }

  /** Where a string in sanitised claims comes from: it is the trimmed raw string, or it was cut or collapsed. */
  lemma StringOrigin(py: Runtime, v: Value)
    requires Sanitize(py, v).Str?
    ensures var t := Sanitize(py, v).s;
            if v.Str? then CutText(t) || t == Strip(v.s) else CollapsedText(py, t) && EndsIn(t, ELLIPSIS)
  {
    match v
    case Str(s) => CutOrKept(s);
    case Dict(entries) =>
      CollapseLooks(py, SanitizeEntries(py, entries));
      assert Sanitize(py, Dict(entries)) == Str(Sanitize(py, v).s);
    case _ =>
  }

  /** A sanitised string has nothing left to trim. */
  lemma CutStringTrimmed(py: Runtime, v: Value)
    requires Sanitize(py, v).Str?
    ensures Strip(Sanitize(py, v).s) == Sanitize(py, v).s
  {
    if v.Dict? {
      assert Serialise(py, Dict(SanitizeEntries(py, v.entries)))[0] == '{';
    }
  }

  lemma IssuerSurvives(py: Runtime, iss: Value, issuers: set<string>)
    requires IssuerReasons(Sanitize(py, iss), issuers) == []
    ensures IssuerReasons(iss, issuers) == [] || AnyForged(py, issuers)
  {
    if issuers != {} {
      StringOrigin(py, iss);
      CutStringTrimmed(py, iss);
      assert Sanitize(py, iss).s in issuers;
    }
  }

  lemma TenantSurvives(py: Runtime, tid: Value, tenants: set<string>)
    requires tid.Str? ==> Trimmed(tid.s)
    requires TenantReasons(Sanitize(py, tid), tenants) == []
    ensures TenantReasons(tid, tenants) == [] || AnyForged(py, tenants)
  {
    if tenants != {} {
      StringOrigin(py, tid);
      assert Sanitize(py, tid).s in tenants;
    }
  }

  /** A time read from a sanitised claim is the time the raw claim names. */
  lemma TimeSurvives(py: Runtime, v: Value)
    requires ParseTimestamp(py, Sanitize(py, v)).At?
    ensures ParseTimestamp(py, v) == ParseTimestamp(py, Sanitize(py, v))
  {
    if Sanitize(py, v).Str? {
      StringOrigin(py, v);
      CutStringTrimmed(py, v);
    }
  }

  lemma ValidSurvives(py: Runtime, claims: Claims, policy: Policy, now: real)
    requires TokenShape(claims)
    ensures Valid(py, SanitizeClaims(py, claims), policy, now) ==>
              || Valid(py, claims, policy, now)
              || AnyForged(py, EffectiveIssuers(policy))
              || AnyForged(py, NormalizeRequired(policy.trustedTenants))
  {
    var sanitized := SanitizeClaims(py, claims);
    if Valid(py, sanitized, policy, now) {
      AcceptedInstants(py, sanitized, policy, now);
      SanitizedClaim(py, claims, "iss");
      SanitizedClaim(py, claims, "tid");
      IssuerSurvives(py, Get(claims, "iss"), EffectiveIssuers(policy));
      TenantSurvives(py, Get(claims, "tid"), NormalizeRequired(policy.trustedTenants));
      SanitizedClaim(py, claims, "exp");
      SanitizedClaim(py, claims, "nbf");
      SanitizedClaim(py, claims, "iat");
      TimeSurvives(py, Get(claims, "exp"));
      TimeSurvives(py, Get(claims, "nbf"));
      if "iat" in claims {
        TimeSurvives(py, Get(claims, "iat"));
      }
      AcceptedInstants(py, claims, policy, now);
    }
  }

  /** The texts that lists of sanitised flat items render to. */
  ghost predicate ItemText(py: Runtime, t: string) {
    exists x: Value :: Flat(x) && Truthy(x) && Normal(py, x) && py.str(x) == t
  }

  /** A flat item sanitises to a flat item, the same one unless it is a string that is cut. */
  lemma FlatItem(py: Runtime, x: Value)
    requires Flat(x)
    ensures var y := Sanitize(py, x);
            && Flat(y) && Normal(py, y) && (Truthy(y) <==> Truthy(x))
            && (y != x ==> CutText(py.str(y)))
  {
    if x.Str? {
      SanitizeStringIsNormal(x.s);
      StringOrigin(py, x);
      assert py.str(Str(SanitizeString(x.s))) == SanitizeString(x.s);
    }
  }

  /** A text taken from a sanitised list of flat items is one of the raw list, or was cut. */
  lemma ListTextSurvives(py: Runtime, items: seq<Value>, t: string)
    requires forall i :: 0 <= i < |items| ==> Flat(items[i])
    requires t in TruthyTexts(py, Sanitize(py, List(items)).items)
    ensures t in TruthyTexts(py, items) || CutText(t)
    ensures ItemText(py, t)
  {
    var out := Sanitize(py, List(items)).items;
    TextFromItem(py, out, t);
    var i :| 0 <= i < |out| && Truthy(out[i]) && py.str(out[i]) == t;
    assert out[i] == Sanitize(py, items[i]);
    FlatItem(py, items[i]);
    TextFromItem(py, items, t);
  }

  lemma SanitizedText(py: Runtime, s: string)
    requires SanitizeString(s) != ""
    ensures ItemText(py, SanitizeString(s))
  {
    var x := Str(SanitizeString(s));
    SanitizeStringIsNormal(s);
    assert py.str(x) == SanitizeString(s);
    assert Flat(x) && Truthy(x) && Normal(py, x);
  }

  lemma AudienceSurvives(py: Runtime, aud: Value, audiences: seq<string>)
    requires FlatOrList(aud)
    requires Meets(AudienceTexts(py, Sanitize(py, aud)), audiences)
    ensures Meets(AudienceTexts(py, aud), audiences) || AnyCutText(NormalizeRequired(audiences))
    ensures NormalizeRequired(audiences) == {} || exists a :: a in NormalizeRequired(audiences) && ItemText(py, a)
  {
    if NormalizeRequired(audiences) != {} {
      var a :| a in AudienceTexts(py, Sanitize(py, aud)) && a in NormalizeRequired(audiences);
      if aud.List? {
        ListTextSurvives(py, aud.items, a);
      } else {
        StringOrigin(py, aud);
        SanitizedText(py, aud.s);
      }
    }
  }

  /** A word of a sanitised scope string is a word of the raw one, unless it ends in the cut mark. */
  lemma ScopeWordSurvives(py: Runtime, s: string, w: string)
    requires w in Words(SanitizeString(s))
    ensures w in Words(s) || (IsWord(w) && EndsIn(w, ELLIPSIS))
    ensures w in Words(s) || CutText(w) || exists u :: IsWord(u) && u in Words(s) && |u| + |w| <= MAX_STRING
    ensures ItemText(py, w)
  {
    var t := Strip(s);
    WordsOfStrip(s);
    WordsAreWords(s);
    WordsAreWords(SanitizeString(s));
    WordsAreShort(SanitizeString(s));
    if w !in Words(s) {
      CutWordFits(t, MAX_STRING, ELLIPSIS, w);
      assert IsWord(w) ==> Trimmed(w);
    }
    WholeOrShorter(SanitizeString(s), w);
    var x := Str(w);
    assert py.str(x) == w && Flat(x) && Truthy(x) && Normal(py, x);
  }

  /** A word of a sanitised string is itself within the limits. */
  lemma WholeOrShorter(s: string, w: string)
    requires NormalString(s) && w in Words(s)
    ensures IsWord(w) && NormalString(w)
  {
    WordsAreWords(s);
    WordsAreShort(s);
    if |w| == |s| {
      WordLenWhole(s, w);
    }
  }

  /** A word as long as the text is the text. */
  lemma WordLenWhole(s: string, w: string)
    requires s != "" && Trimmed(s) && w in Words(s) && |w| == |s|
    ensures w == s
  {
    var k := WordLen(s);
    WordsAreShort(s[k..]);
    if w == s[..k] {
      assert k == |s|;
    }
  }

  lemma ScopeSurvives(py: Runtime, scp: Value, required: seq<string>)
    requires FlatOrList(scp)
    requires Meets(ScopeTexts(py, Sanitize(py, scp)), required)
    ensures Meets(ScopeTexts(py, scp), required) || AnyForgedScope(required)
    ensures NormalizeRequired(required) == {} || exists a :: a in NormalizeRequired(required) && ItemText(py, a)
  {
    if NormalizeRequired(required) != {} {
      var a :| a in ScopeTexts(py, Sanitize(py, scp)) && a in NormalizeRequired(required);
      if scp.List? {
        ListTextSurvives(py, scp.items, a);
        assert a in ScopeTexts(py, scp) || ForgedScope(a, required);
      } else {
        ScopeWordSurvives(py, scp.s, a);
        if !Meets(ScopeTexts(py, scp), required) {
          if u :| IsWord(u) && u in Words(scp.s) && |u| + |a| <= MAX_STRING {
            NotRequired(scp.s, required, u);
          }
          assert ForgedScope(a, required);
        }
      }
    }
  }

  lemma NotRequired(s: string, required: seq<string>, u: string)
    requires IsWord(u) && u in Words(s) && !Meets(Words(s), required)
    ensures u !in required
  {
    if u in required {
      assert Trimmed(u);
      MeetsWith(Words(s), required, u);
    }
  }

  lemma DelegatedSurvives(py: Runtime, scp: Value)
    requires FlatOrList(scp)
    requires HasEntries(Sanitize(py, scp))
    ensures HasEntries(scp) && Truthy(scp)
  {
    if scp.Str? {
      SomeWordIffNotBlank(scp.s);
      assert Strip(scp.s) != "";
    } else {
      var out := Sanitize(py, scp).items;
      var i :| 0 <= i < |out| && Truthy(out[i]);
      assert out[i] == Sanitize(py, scp.items[i]);
      FlatItem(py, scp.items[i]);
    }
  }

  /** Sanitised claims keep no `scope` key, so only `scp` speaks. */
  lemma SanitizedScopes(py: Runtime, claims: Claims)
    ensures var sv := Sanitize(py, Get(claims, "scp"));
            RawScopes(SanitizeClaims(py, claims)) == if Truthy(sv) then sv else Null
  {
    SanitizedClaim(py, claims, "scp");
    SanitizedClaim(py, claims, "scope");
  }

  lemma TruthyIfEntries(v: Value)
    requires HasEntries(v)
    ensures Truthy(v)
  {
  }

  /** The checks on sanitised claims, claim by claim. */
  lemma SanitizedChecks(py: Runtime, claims: Claims, settings: Settings, required: seq<string>, now: real)
    ensures ChecksPass(py, SanitizeClaims(py, claims), settings, required, now) ==>
              && Valid(py, SanitizeClaims(py, claims), settings.policy, now)
              && Meets(AudienceTexts(py, Sanitize(py, Get(claims, "aud"))), settings.audiences)
              && HasEntries(Sanitize(py, Get(claims, "scp")))
              && Meets(ScopeTexts(py, Sanitize(py, Get(claims, "scp"))), required)
  {
    SanitizedClaim(py, claims, "aud");
    SanitizedScopes(py, claims);
    DelegatedIffScopes(SanitizeClaims(py, claims));
  }

  /** If none of the configured values can be forged, whatever MCP accepts passes the same checks raw. */
  lemma McpRefinesRawDecision(py: Runtime, settings: Settings, claims: Claims, required: seq<string>, now: real)
    requires TokenShape(claims)
    ensures ChecksPass(py, SanitizeClaims(py, claims), settings, required, now) ==>
              ChecksPass(py, claims, settings, required, now) || Forgeable(py, settings, required)
  {
    SanitizedChecks(py, claims, settings, required, now);
    if ChecksPass(py, SanitizeClaims(py, claims), settings, required, now) {
      ValidSurvives(py, claims, settings.policy, now);
      AudienceSurvives(py, Get(claims, "aud"), settings.audiences);
      DelegatedSurvives(py, Get(claims, "scp"));
      DelegatedIffScopes(claims);
      ScopeSurvives(py, Get(claims, "scp"), required);
    }
  }

  // ---------- what MCP can accept at all ----------

  /** A text an issuer or tenant claim can hold once sanitised. */
  ghost predicate Holdable(py: Runtime, t: string) {
    NormalString(t) || CollapsedText(py, t)
  }

  ghost predicate SomeHoldable(py: Runtime, configured: set<string>) {
    configured == {} || exists v :: v in configured && Holdable(py, v)
  }

  ghost predicate SomeItemText(py: Runtime, configured: set<string>) {
    configured == {} || exists v :: v in configured && ItemText(py, v)
  }

  /** Every kind of requirement is absent or can be met by some sanitised claim. */
  ghost predicate Open(py: Runtime, settings: Settings, required: seq<string>) {
    && SomeHoldable(py, EffectiveIssuers(settings.policy))
    && SomeHoldable(py, NormalizeRequired(settings.policy.trustedTenants))
    && SomeItemText(py, NormalizeRequired(settings.audiences))
    && SomeItemText(py, NormalizeRequired(required))
  }

  lemma SanitizedHoldable(py: Runtime, v: Value)
    requires Sanitize(py, v).Str?
    ensures Holdable(py, Sanitize(py, v).s)
  {
    StringOrigin(py, v);
    if v.Str? {
      SanitizeStringIsNormal(v.s);
    }
  }

  lemma PartyOpen(py: Runtime, v: Value, configured: set<string>)
    requires IssuerReasons(Sanitize(py, v), configured) == [] || TenantReasons(Sanitize(py, v), configured) == []
    ensures SomeHoldable(py, configured)
  {
    if configured != {} {
      SanitizedHoldable(py, v);
      CutStringTrimmed(py, v);
      assert Sanitize(py, v).s in configured;
    }
  }

  lemma AcceptedIsOpen(py: Runtime, settings: Settings, claims: Claims, required: seq<string>, now: real)
    requires TokenShape(claims)
    ensures ChecksPass(py, SanitizeClaims(py, claims), settings, required, now) ==> Open(py, settings, required)
  {
    SanitizedChecks(py, claims, settings, required, now);
    if ChecksPass(py, SanitizeClaims(py, claims), settings, required, now) {
      AcceptedInstants(py, SanitizeClaims(py, claims), settings.policy, now);
      SanitizedClaim(py, claims, "iss");
      SanitizedClaim(py, claims, "tid");
      PartyOpen(py, Get(claims, "iss"), EffectiveIssuers(settings.policy));
      PartyOpen(py, Get(claims, "tid"), NormalizeRequired(settings.policy.trustedTenants));
      AudienceSurvives(py, Get(claims, "aud"), settings.audiences);
      ScopeSurvives(py, Get(claims, "scp"), required);
    }
  }

  // ---------- tokens that only pass once sanitised ----------

  /** A token with the given deciding claims, valid at time zero. */
  function Token(iss: Value, tid: Value, aud: Value, scp: Value, skew: int): Claims {
    map["iss" := iss, "tid" := tid, "aud" := aud, "scp" := scp, "exp" := Num(Int(-skew)), "nbf" := Num(Int(skew))]
  }

  predicate Accepts(py: Runtime, settings: Settings, required: seq<string>, iss: Value, tid: Value, aud: Value,
                    scp: Value)
  {
    && IssuerReasons(iss, EffectiveIssuers(settings.policy)) == []
    && TenantReasons(tid, NormalizeRequired(settings.policy.trustedTenants)) == []
    && Meets(AudienceTexts(py, aud), settings.audiences)
    && HasEntries(scp)
    && Meets(ScopeTexts(py, scp), required)
  }

  lemma ChecksByClaim(py: Runtime, settings: Settings, required: seq<string>, c: Claims, iss: Value, tid: Value,
                      aud: Value, scp: Value)
    requires Get(c, "iss") == iss && Get(c, "tid") == tid && Get(c, "aud") == aud && Get(c, "scp") == scp
    requires Get(c, "exp") == Num(Int(-settings.policy.skew)) && Get(c, "nbf") == Num(Int(settings.policy.skew))
    requires "iat" !in c && "scope" !in c
    ensures ChecksPass(py, c, settings, required, 0.0) <==> Accepts(py, settings, required, iss, tid, aud, scp)
  {
    AcceptedInstants(py, c, settings.policy, 0.0);
    DelegatedIffScopes(c);
    if HasEntries(scp) {
      TruthyIfEntries(scp);
    }
  }

  lemma TokenChecks(py: Runtime, settings: Settings, required: seq<string>, iss: Value, tid: Value, aud: Value,
                    scp: Value)
    ensures var c := Token(iss, tid, aud, scp, settings.policy.skew);
            && (ChecksPass(py, c, settings, required, 0.0) <==> Accepts(py, settings, required, iss, tid, aud, scp))
            && (ChecksPass(py, SanitizeClaims(py, c), settings, required, 0.0) <==>
                Accepts(py, settings, required, Sanitize(py, iss), Sanitize(py, tid), Sanitize(py, aud),
                        Sanitize(py, scp)))
  {
    var c := Token(iss, tid, aud, scp, settings.policy.skew);
    ChecksByClaim(py, settings, required, c, iss, tid, aud, scp);
    SanitizedClaim(py, c, "iss");
    SanitizedClaim(py, c, "tid");
    SanitizedClaim(py, c, "aud");
    SanitizedClaim(py, c, "scp");
    SanitizedClaim(py, c, "exp");
    SanitizedClaim(py, c, "nbf");
    SanitizedClaim(py, c, "iat");
    SanitizedClaim(py, c, "scope");
    ChecksByClaim(py, settings, required, SanitizeClaims(py, c), Sanitize(py, iss), Sanitize(py, tid),
                  Sanitize(py, aud), Sanitize(py, scp));
  }

  predicate TokenParts(tid: Value, aud: Value, scp: Value) {
    (tid.Str? ==> Trimmed(tid.s)) && FlatOrList(aud) && FlatOrList(scp)
  }

  lemma TokenIsShaped(iss: Value, tid: Value, aud: Value, scp: Value, skew: int)
    requires TokenParts(tid, aud, scp)
    ensures TokenShape(Token(iss, tid, aud, scp, skew))
  {
  }

  lemma NotRefining(py: Runtime, settings: Settings, required: seq<string>, claims: Claims, now: real)
    requires TokenShape(claims)
    ensures Refines(py, settings, required) && ChecksPass(py, SanitizeClaims(py, claims), settings, required, now) ==>
              ChecksPass(py, claims, settings, required, now)
  {
  }

  lemma TokenBreaks(py: Runtime, settings: Settings, required: seq<string>, iss: Value, tid: Value, aud: Value,
                    scp: Value)
    requires TokenParts(tid, aud, scp)
    requires !Accepts(py, settings, required, iss, tid, aud, scp)
    requires Accepts(py, settings, required, Sanitize(py, iss), Sanitize(py, tid), Sanitize(py, aud), Sanitize(py, scp))
    ensures !Refines(py, settings, required)
  {
    var c := Token(iss, tid, aud, scp, settings.policy.skew);
    TokenIsShaped(iss, tid, aud, scp, settings.policy.skew);
    TokenChecks(py, settings, required, iss, tid, aud, scp);
    NotRefining(py, settings, required, c, 0.0);
  }

  lemma IssuersTrimmed(policy: Policy)
    ensures forall v :: v in EffectiveIssuers(policy) ==> v != "" && Trimmed(v)
  {
  }

  /** A configured text passes as a party claim. */
  lemma PartyHeld(v: Value, t: string, configured: set<string>)
    requires v == Str(t) && Strip(t) == t != "" && t in configured
    ensures TenantReasons(v, configured) == [] && IssuerReasons(v, configured) == []
  {
  }

  lemma HoldableClaim(py: Runtime, t: string) returns (claim: Value)
    requires Holdable(py, t) && t != ""
    ensures claim.Str? ==> Trimmed(claim.s)
    ensures Sanitize(py, claim) == Str(t) && Strip(t) == t
  {
    if NormalString(t) {
      claim := Str(t);
      NormalStringIsFixed(t);
    } else {
      var entries := CollapsingDict(py, t);
      claim := Dict(entries);
    }
  }

  /** A party claim that is accepted once sanitised. */
  lemma AcceptedParty(py: Runtime, configured: set<string>) returns (claim: Value)
    requires SomeHoldable(py, configured)
    requires forall v :: v in configured ==> Strip(v) != ""
    ensures claim.Str? ==> Trimmed(claim.s)
    ensures TenantReasons(Sanitize(py, claim), configured) == []
    ensures IssuerReasons(Sanitize(py, claim), configured) == []
  {
    if configured == {} {
      claim := Null;
    } else {
      var v :| v in configured && Holdable(py, v);
      claim := HoldableClaim(py, v);
      PartyHeld(Sanitize(py, claim), v, configured);
    }
  }

  lemma ListOfOne(py: Runtime, x: Value)
    requires Flat(x) && Truthy(x)
    ensures FlatOrList(List([x]))
    ensures Sanitize(py, List([x])) == List([Sanitize(py, x)])
    ensures Truthy(Sanitize(py, x)) && HasEntries(List([Sanitize(py, x)]))
    ensures TruthyTexts(py, [x]) == [py.str(x)]
    ensures TruthyTexts(py, [Sanitize(py, x)]) == [py.str(Sanitize(py, x))]
  {
    FlatItem(py, x);
    OneText(py, x);
    OneText(py, Sanitize(py, x));
    assert Sanitize(py, List([x])).items == [Sanitize(py, x)];
    assert [Sanitize(py, x)][0] == Sanitize(py, x);
  }

  lemma OneText(py: Runtime, x: Value)
    requires Truthy(x)
    ensures TruthyTexts(py, [x]) == [py.str(x)]
  {
    assert [x][1..] == [];
  }

  /** An audience or scope claim that is accepted once sanitised. */
  lemma AcceptedList(py: Runtime, required: seq<string>) returns (claim: Value)
    requires SomeItemText(py, NormalizeRequired(required))
    ensures FlatOrList(claim) && HasEntries(Sanitize(py, claim))
    ensures Meets(AudienceTexts(py, Sanitize(py, claim)), required)
    ensures Meets(ScopeTexts(py, Sanitize(py, claim)), required)
  {
    var x := Num(Int(1));
    if NormalizeRequired(required) != {} {
      var v :| v in NormalizeRequired(required) && ItemText(py, v);
      x :| Flat(x) && Truthy(x) && Normal(py, x) && py.str(x) == v;
      FixedPointsAreNormal(py, x);
    }
    claim := List([x]);
    ListOfOne(py, x);
  }

  // ---------- one forged value is enough ----------

  /** `n` times the letter. */
  function Repeat(c: char, n: nat): (s: string)
    ensures |s| == n && forall i :: 0 <= i < n ==> s[i] == c
  {
    seq(n, i requires 0 <= i < n => c)
  }

  /** Any text can be made longer than every configured value. */
  lemma {:induction false} LongerThanAll(configured: set<string>) returns (n: nat)
    ensures forall v :: v in configured ==> |v| < n
  {
    if configured == {} {
      n := 0;
    } else {
      var v :| v in configured;
      n := LongerThanAll(configured - {v});
      n := n + |v| + 1;
    }
  }

  /** A text that begins with the stem, ends solid and is not configured. */
  lemma FreshTail(stem: string, configured: set<string>) returns (tail: string)
    ensures IsWord(tail) && stem + tail !in configured
  {
    var n := LongerThanAll(configured);
    tail := Repeat('x', n + 1);
    assert |stem + tail| > n;
  }

  /** A long string that starts with the 256 characters of the stem is cut to the stem and the mark. */
  lemma CutToStem(stem: string, tail: string)
    requires |stem| == MAX_STRING && tail != "" && Trimmed(stem + tail)
    ensures SanitizeString(stem + tail) == stem + [ELLIPSIS]
    ensures Strip(stem + [ELLIPSIS]) == stem + [ELLIPSIS] != ""
  {
    var cut := stem + [ELLIPSIS];
    assert (stem + tail)[..MAX_STRING] == stem;
    assert cut[0] == (stem + tail)[0] && Trimmed(cut);
  }

  /**
    A configured issuer or tenant of 256 characters and the mark lets every longer
    value with the same beginning through once it has been cut; raw it is refused
    unless it is configured too.
   */
  lemma MarkedPartyBreaksRefinement(py: Runtime, stem: string, tail: string, configured: set<string>)
    requires |stem| == MAX_STRING && tail != "" && Trimmed(stem + tail)
    requires stem + [ELLIPSIS] in configured && stem + tail !in configured
    ensures IssuerReasons(Sanitize(py, Str(stem + tail)), configured) == []
    ensures IssuerReasons(Str(stem + tail), configured) == [InvalidIssuer]
    ensures TenantReasons(Sanitize(py, Str(stem + tail)), configured) == []
    ensures TenantReasons(Str(stem + tail), configured) == [UntrustedTenant]
  {
    CutToStem(stem, tail);
  }

  /** So does an audience, or a scope in a list. */
  lemma MarkedItemBreaksRefinement(py: Runtime, stem: string, tail: string, required: seq<string>)
    requires |stem| == MAX_STRING && tail != "" && Trimmed(stem + tail)
    requires stem + [ELLIPSIS] in required && stem + tail !in required
    ensures var v := List([Str(stem + tail)]);
            && FlatOrList(v) && HasEntries(Sanitize(py, v))
            && Meets(AudienceTexts(py, Sanitize(py, v)), required) && !Meets(AudienceTexts(py, v), required)
            && Meets(ScopeTexts(py, Sanitize(py, v)), required) && !Meets(ScopeTexts(py, v), required)
  {
    CutToStem(stem, tail);
    var x := Str(stem + tail);
    ListOfOne(py, x);
    assert py.str(Str(stem + [ELLIPSIS])) == stem + [ELLIPSIS] && py.str(x) == stem + tail;
    MeetsWith([stem + [ELLIPSIS]], required, stem + [ELLIPSIS]);
    assert stem + [ELLIPSIS] in NormalizeRequired(required);
  }

  /** The words of a scope string that is cut within its last word, before and after. */
  lemma WordsCutInLast(pad: string, stem: string, tail: string)
    requires |pad| + |stem| == MAX_STRING && IsWord(stem + tail) && tail != ""
    requires pad == "" || (!IsSpace(pad[0]) && IsSpace(pad[|pad| - 1]))
    ensures Trimmed(pad + stem + tail)
    ensures Words(pad + stem + tail) == Words(pad) + [stem + tail]
    ensures Words(SanitizeString(pad + stem + tail)) == Words(pad) + [stem + [ELLIPSIS]]
  {
    var t, w, cut := pad + stem + tail, stem + tail, stem + [ELLIPSIS];
    assert t == pad + w && t[..MAX_STRING] == pad + stem;
    assert t[|t| - 1] == w[|w| - 1] && t[0] == if pad == "" then w[0] else pad[0];
    assert SanitizeString(t) == pad + stem + [ELLIPSIS] == pad + cut;
    assert forall i :: 0 <= i < |stem| ==> stem[i] == w[i];
    WordsThenWord(pad, w);
    WordsThenWord(pad, cut);
  }

  /**
    A required scope that ends in the mark, however short, is met by the cut last
    word of a scope string; raw the string is refused unless one of its words is
    required too.
   */
  lemma MarkedScopeBreaksRefinement(py: Runtime, pad: string, stem: string, tail: string, required: seq<string>)
    requires |pad| + |stem| == MAX_STRING && IsWord(stem + tail) && tail != ""
    requires pad == "" || (!IsSpace(pad[0]) && IsSpace(pad[|pad| - 1]))
    requires stem + [ELLIPSIS] in required && stem + tail !in required
    requires forall u :: u in Words(pad) ==> u !in required
    ensures var v := Str(pad + stem + tail);
            && FlatOrList(v) && HasEntries(Sanitize(py, v))
            && Meets(ScopeTexts(py, Sanitize(py, v)), required) && !Meets(ScopeTexts(py, v), required)
  {
    var t, cut := pad + stem + tail, stem + [ELLIPSIS];
    WordsCutInLast(pad, stem, tail);
    assert stem != "" ==> !IsSpace((stem + tail)[0]) && cut[0] == (stem + tail)[0];
    assert Trimmed(cut);
    MeetsOnly(Words(pad), cut, stem + tail, required);
  }

  lemma MeetsOnly(others: seq<string>, met: string, unmet: string, required: seq<string>)
    requires met in required && unmet !in required && Trimmed(met) && met != ""
    requires forall u :: u in others ==> u !in required
    ensures Meets(others + [met], required) && !Meets(others + [unmet], required)
  {
    assert met in others + [met];
    MeetsWith(others + [met], required, met);
    assert met in NormalizeRequired(required);
  }

  lemma StemOf(t: string) returns (stem: string)
    requires EndsIn(t, ELLIPSIS)
    ensures t == stem + [ELLIPSIS] && |stem| == |t| - 1
  {
    stem := t[..|t| - 1];
  }

  /** A dict is never accepted as a party claim raw. */
  lemma DictRefused(entries: Entries, configured: set<string>)
    requires configured != {}
    ensures IssuerReasons(Dict(entries), configured) != [] && TenantReasons(Dict(entries), configured) != []
  {
  }

  lemma ForgedParty(py: Runtime, configured: set<string>) returns (claim: Value)
    requires AnyForged(py, configured)
    requires forall v :: v in configured ==> Strip(v) != ""
    ensures claim.Str? ==> Trimmed(claim.s)
    ensures IssuerReasons(Sanitize(py, claim), configured) == [] != IssuerReasons(claim, configured)
    ensures TenantReasons(Sanitize(py, claim), configured) == [] != TenantReasons(claim, configured)
  {
    var v :| v in configured && Forged(py, v);
    if CutText(v) {
      var stem := StemOf(v);
      var tail := FreshTail(stem, configured);
      assert stem[0] == v[0];
      claim := Str(stem + tail);
      MarkedPartyBreaksRefinement(py, stem, tail, configured);
    } else {
      var entries := CollapsingDict(py, v);
      claim := Dict(entries);
      PartyHeld(Sanitize(py, claim), v, configured);
      DictRefused(entries, configured);
    }
  }

  lemma CollapsingDict(py: Runtime, t: string) returns (entries: Entries)
    requires CollapsedText(py, t)
    ensures Sanitize(py, Dict(entries)) == Str(t) && Strip(t) == t
  {
    entries :| Sanitize(py, Dict(entries)) == Str(t);
    CutStringTrimmed(py, Dict(entries));
  }

  lemma CutTextItem(py: Runtime, v: string, required: seq<string>) returns (claim: Value)
    requires v in required && CutText(v)
    ensures FlatOrList(claim) && HasEntries(Sanitize(py, claim))
    ensures Meets(AudienceTexts(py, Sanitize(py, claim)), required) && !Meets(AudienceTexts(py, claim), required)
    ensures Meets(ScopeTexts(py, Sanitize(py, claim)), required) && !Meets(ScopeTexts(py, claim), required)
  {
    var stem := StemOf(v);
    var tail := FreshTail(stem, set x | x in required);
    assert stem[0] == v[0];
    MarkedItemBreaksRefinement(py, stem, tail, required);
    claim := List([Str(stem + tail)]);
  }

  lemma PaddedWord(u: string, n: nat)
    requires IsWord(u) && n > 0
    ensures Words(u + Repeat(' ', n)) == [u]
  {
    WordsOfWordThen(u, Repeat(' ', n));
    NoWordsInSpaces(n);
  }

  lemma {:induction false} NoWordsInSpaces(n: nat)
    ensures Words(Repeat(' ', n)) == []
  {
    if n > 0 {
      NoWordsInSpaces(n - 1);
      assert Repeat(' ', n)[1..] == Repeat(' ', n - 1);
    }
  }

  lemma ForgedScopeClaim(py: Runtime, required: seq<string>) returns (claim: Value)
    requires AnyForgedScope(required)
    ensures FlatOrList(claim) && HasEntries(Sanitize(py, claim))
    ensures Meets(ScopeTexts(py, Sanitize(py, claim)), required) && !Meets(ScopeTexts(py, claim), required)
  {
    var v :| v in NormalizeRequired(required) && ForgedScope(v, required);
    if CutText(v) {
      claim := CutTextItem(py, v, required);
    } else {
      var u :| IsWord(u) && u !in required && |u| + |v| <= MAX_STRING;
      var stem := StemOf(v);
      var tail := FreshTail(stem, set x | x in required);
      var gap := MAX_STRING - |u| - |stem|;
      var pad := u + Repeat(' ', gap);
      PaddedWord(u, gap);
      assert forall i :: 0 <= i < |stem| ==> stem[i] == v[i];
      MarkedScopeBreaksRefinement(py, pad, stem, tail, required);
      claim := Str(pad + stem + tail);
    }
  }

  lemma RequiredNotBlank(values: seq<string>)
    ensures forall v :: v in NormalizeRequired(values) ==> Strip(v) != ""
  {
  }

  /** If MCP can accept anything and one configured value can be forged, some token passes only once sanitised. */
  lemma ForgedTokenBreaks(py: Runtime, settings: Settings, required: seq<string>)
    ensures Open(py, settings, required) && Forgeable(py, settings, required) ==> !Refines(py, settings, required)
  {
    if Open(py, settings, required) && Forgeable(py, settings, required) {
      var issuers := EffectiveIssuers(settings.policy);
      var tenants := NormalizeRequired(settings.policy.trustedTenants);
      IssuersTrimmed(settings.policy);
      RequiredNotBlank(settings.policy.trustedTenants);
      var iss := AcceptedParty(py, issuers);
      var tid := AcceptedParty(py, tenants);
      var aud := AcceptedList(py, settings.audiences);
      var scp := AcceptedList(py, required);
      if AnyForged(py, issuers) {
        iss := ForgedParty(py, issuers);
      } else if AnyForged(py, tenants) {
        tid := ForgedParty(py, tenants);
      } else if AnyCutText(NormalizeRequired(settings.audiences)) {
        var v :| v in NormalizeRequired(settings.audiences) && CutText(v);
        aud := CutTextItem(py, v, settings.audiences);
      } else {
        scp := ForgedScopeClaim(py, required);
      }
      TokenBreaks(py, settings, required, iss, tid, aud, scp);
    }
  }

  /**
    Exactly when deciding on sanitised claims refines deciding on raw ones: unless
    the settings accept something and hold a value the sanitiser can forge.
   */
  lemma RefinementIff(py: Runtime, settings: Settings, required: seq<string>)
    ensures Refines(py, settings, required) <==> !(Open(py, settings, required) && Forgeable(py, settings, required))
  {
    ForgedTokenBreaks(py, settings, required);
    if !(Open(py, settings, required) && Forgeable(py, settings, required)) {
      forall claims: Claims, now: real
        | TokenShape(claims) && ChecksPass(py, SanitizeClaims(py, claims), settings, required, now)
        ensures ChecksPass(py, claims, settings, required, now)
      {
        McpRefinesRawDecision(py, settings, claims, required, now);
        AcceptedIsOpen(py, settings, claims, required, now);
      }
    }
  }

  lemma OpenAccepts(py: Runtime, settings: Settings, required: seq<string>) returns (claims: Claims)
    requires Open(py, settings, required)
    ensures TokenShape(claims) && ChecksPass(py, SanitizeClaims(py, claims), settings, required, 0.0)
  {
    IssuersTrimmed(settings.policy);
    RequiredNotBlank(settings.policy.trustedTenants);
    var iss := AcceptedParty(py, EffectiveIssuers(settings.policy));
    var tid := AcceptedParty(py, NormalizeRequired(settings.policy.trustedTenants));
    var aud := AcceptedList(py, settings.audiences);
    var scp := AcceptedList(py, required);
    claims := Token(iss, tid, aud, scp, settings.policy.skew);
    TokenIsShaped(iss, tid, aud, scp, settings.policy.skew);
    TokenChecks(py, settings, required, iss, tid, aud, scp);
  }

  /** And when they accept something at all. */
  lemma OpenIff(py: Runtime, settings: Settings, required: seq<string>)
    ensures Open(py, settings, required) <==>
            exists claims, now ::
              TokenShape(claims) && ChecksPass(py, SanitizeClaims(py, claims), settings, required, now)
  {
    if Open(py, settings, required) {
      var claims := OpenAccepts(py, settings, required);
    }
    if claims, now :| TokenShape(claims) && ChecksPass(py, SanitizeClaims(py, claims), settings, required, now) {
      AcceptedIsOpen(py, settings, claims, required, now);
    }
  }
}
