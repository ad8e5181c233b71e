# Agentic identity lab: a verified model

This project models the decision-making code of the agentic identity lab in Dafny and proves what
the services and tools promise together:

* the bounded claim sanitiser, and the three authorisation evaluators that decide on raw (BFF, Agent) or
  sanitised (MCP) claims, composed through the on-behalf-of exchange;
* the JWKS key cache against a server that rotates its keys and fetches that fail, first one call at a time,
  then with the steps of many threads interleaved;
* the Entra bootstrap: three merge functions and nine PATCHes computed from one stale snapshot;
* the strict token-exchange chain, as steps of any number of interleaved requests;
* the recursive artifact scanner, the evidence written from what it passes, and the workflow step segmenter.

Check everything with `dafny verify dfyconfig.toml` (Dafny 4.11).

## How it is laid out

| file | module | what it models |
|---|---|---|
| `py_text.dfy`, `json.dfy` | `PyText`, `Json` | Python's string operations, JSON values, `json.dumps`; the abstract parts of the runtime |
| `claims.dfy` | `ClaimSanitizer` | `_sanitize_value`, `sanitize_claims` |
| `guards.dfy` | `Guards` | extraction, token type, `validate_claims`, `AuthContext` |
| `evaluators.dfy` | `Evaluators` | BFF, Agent and MCP authorisation and how they relate |
| `raw_refinement.dfy` | `RawRefinement` | when deciding on sanitised claims refines deciding on raw ones |
| `obo.dfy` | `OnBehalfOf` | the mock exchange, hops, Agent to MCP |
| `jwks.dfy`, `jwks_threads.dfy` | `JwksCaching`, `JwksThreads` | `JwksCache` as a class and state machine; the same shared by threads |
| `text_order.dfy`, `entra_merges.dfy`, `entra_bootstrap.dfy` | `TextOrder`, `EntraMerges`, `EntraBootstrap` | `sorted`, the merges, the PATCH sequence |
| `strict_chain.dfy`, `chain_runs.dfy` | `StrictChain`, `ChainRuns` | bearer parsers, Entra exchange, forward headers, invocation; whole runs |
| `artifact_scanner.dfy`, `redacted_evidence.dfy` | `ArtifactScanner`, `RedactedEvidence` | the smoke harness's scanner and evidence |
| `step_blocks.dfy` | `StepBlocks` | `_upload_artifact_step_blocks` |

Code that the source writes as loops, in-place updates or growing lists is a method or a class here, proved
against a function; the lemmas are about those functions. The runtime parts that stay abstract are fields of
`Json.Runtime`, `EntraMerges.Naming` and `RedactedEvidence.Tools`; each type states what is assumed of them.

## What the proofs brought out

* One sanitising pass is not idempotent, two always are. The exact condition for one to suffice is
  `SecondPassIdleIff`; `OnePassIsNotIdempotent` gives inputs that need two.
* MCP's decision on sanitised claims implies the same decision on raw claims exactly unless its settings accept
  something and hold a value the sanitiser can forge (`RefinementIff`): an issuer, tenant, audience or scope of 256
  characters and the ellipsis; a shorter scope word that ends in the ellipsis, if a word that is not required fits
  before it within 256 characters; or, as an issuer or tenant, the 513-character text some dict collapses to.
  `ForgedTokenBreaks` gives the token.
* `_merge_preauthorized` is idempotent exactly when trimming the requested ids introduces none that is not
  already there (`MergeIdempotentIff`); `_merge_required_resource_access` always is. A second bootstrap run
  changes nothing exactly when the first raised, or each of its client merges is repeatable in that sense
  (`BootstrapConvergesIff`), which ids stored without padding guarantee (`BootstrapConverges`); one padded id on a
  granted scope is enough to break that, and to leave a grant that dangles (`PaddedIdDiverges`, `PaddedIdDangles`).
* The bootstrap raises `KeyError`, after four PATCHes, exactly when a scope it needs is stored with a padded
  value (`RunCompletesIff`). It drops the scopes it does not need, so grants on those may dangle;
  `ClientGrantsExposedIff` says exactly when none does.
* A caller the Agent accepts can be refused by MCP for what the sanitiser did to its identity on the way;
  `ChainExact` says exactly when, for any policies and times.
* The bearer parser used for validation accepts a header with leading white space that the exchange parser
  refuses; otherwise they agree (`BearerParsersAgree`). A minted header gives the next hop the issued token exactly
  when the endpoint names its token type bearer (`MintedTokenRoundTrips`).
* Shared by threads, the key cache can serve a key one fetch duration longer than to a single caller, because an
  older document may overwrite a newer one before the newer fetch sets the stamp; `BoundIsAttained` gives the
  interleaving. Nor does the single caller's fetch budget hold: any number of callers at one instant make that
  many fetches without a missed lookup (`HerdFetches`), and no run makes more than one per call and one per miss.

## Model

| member | source | states |
|---|---|---|
| ClaimSanitizer.SanitizeDict | apps/shared/python/identity_lab_auth/claims.py:58-71 | the loop that fills the new dict and collapses it when its serialisation is too long computes `Sanitize` of the dict |
| ClaimSanitizer.SanitizeClaimItems | apps/shared/python/identity_lab_auth/claims.py:75-84 | the loop over the claims keeps exactly the allow-listed keys whose sanitised value is not None |
| ClaimSanitizer.SanitizedClaim | apps/shared/python/identity_lab_auth/claims.py:75-84 | a key survives exactly when it is allow-listed and its claim is not null; any other key reads as absent |
| ClaimSanitizer.AllowedKeys | apps/shared/python/identity_lab_auth/claims.py:75-84 | the twelve keys that are kept, each when its claim is not null |
| ClaimSanitizer.SanitizeLimits | apps/shared/python/identity_lab_auth/claims.py:48-72 | in figures: 256 characters of a trimmed string, 20 items of a list, 512 characters of a dict, and the ellipsis after what is cut |
| ClaimSanitizer.FixedPointsAreNormal | apps/shared/python/identity_lab_auth/claims.py:48-72 | the values the sanitiser leaves alone are exactly those within its limits, the limits being stated without it |
| ClaimSanitizer.OnlyFirstItemsMatter | apps/shared/python/identity_lab_auth/claims.py:56-57 | list items after the twentieth do not influence the result |
| ClaimSanitizer.OnlyFirstCharactersMatter | apps/shared/python/identity_lab_auth/claims.py:51-55 | two strings longer than 256 characters once trimmed sanitise alike exactly when their first 256 characters then agree |
| ClaimSanitizer.NullEntriesVanish | apps/shared/python/identity_lab_auth/claims.py:62-67 | a dict entry whose value is null may be left out anywhere without changing the result |
| ClaimSanitizer.SmallOutputIsNormal | apps/shared/python/identity_lab_auth/claims.py:48-72 | an output that serialises to at most 512 characters is a fixed point |
| ClaimSanitizer.SanitizeStabilises | apps/shared/python/identity_lab_auth/claims.py:48-72 | a third pass never changes what two passes produced, for every JSON value |
| ClaimSanitizer.SecondPassIdleIff | apps/shared/python/identity_lab_auth/claims.py:48-72 | a second pass changes nothing exactly when no oversized dict is reachable through the kept items of lists alone |
| ClaimSanitizer.OnePassIsNotIdempotent | apps/shared/python/identity_lab_auth/claims.py:68-71 | a dict with one key longer than 512 characters changes again on the second pass |
| ClaimSanitizer.OutputIff | apps/shared/python/identity_lab_auth/claims.py:48-72 | exactly which values one pass can produce, layer by layer |
| ClaimSanitizer.CollapsedTextIff | apps/shared/python/identity_lab_auth/claims.py:68-71 | the texts oversized dicts collapse to are the cut serialisations of entries the sanitiser can produce |
| ClaimSanitizer.ClaimsStabilise | apps/shared/python/identity_lab_auth/claims.py:75-84 | for a claims dict the first pass settles the key set and the second every value |
| ClaimSanitizer.ClaimsSecondPassIdleIff | apps/shared/python/identity_lab_auth/claims.py:75-84 | a second pass over a claims dict is idle exactly when no allow-listed claim collapses |
| Guards.CollectClaimFailures | apps/shared/python/identity_lab_auth/guards.py:93-151 | appending failures check by check yields the issuer, tenant, exp, nbf and iat reasons in order, or raises on a timestamp that cannot be an integer |
| Guards.ValidIff | apps/shared/python/identity_lab_auth/guards.py:93-151 | claims are valid exactly when, on the policy's own fields, their trimmed issuer is an accepted one, their tenant a trusted one, where any are configured, and the time lies from the later of nbf and iat minus the skew to exp plus the skew (leeway as in section 4.1.4 of RFC 7519) |
| Guards.ReasonsInOrder | apps/shared/python/identity_lab_auth/guards.py:93-151 | failures are reported in the order of the checks, one per check at most; an exception escapes exactly when a timestamp raises |
| Guards.PartyReasonsReported | apps/shared/python/identity_lab_auth/guards.py:113-126 | exactly when a missing or wrong issuer and a missing or untrusted tenant are reported |
| Guards.ExpiryReasonsReported | apps/shared/python/identity_lab_auth/guards.py:130-135 | exactly when a missing, unreadable or past expiry is reported |
| Guards.StartReasonsReported | apps/shared/python/identity_lab_auth/guards.py:137-142 | exactly when a missing, unreadable or future nbf is reported |
| Guards.IssueReasonsReported | apps/shared/python/identity_lab_auth/guards.py:144-149 | exactly when an unreadable or future iat is reported, and only where there is one |
| Guards.ParseTimestampMeans | apps/shared/python/identity_lab_auth/guards.py:37-50 | numbers are cut towards zero, texts are read trimmed, nothing else names a time; which values raise |
| Guards.AcceptedInstants | apps/shared/python/identity_lab_auth/guards.py:128-151 | claims are valid exactly at the instants from the later of nbf and iat minus the skew to exp plus the skew, and only if issuer and tenant pass and the timestamps parse (leeway as in section 4.1.4 of RFC 7519) |
| Guards.PhaseNeverGoesBack | apps/shared/python/identity_lab_auth/guards.py:128-151 | along any clock that does not run backwards the verdict moves from not-yet to valid to expired and never back |
| Guards.DelegatedIffScopes | apps/shared/python/identity_lab_auth/token_type.py:22-29 | a token counts as delegated exactly when its scope claim holds an entry |
| Guards.ClassifyMeans | apps/shared/python/identity_lab_auth/token_type.py:22-29 | the token type from `scp`, else `scope`, and `roles` |
| Guards.HasEntriesIff | apps/shared/python/identity_lab_auth/token_type.py:6-19 | an entry is anything but white space in a string or a true item of a list |
| Guards.ExtractMeans | apps/shared/python/identity_lab_auth/guards.py:19-34 | which texts count as scopes and as audiences |
| Guards.RequirementsIff | apps/shared/python/identity_lab_auth/guards.py:53-68 | a requirement is met when nothing but blanks is listed, or by a listed text that is not blank |
| Guards.ContextMeans | apps/shared/python/identity_lab_auth/guards.py:154-186 | a context carries the sanitised claims, scopes from their `scp` alone and audiences from their `aud` |
| Evaluators.ResolveAuthContext | apps/agent-execution/python-fastapi-agent-framework/app/auth.py:79-146 | the method that grows the failure list replies as the Agent's specification says |
| Evaluators.CollectAgentFailures | apps/agent-execution/python-fastapi-agent-framework/app/auth.py:114-130 | validation failures first, then missing delegation, audience and scope, all collected |
| Evaluators.ValidationFailuresAreUnauthorized | apps/agent-execution/python-fastapi-agent-framework/app/auth.py:44-65 | every reason `validate_claims` can emit is in the Agent's 401 set |
| Evaluators.StatusOfCollected | apps/agent-execution/python-fastapi-agent-framework/app/auth.py:44-65 | the collected set maps to 401 exactly when validation or the audience failed |
| Evaluators.ShortCircuitAgreesWithCollectAll | apps/bff/python-fastapi/app/auth.py:26-80 | for all claims, settings and times BFF and Agent give the same verdict, the same status and the same context |
| Evaluators.BffNamesACollectedReason | apps/bff/python-fastapi/app/auth.py:61-74 | the reason the BFF raises is one the Agent would have collected |
| Evaluators.BffAnswersWithoutClaims | apps/bff/python-fastapi/app/auth.py:26-59 | the BFF's answer when switched off, to a bad token and to no claims |
| Evaluators.BffAnswersClaims | apps/bff/python-fastapi/app/auth.py:61-80 | its answer to claims: the first failed check with its status and reason, or a context of the sanitised claims |
| Evaluators.BffGrantsIff | apps/bff/python-fastapi/app/auth.py:58-80 | the BFF grants exactly when the four checks pass on the raw claims |
| Evaluators.AgentAnswers | apps/agent-execution/python-fastapi-agent-framework/app/auth.py:79-146 | what the Agent tells callers it refuses |
| Evaluators.McpContextIs | apps/mcp-protected-api/python-fastapi/app/auth.py:48-86 | the context MCP builds from claims, or without them, before it enforces anything |
| Evaluators.McpAnswersWithoutClaims | apps/mcp-protected-api/python-fastapi/app/auth.py:48-102 | MCP refuses a bad token, and no claims unless it is switched off |
| Evaluators.McpAnswersClaims | apps/mcp-protected-api/python-fastapi/app/auth.py:76-134 | its answer to claims: anyone, unauthenticated, when switched off, else the first failed check on the sanitised claims with its status and reason |
| Evaluators.McpRequires | apps/mcp-protected-api/python-fastapi/app/auth.py:40-45 | an endpoint asks for its own scope unless others are configured and it is not among them |
| Evaluators.McpGrantsIff | apps/mcp-protected-api/python-fastapi/app/auth.py:48-134 | MCP grants exactly when the four checks pass on the sanitised claims, with the resolved scopes |
| Evaluators.McpAnswersAsBffOnSanitized | apps/mcp-protected-api/python-fastapi/app/auth.py:89-134 | MCP answers raw claims with the verdict and status the BFF would give their sanitised form |
| Evaluators.DecisionsCoincide | apps/mcp-protected-api/python-fastapi/app/auth.py:48-134 | when the deciding claims are within the limits and `scope` does not stand in for `scp`, deciding on sanitised and on raw claims is the same decision |
| RawRefinement.StringOrigin | apps/shared/python/identity_lab_auth/claims.py:51-71 | a string found in sanitised claims is the trimmed raw string, a cut one of 257 characters ending in the ellipsis, or a collapsed dict |
| RawRefinement.CollapsedTextLooks | apps/shared/python/identity_lab_auth/claims.py:68-71 | what a dict collapses to has 513 characters, starts like a JSON object and ends in the ellipsis |
| RawRefinement.TimeSurvives | apps/shared/python/identity_lab_auth/guards.py:37-50 | a time read from a sanitised claim is the time the raw claim names |
| RawRefinement.ScopeWordSurvives | apps/shared/python/identity_lab_auth/guards.py:19-25 | a word of a sanitised scope string is a word of the raw one, or it ends in the ellipsis and is the whole cut text or stands behind a raw word within the cut |
| RawRefinement.McpRefinesRawDecision | apps/mcp-protected-api/python-fastapi/app/auth.py:48-134 | for trimmed tenants, flat audience and scope claims and a non-null iat, whatever MCP accepts on sanitised claims passes the same checks raw, unless a configured value can be forged |
| RawRefinement.MarkedPartyBreaksRefinement | apps/shared/python/identity_lab_auth/guards.py:107-126 | with a configured issuer or tenant of 256 characters and the ellipsis, every longer one with that beginning that is not configured passes once sanitised and fails raw |
| RawRefinement.MarkedItemBreaksRefinement | apps/shared/python/identity_lab_auth/guards.py:53-68 | the same for an audience, and for a required scope in a list |
| RawRefinement.MarkedScopeBreaksRefinement | apps/shared/python/identity_lab_auth/guards.py:53-58 | a required scope word ending in the ellipsis, of any length up to 257, is met by the cut last word of a scope string that meets nothing raw |
| RawRefinement.ForgedTokenBreaks | apps/mcp-protected-api/python-fastapi/app/auth.py:48-134 | if the settings accept something and hold a forgeable value, some token-shaped claims pass every check sanitised and fail one raw |
| RawRefinement.RefinementIff | apps/mcp-protected-api/python-fastapi/app/auth.py:48-134 | deciding on sanitised claims refines deciding on raw ones, for all token-shaped claims and times, exactly unless the settings accept something and hold a forgeable value |
| RawRefinement.OpenIff | apps/mcp-protected-api/python-fastapi/app/auth.py:48-134 | MCP accepts some token-shaped claims exactly when each kind of requirement is absent or lists a value a sanitised claim can hold |
| OnBehalfOf.RunExchange | apps/shared/python/identity_lab_auth/obo.py:21-41 | overwriting `aud` and `scp` in a copy of the context's claims and sanitising gives the exchanged claims; each refused case is told apart |
| OnBehalfOf.ExchangeAnswers | apps/shared/python/identity_lab_auth/obo.py:21-41 | which contexts and audiences are refused and how, and every claim of the others' exchange |
| OnBehalfOf.NormalizeScopesMeans | apps/shared/python/identity_lab_auth/obo.py:12-18 | requested scopes: none, the words of a text with commas for spaces, or the items that are not blank |
| OnBehalfOf.ExchangeKeepsKeys | apps/shared/python/identity_lab_auth/obo.py:34-41 | an exchange has exactly the context's keys plus `aud` and, if scopes are requested, `scp` |
| OnBehalfOf.RewrittenClaims | apps/shared/python/identity_lab_auth/obo.py:34-41 | the exchanged claims carry the downstream audience and the joined scopes, trimmed and cut, or without requested scopes the caller's own as two passes leave them; both within the sanitiser's limits |
| OnBehalfOf.HopStability | apps/shared/python/identity_lab_auth/obo.py:34-41 | after the first exchange every claim but `aud` and `scp` keeps its value through any further exchanges and context rebuilds |
| OnBehalfOf.ExchangedClaimsAreFixed | apps/shared/python/identity_lab_auth/obo.py:41 | building a context from exchanged claims does not change them |
| OnBehalfOf.CoreSurvivesExchange | apps/shared/python/identity_lab_auth/obo.py:21-41 | claims within the limits validate after exchange and arrival exactly as at the Agent, a null iat counting as absent |
| OnBehalfOf.IdentityArrives | apps/shared/python/identity_lab_auth/obo.py:21-41 | whatever the caller's claims, those that reach MCP validate as two passes of the sanitiser leave them |
| OnBehalfOf.ChainExact | apps/shared/python/identity_lab_auth/obo.py:21-41 | for any Agent-authorised caller, any policies and any two times, MCP accepts the exchanged claims exactly when the identity two passes leave is valid and the rewritten audience and the requested scopes, or else the caller's own, meet its requirements |
| OnBehalfOf.LongIssuerIsLost | apps/shared/python/identity_lab_auth/obo.py:21-41 | an issuer that is cut to one MCP does not accept makes it refuse |
| OnBehalfOf.ChainWithinLimits | apps/shared/python/identity_lab_auth/obo.py:21-41 | for a caller within the limits, one policy and one time, audience and scopes alone decide |
| OnBehalfOf.ChainCompletes | apps/agent-execution/python-fastapi-agent-framework/app/auth.py:149-162 | with configured scope words within 256 characters, one of them required by MCP, and an allowed audience, MCP accepts exactly the callers whose identity two passes leave valid: within the limits, under one policy at one time, all the Agent accepts |
| JwksCaching.IndexLastWins | apps/shared/python/identity_lab_auth/jwks.py:113-114 | the index holds exactly the listed kids, each with the last entry that has it (section 5 of RFC 7517) |
| JwksCaching.JwksCache.constructor | apps/shared/python/identity_lab_auth/jwks.py:70-77 | a new cache is empty and stamped zero |
| JwksCaching.JwksCache.Refresh | apps/shared/python/identity_lab_auth/jwks.py:99-115 | a fetched document replaces both fields, a failed fetch leaves them alone |
| JwksCaching.JwksCache.GetKey | apps/shared/python/identity_lab_auth/jwks.py:79-94 | the object's new state, the outcome and the fetches it asked for are those of the state machine, raising calls included |
| JwksCaching.JwksCache.ServeNext | apps/shared/python/identity_lab_auth/jwks.py:79-94 | call after call the object's fields stay where its recorded run leads and its answered fetches stay those of that run |
| JwksCaching.ObjectHoldsLatest | apps/shared/python/identity_lab_auth/jwks.py:84-115 | an object in use is untouched and empty, or holds the index of the last document it fetched |
| JwksCaching.CacheIsLatestDocument | apps/shared/python/identity_lab_auth/jwks.py:84-115 | after any run the cache is untouched and empty, or the last-wins index of the latest fetched document with its stamp |
| JwksCaching.AsksWhen | apps/shared/python/identity_lab_auth/jwks.py:84-97 | a call asks first exactly when the stamp is older than the time to live, and again exactly when that did not fail and the kid is still missing |
| JwksCaching.GetKeyAnswers | apps/shared/python/identity_lab_auth/jwks.py:84-94 | a call raises the fetch error exactly when a fetch it asked for failed; otherwise it returns the key exactly when the document it fetched last, or the cache if it fetched none, has the kid, and then its last entry |
| JwksCaching.GetKeyLeaves | apps/shared/python/identity_lab_auth/jwks.py:99-115 | it leaves the index and stamp of the last document it fetched, or what it found |
| JwksCaching.AttemptsPerCall | apps/shared/python/identity_lab_auth/jwks.py:84-91 | the fetches `GetKey` asks for are at most two, and none exactly when the cache is fresh and holds the kid |
| JwksCaching.BoundedStaleness | apps/shared/python/identity_lab_auth/jwks.py:79-115 | on every run a returned key was published for that kid no earlier than the freshness check minus ttl minus one fetch duration |
| JwksCaching.RetiredKeyIsGone | apps/shared/python/identity_lab_auth/jwks.py:79-115 | a key the server stopped listing is not returned by any call whose freshness check reads later than that plus ttl plus one fetch duration |
| JwksCaching.FetchBudget | apps/shared/python/identity_lab_auth/jwks.py:79-115 | a run's successful fetches are at most one, plus one per missed lookup, plus one per elapsed time to live |
| JwksCaching.ObjectBudget | apps/shared/python/identity_lab_auth/jwks.py:79-115 | the same for the fetches an object has had answered |
| JwksThreads.BoundedStalenessWithThreads | apps/shared/python/identity_lab_auth/jwks.py:79-115 | with one cache shared by any number of interleaved callers a returned key was published no earlier than the freshness check minus ttl minus two fetch durations |
| JwksThreads.AloneIsOneCall | apps/shared/python/identity_lab_auth/jwks.py:79-115 | a call nobody interferes with ends as the single caller's call does, from any reachable world and whichever fetches fail |
| JwksThreads.BoundIsAttained | apps/shared/python/identity_lab_auth/jwks.py:113-115 | for every time to live and fetch duration some interleaving returns a key published exactly ttl plus two fetch durations before the freshness check, so that bound cannot be lowered |
| JwksThreads.FetchesWithThreads | apps/shared/python/identity_lab_auth/jwks.py:79-115 | on every interleaving the answered fetches are at most one per call and one per missed first lookup, so at most two per call |
| JwksThreads.HerdFetches | apps/shared/python/identity_lab_auth/jwks.py:84-91 | any number of callers at one instant each have a fetch answered with no lookup missed, all but one of them beyond the single caller's budget |
| TextOrder.LessIff | tools/ci/m9_entra_app_bootstrap.py:132 | texts are ordered by the first character that differs, a proper prefix first |
| TextOrder.AscendingUnique | tools/ci/m9_entra_app_bootstrap.py:132 | an ascending list of ids is determined by its members |
| TextOrder.Sort | tools/ci/m9_entra_app_bootstrap.py:132 | walking the id set in any order gives the one sorted list |
| EntraMerges.RunMergePreauthorized | tools/ci/m9_entra_app_bootstrap.py:116-142 | the in-place loop overwrites the client's first entry or appends one, as the specification says |
| EntraMerges.MergeUpdates | tools/ci/m9_entra_app_bootstrap.py:124-134 | only the client's first entry changes: its ids become the held ones, trimmed and without blanks, and the requested ones, ascending |
| EntraMerges.MergeAppends | tools/ci/m9_entra_app_bootstrap.py:135-142 | a client without an entry gets one at the end with the requested ids, ascending, unless none are requested |
| EntraMerges.GrantMeans | tools/ci/m9_entra_app_bootstrap.py:127-132 | a client holds a permission exactly when one of its entries carries the id, trimmed and not blank |
| EntraMerges.MergeAddsExactly | tools/ci/m9_entra_app_bootstrap.py:116-142 | a merge adds exactly the requested client grants and drops none |
| EntraMerges.MergeLeavesOthers | tools/ci/m9_entra_app_bootstrap.py:124-134 | entries other than the client's first keep their place and content |
| EntraMerges.MergeIdempotentIff | tools/ci/m9_entra_app_bootstrap.py:116-142 | merging again changes nothing exactly when trimming the requested ids introduces none that is not requested or held |
| EntraMerges.PaddedIdNeedsTwoMerges | tools/ci/m9_entra_app_bootstrap.py:127-132 | one id with a leading space, merged twice, is such a case |
| EntraMerges.TwoMergesIdempotentIff | tools/ci/m9_entra_app_bootstrap.py:287-295 | two merges for different clients can be repeated exactly when each can |
| EntraMerges.SameClientIdempotentIff | tools/ci/m9_entra_app_bootstrap.py:287-295 | two merges for one client, the second asking for more, can be repeated exactly when the larger can after the smaller |
| EntraMerges.HoldsAfterMerge | tools/ci/m9_entra_app_bootstrap.py:287-295 | whether a client has its ids, sorted and trimmed, after a merge: unchanged by one for another client, and for itself exactly when both id lists are settled by what it held |
| EntraMerges.MergesCommute | tools/ci/m9_entra_app_bootstrap.py:116-142 | merges for two different clients commute up to the order of entries |
| EntraMerges.CompleteAccess | tools/ci/m9_entra_app_bootstrap.py:94-103 | whatever order the missing ids are added in, the sorted items are the same |
| EntraMerges.RunMergeResourceAccess | tools/ci/m9_entra_app_bootstrap.py:83-113 | the in-place loop completes the resource's first entry or appends one, as the specification says |
| EntraMerges.CompletedHas | tools/ci/m9_entra_app_bootstrap.py:94-103 | a completed entry lists, by id, the last item of every held non-blank id and a scope for each id that was missing |
| EntraMerges.ResourceMergeUpdates | tools/ci/m9_entra_app_bootstrap.py:91-105 | only the resource's first entry is completed |
| EntraMerges.ResourceMergeAppends | tools/ci/m9_entra_app_bootstrap.py:106-113 | a resource without an entry gets one at the end unless nothing is requested |
| EntraMerges.ResourceGrantMeans | tools/ci/m9_entra_app_bootstrap.py:94-98 | an app needs a permission exactly when an entry of the resource lists the id |
| EntraMerges.IndexedIff | tools/ci/m9_entra_app_bootstrap.py:94-98 | an id counts when some item has it and it is not blank |
| EntraMerges.AccessOfCompleted | tools/ci/m9_entra_app_bootstrap.py:94-103 | completing an entry adds exactly the missing non-blank ids, as scopes, and keeps every held item with its type |
| EntraMerges.ResourceMergeAddsExactly | tools/ci/m9_entra_app_bootstrap.py:83-113 | a merge adds exactly the requested (resource, id) pairs, an id held under any type counting as there, and drops none |
| EntraMerges.ResourceMergeIdempotent | tools/ci/m9_entra_app_bootstrap.py:83-113 | merging resource access again changes nothing, whatever ids are asked for |
| EntraMerges.RunMergeScopes | tools/ci/m9_entra_app_bootstrap.py:59-80 | the two loops yield one scope per required value |
| EntraMerges.NewScopeReads | tools/ci/m9_entra_app_bootstrap.py:41-56 | every field of a new scope |
| EntraMerges.RepairedScopeReads | tools/ci/m9_entra_app_bootstrap.py:60-79 | of several scopes with a value the last counts, and what it lacks is filled in, field by field |
| EntraMerges.MergeKeepsExistingScope | tools/ci/m9_entra_app_bootstrap.py:66-79 | an existing scope keeps its value, id, type and all four texts; a missing id is the stable id; a new scope is made exactly when no existing value matches |
| EntraMerges.MergedScopeFits | tools/ci/m9_entra_app_bootstrap.py:66-79 | a merged scope is enabled, has an id and the required value, and needs no further repair |
| EntraMerges.MergeScopesIdempotent | tools/ci/m9_entra_app_bootstrap.py:59-80 | merging the scopes again changes nothing |
| EntraBootstrap.LastWriteWins | tools/ci/m9_entra_app_bootstrap.py:197-210 | after any sequence of PATCHes each field of each app holds the payload of the last PATCH to that app that names it, or what it held before |
| EntraBootstrap.Bootstrap | tools/ci/m9_entra_app_bootstrap.py:243-366 | the run sends exactly the planned PATCHes in order, stopping after four where the source raises KeyError |
| EntraBootstrap.RunLeaves | tools/ci/m9_entra_app_bootstrap.py:240-366 | what any run leaves in each app but its grants: its own identifier URI, version 2 tokens, the needed scopes, and the smoke client made public |
| EntraBootstrap.RunLeavesGrants | tools/ci/m9_entra_app_bootstrap.py:267-366 | the client and resource lists it leaves: those it found if it raises, else merged with the ids of the needed scopes |
| EntraBootstrap.FirstPatchesAre | tools/ci/m9_entra_app_bootstrap.py:243-265 | the payloads of the first four PATCHes, and how many there are |
| EntraBootstrap.LaterPatchesAre | tools/ci/m9_entra_app_bootstrap.py:276-366 | the fields the last five name, in order, which carry what the run leaves |
| EntraBootstrap.RunEndsIn | tools/ci/m9_entra_app_bootstrap.py:243-366 | what the nine overlapping PATCHes amount to, app by app and field by field |
| EntraBootstrap.GrantedIdsFromStart | tools/ci/m9_entra_app_bootstrap.py:251-270 | the ids the run looks up and grants are those its required scopes are stored with, or their stable ids |
| EntraBootstrap.RunAddsExactly | tools/ci/m9_entra_app_bootstrap.py:267-366 | a run changes each app's client and resource grants by exactly the intended pairs |
| EntraBootstrap.ExposedAtEndIff | tools/ci/m9_entra_app_bootstrap.py:59-80 | an app exposes an id at the end exactly when a required scope is stored with it, or has none and it is its stable id |
| EntraBootstrap.NewClientGrantsExposedIff | tools/ci/m9_entra_app_bootstrap.py:287-337 | every permission newly granted to a client is an enabled scope the app exposes at the end, exactly when each pair the run adds names, trimmed, the final id of a required scope |
| EntraBootstrap.NewClientGrantsAreExposed | tools/ci/m9_entra_app_bootstrap.py:287-337 | so it is if the app's required scopes are stored without ids or with plain ones |
| EntraBootstrap.PaddedIdDangles | tools/ci/m9_entra_app_bootstrap.py:127-132 | an Agent that stores " x" as a scope's id ends with the BFF granted "x", which it does not expose |
| EntraBootstrap.ClientGrantsExposedIff | tools/ci/m9_entra_app_bootstrap.py:243-337 | no client of an app is left with a grant the app does not expose, exactly when the grants it started with and those added name ids of required scopes |
| EntraBootstrap.NewNeedsAreExposed | tools/ci/m9_entra_app_bootstrap.py:300-366 | every permission an app newly needs is an enabled scope exposed at the end by the app with that client id |
| EntraBootstrap.NoIntermediateLoss | tools/ci/m9_entra_app_bootstrap.py:243-366 | after any number of the PATCHes no app has lost a client or resource grant it started with |
| EntraBootstrap.BootstrapConvergesIff | tools/ci/m9_entra_app_bootstrap.py:231-366 | running the whole sequence a second time changes no field of any app exactly when the run stops early or trimming the ids it grants introduces none that is neither granted nor held |
| EntraBootstrap.BootstrapConverges | tools/ci/m9_entra_app_bootstrap.py:231-366 | from any start in which the required scopes are stored without ids or with plain ones it converges, whatever else the apps hold, though each run works from a snapshot |
| EntraBootstrap.PaddedIdDiverges | tools/ci/m9_entra_app_bootstrap.py:116-142 | a tenant whose Agent stores " x" as the id of a scope is one where it does not |
| EntraBootstrap.RunCompletesIff | tools/ci/m9_entra_app_bootstrap.py:251-270 | the KeyError is raised exactly when a scope the run needs is stored with a padded value |
| EntraBootstrap.PaddedValueRaises | tools/ci/m9_entra_app_bootstrap.py:251-270 | a BFF that stores " mcp.access" is such a case: four PATCHes are sent |
| StrictChain.BearerParsersAgree | apps/shared/python/identity_lab_auth/obo.py:76-82 | the exchange parser succeeds exactly when the validation parser does and the header has no leading white space, and then reads the same token |
| StrictChain.ParsersRead | apps/shared/python/identity_lab_auth/obo.py:76-82 | what each parser reads from a header: the trimmed rest after the first space behind `bearer` in any case |
| StrictChain.MintedHeaderIs | apps/shared/python/identity_lab_auth/obo.py:108-128 | which replies yield a header, and which, on the reply's own fields |
| StrictChain.ExchangeEntraIs | apps/shared/python/identity_lab_auth/obo.py:85-128 | exactly when an exchange succeeds, what it hands over and what it returns |
| StrictChain.MintedTokenRoundTrips | apps/shared/python/identity_lab_auth/obo.py:123-128 | either parser reads back exactly the access token the reply issued, exactly when it names no token type or, in any case, bearer |
| StrictChain.BuildForwardHeaders | apps/bff/python-fastapi/app/main.py:56-84 | which headers the BFF forwards: the minted authorization in strict mode, the inbound one otherwise, and 502 exactly when the exchange fails |
| StrictChain.ForwardsWhat | apps/bff/python-fastapi/app/main.py:56-84 | which authorization is forwarded, in strict mode and otherwise |
| StrictChain.Invoke | apps/agent-execution/python-fastapi-agent-framework/app/main.py:117-170 | MCP is called exactly when the chain is enabled and an exchange succeeded, with that exchange's header; the flags in the reply say so |
| StrictChain.AgentExchangeIs | apps/agent-execution/python-fastapi-agent-framework/app/auth.py:149-188 | whether an invocation exchanges, when that fails and with which authorization it goes on, in strict mode and with the mock exchange |
| StrictChain.GrantedMockExchange | apps/agent-execution/python-fastapi-agent-framework/app/auth.py:149-162 | for a caller the Agent grants in mock mode the exchange fails only for a blank audience |
| ChainRuns.EveryCallWasMinted | apps/shared/python/identity_lab_auth/obo.py:76-128 | on every interleaving of any requests, a downstream call carries a header minted earlier by the same request in exchange for exactly the token it validated |
| ChainRuns.AcceptedRequestCalls | apps/shared/python/identity_lab_auth/obo.py:85-128 | a request whose token is accepted and exchanged can call downstream: validated, exchanged and sent, in that order and nothing else |
| ChainRuns.RejectedRequestStops | apps/shared/python/identity_lab_auth/auth_settings.py:57-93 | one whose token is rejected or missing goes nowhere |
| ChainRuns.CustodyAcrossHops | apps/shared/python/identity_lab_auth/obo.py:85-128 | when a request arrives with the header of an earlier downstream call and exchanges in turn, an exchange before that call minted it, and what is validated and handed over is the token issued then exactly if its type was bearer |
| ArtifactScanner.FindSensitivePaths | tools/ci/m8_browser_smoke_harness.py:88-103 | the recursion that extends a list of offenders in its loops returns the specified paths |
| ArtifactScanner.SensitiveKeyIff | tools/ci/m8_browser_smoke_harness.py:88-97 | a key is sensitive exactly when one of ten hints appears in it, in any case |
| ArtifactScanner.SensitiveTextIff | tools/ci/m8_browser_smoke_harness.py:77-85 | a text is sensitive exactly when one of six hints appears in it, in any case, or "eyj" and two dots |
| ArtifactScanner.TokensAreSensitive | tools/ci/m8_browser_smoke_harness.py:77-85 | every compact JSON Web Token is sensitive |
| ArtifactScanner.ItemPathReads | tools/ci/m8_browser_smoke_harness.py:88-103 | a reported path names keys after dots and positions in brackets |
| ArtifactScanner.ScanExact | tools/ci/m8_browser_smoke_harness.py:77-103 | nothing is reported exactly when no key at any depth, below sensitive keys too, carries a hint and no string leaf is sensitive |
| ArtifactScanner.ScanReportsExactly | tools/ci/m8_browser_smoke_harness.py:88-103 | the reported paths are exactly those of the sensitive keys below no other sensitive key and of the sensitive strings below none |
| RedactedEvidence.NormalizeReads | tools/ci/m8_browser_smoke_harness.py:123-135 | which of its two names each field is read from, and its default |
| RedactedEvidence.ToBoolIff | tools/ci/m8_browser_smoke_harness.py:106-113 | what counts as true |
| RedactedEvidence.NormalizeIdempotent | tools/ci/m8_browser_smoke_harness.py:106-135 | normalising a live result twice equals normalising it once |
| RedactedEvidence.CreateRedactedEvidence | tools/ci/m8_browser_smoke_harness.py:152-175 | the evidence written for any result dict, each field converted again, the artifact digest only when there is one |
| RedactedEvidence.EvidenceFields | tools/ci/m8_browser_smoke_harness.py:152-175 | the keys of the evidence and what stands under each |
| RedactedEvidence.LiveEvidenceFields | tools/ci/m8_browser_smoke_harness.py:106-175 | what the two flows write for a raw artifact, field by field |
| RedactedEvidence.ResultOfNormalized | tools/ci/m8_browser_smoke_harness.py:123-175 | converting the fields of a normalised result again changes none of them |
| RedactedEvidence.EvidenceRoundTrip | tools/ci/m8_browser_smoke_harness.py:123-175 | reading evidence back recovers status and presence flags, and digest and source when non-empty, else what replaced them; `ok` is not kept |
| RedactedEvidence.EvidencePassesIff | tools/ci/m8_browser_smoke_harness.py:88-175 | the evidence passes the scan exactly when the texts rendered from the artifact's digest and source fields are insensitive |
| RedactedEvidence.EvidencePassesScan | tools/ci/m8_browser_smoke_harness.py:88-175 | evidence written from an artifact that passed the scan, with string, number or absent digest and source, passes the scan too |
| StepBlocks.UploadStepBlocks | tools/ci/public_safe_validation.py:172-199 | the two loops sharing one index terminate and cut maximal, ordered, separate blocks that start at upload lines and hold every upload line |
| StepBlocks.EndsIff | tools/ci/public_safe_validation.py:186-193 | a line ends a block when something solid stands left of the step or another named step starts there |
| StepBlocks.IndentIs | tools/ci/public_safe_validation.py:182-190 | the indent of a line is the column of its first solid character |
| StepBlocks.StepIndentIs | tools/ci/public_safe_validation.py:182-183 | a step stands two columns left of its `uses:`, or at the margin |
| StepBlocks.JoinedByLineFeeds | tools/ci/public_safe_validation.py:197-198 | the lines of a block are joined by line feeds |
| StepBlocks.InExactlyOneBlock | tools/ci/public_safe_validation.py:172-199 | an upload line lies in one block only |
| StepBlocks.SegmentationUnique | tools/ci/public_safe_validation.py:172-199 | there is no other way to cut the lines that keeps the promise |

## Left out

- FastAPI wiring, HTTP clients, `az` calls, files, environment and clocks: their results are parameters, so every answer is covered.
- PyJWT signature and key parsing: `BadToken` or accepted claims in `Evaluators.Source`, a free choice in `ChainRuns.Validate`.
- SHA-256, uuid5, `str.title`, `float(text)`, `int(text)`, the JSON escape table and `str` of containers: abstract functions with the assumptions named in `Json.Faithful`, `EntraMerges.MintsPlainIds` and `RedactedEvidence.Sound`.
- Python's limit on the number of digits `int` and `str` convert, and rounding of float times: integers and times are exact.
- Sets, tuples and non-string dict keys in `_sanitize_value`: claims come from JSON. Unpaired surrogates in strings are not modelled.
- Lower-casing beyond what can match a lower-case ASCII text: `PyText.LowerChar` treats every other character as itself, and `PyText.LowersTo` says which texts lower to a given ASCII text.
- Directory entries that are not objects, and fields that are not lists: the bootstrap's inputs are typed records; an absent list is the empty list.
- Creating applications and service principals before the first PATCH: the start state of `EntraBootstrap.Run` is what follows.
- Scopes an app exposes beyond the required ones: the source drops them when merging, and so does `MergeScopes`; grants that other parties held on them before are kept as they are.
- The reply texts of a refused Agent request and the display fields of an accepted one: they restate the inputs.
- Sidecar validation, `validate_strict_config`, telemetry, health and debug endpoints, policy scans by regular expression: single-branch or flat code, each piece its own specification.
- RawRefinement.RefinementIff: is about token-shaped claims; a null `iat`, which is refused raw and dropped when sanitised, and containers inside `aud` or `scp` lists are outside it.
- JwksThreads.BoundedStalenessWithThreads: a fetch is counted until its stamp is stored, and threads are otherwise unconstrained.
- StepBlocks.UploadStepBlocks: works on the list of lines; the two regular expressions are arbitrary predicates on a line.
