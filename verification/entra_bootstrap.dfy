/**
  The Entra bootstrap run (`tools/ci/m9_entra_app_bootstrap.py`): nine PATCHes over
  four app registrations, every payload computed from one snapshot taken before the
  first of them.
 */
module EntraBootstrap {
  import opened PyText
  import opened Json
  import opened EntraMerges

  datatype AppKey = Bff | Agent | Mcp | Smoke

  datatype App = App(
    appId: string,
    identifierUris: seq<string>,
    scopes: seq<Scope>,
    preAuth: seq<PreAuth>,
    tokenVersion: Option<int>,
    required: seq<ResourceEntry>,
    fallbackPublicClient: bool,
    redirectUris: seq<string>)

  datatype Tenant = Tenant(bff: App, agent: App, mcp: App, smoke: App)

  function Of(t: Tenant, key: AppKey): App {
    match key case Bff => t.bff case Agent => t.agent case Mcp => t.mcp case Smoke => t.smoke
  }

  function With(t: Tenant, key: AppKey, app: App): Tenant {
    match key
    case Bff => t.(bff := app)
    case Agent => t.(agent := app)
    case Mcp => t.(mcp := app)
    case Smoke => t.(smoke := app)
  }

  /** A PATCH names leaf fields; `publicClient` stands for the two public-client fields it sets together. */
  datatype Patch = Patch(
    identifierUris: Option<seq<string>>,
    scopes: Option<seq<Scope>>,
    preAuth: Option<seq<PreAuth>>,
    tokenVersion: Option<int>,
    required: Option<seq<ResourceEntry>>,
    publicClient: bool)

  function Chosen<T>(patched: Option<T>, held: T): T {
    if patched.Some? then patched.value else held
  }

  function Patched(app: App, p: Patch): App {
    App(app.appId, Chosen(p.identifierUris, app.identifierUris), Chosen(p.scopes, app.scopes),
        Chosen(p.preAuth, app.preAuth), if p.tokenVersion.Some? then p.tokenVersion else app.tokenVersion,
        Chosen(p.required, app.required), p.publicClient || app.fallbackPublicClient,
        if p.publicClient then [] else app.redirectUris)
  }

  function ApplyPatch(t: Tenant, key: AppKey, p: Patch): Tenant {
    With(t, key, Patched(Of(t, key), p))
  }

  // ---------- specs ----------

  const AZURE_CLI_APP_ID := "04b07795-8ddb-461a-bbee-02f9e1bf7b46"
  const MCP_ACCESS := "mcp.access"
  const MCP_WRITE := "mcp.write"
  const ACCESS_AS_USER := "access_as_user"

  function DisplayName(environment: string, key: AppKey): string {
    "agent-identity-lab-" + environment +
    match key case Bff => "-bff" case Agent => "-agent-execution" case Mcp => "-mcp" case Smoke => "-smoke-client"
  }

  function SpecScopes(key: AppKey): seq<string> {
    match key
    case Bff => [MCP_ACCESS, ACCESS_AS_USER]
    case Agent => [MCP_ACCESS, MCP_WRITE]
    case Mcp => [MCP_ACCESS, MCP_WRITE]
    case Smoke => []
  }

  lemma SpecScopesAreRequiredValues(key: AppKey)
    ensures RequiredValues(SpecScopes(key))
  {
    assert MCP_ACCESS != MCP_WRITE;
    assert MCP_ACCESS[0] != ACCESS_AS_USER[0];
    assert Trimmed(MCP_ACCESS) && Trimmed(MCP_WRITE) && Trimmed(ACCESS_AS_USER);
  }

  function ClientId(t: Tenant, key: AppKey): string {
    Strip(Of(t, key).appId)
  }

  function Merged(naming: Naming, environment: string, t: Tenant, key: AppKey): seq<Scope> {
    MergeScopes(naming, DisplayName(environment, key), Of(t, key).scopes, SpecScopes(key))
  }

  /** `{scope["value"]: scope["id"]}[value]`, by the value as it is stored; None is the KeyError. */
  function IdOf(scopes: seq<Scope>, value: string): Option<string> {
    if scopes == [] then None
    else
      var last := scopes[|scopes| - 1];
      if last.value == value then last.id else IdOf(scopes[..|scopes| - 1], value)
  }

  /** The permission ids the run grants, per app. */
  datatype Ids = Ids(bff: seq<string>, bffAll: seq<string>, agent: seq<string>, mcp: seq<string>)

  function GrantedIds(naming: Naming, environment: string, t: Tenant): Option<Ids> {
    var bff, agent := Merged(naming, environment, t, Bff), Merged(naming, environment, t, Agent);
    var mcp := Merged(naming, environment, t, Mcp);
    match (IdOf(bff, MCP_ACCESS), IdOf(bff, ACCESS_AS_USER), IdOf(agent, MCP_ACCESS), IdOf(agent, MCP_WRITE),
           IdOf(mcp, MCP_ACCESS), IdOf(mcp, MCP_WRITE))
    case (Some(a), Some(b), Some(c), Some(d), Some(e), Some(f)) => Some(Ids([a], [a, b], [c, d], [e, f]))
    case _ => None
  }

  // ---------- payloads, all from the snapshot t ----------

  const NOTHING := Patch(None, None, None, None, None, false)

  function FirstPatch(naming: Naming, environment: string, t: Tenant, key: AppKey): Patch {
    Patch(Some(["api://" + ClientId(t, key)]), Some(Merged(naming, environment, t, key)), Some(Of(t, key).preAuth),
          Some(2), None, key == Smoke)
  }

  ghost function BffClients(t: Tenant, ids: Ids): seq<PreAuth> {
    TwoMerges(t.bff.preAuth, ClientId(t, Smoke), ids.bff, AZURE_CLI_APP_ID, ids.bffAll)
  }

  ghost function AgentClients(t: Tenant, ids: Ids): seq<PreAuth> {
    MergePreauthorized(t.agent.preAuth, ClientId(t, Bff), ids.agent)
  }

  ghost function McpClients(t: Tenant, ids: Ids): seq<PreAuth> {
    MergePreauthorized(t.mcp.preAuth, ClientId(t, Agent), ids.mcp)
  }

  ghost function BffNeeds(t: Tenant, ids: Ids): seq<ResourceEntry> {
    MergeResourceAccess(t.bff.required, ClientId(t, Agent), ids.agent)
  }

  ghost function AgentNeeds(t: Tenant, ids: Ids): seq<ResourceEntry> {
    MergeResourceAccess(t.agent.required, ClientId(t, Mcp), ids.mcp)
  }

  ghost function SmokeNeeds(t: Tenant, ids: Ids): seq<ResourceEntry> {
    MergeResourceAccess(t.smoke.required, ClientId(t, Bff), ids.bff)
  }

  /** The merged lists the last five PATCHes carry. */
  datatype Lists = Lists(
    bffScopes: seq<Scope>, agentScopes: seq<Scope>, mcpScopes: seq<Scope>,
    bffClients: seq<PreAuth>, agentClients: seq<PreAuth>, mcpClients: seq<PreAuth>,
    bffNeeds: seq<ResourceEntry>, agentNeeds: seq<ResourceEntry>, smokeNeeds: seq<ResourceEntry>)

  ghost function ListsFor(naming: Naming, environment: string, t: Tenant, ids: Ids): Lists {
    Lists(Merged(naming, environment, t, Bff), Merged(naming, environment, t, Agent),
          Merged(naming, environment, t, Mcp),
          BffClients(t, ids), AgentClients(t, ids), McpClients(t, ids),
          BffNeeds(t, ids), AgentNeeds(t, ids), SmokeNeeds(t, ids))
  }

  function LaterPatches(l: Lists): seq<(AppKey, Patch)> {
    [ (Bff, NOTHING.(scopes := Some(l.bffScopes), preAuth := Some(l.bffClients), tokenVersion := Some(2))),
      (Agent, NOTHING.(required := Some(l.agentNeeds), scopes := Some(l.agentScopes), preAuth := Some(l.agentClients))),
      (Mcp, NOTHING.(scopes := Some(l.mcpScopes), preAuth := Some(l.mcpClients))),
      (Bff, NOTHING.(required := Some(l.bffNeeds))),
      (Smoke, NOTHING.(required := Some(l.smokeNeeds), publicClient := true)) ]
  }

  function FirstPatches(naming: Naming, environment: string, t: Tenant): seq<(AppKey, Patch)> {
    [ (Bff, FirstPatch(naming, environment, t, Bff)), (Agent, FirstPatch(naming, environment, t, Agent)),
      (Mcp, FirstPatch(naming, environment, t, Mcp)), (Smoke, FirstPatch(naming, environment, t, Smoke)) ]
  }

  ghost function Patches(naming: Naming, environment: string, t: Tenant): seq<(AppKey, Patch)> {
    FirstPatches(naming, environment, t)
    + match GrantedIds(naming, environment, t)
      case Some(ids) => LaterPatches(ListsFor(naming, environment, t, ids))
      case None => []
  }

  function ApplyAll(t: Tenant, patches: seq<(AppKey, Patch)>): Tenant {
    if patches == [] then t
    else
      var last := patches[|patches| - 1];
      ApplyPatch(ApplyAll(t, patches[..|patches| - 1]), last.0, last.1)
  }

  /** The tenant after a whole run; a missing scope id stops it after the first four PATCHes. */
  ghost function Run(naming: Naming, environment: string, t: Tenant): Tenant {
    ApplyAll(t, Patches(naming, environment, t))
  }

  /** The directory the tool works on, changed by one PATCH at a time. */
  class Directory {
    var tenant: Tenant
    ghost var sent: seq<(AppKey, Patch)>

    constructor (tenant: Tenant)
      ensures this.tenant == tenant && sent == []
    {
      this.tenant := tenant;
      sent := [];
    }

    /** The fields the PATCH names hold its payload; its other fields and the other apps are as they were. */
    method Send(key: AppKey, p: Patch)
      modifies this
      ensures tenant == ApplyPatch(old(tenant), key, p)
      ensures forall other :: other != key ==> Of(tenant, other) == old(Of(tenant, other))
      ensures p.scopes.Some? ==> Of(tenant, key).scopes == p.scopes.value
      ensures p.preAuth.Some? ==> Of(tenant, key).preAuth == p.preAuth.value
      ensures p.required.Some? ==> Of(tenant, key).required == p.required.value
      ensures p == NOTHING ==> tenant == old(tenant)
      ensures sent == old(sent) + [(key, p)]
    {
      tenant := With(tenant, key, Patched(Of(tenant, key), p));
      sent := sent + [(key, p)];
    }
  }

  lemma ApplyOneMore(t: Tenant, patches: seq<(AppKey, Patch)>, key: AppKey, p: Patch)
    ensures ApplyAll(t, patches + [(key, p)]) == ApplyPatch(ApplyAll(t, patches), key, p)
  {
    assert (patches + [(key, p)])[..|patches|] == patches;
  }

  /** The payload of the last PATCH to the app that names a field, if there is one. */
  function LastWrite<T>(patches: seq<(AppKey, Patch)>, key: AppKey, field: Patch -> Option<T>): Option<T> {
    if patches == [] then None
    else
      var last := patches[|patches| - 1];
      if last.0 == key && field(last.1).Some? then field(last.1)
      else LastWrite(patches[..|patches| - 1], key, field)
  }

  lemma PatchAt(t: Tenant, patched: AppKey, p: Patch, key: AppKey)
    ensures Of(ApplyPatch(t, patched, p), key) == if patched == key then Patched(Of(t, key), p) else Of(t, key)
  {
  }

  lemma {:induction false} LastListsWin(t: Tenant, patches: seq<(AppKey, Patch)>, key: AppKey)
    ensures var before, after := Of(t, key), Of(ApplyAll(t, patches), key);
            && after.identifierUris ==
               Chosen(LastWrite(patches, key, (p: Patch) => p.identifierUris), before.identifierUris)
            && after.scopes == Chosen(LastWrite(patches, key, (p: Patch) => p.scopes), before.scopes)
            && after.preAuth == Chosen(LastWrite(patches, key, (p: Patch) => p.preAuth), before.preAuth)
            && after.required == Chosen(LastWrite(patches, key, (p: Patch) => p.required), before.required)
  {
    if patches == [] {
    } else {
      var before, last := patches[..|patches| - 1], patches[|patches| - 1];
      LastListsWin(t, before, key);
      PatchAt(ApplyAll(t, before), last.0, last.1, key);
    }
  }

  /** What a PATCH sets the fallback flag and the redirect URIs to, if it names them. */
  function PublicFlag(p: Patch): Option<bool> { if p.publicClient then Some(true) else None }
  function PublicUris(p: Patch): Option<seq<string>> { if p.publicClient then Some([]) else None }
  function TokenVersion(p: Patch): Option<Option<int>> { if p.tokenVersion.Some? then Some(p.tokenVersion) else None }

  lemma {:induction false} LastSettingsWin(t: Tenant, patches: seq<(AppKey, Patch)>, key: AppKey)
    ensures var before, after := Of(t, key), Of(ApplyAll(t, patches), key);
            && after.appId == before.appId
            && after.tokenVersion == Chosen(LastWrite(patches, key, TokenVersion), before.tokenVersion)
            && after.fallbackPublicClient == Chosen(LastWrite(patches, key, PublicFlag), before.fallbackPublicClient)
            && after.redirectUris == Chosen(LastWrite(patches, key, PublicUris), before.redirectUris)
  {
    if patches == [] {
    } else {
      var before, last := patches[..|patches| - 1], patches[|patches| - 1];
      LastSettingsWin(t, before, key);
      PatchAt(ApplyAll(t, before), last.0, last.1, key);
    }
  }

  /**
    After any sequence of PATCHes each field of each app holds the payload of the last
    PATCH to that app that names it, or what it held before.
   */
  lemma LastWriteWins(t: Tenant, patches: seq<(AppKey, Patch)>, key: AppKey)
    ensures var before := Of(t, key);
            Of(ApplyAll(t, patches), key) ==
            App(before.appId,
                Chosen(LastWrite(patches, key, (p: Patch) => p.identifierUris), before.identifierUris),
                Chosen(LastWrite(patches, key, (p: Patch) => p.scopes), before.scopes),
                Chosen(LastWrite(patches, key, (p: Patch) => p.preAuth), before.preAuth),
                Chosen(LastWrite(patches, key, TokenVersion), before.tokenVersion),
                Chosen(LastWrite(patches, key, (p: Patch) => p.required), before.required),
                Chosen(LastWrite(patches, key, PublicFlag), before.fallbackPublicClient),
                Chosen(LastWrite(patches, key, PublicUris), before.redirectUris))
  {
    LastListsWin(t, patches, key);
    LastSettingsWin(t, patches, key);
  }

  /** `bootstrap` after the apps are known to exist: returns false where the source raises KeyError. */
  method Bootstrap(naming: Naming, environment: string, directory: Directory) returns (ok: bool)
    requires directory.sent == []
    modifies directory
    ensures directory.sent == Patches(naming, environment, old(directory.tenant))
    ensures directory.tenant == Run(naming, environment, old(directory.tenant))
    ensures ok == GrantedIds(naming, environment, old(directory.tenant)).Some?
  {
    var t := directory.tenant;
    SendAndTrack(directory, t, Bff, FirstPatch(naming, environment, t, Bff));
    SendAndTrack(directory, t, Agent, FirstPatch(naming, environment, t, Agent));
    SendAndTrack(directory, t, Mcp, FirstPatch(naming, environment, t, Mcp));
    SendAndTrack(directory, t, Smoke, FirstPatch(naming, environment, t, Smoke));
    assert directory.sent == FirstPatches(naming, environment, t);
    var found := GrantedIds(naming, environment, t);
    if found.None? {
      return false;
    }
    var lists := MergeLists(naming, environment, t, found.value);
    SendLater(directory, t, lists);
    ok := true;
  }

  /** The merges of the last five payloads, run as the source runs them. */
  method MergeLists(naming: Naming, environment: string, t: Tenant, ids: Ids) returns (l: Lists)
    ensures l == ListsFor(naming, environment, t, ids)
  {
    var bffScopes := RunMergeScopes(naming, DisplayName(environment, Bff), t.bff.scopes, SpecScopes(Bff));
    var bffClients := RunMergePreauthorized(t.bff.preAuth, ClientId(t, Smoke), ids.bff);
    bffClients := RunMergePreauthorized(bffClients, AZURE_CLI_APP_ID, ids.bffAll);
    var agentNeeds := RunMergeResourceAccess(t.agent.required, ClientId(t, Mcp), ids.mcp);
    var agentScopes := RunMergeScopes(naming, DisplayName(environment, Agent), t.agent.scopes, SpecScopes(Agent));
    var agentClients := RunMergePreauthorized(t.agent.preAuth, ClientId(t, Bff), ids.agent);
    var mcpScopes := RunMergeScopes(naming, DisplayName(environment, Mcp), t.mcp.scopes, SpecScopes(Mcp));
    var mcpClients := RunMergePreauthorized(t.mcp.preAuth, ClientId(t, Agent), ids.mcp);
    var bffNeeds := RunMergeResourceAccess(t.bff.required, ClientId(t, Agent), ids.agent);
    var smokeNeeds := RunMergeResourceAccess(t.smoke.required, ClientId(t, Bff), ids.bff);
    l := Lists(bffScopes, agentScopes, mcpScopes, bffClients, agentClients, mcpClients,
               bffNeeds, agentNeeds, smokeNeeds);
  }

  method SendLater(directory: Directory, ghost start: Tenant, l: Lists)
    requires directory.tenant == ApplyAll(start, directory.sent)
    modifies directory
    ensures directory.sent == old(directory.sent) + LaterPatches(l)
    ensures directory.tenant == ApplyAll(start, directory.sent)
  {
    SendAndTrack(directory, start, Bff, NOTHING.(scopes := Some(l.bffScopes), preAuth := Some(l.bffClients),
                                                 tokenVersion := Some(2)));
    SendAndTrack(directory, start, Agent, NOTHING.(required := Some(l.agentNeeds), scopes := Some(l.agentScopes),
                                                   preAuth := Some(l.agentClients)));
    SendAndTrack(directory, start, Mcp, NOTHING.(scopes := Some(l.mcpScopes), preAuth := Some(l.mcpClients)));
    SendAndTrack(directory, start, Bff, NOTHING.(required := Some(l.bffNeeds)));
    SendAndTrack(directory, start, Smoke, NOTHING.(required := Some(l.smokeNeeds), publicClient := true));
  }

  method SendAndTrack(directory: Directory, ghost start: Tenant, key: AppKey, p: Patch)
    requires directory.tenant == ApplyAll(start, directory.sent)
    modifies directory
    ensures directory.sent == old(directory.sent) + [(key, p)]
    ensures directory.tenant == ApplyAll(start, directory.sent)
  {
    ApplyOneMore(start, directory.sent, key, p);
    directory.Send(key, p);
  }

  // ---------- the end state ----------

  function FirstApp(naming: Naming, environment: string, t: Tenant, key: AppKey): App {
    Patched(Of(t, key), FirstPatch(naming, environment, t, key))
  }

  function FirstFour(naming: Naming, environment: string, t: Tenant): Tenant {
    Tenant(FirstApp(naming, environment, t, Bff), FirstApp(naming, environment, t, Agent),
           FirstApp(naming, environment, t, Mcp), FirstApp(naming, environment, t, Smoke))
  }

  /** What the nine PATCHes amount to, read off field by field. */
  ghost function EndState(naming: Naming, environment: string, t: Tenant): Tenant {
    var first := FirstFour(naming, environment, t);
    match GrantedIds(naming, environment, t)
    case None => first
    case Some(ids) =>
      Tenant(first.bff.(preAuth := BffClients(t, ids), required := BffNeeds(t, ids)),
             first.agent.(preAuth := AgentClients(t, ids), required := AgentNeeds(t, ids)),
             first.mcp.(preAuth := McpClients(t, ids)),
             first.smoke.(required := SmokeNeeds(t, ids)))
  }

  lemma ApplyTwoParts(t: Tenant, a: seq<(AppKey, Patch)>, b: seq<(AppKey, Patch)>)
    ensures ApplyAll(t, a + b) == ApplyAll(ApplyAll(t, a), b)
  {
    if b == [] {
      assert a + b == a;
    } else {
      ApplyTwoParts(t, a, b[..|b| - 1]);
      assert (a + b)[..|a + b| - 1] == a + b[..|b| - 1];
    }
  }

  lemma ApplyFour(t: Tenant, a: (AppKey, Patch), b: (AppKey, Patch), c: (AppKey, Patch), d: (AppKey, Patch))
    ensures ApplyAll(t, [a, b, c, d]) ==
            ApplyPatch(ApplyPatch(ApplyPatch(ApplyPatch(t, a.0, a.1), b.0, b.1), c.0, c.1), d.0, d.1)
  {
    assert [a, b, c, d] == [a, b, c] + [d] && [a, b, c] == [a, b] + [c] && [a, b] == [a] + [b] && [a] == [] + [a];
    ApplyOneMore(t, [a, b, c], d.0, d.1);
    ApplyOneMore(t, [a, b], c.0, c.1);
    ApplyOneMore(t, [a], b.0, b.1);
    ApplyOneMore(t, [], a.0, a.1);
  }

  lemma FirstFourApplied(naming: Naming, environment: string, t: Tenant)
    ensures ApplyAll(t, FirstPatches(naming, environment, t)) == FirstFour(naming, environment, t)
  {
    var p := FirstPatches(naming, environment, t);
    ApplyFour(t, p[0], p[1], p[2], p[3]);
    assert p == [p[0], p[1], p[2], p[3]];
  }

  lemma LaterApplied(t: Tenant, l: Lists)
    ensures ApplyAll(t, LaterPatches(l)) ==
            Tenant(t.bff.(scopes := l.bffScopes, preAuth := l.bffClients, tokenVersion := Some(2),
                          required := l.bffNeeds),
                   t.agent.(scopes := l.agentScopes, preAuth := l.agentClients, required := l.agentNeeds),
                   t.mcp.(scopes := l.mcpScopes, preAuth := l.mcpClients),
                   t.smoke.(required := l.smokeNeeds, fallbackPublicClient := true, redirectUris := []))
  {
    var p := LaterPatches(l);
    ApplyFour(t, p[0], p[1], p[2], p[3]);
    assert p == [p[0], p[1], p[2], p[3]] + [p[4]];
    ApplyOneMore(t, [p[0], p[1], p[2], p[3]], p[4].0, p[4].1);
  }

  lemma RunEndsIn(naming: Naming, environment: string, t: Tenant)
    ensures Run(naming, environment, t) == EndState(naming, environment, t)
  {
    FirstFourApplied(naming, environment, t);
    var found := GrantedIds(naming, environment, t);
    if found.Some? {
      var l := ListsFor(naming, environment, t, found.value);
      ApplyTwoParts(t, FirstPatches(naming, environment, t), LaterPatches(l));
      LaterApplied(FirstFour(naming, environment, t), l);
    } else {
      assert Patches(naming, environment, t) == FirstPatches(naming, environment, t);
    }
  }

  // ---------- what the run grants, read off the start ----------

  /** The id the i-th required scope of an app has at the end: the one it is stored with, else the stable one. */
  function FinalId(naming: Naming, environment: string, t: Tenant, key: AppKey, i: nat): string
    requires i < |SpecScopes(key)|
  {
    match LastByValue(Of(t, key).scopes, SpecScopes(key)[i])
    case Some(Scope(_, Some(id), _, _, _, _, _, _)) => id
    case _ => naming.stableId(DisplayName(environment, key), SpecScopes(key)[i])
  }

  lemma MergedHasFinalId(naming: Naming, environment: string, t: Tenant, key: AppKey, i: nat)
    requires i < |SpecScopes(key)|
    ensures var m := Merged(naming, environment, t, key)[i];
            m.enabled && m.id == Some(FinalId(naming, environment, t, key, i))
  {
  }

  /** The scope an existing registration already has for the i-th required value, if any, is stored without padding. */
  predicate StoredPlainly(t: Tenant, key: AppKey, i: nat)
    requires i < |SpecScopes(key)|
  {
    var found := LastByValue(Of(t, key).scopes, SpecScopes(key)[i]);
    found.Some? ==> Trimmed(found.value.value)
  }

  lemma {:induction false} IdOfNone(scopes: seq<Scope>, value: string)
    requires forall k :: 0 <= k < |scopes| ==> scopes[k].value != value
    ensures IdOf(scopes, value) == None
  {
    if scopes == [] {
    } else {
      IdOfNone(scopes[..|scopes| - 1], value);
    }
  }

  /** Of scopes whose trimmed values are distinct, a value finds its own, if that is stored as it is. */
  lemma {:induction false} IdOfAmong(scopes: seq<Scope>, values: seq<string>, i: nat)
    requires |scopes| == |values| && RequiredValues(values) && i < |values|
    requires forall k :: 0 <= k < |scopes| ==> Strip(scopes[k].value) == values[k]
    ensures IdOf(scopes, values[i]) == if scopes[i].value == values[i] then scopes[i].id else None
  {
    var n := |scopes| - 1;
    if i < n {
      IdOfAmong(scopes[..n], values[..n], i);
      assert Strip(values[i]) == values[i];
    } else if scopes[n].value != values[n] {
      assert Strip(values[n]) == values[n];
      IdOfNone(scopes, values[n]);
    }
  }

  /** Looking up a required value succeeds exactly when it is stored without padding, and yields its final id. */
  lemma LookupIs(naming: Naming, environment: string, t: Tenant, key: AppKey, i: nat)
    requires i < |SpecScopes(key)|
    ensures IdOf(Merged(naming, environment, t, key), SpecScopes(key)[i]) ==
            if StoredPlainly(t, key, i) then Some(FinalId(naming, environment, t, key, i)) else None
  {
    var merged, values := Merged(naming, environment, t, key), SpecScopes(key);
    SpecScopesAreRequiredValues(key);
    forall k | 0 <= k < |values| ensures Strip(merged[k].value) == values[k] {
      MergedScopeFits(naming, DisplayName(environment, key), Of(t, key).scopes, values[k]);
    }
    IdOfAmong(merged, values, i);
    MergedHasFinalId(naming, environment, t, key, i);
    LastByValueFits(Of(t, key).scopes, values[i]);
    var found := LastByValue(Of(t, key).scopes, values[i]);
    assert found.Some? ==> merged[i].value == found.value.value;
  }

  predicate BothStoredPlainly(t: Tenant, key: AppKey)
    requires |SpecScopes(key)| == 2
  {
    StoredPlainly(t, key, 0) && StoredPlainly(t, key, 1)
  }

  /** No scope the run needs is stored with a padded value. */
  predicate Completes(t: Tenant) {
    BothStoredPlainly(t, Bff) && BothStoredPlainly(t, Agent) && BothStoredPlainly(t, Mcp)
  }

  /** The ids the run grants if it completes. */
  function StartIds(naming: Naming, environment: string, t: Tenant): Ids {
    Ids([FinalId(naming, environment, t, Bff, 0)],
        [FinalId(naming, environment, t, Bff, 0), FinalId(naming, environment, t, Bff, 1)],
        [FinalId(naming, environment, t, Agent, 0), FinalId(naming, environment, t, Agent, 1)],
        [FinalId(naming, environment, t, Mcp, 0), FinalId(naming, environment, t, Mcp, 1)])
  }

  /** What the run looks up in the scopes it merged, in terms of the scopes it found. */
  lemma GrantedIdsFromStart(naming: Naming, environment: string, t: Tenant)
    ensures GrantedIds(naming, environment, t) ==
            if Completes(t) then Some(StartIds(naming, environment, t)) else None
  {
    LookupIs(naming, environment, t, Bff, 0);
    LookupIs(naming, environment, t, Bff, 1);
    LookupIs(naming, environment, t, Agent, 0);
    LookupIs(naming, environment, t, Agent, 1);
    LookupIs(naming, environment, t, Mcp, 0);
    LookupIs(naming, environment, t, Mcp, 1);
  }

  /** The run raises KeyError exactly when a scope it needs is stored with a padded value. */
  lemma RunCompletesIff(naming: Naming, environment: string, t: Tenant)
    ensures GrantedIds(naming, environment, t).Some? <==>
            && StoredPlainly(t, Bff, 0) && StoredPlainly(t, Bff, 1)
            && StoredPlainly(t, Agent, 0) && StoredPlainly(t, Agent, 1)
            && StoredPlainly(t, Mcp, 0) && StoredPlainly(t, Mcp, 1)
  {
    GrantedIdsFromStart(naming, environment, t);
  }

  /** A scope with the given value and id and no texts. */
  function BareScope(value: string, id: string): Scope {
    Scope(value, Some(id), true, None, None, None, None, None)
  }

  /** With the BFF's scope stored as " mcp.access" the run stops after four PATCHes. */
  lemma PaddedValueRaises(naming: Naming, environment: string, t: Tenant, id: string)
    requires t.bff.scopes == [BareScope(" mcp.access", id)]
    ensures GrantedIds(naming, environment, t) == None
    ensures |Patches(naming, environment, t)| == 4
  {
    var stored := BareScope(" mcp.access", id);
    assert Strip(stored.value) == MCP_ACCESS by {
      assert " mcp.access"[1..] == MCP_ACCESS;
    }
    assert LastByValue([stored], MCP_ACCESS) == Some(stored);
    assert !StoredPlainly(t, Bff, 0);
    RunCompletesIff(naming, environment, t);
  }

  /** The stored scope for a required value has no id or one without padding. */
  predicate StoredIdPlain(t: Tenant, key: AppKey, i: nat)
    requires i < |SpecScopes(key)|
  {
    match LastByValue(Of(t, key).scopes, SpecScopes(key)[i])
    case Some(Scope(_, Some(id), _, _, _, _, _, _)) => id != "" && Trimmed(id)
    case _ => true
  }

  predicate StoredIdsPlain(t: Tenant, key: AppKey) {
    forall i :: 0 <= i < |SpecScopes(key)| ==> StoredIdPlain(t, key, i)
  }

  /** Then so is its final id, a stable one being plain. */
  lemma FinalIdPlain(naming: Naming, environment: string, t: Tenant, key: AppKey, i: nat)
    requires i < |SpecScopes(key)| && StoredIdPlain(t, key, i)
    ensures FinalId(naming, environment, t, key, i) != "" && Trimmed(FinalId(naming, environment, t, key, i))
  {
    assert MintsPlainIds(naming);
  }

  // ---------- the end of a run, field by field ----------

  /** The scopes each app needs, by value. */
  function NeededScopes(naming: Naming, environment: string, t: Tenant, key: AppKey): seq<Scope> {
    match key
    case Bff =>
      MergeScopes(naming, "agent-identity-lab-" + environment + "-bff", t.bff.scopes, ["mcp.access", "access_as_user"])
    case Agent =>
      MergeScopes(naming, "agent-identity-lab-" + environment + "-agent-execution", t.agent.scopes,
                  ["mcp.access", "mcp.write"])
    case Mcp =>
      MergeScopes(naming, "agent-identity-lab-" + environment + "-mcp", t.mcp.scopes, ["mcp.access", "mcp.write"])
    case Smoke => []
  }

  /**
    What a run leaves in every app but its grants, whether it completes or not: its own
    identifier URI, version 2 tokens, its needed scopes; the smoke client is made public,
    the others are left as they were.
   */
  lemma RunLeaves(naming: Naming, environment: string, t: Tenant, key: AppKey)
    ensures var start, end := Of(t, key), Of(Run(naming, environment, t), key);
            && end.appId == start.appId
            && end.identifierUris == ["api://" + Strip(start.appId)]
            && end.tokenVersion == Some(2)
            && end.scopes == NeededScopes(naming, environment, t, key)
            && end.fallbackPublicClient == (key == Smoke || start.fallbackPublicClient)
            && end.redirectUris == (if key == Smoke then [] else start.redirectUris)
  {
    RunEndsIn(naming, environment, t);
  }

  /** The ids a completed run grants, as what they are looked up from. */
  lemma FinalIdMeans(naming: Naming, environment: string, t: Tenant, key: AppKey, i: nat)
    requires i < |NeededScopes(naming, environment, t, key)|
    ensures i < |SpecScopes(key)|
    ensures NeededScopes(naming, environment, t, key)[i].id == Some(FinalId(naming, environment, t, key, i))
  {
    MergedHasFinalId(naming, environment, t, key, i);
    assert NeededScopes(naming, environment, t, key) == Merged(naming, environment, t, key);
  }

  /** The grants a run leaves: those it found, and if it completes merged with the ids of the needed scopes. */
  lemma RunLeavesGrants(naming: Naming, environment: string, t: Tenant)
    ensures var end := Run(naming, environment, t);
            var bff0, bff1 := FinalId(naming, environment, t, Bff, 0), FinalId(naming, environment, t, Bff, 1);
            var agent0, agent1 := FinalId(naming, environment, t, Agent, 0), FinalId(naming, environment, t, Agent, 1);
            var mcp0, mcp1 := FinalId(naming, environment, t, Mcp, 0), FinalId(naming, environment, t, Mcp, 1);
            if !Completes(t) then
              && end.bff.preAuth == t.bff.preAuth && end.bff.required == t.bff.required
              && end.agent.preAuth == t.agent.preAuth && end.agent.required == t.agent.required
              && end.mcp.preAuth == t.mcp.preAuth && end.mcp.required == t.mcp.required
              && end.smoke.preAuth == t.smoke.preAuth && end.smoke.required == t.smoke.required
            else
              && end.bff.preAuth ==
                 MergePreauthorized(MergePreauthorized(t.bff.preAuth, Strip(t.smoke.appId), [bff0]),
                                    "04b07795-8ddb-461a-bbee-02f9e1bf7b46", [bff0, bff1])
              && end.agent.preAuth == MergePreauthorized(t.agent.preAuth, Strip(t.bff.appId), [agent0, agent1])
              && end.mcp.preAuth == MergePreauthorized(t.mcp.preAuth, Strip(t.agent.appId), [mcp0, mcp1])
              && end.smoke.preAuth == t.smoke.preAuth
              && end.bff.required == MergeResourceAccess(t.bff.required, Strip(t.agent.appId), [agent0, agent1])
              && end.agent.required == MergeResourceAccess(t.agent.required, Strip(t.mcp.appId), [mcp0, mcp1])
              && end.mcp.required == t.mcp.required
              && end.smoke.required == MergeResourceAccess(t.smoke.required, Strip(t.bff.appId), [bff0])
  {
    RunEndsIn(naming, environment, t);
    GrantedIdsFromStart(naming, environment, t);
  }

  // ---------- the PATCHes sent ----------

  lemma FirstPatchIs(naming: Naming, environment: string, t: Tenant, key: AppKey)
    ensures FirstPatch(naming, environment, t, key) ==
            Patch(Some(["api://" + Strip(Of(t, key).appId)]), Some(NeededScopes(naming, environment, t, key)),
                  Some(Of(t, key).preAuth), Some(2), None, key == Smoke)
  {
    assert Merged(naming, environment, t, key) == NeededScopes(naming, environment, t, key);
  }

  lemma PatchesSplit(naming: Naming, environment: string, t: Tenant)
    ensures Patches(naming, environment, t) ==
            FirstPatches(naming, environment, t)
            + if Completes(t) then LaterPatches(ListsFor(naming, environment, t, StartIds(naming, environment, t)))
              else []
  {
    GrantedIdsFromStart(naming, environment, t);
  }

  /** The first four PATCHes, one per app. */
  lemma FirstPatchesAre(naming: Naming, environment: string, t: Tenant, i: nat)
    requires i < 4
    ensures |Patches(naming, environment, t)| == (if Completes(t) then 9 else 4)
    ensures var key := [Bff, Agent, Mcp, Smoke][i];
            Patches(naming, environment, t)[i] ==
            (key, Patch(Some(["api://" + Strip(Of(t, key).appId)]), Some(NeededScopes(naming, environment, t, key)),
                        Some(Of(t, key).preAuth), Some(2), None, key == Smoke))
  {
    PatchesSplit(naming, environment, t);
    FirstPatchIs(naming, environment, t, [Bff, Agent, Mcp, Smoke][i]);
    assert Patches(naming, environment, t)[i] == FirstPatches(naming, environment, t)[i];
  }

  lemma ListsAreThoseLeft(naming: Naming, environment: string, t: Tenant)
    requires Completes(t)
    ensures var end := EndState(naming, environment, t);
            ListsFor(naming, environment, t, StartIds(naming, environment, t)) ==
            Lists(end.bff.scopes, end.agent.scopes, end.mcp.scopes, end.bff.preAuth, end.agent.preAuth,
                  end.mcp.preAuth, end.bff.required, end.agent.required, end.smoke.required)
  {
    GrantedIdsFromStart(naming, environment, t);
  }

  /**
    The last five of a run that completes: scopes and clients of the BFF, the Agent and
    MCP in that order, the Agent's with what it requires, then what the BFF and the
    smoke client require. What they carry is what the run leaves.
   */
  lemma LaterPatchesAre(naming: Naming, environment: string, t: Tenant)
    requires Completes(t)
    ensures var end := Run(naming, environment, t);
            Patches(naming, environment, t) == Patches(naming, environment, t)[..4] +
            [ (Bff, Patch(None, Some(end.bff.scopes), Some(end.bff.preAuth), Some(2), None, false)),
              (Agent, Patch(None, Some(end.agent.scopes), Some(end.agent.preAuth), None, Some(end.agent.required),
                            false)),
              (Mcp, Patch(None, Some(end.mcp.scopes), Some(end.mcp.preAuth), None, None, false)),
              (Bff, Patch(None, None, None, None, Some(end.bff.required), false)),
              (Smoke, Patch(None, None, None, None, Some(end.smoke.required), true)) ]
  {
    RunEndsIn(naming, environment, t);
    PatchesSplit(naming, environment, t);
    ListsAreThoseLeft(naming, environment, t);
    assert Patches(naming, environment, t)[..4] == FirstPatches(naming, environment, t);
  }

  // ---------- references ----------

  /** The app exposes an enabled scope with that id. */
  predicate Exposes(app: App, id: string) {
    exists i :: 0 <= i < |app.scopes| && app.scopes[i].id == Some(id) && app.scopes[i].enabled
  }

  predicate FinallyExposed(naming: Naming, environment: string, t: Tenant, key: AppKey, id: string) {
    exists i :: 0 <= i < |SpecScopes(key)| && FinalId(naming, environment, t, key, i) == id
  }

  /** What an app exposes at the end can be read off the start. */
  lemma ExposedAtEndIff(naming: Naming, environment: string, t: Tenant, key: AppKey, id: string)
    ensures Exposes(Of(Run(naming, environment, t), key), id) <==> FinallyExposed(naming, environment, t, key, id)
  {
    RunEndsIn(naming, environment, t);
    var app := Of(Run(naming, environment, t), key);
    assert app.scopes == Merged(naming, environment, t, key);
    forall i | 0 <= i < |app.scopes|
      ensures app.scopes[i].enabled && app.scopes[i].id == Some(FinalId(naming, environment, t, key, i))
    {
      MergedHasFinalId(naming, environment, t, key, i);
    }
  }

  predicate AllExposed(app: App, ids: seq<string>) {
    forall x :: x in ids ==> Exposes(app, x)
  }

  /** Every id the run grants is one its app exposes at the end. */
  lemma StartIdsAreExposed(naming: Naming, environment: string, t: Tenant)
    ensures var ids, end := StartIds(naming, environment, t), Run(naming, environment, t);
            && AllExposed(end.bff, ids.bffAll) && AllExposed(end.agent, ids.agent) && AllExposed(end.mcp, ids.mcp)
  {
    FinalIdsExposed(naming, environment, t, Bff);
    FinalIdsExposed(naming, environment, t, Agent);
    FinalIdsExposed(naming, environment, t, Mcp);
  }

  lemma FinalIdsExposed(naming: Naming, environment: string, t: Tenant, key: AppKey)
    requires |SpecScopes(key)| == 2
    ensures AllExposed(Of(Run(naming, environment, t), key),
                       [FinalId(naming, environment, t, key, 0), FinalId(naming, environment, t, key, 1)])
  {
    ExposedAtEndIff(naming, environment, t, key, FinalId(naming, environment, t, key, 0));
    ExposedAtEndIff(naming, environment, t, key, FinalId(naming, environment, t, key, 1));
  }

  lemma AzureCliTrimmed()
    ensures Trimmed(AZURE_CLI_APP_ID)
  {
  }

  /** The grants the run adds to an app's clients, as pairs of client and permission. */
  ghost function AddedClients(t: Tenant, ids: Ids, key: AppKey): set<(string, string)> {
    match key
    case Bff => GrantsTo(ClientId(t, Smoke), ids.bff) + GrantsTo(AZURE_CLI_APP_ID, ids.bffAll)
    case Agent => GrantsTo(ClientId(t, Bff), ids.agent)
    case Mcp => GrantsTo(ClientId(t, Agent), ids.mcp)
    case Smoke => {}
  }

  /** And to an app's required resource access, as pairs of resource and permission. */
  ghost function AddedNeeds(t: Tenant, ids: Ids, key: AppKey): set<(string, string)> {
    match key
    case Bff => ResourceGrantsTo(ClientId(t, Agent), ids.agent)
    case Agent => ResourceGrantsTo(ClientId(t, Mcp), ids.mcp)
    case Mcp => {}
    case Smoke => ResourceGrantsTo(ClientId(t, Bff), ids.bff)
  }

  lemma TwoMergesAdd(entries: seq<PreAuth>, a: string, idsA: seq<string>, b: string, idsB: seq<string>)
    ensures Grants(TwoMerges(entries, a, idsA, b, idsB)) == Grants(entries) + (GrantsTo(a, idsA) + GrantsTo(b, idsB))
  {
    MergeAddsExactly(entries, a, idsA);
    MergeAddsExactly(MergePreauthorized(entries, a, idsA), b, idsB);
  }

  lemma BffClientsGain(t: Tenant, ids: Ids)
    ensures Grants(BffClients(t, ids)) == Grants(t.bff.preAuth) + AddedClients(t, ids, Bff)
  {
    TwoMergesAdd(t.bff.preAuth, ClientId(t, Smoke), ids.bff, AZURE_CLI_APP_ID, ids.bffAll);
  }

  lemma OtherClientsGain(t: Tenant, ids: Ids)
    ensures Grants(AgentClients(t, ids)) == Grants(t.agent.preAuth) + AddedClients(t, ids, Agent)
    ensures Grants(McpClients(t, ids)) == Grants(t.mcp.preAuth) + AddedClients(t, ids, Mcp)
  {
    MergeAddsExactly(t.agent.preAuth, ClientId(t, Bff), ids.agent);
    MergeAddsExactly(t.mcp.preAuth, ClientId(t, Agent), ids.mcp);
  }

  lemma NeedsGain(t: Tenant, ids: Ids)
    ensures ResourceGrants(BffNeeds(t, ids)) == ResourceGrants(t.bff.required) + AddedNeeds(t, ids, Bff)
    ensures ResourceGrants(AgentNeeds(t, ids)) == ResourceGrants(t.agent.required) + AddedNeeds(t, ids, Agent)
    ensures ResourceGrants(SmokeNeeds(t, ids)) == ResourceGrants(t.smoke.required) + AddedNeeds(t, ids, Smoke)
  {
    ResourceMergeAddsExactly(t.bff.required, ClientId(t, Agent), ids.agent);
    ResourceMergeAddsExactly(t.agent.required, ClientId(t, Mcp), ids.mcp);
    ResourceMergeAddsExactly(t.smoke.required, ClientId(t, Bff), ids.bff);
  }

  lemma EndGains(naming: Naming, environment: string, t: Tenant, ids: Ids, key: AppKey)
    requires GrantedIds(naming, environment, t) == Some(ids)
    ensures var before, after := Of(t, key), Of(EndState(naming, environment, t), key);
            && Grants(after.preAuth) == Grants(before.preAuth) + AddedClients(t, ids, key)
            && ResourceGrants(after.required) == ResourceGrants(before.required) + AddedNeeds(t, ids, key)
  {
    match key
    case Bff =>
      BffClientsGain(t, ids);
      NeedsGain(t, ids);
    case Agent =>
      OtherClientsGain(t, ids);
      NeedsGain(t, ids);
    case Mcp => OtherClientsGain(t, ids);
    case Smoke => NeedsGain(t, ids);
  }

  /** A run changes the grants of every app by exactly the intended pairs. */
  lemma RunAddsExactly(naming: Naming, environment: string, t: Tenant, key: AppKey)
    ensures var before, after := Of(t, key), Of(Run(naming, environment, t), key);
            match GrantedIds(naming, environment, t)
            case None => after.preAuth == before.preAuth && after.required == before.required
            case Some(ids) =>
              && Grants(after.preAuth) == Grants(before.preAuth) + AddedClients(t, ids, key)
              && ResourceGrants(after.required) == ResourceGrants(before.required) + AddedNeeds(t, ids, key)
  {
    RunEndsIn(naming, environment, t);
    var found := GrantedIds(naming, environment, t);
    if found.Some? {
      EndGains(naming, environment, t, found.value, key);
    }
  }

  lemma GrantsToMember(client: string, ids: seq<string>, g: (string, string))
    ensures g in GrantsTo(client, ids) ==> g.1 in CleanIds(ids)
    ensures g in ResourceGrantsTo(client, ids) ==> g.0 == client && g.1 in ids
  {
  }

  /** Every grant in the set names a scope the app exposes at the end. */
  predicate AllFinallyExposed(naming: Naming, environment: string, t: Tenant, key: AppKey,
                              grants: set<(string, string)>)
  {
    forall g :: g in grants ==> FinallyExposed(naming, environment, t, key, g.1)
  }

  /** The client grants the run adds to an app: none if it raises. */
  ghost function Added(naming: Naming, environment: string, t: Tenant, key: AppKey): set<(string, string)> {
    if Completes(t) then AddedClients(t, StartIds(naming, environment, t), key) else {}
  }

  lemma ClientGrantsAtEnd(naming: Naming, environment: string, t: Tenant, key: AppKey)
    ensures Grants(Of(Run(naming, environment, t), key).preAuth)
            == Grants(Of(t, key).preAuth) + Added(naming, environment, t, key)
  {
    GrantedIdsFromStart(naming, environment, t);
    RunAddsExactly(naming, environment, t, key);
  }

  /** Client grants in the set are exposed at the end exactly when they name final ids. */
  lemma ExposedGrants(naming: Naming, environment: string, t: Tenant, key: AppKey, grants: set<(string, string)>)
    ensures (forall g :: g in grants ==> Exposes(Of(Run(naming, environment, t), key), g.1)) <==>
            AllFinallyExposed(naming, environment, t, key, grants)
  {
    forall g | g in grants
      ensures Exposes(Of(Run(naming, environment, t), key), g.1) <==>
              FinallyExposed(naming, environment, t, key, g.1)
    {
      ExposedAtEndIff(naming, environment, t, key, g.1);
    }
  }

  /** The client grants an app has at the end and did not have at the start. */
  ghost function NewGrants(before: App, after: App): set<(string, string)> {
    Grants(after.preAuth) - Grants(before.preAuth)
  }

  /**
    When every permission the run newly lets a client use is an enabled scope the app
    exposes at the end: each pair it adds names, trimmed, the final id of a required scope.
   */
  lemma NewClientGrantsExposedIff(naming: Naming, environment: string, t: Tenant, key: AppKey)
    ensures var end := Of(Run(naming, environment, t), key);
            (forall g :: g in NewGrants(Of(t, key), end) ==> Exposes(end, g.1)) <==>
            AllFinallyExposed(naming, environment, t, key,
                              Added(naming, environment, t, key) - Grants(Of(t, key).preAuth))
  {
    var end := Of(Run(naming, environment, t), key);
    ClientGrantsAtEnd(naming, environment, t, key);
    ExposedGrants(naming, environment, t, key, NewGrants(Of(t, key), end));
    assert NewGrants(Of(t, key), end) == Added(naming, environment, t, key) - Grants(Of(t, key).preAuth);
  }

  /** So it is if the app's required scopes are stored without ids or with plain ones. */
  lemma NewClientGrantsAreExposed(naming: Naming, environment: string, t: Tenant, key: AppKey)
    requires StoredIdsPlain(t, key)
    ensures var end := Of(Run(naming, environment, t), key);
            forall g :: g in NewGrants(Of(t, key), end) ==> Exposes(end, g.1)
  {
    NewClientGrantsExposedIff(naming, environment, t, key);
    var added := Added(naming, environment, t, key);
    forall g | g in added ensures FinallyExposed(naming, environment, t, key, g.1) {
      AddedIsFinal(naming, environment, t, key, g);
    }
  }

  lemma GrantedIsFinal(naming: Naming, environment: string, t: Tenant, key: AppKey, x: string)
    requires x in IdsGrantedBy(StartIds(naming, environment, t), key)
    ensures FinallyExposed(naming, environment, t, key, x)
  {
    assert x == FinalId(naming, environment, t, key, 0) || x == FinalId(naming, environment, t, key, 1);
  }

  lemma GrantedIsPlain(naming: Naming, environment: string, t: Tenant, key: AppKey)
    requires StoredIdsPlain(t, key)
    ensures AllTrimmed(IdsGrantedBy(StartIds(naming, environment, t), key))
  {
    if key != Smoke {
      FinalIdPlain(naming, environment, t, key, 0);
      FinalIdPlain(naming, environment, t, key, 1);
    }
  }

  lemma AddedIsFinal(naming: Naming, environment: string, t: Tenant, key: AppKey, g: (string, string))
    requires StoredIdsPlain(t, key) && g in AddedClients(t, StartIds(naming, environment, t), key)
    ensures FinallyExposed(naming, environment, t, key, g.1)
  {
    var ids := StartIds(naming, environment, t);
    AddedIsGranted(t, ids, key, g);
    GrantedIsPlain(naming, environment, t, key);
    CleanOfPlain(IdsGrantedBy(ids, key));
    GrantedIsFinal(naming, environment, t, key, g.1);
  }

  predicate AllTrimmed(ids: seq<string>) {
    forall x :: x in ids ==> Trimmed(x)
  }

  lemma CleanOfPlain(ids: seq<string>)
    requires AllTrimmed(ids)
    ensures CleanIds(ids) <= SetOf(ids)
  {
  }

  /** The ids a run grants to an app's clients. */
  function IdsGrantedBy(ids: Ids, key: AppKey): seq<string> {
    match key case Bff => ids.bff + ids.bffAll case Agent => ids.agent case Mcp => ids.mcp case Smoke => []
  }

  lemma AddedIsGranted(t: Tenant, ids: Ids, key: AppKey, g: (string, string))
    requires g in AddedClients(t, ids, key)
    ensures g.1 in CleanIds(IdsGrantedBy(ids, key))
  {
    match key
    case Bff =>
      GrantsToMember(ClientId(t, Smoke), ids.bff, g);
      GrantsToMember(AZURE_CLI_APP_ID, ids.bffAll, g);
    case Agent => GrantsToMember(ClientId(t, Bff), ids.agent, g);
    case Mcp => GrantsToMember(ClientId(t, Agent), ids.mcp, g);
    case Smoke =>
  }

  /**
    When no client of an app is left with a permission the app does not expose: the
    grants it started with, and the ones added, all name the final id of a required
    scope. Scopes that are not required are dropped, so an old grant may dangle.
   */
  lemma ClientGrantsExposedIff(naming: Naming, environment: string, t: Tenant, key: AppKey)
    ensures var end := Of(Run(naming, environment, t), key);
            (forall g :: g in Grants(end.preAuth) ==> Exposes(end, g.1)) <==>
              && AllFinallyExposed(naming, environment, t, key, Grants(Of(t, key).preAuth))
              && AllFinallyExposed(naming, environment, t, key, Added(naming, environment, t, key))
  {
    ClientGrantsAtEnd(naming, environment, t, key);
    ExposedGrants(naming, environment, t, key, Grants(Of(Run(naming, environment, t), key).preAuth));
  }

  /** Every permission the run newly makes an app need is an enabled scope of one of the four apps, by its client id. */
  lemma NewNeedsAreExposed(naming: Naming, environment: string, t: Tenant, key: AppKey, g: (string, string))
    ensures var end := Run(naming, environment, t);
            g in ResourceGrants(Of(end, key).required) && g !in ResourceGrants(Of(t, key).required) ==>
              exists target :: ClientId(t, target) == g.0 && Exposes(Of(end, target), g.1)
  {
    RunAddsExactly(naming, environment, t, key);
    GrantedIdsFromStart(naming, environment, t);
    var found := GrantedIds(naming, environment, t);
    if found.Some? && g in AddedNeeds(t, found.value, key) {
      StartIdsAreExposed(naming, environment, t);
      var end := Run(naming, environment, t);
      var target, from := NeededTarget(t, found.value, key, g);
      assert ClientId(t, target) == g.0 && Exposes(Of(end, target), g.1);
    }
  }

  /** The app a newly needed permission belongs to, and the ids it was taken from. */
  lemma NeededTarget(t: Tenant, ids: Ids, key: AppKey, g: (string, string)) returns (target: AppKey, from: seq<string>)
    requires g in AddedNeeds(t, ids, key)
    ensures ClientId(t, target) == g.0 && g.1 in from
    ensures match target
            case Bff => from == ids.bff
            case Agent => from == ids.agent
            case Mcp => from == ids.mcp
            case Smoke => false
  {
    match key
    case Bff => target, from := Agent, ids.agent;
    case Agent => target, from := Mcp, ids.mcp;
    case Smoke => target, from := Bff, ids.bff;
    case Mcp => assert false;
  }

  // ---------- no intermediate state loses a grant ----------

  predicate KeepsGrants(before: App, after: App) {
    Grants(before.preAuth) <= Grants(after.preAuth) && ResourceGrants(before.required) <= ResourceGrants(after.required)
  }

  /** A patch whose lists grant at least what the snapshot did. */
  predicate Safe(before: App, p: Patch) {
    && (p.preAuth.Some? ==> Grants(before.preAuth) <= Grants(p.preAuth.value))
    && (p.required.Some? ==> ResourceGrants(before.required) <= ResourceGrants(p.required.value))
  }

  /** Each merged list grants at least what the snapshot's list did. */
  predicate ListsKeep(t: Tenant, l: Lists) {
    && Grants(t.bff.preAuth) <= Grants(l.bffClients)
    && Grants(t.agent.preAuth) <= Grants(l.agentClients)
    && Grants(t.mcp.preAuth) <= Grants(l.mcpClients)
    && ResourceGrants(t.bff.required) <= ResourceGrants(l.bffNeeds)
    && ResourceGrants(t.agent.required) <= ResourceGrants(l.agentNeeds)
    && ResourceGrants(t.smoke.required) <= ResourceGrants(l.smokeNeeds)
  }

  lemma MergedListsKeep(naming: Naming, environment: string, t: Tenant, ids: Ids)
    ensures ListsKeep(t, ListsFor(naming, environment, t, ids))
  {
    BffClientsGain(t, ids);
    OtherClientsGain(t, ids);
    NeedsGain(t, ids);
  }

  lemma LaterPatchesAreSafe(t: Tenant, l: Lists, i: nat)
    requires i < 5 && ListsKeep(t, l)
    ensures var p := LaterPatches(l)[i]; Safe(Of(t, p.0), p.1)
  {
    if i == 0 {
    } else if i == 1 {
    } else if i == 2 {
    } else if i == 3 {
    } else {
      assert i == 4;
    }
  }

  lemma SafePatchKeeps(before: App, now: App, p: Patch)
    requires KeepsGrants(before, now) && Safe(before, p)
    ensures KeepsGrants(before, Patched(now, p))
  {
  }

  lemma {:induction false} SafePatchesKeepGrants(t: Tenant, patches: seq<(AppKey, Patch)>, key: AppKey)
    requires forall i :: 0 <= i < |patches| ==> Safe(Of(t, patches[i].0), patches[i].1)
    ensures KeepsGrants(Of(t, key), Of(ApplyAll(t, patches), key))
  {
    if patches == [] {
    } else {
      var n := |patches| - 1;
      var before, last := patches[..n], patches[n];
      assert forall i :: 0 <= i < n ==> before[i] == patches[i];
      SafePatchesKeepGrants(t, before, key);
      var now := ApplyAll(t, before);
      assert ApplyAll(t, patches) == ApplyPatch(now, last.0, last.1);
      if key == last.0 {
        SafePatchKeeps(Of(t, key), Of(now, key), last.1);
      }
    }
  }

  lemma FirstPatchesAreSafe(naming: Naming, environment: string, t: Tenant, i: nat)
    requires i < 4
    ensures var p := FirstPatches(naming, environment, t)[i]; Safe(Of(t, p.0), p.1)
  {
  }

  lemma PatchesAreSafe(naming: Naming, environment: string, t: Tenant, i: nat)
    requires i < |Patches(naming, environment, t)|
    ensures var p := Patches(naming, environment, t)[i]; Safe(Of(t, p.0), p.1)
  {
    if i < 4 {
      FirstPatchesAreSafe(naming, environment, t, i);
      assert Patches(naming, environment, t)[i] == FirstPatches(naming, environment, t)[i];
    } else {
      var ids := GrantedIds(naming, environment, t).value;
      MergedListsKeep(naming, environment, t, ids);
      LaterPatchesAreSafe(t, ListsFor(naming, environment, t, ids), i - 4);
      assert Patches(naming, environment, t)[i] == LaterPatches(ListsFor(naming, environment, t, ids))[i - 4];
    }
  }

  /** After any number of the run's PATCHes, no app has lost a client or resource grant it started with. */
  lemma NoIntermediateLoss(naming: Naming, environment: string, t: Tenant, n: nat, key: AppKey)
    ensures var patches := Patches(naming, environment, t);
            n <= |patches| ==> KeepsGrants(Of(t, key), Of(ApplyAll(t, patches[..n]), key))
  {
    var patches := Patches(naming, environment, t);
    if n <= |patches| {
      var sent := patches[..n];
      forall i | 0 <= i < |sent| ensures Safe(Of(t, sent[i].0), sent[i].1) {
        PatchesAreSafe(naming, environment, t, i);
      }
      SafePatchesKeepGrants(t, sent, key);
    }
  }

  // ---------- convergence ----------

  /** A second run computes the same scopes and ids as the first, though its snapshot is the first run's result. */
  lemma SecondRunSameScopes(naming: Naming, environment: string, t: Tenant, key: AppKey)
    ensures Merged(naming, environment, EndState(naming, environment, t), key) == Merged(naming, environment, t, key)
    ensures ClientId(EndState(naming, environment, t), key) == ClientId(t, key)
  {
    SpecScopesAreRequiredValues(key);
    MergeScopesIdempotent(naming, DisplayName(environment, key), Of(t, key).scopes, SpecScopes(key));
    assert Of(EndState(naming, environment, t), key).scopes == Merged(naming, environment, t, key);
  }

  /**
    Each merge of client grants can be repeated without effect: trimming the ids it
    asks for introduces none that is neither asked for nor held at the start. The two
    merges into the BFF's list concern one client if the smoke app is the Azure CLI.
   */
  predicate Repeatable(t: Tenant, ids: Ids) {
    && StableIds(OldIds(t.agent.preAuth, ClientId(t, Bff)), ids.agent)
    && StableIds(OldIds(t.mcp.preAuth, ClientId(t, Agent)), ids.mcp)
    && if ClientId(t, Smoke) != AZURE_CLI_APP_ID then
         && StableIds(OldIds(t.bff.preAuth, ClientId(t, Smoke)), ids.bff)
         && StableIds(OldIds(t.bff.preAuth, AZURE_CLI_APP_ID), ids.bffAll)
       else
         StableIds(OldIds(t.bff.preAuth, AZURE_CLI_APP_ID) + CleanIds(ids.bff), ids.bffAll)
  }

  lemma SecondRunSameNeeds(naming: Naming, environment: string, t: Tenant, ids: Ids)
    requires GrantedIds(naming, environment, t) == Some(ids)
    ensures var end := EndState(naming, environment, t);
            && BffNeeds(end, ids) == end.bff.required
            && AgentNeeds(end, ids) == end.agent.required && SmokeNeeds(end, ids) == end.smoke.required
  {
    ResourceMergeIdempotent(t.bff.required, ClientId(t, Agent), ids.agent);
    ResourceMergeIdempotent(t.agent.required, ClientId(t, Mcp), ids.mcp);
    ResourceMergeIdempotent(t.smoke.required, ClientId(t, Bff), ids.bff);
  }

  /** The run grants the smoke app one of the ids it grants the Azure CLI. */
  lemma SmokeGetsLess(naming: Naming, environment: string, t: Tenant)
    ensures match GrantedIds(naming, environment, t)
            case Some(ids) => ids.bff != [] && SetOf(ids.bff) <= SetOf(ids.bffAll)
            case None => true
  {
  }

  lemma BffClientsAgainIff(t: Tenant, ids: Ids)
    requires ids.bff != [] && SetOf(ids.bff) <= SetOf(ids.bffAll)
    ensures var smoke, once := ClientId(t, Smoke), BffClients(t, ids);
            TwoMerges(once, smoke, ids.bff, AZURE_CLI_APP_ID, ids.bffAll) == once <==>
              if smoke != AZURE_CLI_APP_ID then
                && StableIds(OldIds(t.bff.preAuth, smoke), ids.bff)
                && StableIds(OldIds(t.bff.preAuth, AZURE_CLI_APP_ID), ids.bffAll)
              else
                StableIds(OldIds(t.bff.preAuth, AZURE_CLI_APP_ID) + CleanIds(ids.bff), ids.bffAll)
  {
    AzureCliTrimmed();
    if ClientId(t, Smoke) != AZURE_CLI_APP_ID {
      TwoMergesIdempotentIff(t.bff.preAuth, ClientId(t, Smoke), ids.bff, AZURE_CLI_APP_ID, ids.bffAll);
    } else {
      SameClientIdempotentIff(t.bff.preAuth, AZURE_CLI_APP_ID, ids.bff, ids.bffAll);
    }
  }

  lemma SecondRunSameClientsIff(naming: Naming, environment: string, t: Tenant, ids: Ids)
    requires GrantedIds(naming, environment, t) == Some(ids)
    ensures var end := EndState(naming, environment, t);
            Repeatable(t, ids) <==>
              && BffClients(end, ids) == end.bff.preAuth
              && AgentClients(end, ids) == end.agent.preAuth
              && McpClients(end, ids) == end.mcp.preAuth
  {
    SmokeGetsLess(naming, environment, t);
    BffClientsAgainIff(t, ids);
    MergeIdempotentIff(t.agent.preAuth, ClientId(t, Bff), ids.agent);
    MergeIdempotentIff(t.mcp.preAuth, ClientId(t, Agent), ids.mcp);
  }

  lemma FirstAppAgain(naming: Naming, environment: string, t: Tenant, key: AppKey)
    ensures var end := EndState(naming, environment, t);
            && FirstApp(naming, environment, end, key) == Of(end, key)
            && Merged(naming, environment, end, key) == Merged(naming, environment, t, key)
  {
    SecondRunSameScopes(naming, environment, t, key);
  }

  /** A second run repeats the first four PATCHes' effect and starts from the same ids. */
  lemma SecondRunStartsSame(naming: Naming, environment: string, t: Tenant)
    ensures var end := EndState(naming, environment, t);
            && FirstFour(naming, environment, end) == end
            && GrantedIds(naming, environment, end) == GrantedIds(naming, environment, t)
  {
    FirstAppAgain(naming, environment, t, Bff);
    FirstAppAgain(naming, environment, t, Agent);
    FirstAppAgain(naming, environment, t, Mcp);
    FirstAppAgain(naming, environment, t, Smoke);
  }

  /**
    Exactly when running the whole PATCH sequence a second time changes no field of
    any app: the run stops early, or each of its merges of client grants is repeatable.
   */
  lemma BootstrapConvergesIff(naming: Naming, environment: string, t: Tenant)
    ensures Run(naming, environment, Run(naming, environment, t)) == Run(naming, environment, t) <==>
            (Completes(t) ==> Repeatable(t, StartIds(naming, environment, t)))
  {
    var end := EndState(naming, environment, t);
    RunEndsIn(naming, environment, t);
    RunEndsIn(naming, environment, end);
    SecondRunStartsSame(naming, environment, t);
    GrantedIdsFromStart(naming, environment, t);
    if Completes(t) {
      SecondRunSameNeeds(naming, environment, t, StartIds(naming, environment, t));
      SecondRunSameClientsIff(naming, environment, t, StartIds(naming, environment, t));
    }
  }

  lemma PlainIdsRepeatable(t: Tenant, ids: Ids)
    requires AllTrimmed(ids.bff) && AllTrimmed(ids.bffAll) && AllTrimmed(ids.agent) && AllTrimmed(ids.mcp)
    ensures Repeatable(t, ids)
  {
  }

  lemma StartIdsPlain(naming: Naming, environment: string, t: Tenant)
    requires StoredIdsPlain(t, Bff) && StoredIdsPlain(t, Agent) && StoredIdsPlain(t, Mcp)
    ensures var ids := StartIds(naming, environment, t);
            AllTrimmed(ids.bff) && AllTrimmed(ids.bffAll) && AllTrimmed(ids.agent) && AllTrimmed(ids.mcp)
  {
    GrantedIsPlain(naming, environment, t, Bff);
    GrantedIsPlain(naming, environment, t, Agent);
    GrantedIsPlain(naming, environment, t, Mcp);
    var ids := StartIds(naming, environment, t);
    assert forall x :: x in ids.bff || x in ids.bffAll ==> x in IdsGrantedBy(ids, Bff);
  }

  /**
    From any start in which the scopes the run needs have no id or a plain one, the
    bootstrap converges, whatever else the apps hold.
   */
  lemma BootstrapConverges(naming: Naming, environment: string, t: Tenant)
    requires StoredIdsPlain(t, Bff) && StoredIdsPlain(t, Agent) && StoredIdsPlain(t, Mcp)
    ensures Run(naming, environment, Run(naming, environment, t)) == Run(naming, environment, t)
  {
    BootstrapConvergesIff(naming, environment, t);
    StartIdsPlain(naming, environment, t);
    PlainIdsRepeatable(t, StartIds(naming, environment, t));
  }

  /** An Agent that stores a padded id for a scope the run grants. */
  predicate PaddedAgentId(t: Tenant) {
    && t.bff.scopes == [] && t.mcp.scopes == [] && t.agent.preAuth == []
    && t.agent.scopes == [BareScope(MCP_ACCESS, " x"), BareScope(MCP_WRITE, "y")]
  }

  lemma PaddedAgentIds(naming: Naming, environment: string, t: Tenant)
    requires PaddedAgentId(t)
    ensures Completes(t) && StartIds(naming, environment, t).agent == [" x", "y"]
    ensures FinalId(naming, environment, t, Agent, 0) == " x" && FinalId(naming, environment, t, Agent, 1) == "y"
  {
    SpecScopesAreRequiredValues(Agent);
    FindAmong(t.agent.scopes, SpecScopes(Agent), 0);
    FindAmong(t.agent.scopes, SpecScopes(Agent), 1);
  }

  lemma PaddedX()
    ensures Strip(" x") == "x"
  {
    assert " x"[1..] == "x";
  }

  /** Then the run does not converge. */
  lemma PaddedIdDiverges(naming: Naming, environment: string, t: Tenant)
    requires PaddedAgentId(t)
    ensures Run(naming, environment, Run(naming, environment, t)) != Run(naming, environment, t)
  {
    PaddedAgentIds(naming, environment, t);
    PaddedX();
    var ids := [" x", "y"];
    assert " x" in ids && "x" !in ids;
    assert !StableIds({}, ids);
    BootstrapConvergesIff(naming, environment, t);
  }

  /** And the BFF is left with a permission on the Agent that the Agent does not expose. */
  lemma PaddedIdDangles(naming: Naming, environment: string, t: Tenant)
    requires PaddedAgentId(t)
    ensures var end := Run(naming, environment, t).agent;
            (ClientId(t, Bff), "x") in NewGrants(t.agent, end) && !Exposes(end, "x")
  {
    PaddedAgentIds(naming, environment, t);
    PaddedX();
    ClientGrantsAtEnd(naming, environment, t, Agent);
    ExposedAtEndIff(naming, environment, t, Agent, "x");
    assert " x" in [" x", "y"];
    assert "x" in CleanIds([" x", "y"]);
    assert |SpecScopes(Agent)| == 2;
  }
}
