/**
  Normalising a live result and writing the redacted evidence
  (`tools/ci/m8_browser_smoke_harness.py`).
 */
module RedactedEvidence {
  import opened PyText
  import opened Json
  import opened ArtifactScanner

  /** `int(text)`: None is the ValueError. It reads back every integer `str` writes. */
  ghost predicate ReadsIntegers(f: string -> Option<int>) {
    forall n: int :: f(Decimal(n)) == Some(n)
  }

  function ReadDecimal(s: string): Option<int> {
    if s != "" && forall i :: 0 <= i < |s| ==> IsDigit(s[i]) then Some(ReadDigits(s))
    else if s != "" && s[0] == '-' && forall i :: 1 <= i < |s| ==> IsDigit(s[i]) then
      var n: int := ReadDigits(s[1..]);
      Some(-n)
    else None
  }

  lemma ReadDecimalReads()
    ensures ReadsIntegers((s: string) => ReadDecimal(s))
  {
    forall n: int ensures ReadDecimal(Decimal(n)) == Some(n) {
      if n < 0 {
        ReadDigitsOfDigits(-n);
        assert Decimal(n)[1..] == Digits(-n);
      } else {
        ReadDigitsOfDigits(n);
      }
    }
  }

  /** The integer reader and the digest (twelve hex digits) stay abstract. */
  datatype RawTools = RawTools(parseInt: string -> Option<int>, digest: string -> string)

  ghost predicate Sound(t: RawTools) {
    ReadsIntegers(t.parseInt) && forall s :: Harmless(t.digest(s)) && Trimmed(t.digest(s))
  }

  type Tools = t: RawTools | Sound(t)
    ghost witness (ReadDecimalReads(); RawTools((s: string) => ReadDecimal(s), (s: string) => "0"))

  // ---------- normalising ----------

  /** `raw.get(first, raw.get(second, default))` */
  function GetEither(raw: Claims, first: string, second: string, default: Value): Value {
    if first in raw then raw[first] else if second in raw then raw[second] else default
  }

  const TRUE_WORDS: seq<string> := ["1", "true", "yes", "y"]

  function ToBool(v: Value): bool {
    match v
    case Bool(b) => b
    case Str(s) => Lower(Strip(s)) in TRUE_WORDS
    case Num(_) => Truthy(v)
    case _ => false
  }

  function ToInt(py: Runtime, tools: Tools, v: Value): int {
    match tools.parseInt(Strip(py.str(v)))
    case Some(n) => n
    case None => 0
  }

  function ToText(py: Runtime, v: Value): string {
    Strip(py.str(v))
  }

  const FALSE_VALUE := Bool(false)
  const ZERO := Num(Int(0))

  datatype LiveResult = LiveResult(
    ok: bool, status: int, sessionIdPresent: bool, expiresAtPresent: bool,
    targetUrlDigest: string, resultSource: string)

  function NormalizeLiveResult(py: Runtime, tools: Tools, raw: Claims): LiveResult {
    LiveResult(
      ToBool(if "ok" in raw then raw["ok"] else FALSE_VALUE),
      ToInt(py, tools, GetEither(raw, "status", "observed_status", ZERO)),
      ToBool(GetEither(raw, "sessionIdPresent", "session_id_present", FALSE_VALUE)),
      ToBool(GetEither(raw, "expiresAtPresent", "expires_at_present", FALSE_VALUE)),
      ToText(py, GetEither(raw, "targetUrlDigest", "target_url_digest", Str(""))),
      ToText(py, GetEither(raw, "resultSource", "result_source", Str(""))))
  }

  /** What counts as true: true itself, four words in any case, numbers but zero. */
  lemma ToBoolIff(v: Value)
    ensures ToBool(v) <==>
            || v == Bool(true)
            || (v.Str? && Lower(Strip(v.s)) in ["1", "true", "yes", "y"])
            || (v.Num? && v.n != Int(0) && v.n != Float(0.0))
  {
  }

  /**
    Where each field is read from: the first of its two names that is present, the
    names of the browser's answer before those of written evidence, else a default.
   */
  lemma NormalizeReads(py: Runtime, tools: Tools, raw: Claims)
    ensures var r := NormalizeLiveResult(py, tools, raw);
            && (r.ok <==> "ok" in raw && ToBool(raw["ok"]))
            && ("status" in raw ==> r.status == ToInt(py, tools, raw["status"]))
            && ("status" !in raw && "observed_status" in raw ==> r.status == ToInt(py, tools, raw["observed_status"]))
            && ("status" !in raw && "observed_status" !in raw ==> r.status == 0)
            && (r.sessionIdPresent <==>
                if "sessionIdPresent" in raw then ToBool(raw["sessionIdPresent"])
                else "session_id_present" in raw && ToBool(raw["session_id_present"]))
            && (r.expiresAtPresent <==>
                if "expiresAtPresent" in raw then ToBool(raw["expiresAtPresent"])
                else "expires_at_present" in raw && ToBool(raw["expires_at_present"]))
            && ("targetUrlDigest" in raw ==> r.targetUrlDigest == Strip(py.str(raw["targetUrlDigest"])))
            && ("targetUrlDigest" !in raw ==>
                  r.targetUrlDigest ==
                  if "target_url_digest" in raw then Strip(py.str(raw["target_url_digest"])) else "")
            && ("resultSource" in raw ==> r.resultSource == Strip(py.str(raw["resultSource"])))
            && ("resultSource" !in raw ==>
                  r.resultSource == if "result_source" in raw then Strip(py.str(raw["result_source"])) else "")
  {
    IntReadsBack(py, tools, 0);
    TextReadsBack(py, "");
  }

  /** An integer field is what its trimmed text reads as, and zero when that is no integer. */
  lemma ToIntMeans(py: Runtime, tools: Tools, v: Value)
    ensures tools.parseInt(Strip(py.str(v))) == None ==> ToInt(py, tools, v) == 0
    ensures tools.parseInt(Strip(py.str(v))).Some? ==> Some(ToInt(py, tools, v)) == tools.parseInt(Strip(py.str(v)))
  {
  }

  /** The dict `_normalize_live_result` returns. */
  function AsDict(r: LiveResult): Claims {
    map["ok" := Bool(r.ok), "status" := Num(Int(r.status)),
        "sessionIdPresent" := Bool(r.sessionIdPresent), "expiresAtPresent" := Bool(r.expiresAtPresent),
        "targetUrlDigest" := Str(r.targetUrlDigest), "resultSource" := Str(r.resultSource)]
  }

  /** What the result of normalising is like: its texts are trimmed. */
  predicate NormalResult(r: LiveResult) {
    Trimmed(r.targetUrlDigest) && Trimmed(r.resultSource)
  }

  lemma DecimalTrimmed(n: int)
    ensures Strip(Decimal(n)) == Decimal(n)
  {
    var s := Decimal(n);
    assert IsDigit(s[0]) || s[0] == '-';
    assert IsDigit(s[|s| - 1]);
    assert Trimmed(s);
  }

  lemma IntReadsBack(py: Runtime, tools: Tools, n: int)
    ensures ToInt(py, tools, Num(Int(n))) == n
  {
    DecimalTrimmed(n);
    assert py.str(Num(Int(n))) == Decimal(n);
    assert ReadsIntegers(tools.parseInt);
  }

  lemma TextReadsBack(py: Runtime, s: string)
    requires Trimmed(s)
    ensures ToText(py, Str(s)) == s
  {
    assert py.str(Str(s)) == s;
  }

  /** The fields of a normalised result, read from its dict. */
  lemma DictReadsBack(py: Runtime, tools: Tools, r: LiveResult)
    requires NormalResult(r)
    ensures var d := AsDict(r);
            && ToText(py, d["targetUrlDigest"]) == r.targetUrlDigest
            && ToText(py, d["resultSource"]) == r.resultSource
            && ToInt(py, tools, d["status"]) == r.status
            && ToBool(d["sessionIdPresent"]) == r.sessionIdPresent
            && ToBool(d["expiresAtPresent"]) == r.expiresAtPresent
  {
    IntReadsBack(py, tools, r.status);
    TextReadsBack(py, r.targetUrlDigest);
    TextReadsBack(py, r.resultSource);
  }

  /** Normalising a normalised result gives it back. */
  lemma NormalizeReadsBack(py: Runtime, tools: Tools, r: LiveResult)
    requires NormalResult(r)
    ensures NormalizeLiveResult(py, tools, AsDict(r)) == r
  {
    IntReadsBack(py, tools, r.status);
    TextReadsBack(py, r.targetUrlDigest);
    TextReadsBack(py, r.resultSource);
  }

  /** Normalising twice equals normalising once. */
  lemma NormalizeIdempotent(py: Runtime, tools: Tools, raw: Claims)
    ensures var once := NormalizeLiveResult(py, tools, raw);
            NormalizeLiveResult(py, tools, AsDict(once)) == once
  {
    NormalizeReadsBack(py, tools, NormalizeLiveResult(py, tools, raw));
  }

  // ---------- evidence ----------

  function DigestOrFallback(tools: Tools, digest: string, fallbackUrl: string): string {
    if digest == "" && fallbackUrl != "" then tools.digest(fallbackUrl) else digest
  }

  function BaseEvidence(transport: string, source: string, expected: int, observed: int, session: bool, expires: bool,
                        digest: string): Claims
  {
    map["transport" := Str(transport), "result_source" := Str(source),
        "expected_status" := Num(Int(expected)), "observed_status" := Num(Int(observed)),
        "session_id_present" := Bool(session), "expires_at_present" := Bool(expires),
        "target_url_digest" := Str(digest)]
  }

  /** What the evidence takes from a result's dict, each field converted again. */
  function ResultOf(py: Runtime, tools: Tools, result: Claims): LiveResult {
    LiveResult(
      ToBool(if "ok" in result then result["ok"] else FALSE_VALUE),
      ToInt(py, tools, if "status" in result then result["status"] else ZERO),
      ToBool(if "sessionIdPresent" in result then result["sessionIdPresent"] else FALSE_VALUE),
      ToBool(if "expiresAtPresent" in result then result["expiresAtPresent"] else FALSE_VALUE),
      ToText(py, if "targetUrlDigest" in result then result["targetUrlDigest"] else Str("")),
      ToText(py, if "resultSource" in result then result["resultSource"] else Str("")))
  }

  /** The conversions change nothing in a normalised result. */
  lemma ResultOfNormalized(py: Runtime, tools: Tools, r: LiveResult)
    requires NormalResult(r)
    ensures ResultOf(py, tools, AsDict(r)) == r
  {
    DictReadsBack(py, tools, r);
  }

  /** `_create_redacted_evidence` on any result dict, adding the artifact digest in place. */
  method CreateRedactedEvidence(py: Runtime, tools: Tools, transport: string, result: Claims, expectedStatus: int,
                                fallbackUrl: string, artifactDigest: string) returns (evidence: Claims)
    ensures evidence ==
            Evidence(tools, transport, ResultOf(py, tools, result), expectedStatus, fallbackUrl, artifactDigest)
  {
    var read := ResultOf(py, tools, result);
    var targetUrlDigest := read.targetUrlDigest;
    if targetUrlDigest == "" && fallbackUrl != "" {
      targetUrlDigest := tools.digest(fallbackUrl);
    }
    var source := read.resultSource;
    if source == "" {
      source := transport;
    }
    evidence := BaseEvidence(transport, source, expectedStatus, read.status, read.sessionIdPresent,
                             read.expiresAtPresent, targetUrlDigest);
    if artifactDigest != "" {
      evidence := evidence["artifact_digest" := Str(artifactDigest)];
    }
  }

  function Evidence(tools: Tools, transport: string, result: LiveResult, expectedStatus: int, fallbackUrl: string,
                    artifactDigest: string): Claims
  {
    var base := BaseEvidence(transport, if result.resultSource == "" then transport else result.resultSource,
                             expectedStatus, result.status, result.sessionIdPresent, result.expiresAtPresent,
                             DigestOrFallback(tools, result.targetUrlDigest, fallbackUrl));
    if artifactDigest == "" then base else base["artifact_digest" := Str(artifactDigest)]
  }

  /**
    Reading evidence back: the status and both presence flags return, the digest and
    the source too unless they were empty, and `ok` is not kept.
   */
  lemma EvidenceRoundTrip(py: Runtime, tools: Tools, transport: string, result: LiveResult, expectedStatus: int,
                          fallbackUrl: string, artifactDigest: string)
    requires NormalResult(result) && Trimmed(transport)
    ensures NormalizeLiveResult(
              py, tools, Evidence(tools, transport, result, expectedStatus, fallbackUrl, artifactDigest))
            == LiveResult(false, result.status, result.sessionIdPresent, result.expiresAtPresent,
                          DigestOrFallback(tools, result.targetUrlDigest, fallbackUrl),
                          if result.resultSource == "" then transport else result.resultSource)
  {
    var evidence := Evidence(tools, transport, result, expectedStatus, fallbackUrl, artifactDigest);
    var digest := DigestOrFallback(tools, result.targetUrlDigest, fallbackUrl);
    var source := if result.resultSource == "" then transport else result.resultSource;
    EvidenceFields(tools, transport, result, expectedStatus, fallbackUrl, artifactDigest);
    assert Sound(tools);
    assert Trimmed(digest);
    SnakeFieldsReadBack(py, tools, evidence, result.status, result.sessionIdPresent, result.expiresAtPresent, digest,
                        source);
  }

  /** The keys of the evidence and what it holds under each. */
  lemma EvidenceFields(tools: Tools, transport: string, result: LiveResult, expectedStatus: int,
                       fallbackUrl: string, artifactDigest: string)
    ensures var e := Evidence(tools, transport, result, expectedStatus, fallbackUrl, artifactDigest);
            && e.Keys == (if artifactDigest == "" then EVIDENCE_KEYS - {"artifact_digest"} else EVIDENCE_KEYS)
            && Get(e, "transport") == Str(transport) && Get(e, "expected_status") == Num(Int(expectedStatus))
            && Get(e, "observed_status") == Num(Int(result.status))
            && Get(e, "session_id_present") == Bool(result.sessionIdPresent)
            && Get(e, "expires_at_present") == Bool(result.expiresAtPresent)
            && Get(e, "target_url_digest") ==
               Str(if result.targetUrlDigest == "" && fallbackUrl != "" then tools.digest(fallbackUrl)
                   else result.targetUrlDigest)
            && Get(e, "result_source") == Str(if result.resultSource == "" then transport else result.resultSource)
            && Get(e, "artifact_digest") == (if artifactDigest == "" then Null else Str(artifactDigest))
  {
  }

  lemma SnakeFieldsReadBack(py: Runtime, tools: Tools, e: Claims, status: int, session: bool, expires: bool,
                            digest: string, source: string)
    requires e.Keys <= EVIDENCE_KEYS && Trimmed(digest) && Trimmed(source)
    requires Get(e, "observed_status") == Num(Int(status))
    requires Get(e, "session_id_present") == Bool(session) && Get(e, "expires_at_present") == Bool(expires)
    requires Get(e, "target_url_digest") == Str(digest) && Get(e, "result_source") == Str(source)
    ensures NormalizeLiveResult(py, tools, e) == LiveResult(false, status, session, expires, digest, source)
  {
    CamelKeysAbsent();
    IntReadsBack(py, tools, status);
    TextReadsBack(py, digest);
    TextReadsBack(py, source);
  }

  const EVIDENCE_KEYS: set<string> :=
    {"transport", "result_source", "expected_status", "observed_status", "session_id_present", "expires_at_present",
     "target_url_digest", "artifact_digest"}

  lemma CamelKeysAbsent()
    ensures {"ok", "status", "sessionIdPresent", "expiresAtPresent", "targetUrlDigest", "resultSource"} !! EVIDENCE_KEYS
  {
  }

  // ---------- the evidence passes the scan its artifact passed ----------

  /** The two flows that build evidence from an artifact somebody else wrote. */
  datatype Flow = ManualArtifact | AgentBrowser

  function Transport(flow: Flow): string {
    if flow.ManualArtifact? then "manual-artifact" else "agent-browser"
  }

  function DefaultSource(flow: Flow): string {
    if flow.ManualArtifact? then "manual-browser-artifact" else "agent-browser-command"
  }

  /** The evidence a flow writes for a raw artifact. */
  function LiveEvidence(py: Runtime, tools: Tools, flow: Flow, raw: Claims, expectedStatus: int, chatUrl: string,
                        content: string): Claims
  {
    var normalized := NormalizeLiveResult(py, tools, raw);
    var result :=
      if normalized.resultSource == "" then normalized.(resultSource := DefaultSource(flow)) else normalized;
    Evidence(tools, Transport(flow), result, expectedStatus, chatUrl,
             if flow.ManualArtifact? then tools.digest(content) else "")
  }

  /** What the two flows write into their evidence. */
  lemma LiveEvidenceFields(py: Runtime, tools: Tools, flow: Flow, raw: Claims, expectedStatus: int, chatUrl: string,
                           content: string)
    ensures var e := LiveEvidence(py, tools, flow, raw, expectedStatus, chatUrl, content);
            var r := NormalizeLiveResult(py, tools, raw);
            var source := if flow.ManualArtifact? then "manual-browser-artifact" else "agent-browser-command";
            && Get(e, "transport") == Str(if flow.ManualArtifact? then "manual-artifact" else "agent-browser")
            && Get(e, "expected_status") == Num(Int(expectedStatus)) && Get(e, "observed_status") == Num(Int(r.status))
            && Get(e, "session_id_present") == Bool(r.sessionIdPresent)
            && Get(e, "expires_at_present") == Bool(r.expiresAtPresent)
            && Get(e, "result_source") == Str(if r.resultSource == "" then source else r.resultSource)
            && Get(e, "target_url_digest") ==
               Str(if r.targetUrlDigest == "" && chatUrl != "" then tools.digest(chatUrl) else r.targetUrlDigest)
            && Get(e, "artifact_digest") ==
               (if flow.ManualArtifact? && tools.digest(content) != "" then Str(tools.digest(content)) else Null)
  {
    var r := NormalizeLiveResult(py, tools, raw);
    var result := if r.resultSource == "" then r.(resultSource := DefaultSource(flow)) else r;
    EvidenceFields(tools, Transport(flow), result, expectedStatus, chatUrl,
                   if flow.ManualArtifact? then tools.digest(content) else "");
  }

  /** A hint is absent when two of its adjacent letters are not adjacent in the text. */
  lemma MissingPair(s: string, hint: string, at: nat)
    requires at + 1 < |hint|
    requires forall i :: 0 <= i < |s| - 1 ==> s[i] != hint[at] || s[i + 1] != hint[at + 1]
    ensures !Contains(s, hint)
  {
    forall i | 0 <= i <= |s| - |hint| ensures !OccursAt(s, hint, i) {
      var j := i + at;
      assert s[j] != hint[at] || s[j + 1] != hint[at + 1];
      assert s[i + (at + 1)] == s[j + 1];
    }
  }

  lemma LowerOfLower(s: string)
    requires forall i :: 0 <= i < |s| ==> LowerChar(s[i]) == s[i]
    ensures Lower(s) == s
  {
  }

  /**
    `probe` names, hint by hint, a letter of the hint that the lower-case key lacks;
    the hint numbered `spared` is shown absent otherwise.
   */
  lemma KeyLacks(key: string, probe: string, spared: nat)
    requires forall i :: 0 <= i < |key| ==> LowerChar(key[i]) == key[i]
    requires |probe| == |KEY_HINTS|
    requires forall j :: 0 <= j < |probe| && j != spared ==> probe[j] in KEY_HINTS[j] && probe[j] !in key
    requires spared < |KEY_HINTS| ==> !Contains(key, KEY_HINTS[spared])
    ensures !SensitiveKey(key)
  {
    LowerOfLower(key);
    forall j | 0 <= j < |KEY_HINTS| ensures !Contains(key, KEY_HINTS[j]) {
      if j != spared {
        var k :| 0 <= k < |KEY_HINTS[j]| && KEY_HINTS[j][k] == probe[j];
        MissingLetter(key, KEY_HINTS[j], k);
      }
    }
  }

  lemma TransportKeyInsensitive()
    ensures !SensitiveKey("transport")
  {
    KeyLacks("transport", "kuceccecch", 10);
  }

  lemma SourceKeyInsensitive()
    ensures !SensitiveKey("result_source")
  {
    KeyLacks("result_source", "kakniinaah", 10);
  }

  lemma ExpectedKeyInsensitive()
    ensures !SensitiveKey("expected_status")
  {
    KeyLacks("expected_status", "khknllnlrh", 10);
  }

  lemma ObservedKeyInsensitive()
    ensures !SensitiveKey("observed_status")
  {
    KeyLacks("observed_status", "khcnccncch", 10);
  }

  lemma UrlDigestKeyInsensitive()
    ensures !SensitiveKey("target_url_digest")
  {
    KeyLacks("target_url_digest", "khcnccncch", 10);
  }

  lemma ArtifactDigestKeyInsensitive()
    ensures !SensitiveKey("artifact_digest")
  {
    KeyLacks("artifact_digest", "kuonllnlph", 10);
  }

  lemma SessionKeyInsensitive()
    ensures !SensitiveKey("session_id_present")
  {
    MissingPair("session_id_present", KEY_HINTS[6], 1);
    KeyLacks("session_id_present", "kacacc-cch", 6);
  }

  lemma ExpiresKeyInsensitive()
    ensures !SensitiveKey("expires_at_present")
  {
    MissingPair("expires_at_present", KEY_HINTS[3], 2);
    KeyLacks("expires_at_present", "kuc-ccdcch", 3);
  }

  lemma EvidenceKeysInsensitive(k: string)
    requires k in EVIDENCE_KEYS
    ensures !SensitiveKey(k)
  {
    TransportKeyInsensitive();
    SourceKeyInsensitive();
    ExpectedKeyInsensitive();
    ObservedKeyInsensitive();
    UrlDigestKeyInsensitive();
    ArtifactDigestKeyInsensitive();
    SessionKeyInsensitive();
    ExpiresKeyInsensitive();
  }

  /** A string or a number: what the text fields of an artifact may hold. */
  predicate PlainField(v: Value) {
    v.Str? || v.Num?
  }

  /** The text of a plain field that passed the scan is insensitive. */
  lemma FieldInsensitive(py: Runtime, v: Value)
    requires PlainField(v) && Clean(v)
    ensures !SensitiveText(ToText(py, v))
  {
    if v.Str? {
      assert v.s in AllStrings(v);
      assert py.str(Str(v.s)) == v.s;
    } else {
      NumeralHarmless(py, v.n);
      HarmlessIsInsensitive(py.str(v));
    }
    StripStaysInsensitive(py.str(v));
  }

  lemma NumeralHarmless(py: Runtime, n: Number)
    ensures Harmless(py.str(Num(n)))
  {
    assert Faithful(py);
    var s := py.str(Num(n));
    forall i | 0 <= i < |s| ensures HarmlessChar(LowerChar(s[i])) {
      assert NumeralChar(s[i]);
    }
  }

  lemma ManualTextsHarmless()
    ensures Harmless("manual-artifact") && Harmless("manual-browser-artifact")
  {
  }

  lemma BrowserTextsHarmless()
    ensures Harmless("agent-browser") && Harmless("agent-browser-command")
  {
  }

  lemma FlowTextsInsensitive(flow: Flow)
    ensures !SensitiveText(Transport(flow)) && !SensitiveText(DefaultSource(flow))
  {
    ManualTextsHarmless();
    BrowserTextsHarmless();
    HarmlessIsInsensitive(Transport(flow));
    HarmlessIsInsensitive(DefaultSource(flow));
  }

  /** A listing of evidence is clean exactly when its digest and its source are insensitive. */
  lemma EvidenceCleanIff(tools: Tools, transport: string, result: LiveResult, expectedStatus: int, fallbackUrl: string,
                         artifactDigest: string, items: Entries)
    requires UniqueKeys(items)
    requires FromItems(items) == Evidence(tools, transport, result, expectedStatus, fallbackUrl, artifactDigest)
    requires !SensitiveText(transport) && !SensitiveText(artifactDigest)
    ensures Clean(Dict(items)) <==>
            && !SensitiveText(if result.resultSource == "" then transport else result.resultSource)
            && !SensitiveText(DigestOrFallback(tools, result.targetUrlDigest, fallbackUrl))
  {
    EvidenceFields(tools, transport, result, expectedStatus, fallbackUrl, artifactDigest);
    CleanDict(items);
    if Clean(Dict(items)) {
      TextInListing(items, "result_source");
      TextInListing(items, "target_url_digest");
    } else if && !SensitiveText(if result.resultSource == "" then transport else result.resultSource)
              && !SensitiveText(DigestOrFallback(tools, result.targetUrlDigest, fallbackUrl))
    {
      forall i | 0 <= i < |items| ensures !SensitiveKey(items[i].key) && Clean(items[i].value) {
        ItemInDict(items, i);
        EvidenceKeysInsensitive(items[i].key);
        EvidenceValueClean(tools, transport, result, expectedStatus, fallbackUrl, artifactDigest, items[i].key);
      }
    }
  }

  /** A text under a key of a clean listing is insensitive. */
  lemma TextInListing(items: Entries, k: string)
    requires Clean(Dict(items)) && k in FromItems(items) && FromItems(items)[k].Str?
    ensures !SensitiveText(FromItems(items)[k].s)
  {
    CleanDict(items);
    var i := FromItemsValue(items, k);
    assert FromItems(items)[k].s in AllStrings(items[i].value);
  }

  lemma BaseValueClean(transport: string, source: string, expected: int, observed: int, session: bool, expires: bool,
                       digest: string, k: string)
    requires !SensitiveText(transport) && !SensitiveText(source) && !SensitiveText(digest)
    requires k in BaseEvidence(transport, source, expected, observed, session, expires, digest)
    ensures Clean(BaseEvidence(transport, source, expected, observed, session, expires, digest)[k])
  {
    var v := BaseEvidence(transport, source, expected, observed, session, expires, digest)[k];
    assert v in {Str(transport), Str(source), Str(digest), Num(Int(expected)), Num(Int(observed)), Bool(session),
                 Bool(expires)};
  }

  lemma EvidenceValueClean(tools: Tools, transport: string, result: LiveResult, expectedStatus: int,
                           fallbackUrl: string, artifactDigest: string, k: string)
    requires !SensitiveText(transport) && !SensitiveText(artifactDigest)
    requires !SensitiveText(if result.resultSource == "" then transport else result.resultSource)
    requires !SensitiveText(DigestOrFallback(tools, result.targetUrlDigest, fallbackUrl))
    requires k in Evidence(tools, transport, result, expectedStatus, fallbackUrl, artifactDigest)
    ensures Clean(Evidence(tools, transport, result, expectedStatus, fallbackUrl, artifactDigest)[k])
  {
    if k != "artifact_digest" || artifactDigest == "" {
      BaseValueClean(transport, if result.resultSource == "" then transport else result.resultSource,
                     expectedStatus, result.status, result.sessionIdPresent, result.expiresAtPresent,
                     DigestOrFallback(tools, result.targetUrlDigest, fallbackUrl), k);
    }
  }

  /** The text fields of a raw artifact, as normalising picks them. */
  function DigestField(raw: Claims): Value { GetEither(raw, "targetUrlDigest", "target_url_digest", Str("")) }
  function SourceField(raw: Claims): Value { GetEither(raw, "resultSource", "result_source", Str("")) }

  lemma PickedFieldClean(payload: Entries, first: string, second: string)
    requires Clean(Dict(payload))
    ensures Clean(GetEither(FromItems(payload), first, second, Str("")))
  {
    CleanDict(payload);
    var raw := FromItems(payload);
    HarmlessIsInsensitive("");
    if first in raw {
      var i := FromItemsValue(payload, first);
      assert payload[i].value == raw[first];
    } else if second in raw {
      var i := FromItemsValue(payload, second);
      assert payload[i].value == raw[second];
    }
  }

  /**
    The evidence written from an artifact, in whatever order its items are listed,
    passes the scan exactly when the texts rendered from its digest and source fields
    are insensitive.
   */
  lemma EvidencePassesIff(py: Runtime, tools: Tools, flow: Flow, raw: Claims, expectedStatus: int, chatUrl: string,
                          content: string, items: Entries, path: string)
    requires UniqueKeys(items)
    requires FromItems(items) == LiveEvidence(py, tools, flow, raw, expectedStatus, chatUrl, content)
    ensures Paths(Dict(items), path) == [] <==>
            !SensitiveText(ToText(py, DigestField(raw))) && !SensitiveText(ToText(py, SourceField(raw)))
  {
    FlowTextsInsensitive(flow);
    assert Sound(tools);
    HarmlessIsInsensitive(tools.digest(chatUrl));
    HarmlessIsInsensitive(tools.digest(content));
    HarmlessIsInsensitive("");
    var normalized := NormalizeLiveResult(py, tools, raw);
    var result :=
      if normalized.resultSource == "" then normalized.(resultSource := DefaultSource(flow)) else normalized;
    EvidenceCleanIff(tools, Transport(flow), result, expectedStatus, chatUrl,
                     if flow.ManualArtifact? then tools.digest(content) else "", items);
    ScanExact(Dict(items), path);
  }

  /**
    Closure: if an artifact passes the scan and its digest and source fields are
    strings, numbers or absent, the evidence written from it passes the scan too.
   */
  lemma EvidencePassesScan(py: Runtime, tools: Tools, flow: Flow, payload: Entries, expectedStatus: int,
                           chatUrl: string, content: string, items: Entries, path: string)
    requires PlainField(DigestField(FromItems(payload))) && PlainField(SourceField(FromItems(payload)))
    requires UniqueKeys(items)
    ensures FromItems(items) == LiveEvidence(py, tools, flow, FromItems(payload), expectedStatus, chatUrl, content) &&
            Paths(Dict(payload), "$") == [] ==>
              Paths(Dict(items), path) == []
  {
    var raw := FromItems(payload);
    var evidence := LiveEvidence(py, tools, flow, raw, expectedStatus, chatUrl, content);
    if Paths(Dict(payload), "$") == [] && FromItems(items) == evidence {
      ScanExact(Dict(payload), "$");
      PickedFieldClean(payload, "targetUrlDigest", "target_url_digest");
      PickedFieldClean(payload, "resultSource", "result_source");
      FieldInsensitive(py, DigestField(raw));
      FieldInsensitive(py, SourceField(raw));
      EvidencePassesIff(py, tools, flow, raw, expectedStatus, chatUrl, content, items, path);
    }
  }
}
