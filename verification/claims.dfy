/**
  The bounded claim sanitiser (`identity_lab_auth/claims.py`).

  `Sanitize` trims strings and cuts them at 256 characters plus an ellipsis, keeps
  the first twenty items of a list, and replaces a dict whose serialisation exceeds
  512 characters by the first 512 of them plus an ellipsis.
 */
module ClaimSanitizer {
  import opened PyText
  import opened Json

  const MAX_STRING := 256
  const MAX_ITEMS := 20
  const MAX_SERIALISED := 512

  /** The allow list of `config/claims/safe-claims-allowlist.json`. */
  const SAFE_CLAIM_KEYS: set<string> :=
    {"aud", "iss", "tid", "azp", "appid", "scp", "roles", "exp", "nbf", "iat", "ver", "xms_act_fct"}

  function Cut(s: string, n: nat): string {
    if |s| > n then s[..n] + [ELLIPSIS] else s
  }

  function SanitizeString(s: string): string {
    Cut(Strip(s), MAX_STRING)
  }

  function Sanitize(py: Runtime, v: Value): Value
    decreases v, 1
  {
    match v
    case Null => v
    case Bool(_) => v
    case Num(_) => v
    case Str(s) => Str(SanitizeString(s))
    case List(items) =>
      List(seq(if |items| < MAX_ITEMS then |items| else MAX_ITEMS,
               i requires 0 <= i < |items| => Sanitize(py, items[i])))
    case Dict(entries) => Collapse(py, SanitizeEntries(py, entries))
  }

  /** The kept entries of a dict: a value that sanitises to None is dropped. */
  function SanitizeEntries(py: Runtime, entries: Entries): Entries
    decreases entries, 0
  {
    if entries == [] then []
    else
      var sv := Sanitize(py, entries[0].value);
      (if sv == Null then [] else [Entry(entries[0].key, sv)]) + SanitizeEntries(py, entries[1..])
  }

  /** A dict that serialises to more than 512 characters becomes the cut serialisation. */
  function Collapse(py: Runtime, entries: Entries): Value {
    var serialised := Serialise(py, Dict(entries));
    if |serialised| > MAX_SERIALISED then Str(Cut(serialised, MAX_SERIALISED)) else Dict(entries)
  }

  function KeptEntry(py: Runtime, e: Entry): Entries {
    if Sanitize(py, e.value) == Null then [] else [Entry(e.key, Sanitize(py, e.value))]
  }

  lemma SanitizeEntriesCons(py: Runtime, e: Entry, rest: Entries)
    ensures SanitizeEntries(py, [e]) == KeptEntry(py, e)
    ensures SanitizeEntries(py, [e] + rest) == SanitizeEntries(py, [e]) + SanitizeEntries(py, rest)
  {
    assert ([e] + rest)[1..] == rest && [e][1..] == [];
  }

  lemma {:induction false} SanitizeEntriesSplit(py: Runtime, a: Entries, b: Entries)
    ensures SanitizeEntries(py, a + b) == SanitizeEntries(py, a) + SanitizeEntries(py, b)
  {
    if a == [] {
      assert a + b == b;
    } else {
      var e, rest := a[0], a[1..];
      SanitizeEntriesSplit(py, rest, b);
      SanitizeEntriesCons(py, e, rest);
      SanitizeEntriesCons(py, e, rest + b);
      Reassociate(SanitizeEntries(py, [e]), SanitizeEntries(py, rest), SanitizeEntries(py, b));
      assert a == [e] + rest && a + b == [e] + (rest + b);
    }
  }

  lemma SanitizeEntriesOneMore(py: Runtime, entries: Entries, i: nat)
    requires i < |entries|
    ensures SanitizeEntries(py, entries[..i + 1]) ==
            SanitizeEntries(py, entries[..i]) + KeptEntry(py, entries[i])
  {
    SanitizeEntriesSplit(py, entries[..i], [entries[i]]);
    SanitizeEntriesCons(py, entries[i], []);
    assert entries[..i + 1] == entries[..i] + [entries[i]];
  }

  /** The dict case as the source runs it: a loop over the items that fills a new dict. */
  method SanitizeDict(py: Runtime, entries: Entries) returns (r: Value)
    ensures r == Sanitize(py, Dict(entries))
  {
    var kept: Entries := [];
    for i := 0 to |entries|
      invariant kept == SanitizeEntries(py, entries[..i])
    {
      SanitizeEntriesOneMore(py, entries, i);
      var sv := Sanitize(py, entries[i].value);
      if sv != Null {
        kept := kept + [Entry(entries[i].key, sv)];
      }
    }
    assert entries[..|entries|] == entries;
    r := Collapse(py, kept);
  }

  function SanitizeClaims(py: Runtime, claims: Claims): Claims {
    map k | k in claims && k in SAFE_CLAIM_KEYS && Sanitize(py, claims[k]) != Null :: Sanitize(py, claims[k])
  }

  /** One more item either adds its sanitised value or changes nothing. */
  lemma SanitizeClaimsAdd(py: Runtime, claims: Claims, k: string, v: Value)
    requires k !in claims
    ensures SanitizeClaims(py, claims[k := v]) ==
            if k in SAFE_CLAIM_KEYS && Sanitize(py, v) != Null
            then SanitizeClaims(py, claims)[k := Sanitize(py, v)]
            else SanitizeClaims(py, claims)
  {
    var before, after := SanitizeClaims(py, claims), SanitizeClaims(py, claims[k := v]);
    var expected := if k in SAFE_CLAIM_KEYS && Sanitize(py, v) != Null then before[k := Sanitize(py, v)] else before;
    NullOnlyFromNull(py, v);
    forall j
      ensures j in after <==> j in expected
      ensures Get(after, j) == Get(expected, j)
    {
      SanitizedClaim(py, claims, j);
      SanitizedClaim(py, claims[k := v], j);
    }
    SameClaims(after, expected);
  }

  /** `sanitize_claims` as the source runs it, over the items of the claims dict. */
  method SanitizeClaimItems(py: Runtime, items: Entries) returns (sanitized: Claims)
    requires UniqueKeys(items)
    ensures sanitized == SanitizeClaims(py, FromItems(items))
  {
    sanitized := map[];
    for i := 0 to |items|
      invariant sanitized == SanitizeClaims(py, FromItems(items[..i]))
    {
      assert items[..i + 1][..i] == items[..i];
      FromItemsKeys(items[..i], items[i].key);
      SanitizeClaimsAdd(py, FromItems(items[..i]), items[i].key, items[i].value);
      if items[i].key in SAFE_CLAIM_KEYS {
        var sv := Sanitize(py, items[i].value);
        if sv != Null {
          sanitized := sanitized[items[i].key := sv];
        }
      }
    }
    assert items[..|items|] == items;
  }

  // ---------- normal forms ----------

  /** The strings the sanitiser leaves alone. */
  predicate NormalString(s: string) {
    Trimmed(s) && (|s| <= MAX_STRING || (|s| == MAX_STRING + 1 && s[MAX_STRING] == ELLIPSIS))
  }

  /** The values within every limit of the sanitiser; it says nothing of `Sanitize`. */
  predicate Normal(py: Runtime, v: Value) {
    match v
    case Null => true
    case Bool(_) => true
    case Num(_) => true
    case Str(s) => NormalString(s)
    case List(items) => |items| <= MAX_ITEMS && forall i :: 0 <= i < |items| ==> Normal(py, items[i])
    case Dict(entries) =>
      && |Serialise(py, v)| <= MAX_SERIALISED
      && forall i :: 0 <= i < |entries| ==> entries[i].value != Null && Normal(py, entries[i].value)
  }

  /** Sanitising drops an oversized dict to a string at the top or inside lists only. */
  predicate Collapses(py: Runtime, v: Value) {
    match v
    case Dict(entries) => |Serialise(py, Dict(SanitizeEntries(py, entries)))| > MAX_SERIALISED
    case List(items) => exists i :: 0 <= i < |items| && i < MAX_ITEMS && Collapses(py, items[i])
    case _ => false
  }

  /** The limits, in figures: strings, lists and dicts. */
  lemma SanitizeLimits(py: Runtime, s: string, items: seq<Value>, entries: Entries)
    ensures |Strip(s)| <= 256 ==> Sanitize(py, Str(s)) == Str(Strip(s))
    ensures |Strip(s)| > 256 ==> Sanitize(py, Str(s)) == Str(Strip(s)[..256] + "\U{2026}")
    ensures var out := Sanitize(py, List(items));
            && out.List? && |out.items| == (if |items| < 20 then |items| else 20)
            && forall i :: 0 <= i < |out.items| ==> out.items[i] == Sanitize(py, items[i])
    ensures var serialised := Serialise(py, Dict(SanitizeEntries(py, entries)));
            Sanitize(py, Dict(entries)) ==
            if |serialised| <= 512 then Dict(SanitizeEntries(py, entries)) else Str(serialised[..512] + "\U{2026}")
  {
  }

  /** The twelve claims that are kept. */
  lemma AllowedKeys(py: Runtime, claims: Claims, k: string)
    ensures k in SanitizeClaims(py, claims) <==>
            && k in ["aud", "iss", "tid", "azp", "appid", "scp", "roles", "exp", "nbf", "iat", "ver", "xms_act_fct"]
            && k in claims && claims[k] != Null
    ensures k in SanitizeClaims(py, claims) ==> SanitizeClaims(py, claims)[k] == Sanitize(py, claims[k])
  {
    NullOnlyFromNull(py, Get(claims, k));
  }

  lemma NormalStringIsFixed(s: string)
    ensures NormalString(s) <==> SanitizeString(s) == s
  {
    if SanitizeString(s) == s && |Strip(s)| > MAX_STRING {
      assert s[MAX_STRING] == ELLIPSIS;
    }
  }

  lemma SanitizeStringIsNormal(s: string)
    ensures NormalString(SanitizeString(s))
  {
  }

  lemma SanitizeOfStrip(s: string)
    ensures SanitizeString(Strip(s)) == SanitizeString(s)
  {
    var t := Strip(s);
    assert Strip(t) == t;
  }

  /** Only null sanitises to null. */
  lemma NullOnlyFromNull(py: Runtime, v: Value)
    ensures Sanitize(py, v) == Null <==> v == Null
  {
  }

  lemma {:induction false} NormalEntriesKept(py: Runtime, entries: Entries)
    requires forall i :: 0 <= i < |entries| ==>
               entries[i].value != Null && Sanitize(py, entries[i].value) == entries[i].value
    ensures SanitizeEntries(py, entries) == entries
  {
    if entries == [] {
    } else {
      NormalEntriesKept(py, entries[1..]);
    }
  }

  lemma {:induction false} KeptEntriesAreFixed(py: Runtime, entries: Entries)
    ensures |SanitizeEntries(py, entries)| <= |entries|
    ensures |SanitizeEntries(py, entries)| == |entries| ==>
              forall i :: 0 <= i < |entries| ==>
                && SanitizeEntries(py, entries)[i] == Entry(entries[i].key, Sanitize(py, entries[i].value))
                && entries[i].value != Null
  {
    if entries == [] {
    } else {
      KeptEntriesAreFixed(py, entries[1..]);
      NullOnlyFromNull(py, entries[0].value);
      var rest := SanitizeEntries(py, entries[1..]);
      if |SanitizeEntries(py, entries)| == |entries| {
        assert SanitizeEntries(py, entries) == [Entry(entries[0].key, Sanitize(py, entries[0].value))] + rest;
        forall i | 0 <= i < |entries|
          ensures SanitizeEntries(py, entries)[i] == Entry(entries[i].key, Sanitize(py, entries[i].value))
          ensures entries[i].value != Null
        {
          if i > 0 {
            assert SanitizeEntries(py, entries)[i] == rest[i - 1];
            assert entries[1..][i - 1] == entries[i];
          }
        }
      }
    }
  }

  /** The fixed points of the sanitiser are exactly the values within its limits. */
  lemma {:induction false} FixedPointsAreNormal(py: Runtime, v: Value)
    ensures Normal(py, v) <==> Sanitize(py, v) == v
    decreases v
  {
    match v
    case Str(s) => NormalStringIsFixed(s);
    case List(items) =>
      forall i | 0 <= i < |items| {
        FixedPointsAreNormal(py, items[i]);
      }
      if Sanitize(py, v) == v {
        var out := Sanitize(py, v).items;
        assert |out| <= MAX_ITEMS;
        forall i | 0 <= i < |items| ensures Normal(py, items[i]) {
          assert out[i] == items[i];
        }
      }
      if Normal(py, v) {
        assert Sanitize(py, v).items == items;
      }
    case Dict(entries) =>
      forall i | 0 <= i < |entries| {
        FixedPointsAreNormal(py, entries[i].value);
      }
      KeptEntriesAreFixed(py, entries);
      if Normal(py, v) {
        NormalEntriesKept(py, entries);
      }
    case _ =>
  }

  /** Past the limits only the beginning counts: later list items are ignored. */
  lemma OnlyFirstItemsMatter(py: Runtime, items: seq<Value>, more: seq<Value>)
    requires |items| >= MAX_ITEMS
    ensures Sanitize(py, List(items + more)) == Sanitize(py, List(items))
  {
    var a, b := Sanitize(py, List(items + more)).items, Sanitize(py, List(items)).items;
    forall i | 0 <= i < MAX_ITEMS ensures a[i] == b[i] {
      assert (items + more)[i] == items[i];
    }
  }

  /** Of two longer strings only the first 256 characters count once they are trimmed. */
  lemma OnlyFirstCharactersMatter(s: string, t: string)
    requires |Strip(s)| > MAX_STRING && |Strip(t)| > MAX_STRING
    ensures SanitizeString(s) == SanitizeString(t) <==> Strip(s)[..MAX_STRING] == Strip(t)[..MAX_STRING]
  {
    var a, b := SanitizeString(s), SanitizeString(t);
    assert a[..MAX_STRING] == Strip(s)[..MAX_STRING] && b[..MAX_STRING] == Strip(t)[..MAX_STRING];
  }

  lemma NullEntryVanishes(py: Runtime, k: string)
    ensures SanitizeEntries(py, [Entry(k, Null)]) == []
  {
    assert [Entry(k, Null)][1..] == [];
  }

  /** Null entries of a dict vanish, wherever they stand. */
  lemma NullEntriesVanish(py: Runtime, a: Entries, k: string, b: Entries)
    ensures Sanitize(py, Dict(a + [Entry(k, Null)] + b)) == Sanitize(py, Dict(a + b))
  {
    var gone := [Entry(k, Null)];
    NullEntryVanishes(py, k);
    SanitizeEntriesSplit(py, a + gone, b);
    SanitizeEntriesSplit(py, a, gone);
    SanitizeEntriesSplit(py, a, b);
    assert SanitizeEntries(py, a + gone + b) == SanitizeEntries(py, a + b);
  }

  // ---------- stabilisation ----------

  lemma {:induction false} KeptEntryFrom(py: Runtime, entries: Entries, j: nat) returns (i: nat)
    requires j < |SanitizeEntries(py, entries)|
    ensures i < |entries|
    ensures SanitizeEntries(py, entries)[j] == Entry(entries[i].key, Sanitize(py, entries[i].value))
    ensures SanitizeEntries(py, entries)[j].value != Null
  {
    if Sanitize(py, entries[0].value) == Null {
      i := KeptEntryFrom(py, entries[1..], j);
      i := i + 1;
    } else if j == 0 {
      i := 0;
    } else {
      i := KeptEntryFrom(py, entries[1..], j - 1);
      i := i + 1;
    }
  }

  /** The key fact: an output that serialises to at most 512 characters is a fixed point. */
  lemma {:induction false} SmallOutputIsNormal(py: Runtime, v: Value)
    requires |Serialise(py, Sanitize(py, v))| <= MAX_SERIALISED
    ensures Normal(py, Sanitize(py, v))
    decreases v
  {
    match v
    case Str(s) => SanitizeStringIsNormal(s);
    case List(items) =>
      var out := Sanitize(py, v).items;
      forall i | 0 <= i < |out| ensures Normal(py, out[i]) {
        ItemWithin(py, out, i);
        SmallOutputIsNormal(py, items[i]);
      }
    case Dict(entries) =>
      var kept := SanitizeEntries(py, entries);
      var serialised := Serialise(py, Dict(kept));
      if |serialised| > MAX_SERIALISED {
        EscapeNotShorter(py, Cut(serialised, MAX_SERIALISED));
        assert false;
      }
      forall j | 0 <= j < |kept| ensures kept[j].value != Null && Normal(py, kept[j].value) {
        var i := KeptEntryFrom(py, entries, j);
        EntryWithin(py, kept, j);
        SmallOutputIsNormal(py, entries[i].value);
      }
    case _ =>
  }

  /** One pass reaches a fixed point exactly when no oversized dict collapses outside a dict. */
  lemma {:induction false} OnePassNormalIff(py: Runtime, v: Value)
    ensures Normal(py, Sanitize(py, v)) <==> !Collapses(py, v)
    decreases v
  {
    match v
    case Str(s) => SanitizeStringIsNormal(s);
    case List(items) =>
      var out := Sanitize(py, v).items;
      forall i | 0 <= i < |out| {
        OnePassNormalIff(py, items[i]);
      }
      forall i | 0 <= i < |out| ensures Normal(py, out[i]) <==> !Collapses(py, items[i]) {
      }
    case Dict(entries) =>
      if !Collapses(py, v) {
        SmallOutputIsNormal(py, v);
      }
    case _ =>
  }

  /** Two passes always reach a fixed point. */
  lemma {:induction false} TwoPassesNormal(py: Runtime, v: Value)
    ensures Normal(py, Sanitize(py, Sanitize(py, v)))
    decreases v
  {
    match v
    case Str(s) => SanitizeStringIsNormal(SanitizeString(s));
    case List(items) =>
      var out := Sanitize(py, Sanitize(py, v)).items;
      forall i | 0 <= i < |out| ensures Normal(py, out[i]) {
        TwoPassesNormal(py, items[i]);
      }
    case Dict(entries) =>
      var kept := SanitizeEntries(py, entries);
      if |Serialise(py, Dict(kept))| > MAX_SERIALISED {
        SanitizeStringIsNormal(Cut(Serialise(py, Dict(kept)), MAX_SERIALISED));
      } else {
        SmallOutputIsNormal(py, v);
        FixedPointsAreNormal(py, Sanitize(py, v));
      }
    case _ =>
  }

  /** Sanitising stabilises after two passes, on every JSON value. */
  lemma SanitizeStabilises(py: Runtime, v: Value)
    ensures var twice := Sanitize(py, Sanitize(py, v)); Sanitize(py, twice) == twice
  {
    TwoPassesNormal(py, v);
    FixedPointsAreNormal(py, Sanitize(py, Sanitize(py, v)));
  }

  /** When a second pass changes nothing. */
  lemma SecondPassIdleIff(py: Runtime, v: Value)
    ensures Sanitize(py, Sanitize(py, v)) == Sanitize(py, v) <==> !Collapses(py, v)
  {
    FixedPointsAreNormal(py, Sanitize(py, v));
    OnePassNormalIff(py, v);
  }

  /** One pass is not enough: a dict with one over-long key changes again on the second pass. */
  lemma OnePassIsNotIdempotent(py: Runtime, key: string)
    requires |key| > MAX_SERIALISED
    ensures var v := Dict([Entry(key, Bool(true))]);
            Sanitize(py, Sanitize(py, v)) != Sanitize(py, v)
  {
    var v := Dict([Entry(key, Bool(true))]);
    EscapeNotShorter(py, key);
    NormalEntriesKept(py, v.entries);
    assert |Serialise(py, v)| > |SerialiseEntries(py, v.entries)| > |Quote(py, key)| > |key|;
    assert Collapses(py, v);
    SecondPassIdleIff(py, v);
  }

  // ---------- what the sanitiser can produce ----------

  ghost predicate Output(py: Runtime, v: Value) {
    exists w: Value :: Sanitize(py, w) == v
  }

  /** Some dict is too large and collapses to this text. */
  ghost predicate CollapsedText(py: Runtime, t: string) {
    exists entries: Entries :: Sanitize(py, Dict(entries)) == Str(t)
  }

  /** Entries a sanitised dict can have: no null values, only outputs. */
  ghost predicate OutputEntries(py: Runtime, entries: Entries) {
    forall i :: 0 <= i < |entries| ==> entries[i].value != Null && Output(py, entries[i].value)
  }

  lemma {:induction false} EntriesFrom(py: Runtime, kept: Entries) returns (entries: Entries)
    requires OutputEntries(py, kept)
    ensures SanitizeEntries(py, entries) == kept
  {
    if kept == [] {
      entries := [];
    } else {
      var e := kept[0];
      var w: Value :| Sanitize(py, w) == e.value;
      var rest := EntriesFrom(py, kept[1..]);
      entries := [Entry(e.key, w)] + rest;
      SanitizeEntriesCons(py, Entry(e.key, w), rest);
      assert kept == [e] + kept[1..];
    }
  }

  lemma KeptAreOutputs(py: Runtime, entries: Entries)
    ensures OutputEntries(py, SanitizeEntries(py, entries))
  {
    var kept := SanitizeEntries(py, entries);
    forall j | 0 <= j < |kept| ensures kept[j].value != Null && Output(py, kept[j].value) {
      var i := KeptEntryFrom(py, entries, j);
      assert Sanitize(py, entries[i].value) == kept[j].value;
    }
  }

  lemma {:induction false} ItemsFrom(py: Runtime, out: seq<Value>) returns (items: seq<Value>)
    requires forall i :: 0 <= i < |out| ==> Output(py, out[i])
    ensures |items| == |out| && forall i :: 0 <= i < |out| ==> Sanitize(py, items[i]) == out[i]
  {
    if out == [] {
      items := [];
    } else {
      var n := |out| - 1;
      var w: Value :| Sanitize(py, w) == out[n];
      items := ItemsFrom(py, out[..n]);
      items := items + [w];
    }
  }

  /** The first 512 characters of a serialisation that is longer, and the mark. */
  predicate CutSerialisation(py: Runtime, kept: Entries, t: string) {
    var serialised := Serialise(py, Dict(kept));
    |serialised| > MAX_SERIALISED && t == serialised[..MAX_SERIALISED] + [ELLIPSIS]
  }

  lemma CollapseIs(py: Runtime, kept: Entries, t: string)
    ensures Collapse(py, kept) == Str(t) <==> CutSerialisation(py, kept, t)
  {
  }

  lemma CollapsedFrom(py: Runtime, kept: Entries, t: string)
    requires OutputEntries(py, kept) && CutSerialisation(py, kept, t)
    ensures CollapsedText(py, t)
  {
    var entries := EntriesFrom(py, kept);
    CollapseIs(py, kept, t);
    assert Sanitize(py, Dict(entries)) == Str(t);
  }

  /** The texts oversized dicts collapse to: cut serialisations of entries that are outputs. */
  lemma CollapsedTextIff(py: Runtime, t: string)
    ensures CollapsedText(py, t) <==> exists kept :: OutputEntries(py, kept) && CutSerialisation(py, kept, t)
  {
    if CollapsedText(py, t) {
      var entries: Entries :| Sanitize(py, Dict(entries)) == Str(t);
      KeptAreOutputs(py, entries);
      CollapseIs(py, SanitizeEntries(py, entries), t);
    }
    if kept :| OutputEntries(py, kept) && CutSerialisation(py, kept, t) {
      CollapsedFrom(py, kept, t);
    }
  }

  lemma OutputListIff(py: Runtime, items: seq<Value>)
    ensures Output(py, List(items)) <==>
            |items| <= MAX_ITEMS && forall i :: 0 <= i < |items| ==> Output(py, items[i])
  {
    if w: Value :| Sanitize(py, w) == List(items) {
      forall i | 0 <= i < |items| ensures Output(py, items[i]) {
        assert Sanitize(py, w.items[i]) == items[i];
      }
    }
    if |items| <= MAX_ITEMS && forall i :: 0 <= i < |items| ==> Output(py, items[i]) {
      var ws := ItemsFrom(py, items);
      assert Sanitize(py, List(ws)).items == items;
    }
  }

  lemma OutputDictIff(py: Runtime, entries: Entries)
    ensures Output(py, Dict(entries)) <==>
            |Serialise(py, Dict(entries))| <= MAX_SERIALISED && OutputEntries(py, entries)
  {
    if w: Value :| Sanitize(py, w) == Dict(entries) {
      KeptAreOutputs(py, w.entries);
      assert Collapse(py, SanitizeEntries(py, w.entries)) == Dict(entries);
    }
    if |Serialise(py, Dict(entries))| <= MAX_SERIALISED && OutputEntries(py, entries) {
      var ws := EntriesFrom(py, entries);
      assert Sanitize(py, Dict(ws)) == Collapse(py, entries);
    }
  }

  lemma StringFrom(py: Runtime, w: Value, t: string)
    ensures Sanitize(py, w) == Str(t) ==> NormalString(t) || CollapsedText(py, t)
  {
    match w
    case Str(s) => SanitizeStringIsNormal(s);
    case Dict(entries) => assert Sanitize(py, Dict(entries)) == Str(t) ==> CollapsedText(py, t);
    case _ =>
  }

  lemma OutputStringIff(py: Runtime, t: string)
    ensures Output(py, Str(t)) <==> NormalString(t) || CollapsedText(py, t)
  {
    if NormalString(t) {
      NormalStringIsFixed(t);
      assert Sanitize(py, Str(t)) == Str(t);
    }
    if w: Value :| Sanitize(py, w) == Str(t) {
      StringFrom(py, w, t);
    }
  }

  /** Exactly the values one pass can produce, layer by layer. */
  lemma OutputIff(py: Runtime, v: Value)
    ensures Output(py, v) <==>
            match v
            case Str(t) => NormalString(t) || CollapsedText(py, t)
            case List(items) => |items| <= MAX_ITEMS && forall i :: 0 <= i < |items| ==> Output(py, items[i])
            case Dict(entries) => |Serialise(py, v)| <= MAX_SERIALISED && OutputEntries(py, entries)
            case _ => true
  {
    match v
    case Str(t) => OutputStringIff(py, t);
    case List(items) => OutputListIff(py, items);
    case Dict(entries) => OutputDictIff(py, entries);
    case _ => assert Sanitize(py, v) == v;
  }

  /** What the sanitised claims hold under one key. */
  lemma SanitizedClaim(py: Runtime, claims: Claims, k: string)
    ensures k in SanitizeClaims(py, claims) <==> k in SAFE_CLAIM_KEYS && Get(claims, k) != Null
    ensures k in SAFE_CLAIM_KEYS ==> Get(SanitizeClaims(py, claims), k) == Sanitize(py, Get(claims, k))
    ensures k !in SAFE_CLAIM_KEYS ==> Get(SanitizeClaims(py, claims), k) == Null
  {
    NullOnlyFromNull(py, Get(claims, k));
  }

  lemma SameClaims(a: Claims, b: Claims)
    requires forall k :: k in a <==> k in b
    requires forall k :: Get(a, k) == Get(b, k)
    ensures a == b
  {
    forall k | k in a ensures a[k] == b[k] {
      assert Get(a, k) == Get(b, k);
    }
  }

  /** For a whole claims dict: the first pass settles the key set, the second every value. */
  lemma ClaimsStabilise(py: Runtime, claims: Claims)
    ensures var once := SanitizeClaims(py, claims);
            var twice := SanitizeClaims(py, once);
            twice.Keys == once.Keys && SanitizeClaims(py, twice) == twice
  {
    var once := SanitizeClaims(py, claims);
    var twice := SanitizeClaims(py, once);
    var thrice := SanitizeClaims(py, twice);
    forall k
      ensures k in once <==> k in twice
      ensures k in twice <==> k in thrice
      ensures Get(twice, k) == Get(thrice, k)
    {
      SanitizedClaim(py, claims, k);
      SanitizedClaim(py, once, k);
      SanitizedClaim(py, twice, k);
      SanitizeStabilises(py, Get(claims, k));
    }
    SameClaims(twice, thrice);
  }

  /** A second pass over a claims dict is idle exactly when no allowed claim collapses. */
  lemma ClaimsSecondPassIdleIff(py: Runtime, claims: Claims)
    ensures var once := SanitizeClaims(py, claims);
            SanitizeClaims(py, once) == once <==>
              forall k :: k in SAFE_CLAIM_KEYS ==> !Collapses(py, Get(claims, k))
  {
    var once := SanitizeClaims(py, claims);
    var twice := SanitizeClaims(py, once);
    forall k
      ensures k in once <==> k in twice
      ensures k in SAFE_CLAIM_KEYS ==> (Get(once, k) == Get(twice, k) <==> !Collapses(py, Get(claims, k)))
      ensures k !in SAFE_CLAIM_KEYS ==> Get(once, k) == Get(twice, k)
    {
      SanitizedClaim(py, claims, k);
      SanitizedClaim(py, once, k);
      SecondPassIdleIff(py, Get(claims, k));
    }
    if forall k :: k in SAFE_CLAIM_KEYS ==> !Collapses(py, Get(claims, k)) {
      SameClaims(once, twice);
    }
  }
}
