/**
  The artifact scanner of the browser smoke harness and the redacted evidence it
  writes (`tools/ci/m8_browser_smoke_harness.py`).
 */
module ArtifactScanner {
  import opened PyText
  import opened Json

  const KEY_HINTS: seq<string> :=
    ["token", "authorization", "cookie", "tenant", "client_id", "clientid", "endpoint", "claims",
     "trace_payload", "headers"]
  const VALUE_HINTS: seq<string> :=
    ["bearer ", "authorization", "set-cookie", "cookie=", "http://", "https://"]
  const JWT_START := "eyj"

  /** `part in s` */
  predicate Contains(s: string, part: string) {
    exists i :: 0 <= i <= |s| - |part| && OccursAt(s, part, i)
  }

  predicate OccursAt(s: string, part: string, i: nat)
    requires i + |part| <= |s|
  {
    forall k :: 0 <= k < |part| ==> s[i + k] == part[k]
  }

  /** `s.count(c)` */
  function Count(s: string, c: char): nat {
    if s == "" then 0 else (if s[|s| - 1] == c then 1 else 0) + Count(s[..|s| - 1], c)
  }

  predicate SensitiveKey(key: string) {
    exists j :: 0 <= j < |KEY_HINTS| && Contains(Lower(key), KEY_HINTS[j])
  }

  predicate SensitiveText(s: string) {
    || (exists j :: 0 <= j < |VALUE_HINTS| && Contains(Lower(s), VALUE_HINTS[j]))
    || (Count(Lower(s), '.') >= 2 && Contains(Lower(s), JWT_START))
  }

  /** The text stands in the other, in any case. */
  predicate AppearsIn(hint: string, s: string) {
    exists i :: 0 <= i <= |s| && AppearsAt(hint, s, i)
  }

  predicate AppearsAt(hint: string, s: string, i: nat) {
    i + |hint| <= |s| && Lower(s[i..i + |hint|]) == hint
  }

  lemma ContainsIff(s: string, hint: string)
    ensures Contains(Lower(s), hint) <==> AppearsIn(hint, s)
  {
    var l := Lower(s);
    if i :| 0 <= i <= |l| - |hint| && OccursAt(l, hint, i) {
      assert Lower(s[i..i + |hint|]) == hint;
      assert AppearsAt(hint, s, i);
    }
    if i :| 0 <= i <= |s| && AppearsAt(hint, s, i) {
      forall k | 0 <= k < |hint| ensures l[i + k] == hint[k] {
        assert Lower(s[i..i + |hint|])[k] == LowerChar(s[i + k]);
      }
      assert OccursAt(l, hint, i);
    }
  }

  lemma {:induction false} CountIff(s: string, c: char)
    ensures Count(s, c) >= 1 <==> c in s
    ensures Count(s, c) >= 2 <==> exists i, j :: 0 <= i < j < |s| && s[i] == c && s[j] == c
  {
    if s == "" {
    } else {
      var n := |s| - 1;
      CountIff(s[..n], c);
      if c in s[..n] {
        var i :| 0 <= i < n && s[..n][i] == c;
        assert s[i] == c;
      }
      if i, j :| 0 <= i < j < n && s[..n][i] == c && s[..n][j] == c {
        assert s[i] == c && s[j] == c;
      }
      if i, j :| 0 <= i < j < |s| && s[i] == c && s[j] == c {
        assert s[..n][i] == c;
        if j < n {
          assert s[..n][j] == c;
        }
      }
      if c in s {
        var i :| 0 <= i < |s| && s[i] == c;
        if i < n {
          assert s[..n][i] == c;
        }
      }
    }
  }

  /** Which keys are sensitive: those in which one of ten hints appears, in any case. */
  lemma SensitiveKeyIff(key: string)
    ensures SensitiveKey(key) <==>
            exists hint ::
              && hint in ["token", "authorization", "cookie", "tenant", "client_id", "clientid", "endpoint", "claims",
                          "trace_payload", "headers"]
              && AppearsIn(hint, key)
  {
    forall j | 0 <= j < |KEY_HINTS| ensures Contains(Lower(key), KEY_HINTS[j]) <==> AppearsIn(KEY_HINTS[j], key) {
      ContainsIff(key, KEY_HINTS[j]);
    }
    if hint :| hint in KEY_HINTS && AppearsIn(hint, key) {
      var j :| 0 <= j < |KEY_HINTS| && KEY_HINTS[j] == hint;
    }
  }

  /** And which texts: those with one of six hints, or with "eyj" and two dots. */
  lemma SensitiveTextIff(s: string)
    ensures SensitiveText(s) <==>
            || (exists hint ::
                  && hint in ["bearer ", "authorization", "set-cookie", "cookie=", "http://", "https://"]
                  && AppearsIn(hint, s))
            || (AppearsIn("eyj", s) && exists i, j :: 0 <= i < j < |s| && s[i] == '.' && s[j] == '.')
  {
    forall j | 0 <= j < |VALUE_HINTS| ensures Contains(Lower(s), VALUE_HINTS[j]) <==> AppearsIn(VALUE_HINTS[j], s) {
      ContainsIff(s, VALUE_HINTS[j]);
    }
    if hint :| hint in VALUE_HINTS && AppearsIn(hint, s) {
      var j :| 0 <= j < |VALUE_HINTS| && VALUE_HINTS[j] == hint;
    }
    ContainsIff(s, JWT_START);
    CountIff(Lower(s), '.');
    DotsStay(s);
  }

  lemma DotsStay(s: string)
    ensures forall i :: 0 <= i < |s| ==> (Lower(s)[i] == '.' <==> s[i] == '.')
  {
  }

  /** So is every compact JSON Web Token. */
  lemma TokensAreSensitive(header: string, payload: string, signature: string)
    ensures SensitiveText("eyJ" + header + "." + payload + "." + signature)
  {
    var s := "eyJ" + header + "." + payload + "." + signature;
    assert s[0..3] == "eyJ" && Lower("eyJ") == "eyj";
    assert AppearsAt("eyj", s, 0);
    assert s[3 + |header|] == '.' && s[4 + |header| + |payload|] == '.';
    SensitiveTextIff(s);
  }

  // ---------- the scan ----------

  function Paths(payload: Value, path: string): seq<string>
    decreases payload, 1
  {
    match payload
    case Dict(entries) => EntryPaths(entries, path)
    case List(items) => ItemPaths(items, path)
    case Str(s) => if SensitiveText(s) then [path] else []
    case _ => []
  }

  function EntryPaths(entries: seq<Entry>, path: string): seq<string>
    decreases entries, 0
  {
    if entries == [] then []
    else
      var last := entries[|entries| - 1];
      var child := path + "." + last.key;
      EntryPaths(entries[..|entries| - 1], path)
      + if SensitiveKey(last.key) then [child] else Paths(last.value, child)
  }

  function ItemPaths(items: seq<Value>, path: string): seq<string>
    decreases items, 0
  {
    if items == [] then []
    else
      var n := |items| - 1;
      ItemPaths(items[..n], path) + Paths(items[n], path + "[" + Decimal(n) + "]")
  }

  /** The scan as the source runs it: a recursion that extends a list of offenders in its loops. */
  method FindSensitivePaths(payload: Value, path: string) returns (offenders: seq<string>)
    ensures offenders == Paths(payload, path)
    decreases payload
  {
    offenders := [];
    match payload
    case Dict(entries) =>
      for i := 0 to |entries|
        invariant offenders == EntryPaths(entries[..i], path)
      {
        assert entries[..i + 1][..i] == entries[..i];
        var child := path + "." + entries[i].key;
        if SensitiveKey(entries[i].key) {
          offenders := offenders + [child];
        } else {
          var inner := FindSensitivePaths(entries[i].value, child);
          offenders := offenders + inner;
        }
      }
      assert entries[..|entries|] == entries;
    case List(items) =>
      for i := 0 to |items|
        invariant offenders == ItemPaths(items[..i], path)
      {
        assert items[..i + 1][..i] == items[..i];
        var inner := FindSensitivePaths(items[i], path + "[" + Decimal(i) + "]");
        offenders := offenders + inner;
      }
      assert items[..|items|] == items;
    case Str(s) =>
      if SensitiveText(s) {
        offenders := [path];
      }
    case _ =>
  }

  // ---------- what it finds ----------

  /** Every key at any depth, below sensitive keys too. */
  function AllKeys(v: Value): set<string> {
    match v
    case Dict(entries) =>
      (set i | 0 <= i < |entries| :: entries[i].key)
      + (set i, k | 0 <= i < |entries| && k in AllKeys(entries[i].value) :: k)
    case List(items) => set i, k | 0 <= i < |items| && k in AllKeys(items[i]) :: k
    case _ => {}
  }

  /** Every string leaf at any depth. */
  function AllStrings(v: Value): set<string> {
    match v
    case Dict(entries) => set i, s | 0 <= i < |entries| && s in AllStrings(entries[i].value) :: s
    case List(items) => set i, s | 0 <= i < |items| && s in AllStrings(items[i]) :: s
    case Str(s) => {s}
    case _ => {}
  }

  predicate Clean(v: Value) {
    && (forall k :: k in AllKeys(v) ==> !SensitiveKey(k))
    && (forall s :: s in AllStrings(v) ==> !SensitiveText(s))
  }

  /** A dict is clean when each of its keys and values is. */
  lemma CleanDict(entries: seq<Entry>)
    ensures Clean(Dict(entries)) <==>
            forall i :: 0 <= i < |entries| ==> !SensitiveKey(entries[i].key) && Clean(entries[i].value)
  {
    var v := Dict(entries);
    if Clean(v) {
      forall i | 0 <= i < |entries| ensures !SensitiveKey(entries[i].key) && Clean(entries[i].value) {
        assert entries[i].key in AllKeys(v);
        assert AllKeys(entries[i].value) <= AllKeys(v);
        assert AllStrings(entries[i].value) <= AllStrings(v);
      }
    }
  }

  lemma CleanList(items: seq<Value>)
    ensures Clean(List(items)) <==> forall i :: 0 <= i < |items| ==> Clean(items[i])
  {
    var v := List(items);
    if Clean(v) {
      forall i | 0 <= i < |items| ensures Clean(items[i]) {
        assert AllKeys(items[i]) <= AllKeys(v);
        assert AllStrings(items[i]) <= AllStrings(v);
      }
    }
  }

  /** The scan reports nothing exactly when no key at any depth carries a hint and no string leaf is sensitive. */
  lemma {:induction false} ScanExact(payload: Value, path: string)
    ensures Paths(payload, path) == [] <==> Clean(payload)
    decreases payload, 1
  {
    match payload
    case Dict(entries) =>
      CleanDict(entries);
      EntriesExact(entries, path);
    case List(items) =>
      CleanList(items);
      ItemsExact(items, path);
    case Str(s) =>
      assert s in AllStrings(payload);
    case _ =>
  }

  lemma {:induction false} EntriesExact(entries: seq<Entry>, path: string)
    ensures EntryPaths(entries, path) == [] <==>
            forall i :: 0 <= i < |entries| ==> !SensitiveKey(entries[i].key) && Clean(entries[i].value)
    decreases entries, 0
  {
    if entries == [] {
    } else {
      var n := |entries| - 1;
      EntriesExact(entries[..n], path);
      ScanExact(entries[n].value, path + "." + entries[n].key);
      assert forall i :: 0 <= i < n ==> entries[..n][i] == entries[i];
    }
  }

  lemma {:induction false} ItemsExact(items: seq<Value>, path: string)
    ensures ItemPaths(items, path) == [] <==> forall i :: 0 <= i < |items| ==> Clean(items[i])
    decreases items, 0
  {
    if items == [] {
    } else {
      var n := |items| - 1;
      ItemsExact(items[..n], path);
      ScanExact(items[n], path + "[" + Decimal(n) + "]");
      assert forall i :: 0 <= i < n ==> items[..n][i] == items[i];
    }
  }

  // ---------- which paths it reports ----------

  /** One step down: the i-th entry of a dict or the i-th item of a list. */
  datatype Step = Field(i: nat) | Item(i: nat)

  function Child(v: Value, s: Step): Option<Value> {
    match (v, s)
    case (Dict(entries), Field(i)) => if i < |entries| then Some(entries[i].value) else None
    case (List(items), Item(i)) => if i < |items| then Some(items[i]) else None
    case _ => None
  }

  function ChildPath(v: Value, path: string, s: Step): string
    requires Child(v, s).Some?
  {
    if s.Field? then path + "." + v.entries[s.i].key else path + "[" + Decimal(s.i) + "]"
  }

  /** The step goes through a sensitive key. */
  predicate Flagged(v: Value, s: Step)
    requires Child(v, s).Some?
  {
    s.Field? && SensitiveKey(v.entries[s.i].key)
  }

  /** The value some steps lead to, if they lead anywhere. */
  function Follow(v: Value, steps: seq<Step>): Option<Value> {
    if steps == [] then Some(v)
    else
      match Child(v, steps[0])
      case Some(c) => Follow(c, steps[1..])
      case None => None
  }

  /** The last of the steps goes through a sensitive key. */
  predicate FlaggedAt(v: Value, steps: seq<Step>) {
    && steps != [] && Child(v, steps[0]).Some?
    && if |steps| == 1 then Flagged(v, steps[0]) else FlaggedAt(Child(v, steps[0]).value, steps[1..])
  }

  function PathOf(v: Value, path: string, steps: seq<Step>): string
    requires Follow(v, steps).Some?
  {
    if steps == [] then path else PathOf(Child(v, steps[0]).value, ChildPath(v, path, steps[0]), steps[1..])
  }

  /** A place that no sensitive key lies above, and that is one itself or a sensitive string. */
  predicate Offends(v: Value, steps: seq<Step>) {
    && Follow(v, steps).Some?
    && (forall n :: 0 < n < |steps| ==> !FlaggedAt(v, steps[..n]))
    && (FlaggedAt(v, steps) || (Follow(v, steps).value.Str? && SensitiveText(Follow(v, steps).value.s)))
  }

  lemma PrefixesBelow(v: Value, s: Step, rest: seq<Step>)
    requires Child(v, s).Some?
    ensures (forall n :: 0 < n < |rest| + 1 ==> !FlaggedAt(v, ([s] + rest)[..n])) <==>
            (rest != [] ==> !Flagged(v, s)) && forall n :: 0 < n < |rest| ==> !FlaggedAt(Child(v, s).value, rest[..n])
  {
    var c, steps := Child(v, s).value, [s] + rest;
    forall n | 0 < n < |rest| + 1
      ensures FlaggedAt(v, steps[..n]) <==> if n == 1 then Flagged(v, s) else FlaggedAt(c, rest[..n - 1])
    {
      assert steps[..n][0] == s && steps[..n][1..] == rest[..n - 1];
    }
    if rest != [] && forall n :: 0 < n < |rest| + 1 ==> !FlaggedAt(v, steps[..n]) {
      assert !FlaggedAt(v, steps[..1]);
      forall n | 0 < n < |rest| ensures !FlaggedAt(c, rest[..n]) {
        assert !FlaggedAt(v, steps[..n + 1]);
      }
    }
  }

  /** Below a step through a sensitive key nothing offends any more; below another one what offends there does. */
  lemma OffendsBelow(v: Value, s: Step, rest: seq<Step>)
    requires Child(v, s).Some?
    ensures Offends(v, [s] + rest) <==> if Flagged(v, s) then rest == [] else Offends(Child(v, s).value, rest)
  {
    var steps, c := [s] + rest, Child(v, s).value;
    assert steps[0] == s && steps[1..] == rest;
    PrefixesBelow(v, s, rest);
    assert |steps| == |rest| + 1 && Follow(v, steps) == Follow(c, rest);
    assert FlaggedAt(v, steps) <==> if rest == [] then Flagged(v, s) else FlaggedAt(c, rest);
    if Flagged(v, s) && rest != [] {
      assert FlaggedAt(v, steps[..1]);
    }
  }

  predicate EntryReports(e: Entry, path: string, x: string) {
    var child := path + "." + e.key;
    if SensitiveKey(e.key) then x == child else x in Paths(e.value, child)
  }

  predicate ItemReports(item: Value, i: nat, path: string, x: string) {
    x in Paths(item, path + "[" + Decimal(i) + "]")
  }

  lemma {:induction false} EntryPathsHave(entries: seq<Entry>, path: string, x: string)
    ensures x in EntryPaths(entries, path) <==> exists i :: 0 <= i < |entries| && EntryReports(entries[i], path, x)
  {
    if entries == [] {
    } else {
      var n := |entries| - 1;
      EntryPathsHave(entries[..n], path, x);
      assert x in EntryPaths(entries, path) <==>
             x in EntryPaths(entries[..n], path) || EntryReports(entries[n], path, x);
    }
  }

  lemma {:induction false} ItemPathsHave(items: seq<Value>, path: string, x: string)
    ensures x in ItemPaths(items, path) <==> exists i :: 0 <= i < |items| && ItemReports(items[i], i, path, x)
  {
    if items == [] {
    } else {
      var n := |items| - 1;
      ItemPathsHave(items[..n], path, x);
      assert x in ItemPaths(items, path) <==> x in ItemPaths(items[..n], path) || ItemReports(items[n], n, path, x);
    }
  }

  /** What the scan reports through one step. */
  predicate ReportedThrough(v: Value, path: string, s: Step, x: string)
    requires Child(v, s).Some?
  {
    if s.Field? then EntryReports(v.entries[s.i], path, x) else ItemReports(v.items[s.i], s.i, path, x)
  }

  /** A path is reported through a step when it is that of a place that offends and lies that way. */
  ghost predicate OffendsThrough(v: Value, path: string, s: Step, x: string)
    requires Child(v, s).Some?
  {
    exists rest :: Offends(v, [s] + rest) && PathOf(v, path, [s] + rest) == x
  }

  lemma {:induction false} ThroughIff(v: Value, path: string, s: Step, x: string)
    requires Child(v, s).Some?
    ensures ReportedThrough(v, path, s, x) <==> OffendsThrough(v, path, s, x)
    decreases v, 0
  {
    var c, child := Child(v, s).value, ChildPath(v, path, s);
    if Flagged(v, s) {
      OffendsBelow(v, s, []);
      PathBelow(v, path, s, []);
      if rest :| Offends(v, [s] + rest) && PathOf(v, path, [s] + rest) == x {
        OffendsBelow(v, s, rest);
      }
    } else {
      ScanReportsExactly(c, child, x);
      if rest :| Offends(c, rest) && PathOf(c, child, rest) == x {
        OffendsBelow(v, s, rest);
        PathBelow(v, path, s, rest);
      }
      if rest :| Offends(v, [s] + rest) && PathOf(v, path, [s] + rest) == x {
        OffendsBelow(v, s, rest);
        PathBelow(v, path, s, rest);
      }
    }
  }

  lemma PathBelow(v: Value, path: string, s: Step, rest: seq<Step>)
    requires Child(v, s).Some?
    ensures Follow(v, [s] + rest) == Follow(Child(v, s).value, rest)
    ensures Follow(v, [s] + rest).Some? ==>
              PathOf(v, path, [s] + rest) == PathOf(Child(v, s).value, ChildPath(v, path, s), rest)
  {
    assert ([s] + rest)[1..] == rest;
  }

  /** A place in a container lies through one of its children. */
  lemma OffendsSplit(v: Value, path: string, x: string)
    requires !v.Str?
    ensures (exists steps :: Offends(v, steps) && PathOf(v, path, steps) == x) <==>
            exists s :: Child(v, s).Some? && OffendsThrough(v, path, s, x)
  {
    if steps :| Offends(v, steps) && PathOf(v, path, steps) == x {
      assert steps != [] && steps == [steps[0]] + steps[1..];
      assert OffendsThrough(v, path, steps[0], x);
    }
  }

  /** The scan reports exactly the paths of the places that offend. */
  lemma {:induction false} ScanReportsExactly(payload: Value, path: string, x: string)
    ensures x in Paths(payload, path) <==> exists steps :: Offends(payload, steps) && PathOf(payload, path, steps) == x
    decreases payload, 1
  {
    match payload
    case Dict(entries) =>
      EntryPathsHave(entries, path, x);
      OffendsSplit(payload, path, x);
      forall i | 0 <= i < |entries|
        ensures EntryReports(entries[i], path, x) <==> OffendsThrough(payload, path, Field(i), x)
      {
        ThroughIff(payload, path, Field(i), x);
      }
      assert forall s :: Child(payload, s).Some? ==> s.Field? && s.i < |entries|;
    case List(items) =>
      ItemPathsHave(items, path, x);
      OffendsSplit(payload, path, x);
      forall i | 0 <= i < |items|
        ensures ItemReports(items[i], i, path, x) <==> OffendsThrough(payload, path, Item(i), x)
      {
        ThroughIff(payload, path, Item(i), x);
      }
      assert forall s :: Child(payload, s).Some? ==> s.Item? && s.i < |items|;
    case Str(s) =>
      assert forall steps :: Follow(payload, steps).Some? ==> steps == [];
      assert Offends(payload, []) <==> SensitiveText(s);
    case _ =>
      assert forall steps :: Follow(payload, steps).Some? ==> steps == [];
  }

  lemma BearerXIsSensitive()
    ensures SensitiveText("Bearer x")
  {
    assert "Bearer x"[0..7] == "Bearer " && Lower("Bearer ") == "bearer ";
    assert AppearsAt("bearer ", "Bearer x", 0);
    ContainsIff("Bearer x", VALUE_HINTS[0]);
  }

  lemma CookiesIsSensitive()
    ensures SensitiveKey("Cookies")
  {
    assert "Cookies"[0..6] == "Cookie" && Lower("Cookie") == "cookie";
    assert AppearsAt("cookie", "Cookies", 0);
    ContainsIff("Cookies", KEY_HINTS[2]);
  }

  /** How a path reads: keys after dots, positions in brackets. */
  lemma ItemPathReads(rest: seq<Entry>)
    ensures var v := Dict([Entry("a", List([Null, Str("Bearer x")]))] + rest);
            var steps := [Field(0)] + ([Item(1)] + []);
            Offends(v, steps) && PathOf(v, "$", steps) == "$.a[1]"
  {
    var leaf := Str("Bearer x");
    var items := List([Null, leaf]);
    var v := Dict([Entry("a", items)] + rest);
    BearerXIsSensitive();
    KeyA();
    assert Offends(leaf, []);
    OffendsBelow(items, Item(1), []);
    OffendsBelow(v, Field(0), [Item(1)] + []);
    assert Decimal(1) == "1";
    PathBelow(items, "$.a", Item(1), []);
    PathBelow(v, "$", Field(0), [Item(1)] + []);
  }

  lemma KeyPathReads(value: Value)
    ensures var v := Dict([Entry("Cookies", value)]);
            Offends(v, [Field(0)] + []) && PathOf(v, "$", [Field(0)] + []) == "$.Cookies"
  {
    var v := Dict([Entry("Cookies", value)]);
    CookiesIsSensitive();
    OffendsBelow(v, Field(0), []);
    PathBelow(v, "$", Field(0), []);
  }

  lemma KeyA()
    ensures !SensitiveKey("a")
  {
    SensitiveKeyIff("a");
  }

  // ---------- texts that stay insensitive ----------

  /** A part of a text contains no more than the text. */
  lemma ContainsInSlice(s: string, i: nat, j: nat, part: string)
    requires i <= j <= |s| && Contains(s[i..j], part)
    ensures Contains(s, part)
  {
    var at :| 0 <= at <= |s[i..j]| - |part| && OccursAt(s[i..j], part, at);
    forall k | 0 <= k < |part| ensures s[i + at + k] == part[k] {
      assert s[i..j][at + k] == part[k];
    }
    assert OccursAt(s, part, i + at);
  }

  lemma {:induction false} CountInSlice(s: string, i: nat, j: nat, c: char)
    requires i <= j <= |s|
    ensures Count(s[i..j], c) <= Count(s, c)
    decreases |s|
  {
    if s == "" {
    } else {
      var n := |s| - 1;
      if j <= n {
        CountInSlice(s[..n], i, j, c);
        assert s[..n][i..j] == s[i..j];
      } else if i < j {
        CountInSlice(s[..n], i, n, c);
        var t := s[i..j];
        assert t[..|t| - 1] == s[i..n] == s[..n][i..n];
        assert t[|t| - 1] == s[n];
      }
    }
  }

  /** Trimming an insensitive text leaves it insensitive. */
  lemma StripStaysInsensitive(s: string)
    requires !SensitiveText(s)
    ensures !SensitiveText(Strip(s))
  {
    var i, j := StripIsSlice(s);
    SliceStaysInsensitive(s, i, j);
  }

  lemma SliceStaysInsensitive(s: string, i: nat, j: nat)
    requires i <= j <= |s| && !SensitiveText(s)
    ensures !SensitiveText(s[i..j])
  {
    assert Lower(s[i..j]) == Lower(s)[i..j];
    CountInSlice(Lower(s), i, j, '.');
    if h :| 0 <= h < |VALUE_HINTS| && Contains(Lower(s[i..j]), VALUE_HINTS[h]) {
      ContainsInSlice(Lower(s), i, j, VALUE_HINTS[h]);
    }
    if Contains(Lower(s[i..j]), JWT_START) {
      ContainsInSlice(Lower(s), i, j, JWT_START);
    }
  }

  predicate HarmlessChar(c: char) {
    c != ' ' && c != 'z' && c != 'k' && c != '/' && c != 'j'
  }

  /** None of the letters that every value hint needs one of. */
  predicate Harmless(s: string) {
    forall i :: 0 <= i < |s| ==> HarmlessChar(LowerChar(s[i]))
  }

  lemma MissingLetter(s: string, part: string, k: nat)
    requires k < |part| && part[k] !in s
    ensures !Contains(s, part)
  {
    forall i | 0 <= i <= |s| - |part| ensures !OccursAt(s, part, i) {
      assert s[i + k] in s;
    }
  }

  lemma HarmlessIsInsensitive(s: string)
    requires Harmless(s)
    ensures !SensitiveText(s)
  {
    var l := Lower(s);
    assert ' ' !in l && 'z' !in l && 'k' !in l && '/' !in l && 'j' !in l;
    MissingLetter(l, VALUE_HINTS[0], 6);
    MissingLetter(l, VALUE_HINTS[1], 7);
    MissingLetter(l, VALUE_HINTS[2], 7);
    MissingLetter(l, VALUE_HINTS[3], 3);
    MissingLetter(l, VALUE_HINTS[4], 5);
    MissingLetter(l, VALUE_HINTS[5], 6);
    MissingLetter(l, JWT_START, 2);
  }
}
