/**
  The key cache of strict token validation (`identity_lab_auth/jwks.py`): a dict of
  keys by `kid` with a time to live, one refresh when it is stale and one more when
  the key is missing. The server that publishes the key set rotates it at will and
  any fetch may fail.
 */
module JwksCaching {
  import opened Json

  /** A member of a JWK Set (section 5 of RFC 7517); `kid` is optional (section 4.5). */
  datatype Jwk = Jwk(kid: Option<string>, material: string)

  type Document = seq<Jwk>

  /** The answer to one fetch: it fails, or a document served at one time is stored at a later one. */
  datatype Fetch = Failed | Served(document: Document, servedAt: real, doneAt: real)

  /** `{k["kid"]: k for k in keys if "kid" in k}` */
  function Index(document: Document): map<string, Jwk> {
    if document == [] then map[]
    else
      var last := document[|document| - 1];
      var earlier := Index(document[..|document| - 1]);
      if last.kid.Some? then earlier[last.kid.value := last] else earlier
  }

  predicate Lists(document: Document, kid: string) {
    exists i :: 0 <= i < |document| && document[i].kid == Some(kid)
  }

  /** The index holds exactly the listed kids, each with its last entry. */
  lemma {:induction false} IndexLastWins(document: Document, kid: string)
    ensures kid in Index(document) <==> Lists(document, kid)
    ensures kid in Index(document) ==>
              exists i :: && 0 <= i < |document| && document[i] == Index(document)[kid]
                          && document[i].kid == Some(kid)
                          && forall j :: i < j < |document| ==> document[j].kid != Some(kid)
  {
    if document == [] {
    } else {
      var n := |document| - 1;
      var earlier := document[..n];
      IndexLastWins(earlier, kid);
      if document[n].kid == Some(kid) {
        assert document[n] == Index(document)[kid];
      } else if kid in Index(earlier) {
        var i :| && 0 <= i < |earlier| && earlier[i] == Index(earlier)[kid] && earlier[i].kid == Some(kid)
                 && forall j :: i < j < |earlier| ==> earlier[j].kid != Some(kid);
        assert document[i] == Index(document)[kid] && document[i].kid == Some(kid);
        forall j | i < j < |document| ensures document[j].kid != Some(kid) {
          assert j < n ==> earlier[j] == document[j];
        }
      } else {
        assert forall i :: 0 <= i < n ==> earlier[i] == document[i];
      }
    }
  }

  // ---------- the cache as a state machine ----------

  datatype State = State(cache: map<string, Jwk>, fetchedAt: real)

  const INITIAL := State(map[], 0.0)

  /** One call: the clock its freshness check reads, and what the server answers if it is asked. */
  datatype Call = Call(kid: string, readAt: real, onStale: Fetch, onMiss: Fetch)

  datatype Outcome = Found(key: Jwk) | FetchFailed | NotFound

  predicate Stale(s: State, ttl: int, now: real) {
    now - s.fetchedAt > ttl as real
  }

  function Refreshed(s: State, f: Fetch): State {
    if f.Served? then State(Index(f.document), f.doneAt) else s
  }

  predicate AsksWhenStale(s: State, ttl: int, call: Call) {
    Stale(s, ttl, call.readAt)
  }

  /** The state the lookup sees. */
  function BeforeLookup(s: State, ttl: int, call: Call): State {
    if AsksWhenStale(s, ttl, call) then Refreshed(s, call.onStale) else s
  }

  /** The call reaches its lookup and the lookup misses. */
  predicate Misses(s: State, ttl: int, call: Call) {
    && (AsksWhenStale(s, ttl, call) ==> call.onStale.Served?)
    && call.kid !in BeforeLookup(s, ttl, call).cache
  }

  function Next(s: State, ttl: int, call: Call): State {
    var seen := BeforeLookup(s, ttl, call);
    if Misses(s, ttl, call) then Refreshed(seen, call.onMiss) else seen
  }

  function Answer(s: State, ttl: int, call: Call): Outcome {
    if AsksWhenStale(s, ttl, call) && call.onStale.Failed? then FetchFailed
    else if Misses(s, ttl, call) && call.onMiss.Failed? then FetchFailed
    else
      var last := Next(s, ttl, call);
      if call.kid in last.cache then Found(last.cache[call.kid]) else NotFound
  }

  // ---------- whole runs ----------

  /** The state after a run of calls, raising ones included. */
  function After(ttl: int, calls: seq<Call>): State {
    if calls == [] then INITIAL else Next(After(ttl, calls[..|calls| - 1]), ttl, calls[|calls| - 1])
  }

  /** The fetches a call asks for, in order. */
  function Asked(s: State, ttl: int, call: Call): seq<Fetch> {
    (if AsksWhenStale(s, ttl, call) then [call.onStale] else []) + (if Misses(s, ttl, call) then [call.onMiss] else [])
  }

  /** The fetches among them that succeed. */
  function Answered(asked: seq<Fetch>): (fetches: seq<Fetch>)
    ensures forall f :: f in fetches ==> f.Served?
  {
    if asked == [] then []
    else
      var last := asked[|asked| - 1];
      Answered(asked[..|asked| - 1]) + if last.Served? then [last] else []
  }

  lemma {:induction false} AnsweredSplit(a: seq<Fetch>, b: seq<Fetch>)
    ensures Answered(a + b) == Answered(a) + Answered(b)
    decreases |b|
  {
    if b == [] {
      assert a + b == a;
    } else {
      AnsweredSplit(a, b[..|b| - 1]);
      assert (a + b)[..|a + b| - 1] == a + b[..|b| - 1];
    }
  }

  lemma AnsweredOne(f: Fetch)
    ensures Answered([f]) == if f.Served? then [f] else []
  {
    assert [f][..0] == [];
  }

  lemma AnsweredPair(a: bool, f: Fetch, b: bool, g: Fetch)
    ensures Answered((if a then [f] else []) + (if b then [g] else [])) ==
            (if a && f.Served? then [f] else []) + (if b && g.Served? then [g] else [])
  {
    AnsweredSplit(if a then [f] else [], if b then [g] else []);
    AnsweredOne(f);
    AnsweredOne(g);
  }

  lemma FetchedAreAnswered(s: State, ttl: int, call: Call)
    ensures Answered(Asked(s, ttl, call)) == Fetched(s, ttl, call)
  {
    AnsweredPair(AsksWhenStale(s, ttl, call), call.onStale, Misses(s, ttl, call), call.onMiss);
  }

  /** A call asks at most twice, and not at all exactly when the cache is fresh and holds the kid. */
  lemma AttemptsPerCall(s: State, ttl: int, call: Call)
    ensures |Asked(s, ttl, call)| <= 2
    ensures Asked(s, ttl, call) == [] <==> !Stale(s, ttl, call.readAt) && call.kid in s.cache
  {
  }

  /** The successful fetches a call makes, in order. */
  function Fetched(s: State, ttl: int, call: Call): seq<Fetch> {
    (if AsksWhenStale(s, ttl, call) && call.onStale.Served? then [call.onStale] else [])
    + (if Misses(s, ttl, call) && call.onMiss.Served? then [call.onMiss] else [])
  }

  /** All successful fetches of a run, in order. */
  function Log(ttl: int, calls: seq<Call>): seq<Fetch> {
    if calls == [] then []
    else
      var before := calls[..|calls| - 1];
      Log(ttl, before) + Fetched(After(ttl, before), ttl, calls[|calls| - 1])
  }

  /** One call leaves the index of the last document it fetched, or the state it found. */
  lemma CallLeavesLatest(s: State, ttl: int, call: Call)
    ensures var got := Fetched(s, ttl, call);
            && (forall f :: f in got ==> f.Served?)
            && Next(s, ttl, call) ==
               if got == [] then s else State(Index(got[|got| - 1].document), got[|got| - 1].doneAt)
  {
  }

  /** The cache is empty and untouched, or it is the last-wins index of the latest fetched document. */
  lemma {:induction false} CacheIsLatestDocument(ttl: int, calls: seq<Call>)
    ensures var log := Log(ttl, calls);
            && (forall f :: f in log ==> f.Served?)
            && After(ttl, calls) ==
               if log == [] then INITIAL
               else State(Index(log[|log| - 1].document), log[|log| - 1].doneAt)
  {
    if calls == [] {
    } else {
      var before, call := calls[..|calls| - 1], calls[|calls| - 1];
      CacheIsLatestDocument(ttl, before);
      CallLeavesLatest(After(ttl, before), ttl, call);
      var earlier, got := Log(ttl, before), Fetched(After(ttl, before), ttl, call);
      assert Log(ttl, calls) == earlier + got;
      if got == [] {
        assert earlier + got == earlier;
      }
    }
  }

  /** What each outcome of one call means, from any state. */
  lemma OutcomeMeans(s: State, ttl: int, call: Call)
    ensures Answer(s, ttl, call).Found? ==>
              call.kid in Next(s, ttl, call).cache && Next(s, ttl, call).cache[call.kid] == Answer(s, ttl, call).key
    ensures Answer(s, ttl, call) == NotFound ==>
              call.onMiss in Fetched(s, ttl, call) && !Lists(call.onMiss.document, call.kid)
    ensures Answer(s, ttl, call) == FetchFailed ==>
              && Next(s, ttl, call) == BeforeLookup(s, ttl, call)
              && (AsksWhenStale(s, ttl, call) && call.onStale.Failed? ==> Next(s, ttl, call) == s)
  {
    if Answer(s, ttl, call) == NotFound {
      IndexLastWins(call.onMiss.document, call.kid);
    }
  }

  /** The last entry a document lists for the kid. */
  ghost predicate LastListed(document: Document, kid: string, key: Jwk) {
    exists i :: && 0 <= i < |document| && document[i] == key && key.kid == Some(kid)
                && forall j :: i < j < |document| ==> document[j].kid != Some(kid)
  }

  /**
    When and what a call asks the server: first if the stamp is older than the time to
    live, then if that did not fail and the kid is not in what it now holds.
   */
  lemma AsksWhen(s: State, ttl: int, call: Call)
    ensures var stale := call.readAt - s.fetchedAt > ttl as real;
            var missing := if stale then call.onStale.Served? && !Lists(call.onStale.document, call.kid)
                           else call.kid !in s.cache;
            Asked(s, ttl, call) == (if stale then [call.onStale] else []) + (if missing then [call.onMiss] else [])
  {
    if call.onStale.Served? {
      IndexLastWins(call.onStale.document, call.kid);
    }
  }

  /**
    What a call answers, in both directions: the fetch error exactly when some fetch it
    asked for failed; otherwise the key exactly when the document it fetched last, or
    the cache if it fetched none, has the kid, and then the last entry for it.
   */
  lemma GetKeyAnswers(s: State, ttl: int, call: Call)
    ensures var asked, answer := Asked(s, ttl, call), Answer(s, ttl, call);
            && (answer == FetchFailed <==> exists f :: f in asked && f.Failed?)
            && (answer != FetchFailed && asked == [] ==>
                  call.kid in s.cache && answer == Found(s.cache[call.kid]))
            && (answer != FetchFailed && asked != [] ==>
                  var last := asked[|asked| - 1];
                  && last.Served?
                  && (answer.Found? <==> Lists(last.document, call.kid))
                  && (answer == NotFound <==> !Lists(last.document, call.kid))
                  && (answer.Found? ==> LastListed(last.document, call.kid, answer.key)))
  {
    if AsksWhenStale(s, ttl, call) {
      assert call.onStale in Asked(s, ttl, call);
      if call.onStale.Served? {
        IndexLastWins(call.onStale.document, call.kid);
      }
    }
    if Misses(s, ttl, call) {
      assert call.onMiss in Asked(s, ttl, call);
      if call.onMiss.Served? {
        IndexLastWins(call.onMiss.document, call.kid);
      }
    }
  }

  /** What a call leaves behind: the index and stamp of the document it fetched last, or what it found. */
  lemma GetKeyLeaves(s: State, ttl: int, call: Call, kid: string)
    ensures var got, after := Answered(Asked(s, ttl, call)), Next(s, ttl, call);
            if got == [] then after == s
            else
              var last := got[|got| - 1];
              && after.fetchedAt == last.doneAt
              && (kid in after.cache <==> Lists(last.document, kid))
              && (kid in after.cache ==> LastListed(last.document, kid, after.cache[kid]))
  {
    FetchedAreAnswered(s, ttl, call);
    CallLeavesLatest(s, ttl, call);
    var got := Answered(Asked(s, ttl, call));
    if got != [] {
      IndexLastWins(got[|got| - 1].document, kid);
    }
  }

  // ---------- a monotone clock and a truthful, rotating server ----------

  /** A fetch that starts no earlier than `from`, is stored within `d` of being served and is what was published. */
  predicate Honest(f: Fetch, from: real, published: real -> Document, d: real) {
    f.Served? ==>
      from <= f.servedAt <= f.doneAt <= f.servedAt + d && f.document == published(f.servedAt)
  }

  function AfterStaleFetch(call: Call): real {
    if call.onStale.Served? then call.onStale.doneAt else call.readAt
  }

  /** The clock when the call is over. */
  function EndOf(call: Call): real {
    if call.onMiss.Served? then call.onMiss.doneAt else AfterStaleFetch(call)
  }

  predicate HonestCall(call: Call, published: real -> Document, d: real) {
    && Honest(call.onStale, call.readAt, published, d)
    && Honest(call.onMiss, AfterStaleFetch(call), published, d)
  }

  function Clock(start: real, calls: seq<Call>): real {
    if calls == [] then start else EndOf(calls[|calls| - 1])
  }

  /** A run under a clock that never goes back, started at any reading. */
  predicate HonestRun(start: real, calls: seq<Call>, published: real -> Document, d: real) {
    calls == [] ||
    (var before := calls[..|calls| - 1];
     && HonestRun(start, before, published, d)
     && Clock(start, before) <= calls[|calls| - 1].readAt
     && HonestCall(calls[|calls| - 1], published, d))
  }

  /** What one call fetches lies between its reading of the clock and its end. */
  lemma FetchedInCall(s: State, ttl: int, call: Call, published: real -> Document, d: real)
    requires HonestCall(call, published, d)
    ensures call.readAt <= EndOf(call)
    ensures forall f :: f in Fetched(s, ttl, call) ==>
              && f.Served? && call.readAt <= f.servedAt <= f.doneAt <= f.servedAt + d
              && f.doneAt <= EndOf(call) && f.document == published(f.servedAt)
  {
  }

  /** The clock only moves on, and every logged fetch lies behind it. */
  lemma {:induction false} LogBehindClock(start: real, ttl: int, calls: seq<Call>, published: real -> Document,
                                          d: real)
    requires HonestRun(start, calls, published, d)
    ensures start <= Clock(start, calls)
    ensures forall f :: f in Log(ttl, calls) ==>
              && f.Served? && start <= f.servedAt <= f.doneAt <= f.servedAt + d
              && f.doneAt <= Clock(start, calls) && f.document == published(f.servedAt)
  {
    if calls == [] {
    } else {
      var before, call := calls[..|calls| - 1], calls[|calls| - 1];
      LogBehindClock(start, ttl, before, published, d);
      FetchedInCall(After(ttl, before), ttl, call, published, d);
    }
  }

  /**
    Bounded staleness: a returned key was the server's key for that kid at some
    time no earlier than the freshness check minus the time to live minus the
    duration of one fetch, on every run.
   */
  lemma BoundedStaleness(start: real, ttl: int, calls: seq<Call>, call: Call, published: real -> Document, d: real)
    returns (at: real)
    requires ttl >= 0 && d >= 0.0
    requires HonestRun(start, calls + [call], published, d)
    requires Answer(After(ttl, calls), ttl, call).Found?
    ensures call.readAt - ttl as real - d <= at <= Clock(start, calls + [call])
    ensures call.kid in Index(published(at))
    ensures Index(published(at))[call.kid] == Answer(After(ttl, calls), ttl, call).key
  {
    assert (calls + [call])[..|calls|] == calls;
    var s := After(ttl, calls);
    CacheIsLatestDocument(ttl, calls);
    LogBehindClock(start, ttl, calls, published, d);
    OutcomeMeans(s, ttl, call);
    if Fetched(s, ttl, call) == [] {
      var log := Log(ttl, calls);
      assert log != [];
      at := log[|log| - 1].servedAt;
      assert log[|log| - 1] in log;
    } else if Misses(s, ttl, call) {
      at := call.onMiss.servedAt;
    } else {
      at := call.onStale.servedAt;
    }
  }

  /** Once a key has not been listed for the time to live plus one fetch, no call returns it. */
  lemma RetiredKeyIsGone(start: real, ttl: int, calls: seq<Call>, call: Call, published: real -> Document, d: real,
                         retired: real)
    requires ttl >= 0 && d >= 0.0
    requires HonestRun(start, calls + [call], published, d)
    requires forall t: real :: t >= retired ==> !Lists(published(t), call.kid)
    requires call.readAt > retired + ttl as real + d
    ensures !Answer(After(ttl, calls), ttl, call).Found?
  {
    if Answer(After(ttl, calls), ttl, call).Found? {
      var at := BoundedStaleness(start, ttl, calls, call, published, d);
      IndexLastWins(published(at), call.kid);
    }
  }

  // ---------- fetch budget ----------

  /** Successful refreshes of a stale cache in a run. */
  function StaleFetches(ttl: int, calls: seq<Call>): nat {
    if calls == [] then 0
    else
      var before := calls[..|calls| - 1];
      var call := calls[|calls| - 1];
      StaleFetches(ttl, before)
      + if AsksWhenStale(After(ttl, before), ttl, call) && call.onStale.Served? then 1 else 0
  }

  /** Calls of a run whose lookup missed. */
  function MissedLookups(ttl: int, calls: seq<Call>): nat {
    if calls == [] then 0
    else
      var before := calls[..|calls| - 1];
      MissedLookups(ttl, before) + if Misses(After(ttl, before), ttl, calls[|calls| - 1]) then 1 else 0
  }

  lemma {:induction false} FetchesAreStaleOrMissed(ttl: int, calls: seq<Call>)
    ensures |Log(ttl, calls)| <= StaleFetches(ttl, calls) + MissedLookups(ttl, calls)
  {
    if calls == [] {
    } else {
      FetchesAreStaleOrMissed(ttl, calls[..|calls| - 1]);
    }
  }

  /** `n` whole times to live, as a duration. */
  function Periods(n: int, ttl: int): real {
    (n * ttl) as real
  }

  lemma OnePeriodMore(n: int, ttl: int)
    ensures Periods(n + 1, ttl) == Periods(n, ttl) + ttl as real
  {
    assert (n + 1) * ttl == n * ttl + ttl;
  }

  /** Where a call leaves the time stamp, seen from one that lay behind the clock. */
  lemma StampMovesOn(s: State, ttl: int, call: Call, published: real -> Document, d: real)
    requires HonestCall(call, published, d)
    requires s.fetchedAt <= call.readAt
    ensures s.fetchedAt <= Next(s, ttl, call).fetchedAt <= EndOf(call)
    ensures AsksWhenStale(s, ttl, call) && call.onStale.Served? ==>
              Next(s, ttl, call).fetchedAt >= call.readAt > s.fetchedAt + ttl as real
  {
  }

  /** The first stale refresh leaves a stamp no earlier than the reading that asked for it. */
  lemma FirstStamp(s: State, ttl: int, call: Call, published: real -> Document, d: real)
    requires HonestCall(call, published, d)
    requires AsksWhenStale(s, ttl, call) && call.onStale.Served?
    ensures call.readAt <= Next(s, ttl, call).fetchedAt <= EndOf(call)
  {
  }

  /** After the first one, each stale refresh used up a whole time to live. */
  lemma {:induction false} StaleFetchesTakeTime(start: real, ttl: int, calls: seq<Call>,
                                                published: real -> Document, d: real)
    requires ttl >= 0 && HonestRun(start, calls, published, d)
    requires StaleFetches(ttl, calls) > 0
    ensures Periods(StaleFetches(ttl, calls) - 1, ttl)
            <= After(ttl, calls).fetchedAt - start <= Clock(start, calls) - start
  {
    var before, call := calls[..|calls| - 1], calls[|calls| - 1];
    var s := After(ttl, before);
    LogBehindClock(start, ttl, before, published, d);
    if StaleFetches(ttl, before) > 0 {
      StaleFetchesTakeTime(start, ttl, before, published, d);
      StampMovesOn(s, ttl, call, published, d);
      OnePeriodMore(StaleFetches(ttl, before) - 1, ttl);
    } else {
      FirstStamp(s, ttl, call, published, d);
    }
  }

  /** The budget: one fetch, one more per missed lookup, and one per elapsed time to live. */
  lemma FetchBudget(start: real, ttl: int, calls: seq<Call>, published: real -> Document, d: real)
    requires ttl > 0 && HonestRun(start, calls, published, d)
    ensures |Log(ttl, calls)| <=
            1 + MissedLookups(ttl, calls) + ((Clock(start, calls) - start) / ttl as real).Floor
  {
    FetchesAreStaleOrMissed(ttl, calls);
    LogBehindClock(start, ttl, calls, published, d);
    var elapsed := Clock(start, calls) - start;
    var n := StaleFetches(ttl, calls);
    if n > 0 {
      StaleFetchesTakeTime(start, ttl, calls, published, d);
      WholePeriods(n - 1, ttl, elapsed);
    } else {
      WholePeriods(0, ttl, elapsed);
    }
  }

  lemma WholePeriods(k: nat, ttl: int, elapsed: real)
    requires ttl > 0 && Periods(k, ttl) <= elapsed
    ensures k <= (elapsed / ttl as real).Floor
  {
    var t, q := ttl as real, elapsed / ttl as real;
    assert q * t == elapsed;
    assert Periods(k, ttl) == k as real * t;
    CancelFactor(k as real, q, t);
  }

  lemma CancelFactor(a: real, b: real, t: real)
    requires t > 0.0 && a * t <= b * t
    ensures a <= b
  {
    assert (b - a) * t >= 0.0;
  }

  // ---------- the object ----------

  /**
    The cache as the source has it, an object whose fields `get_key` and `_refresh`
    update. The ghost fields record every call made and every fetch asked for.
   */
  class JwksCache {
    const ttl: int
    var cache: map<string, Jwk>
    var fetchedAt: real
    ghost var calls: seq<Call>
    ghost var asked: seq<Fetch>

    /** The fields are where the recorded calls lead, and the answered fetches are those of that run. */
    ghost predicate Valid()
      reads this
    {
      Value() == After(ttl, calls) && Answered(asked) == Log(ttl, calls)
    }

    constructor (ttl: int)
      ensures this.ttl == ttl && Value() == INITIAL
      ensures Valid() && calls == [] && asked == []
    {
      this.ttl := ttl;
      cache := map[];
      fetchedAt := 0.0;
      calls := [];
      asked := [];
    }

    function Value(): State
      reads this
    {
      State(cache, fetchedAt)
    }

    method IsStale(now: real) returns (stale: bool)
      ensures stale == Stale(Value(), ttl, now)
    {
      stale := now - fetchedAt > ttl as real;
    }

    /** A failed fetch raises and leaves both fields alone. */
    method Refresh(f: Fetch) returns (ok: bool)
      modifies this`cache, this`fetchedAt, this`asked
      ensures ok == f.Served? && Value() == Refreshed(old(Value()), f)
      ensures asked == old(asked) + [f]
    {
      asked := asked + [f];
      if f.Failed? {
        return false;
      }
      var byKid: map<string, Jwk> := map[];
      for i := 0 to |f.document|
        invariant byKid == Index(f.document[..i])
      {
        assert f.document[..i + 1][..i] == f.document[..i];
        if f.document[i].kid.Some? {
          byKid := byKid[f.document[i].kid.value := f.document[i]];
        }
      }
      assert f.document[..|f.document|] == f.document;
      cache := byKid;
      fetchedAt := f.doneAt;
      ok := true;
    }

    method GetKey(call: Call) returns (outcome: Outcome)
      modifies this`cache, this`fetchedAt, this`asked
      ensures Value() == Next(old(Value()), ttl, call)
      ensures outcome == Answer(old(Value()), ttl, call)
      ensures asked == old(asked) + Asked(old(Value()), ttl, call)
    {
      var stale := IsStale(call.readAt);
      if stale {
        var ok := Refresh(call.onStale);
        if !ok {
          return FetchFailed;
        }
      }
      if call.kid in cache {
        return Found(cache[call.kid]);
      }
      var ok := Refresh(call.onMiss);
      if !ok {
        return FetchFailed;
      }
      outcome := if call.kid in cache then Found(cache[call.kid]) else NotFound;
    }

    /** The next call of a run: the object stays a faithful record of it. */
    method ServeNext(call: Call) returns (outcome: Outcome)
      requires Valid()
      modifies this
      ensures Valid() && calls == old(calls) + [call]
      ensures outcome == Answer(After(ttl, old(calls)), ttl, call)
    {
      GetKeyKeeps(ttl, calls, asked, call);
      outcome := GetKey(call);
      calls := calls + [call];
    }
  }

  lemma GetKeyKeeps(ttl: int, calls: seq<Call>, asked: seq<Fetch>, call: Call)
    requires Answered(asked) == Log(ttl, calls)
    ensures After(ttl, calls + [call]) == Next(After(ttl, calls), ttl, call)
    ensures Answered(asked + Asked(After(ttl, calls), ttl, call)) == Log(ttl, calls + [call])
  {
    var s := After(ttl, calls);
    assert (calls + [call])[..|calls|] == calls;
    AnsweredSplit(asked, Asked(s, ttl, call));
    FetchedAreAnswered(s, ttl, call);
  }

  /** What an object in use holds and has fetched, read off the run it has been through. */
  lemma ObjectHoldsLatest(cache: JwksCache)
    requires cache.Valid()
    ensures var log := Answered(cache.asked);
            cache.Value() == if log == [] then INITIAL
                             else State(Index(log[|log| - 1].document), log[|log| - 1].doneAt)
  {
    CacheIsLatestDocument(cache.ttl, cache.calls);
  }

  lemma ObjectBudget(cache: JwksCache, start: real, published: real -> Document, d: real)
    requires cache.Valid() && cache.ttl > 0 && HonestRun(start, cache.calls, published, d)
    ensures |Answered(cache.asked)| <=
            1 + MissedLookups(cache.ttl, cache.calls)
            + ((Clock(start, cache.calls) - start) / cache.ttl as real).Floor
  {
    FetchBudget(start, cache.ttl, cache.calls, published, d);
  }
}
