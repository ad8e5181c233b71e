/**
  One `JwksCache` shared by threads (`auth_settings.py` keeps one per URL, and the
  services run their checks on a thread pool). `get_key` is cut at every read or
  write of shared state, and the steps of any number of calls interleave at will.
 */
module JwksThreads {
  import opened Json
  import opened JwksCaching

  /** Where a call is; `readAt` is the clock its freshness check read, `retry` marks the refresh after a miss. */
  datatype Pc =
    | Start
    | ClockRead(readAt: real)
    | Asking(readAt: real, retry: bool)
    | Holding(readAt: real, retry: bool, document: Document, servedAt: real)
    | Stored(readAt: real, retry: bool, servedAt: real)
    | StampRead(readAt: real, retry: bool, servedAt: real, stamp: real)
    | Looking(readAt: real, retry: bool)
    | Returned(readAt: real, key: Jwk, publishedAt: real)
    | Raised

  datatype Thread = Thread(kid: string, pc: Pc)

  /**
    The shared fields, the clock, when the cached document was served, if there is
    one, and how many fetches were answered and first lookups missed so far.
   */
  datatype World = World(
    now: real,
    cache: map<string, Jwk>,
    fetchedAt: real,
    stamped: bool,
    served: Option<real>,
    threads: seq<Thread>,
    fetches: nat,
    misses: nat)

  datatype Action =
    | Call(kid: string)
    | Tick(to: real)
    | ReadClock(thread: nat)
    | CheckFresh(thread: nat)
    | Respond(thread: nat)
    | FailFetch(thread: nat)
    | StoreCache(thread: nat)
    | ReadStamp(thread: nat)
    | StoreStamp(thread: nat)
    | Lookup(thread: nat)

  /** A fetched document not yet stamped. */
  predicate InFlight(pc: Pc) {
    pc.Holding? || pc.Stored? || pc.StampRead?
  }

  /** Time may pass as long as every fetch is stamped within `d` of being served. */
  predicate MayPass(w: World, to: real, d: real) {
    w.now <= to && forall i :: 0 <= i < |w.threads| && InFlight(w.threads[i].pc) ==> to <= w.threads[i].pc.servedAt + d
  }

  function Move(w: World, i: nat, pc: Pc): World
    requires i < |w.threads|
  {
    w.(threads := w.threads[i := w.threads[i].(pc := pc)])
  }

  /** One step; an action that is not enabled changes nothing. */
  function Step(w: World, action: Action, ttl: int, published: real -> Document, d: real): World {
    match action
    case Call(kid) => w.(threads := w.threads + [Thread(kid, Start)])
    case Tick(to) => if MayPass(w, to, d) then w.(now := to) else w
    case _ =>
      var i := action.thread;
      if i >= |w.threads| then w else StepThread(w, i, action, ttl, published)
  }

  function StepThread(w: World, i: nat, action: Action, ttl: int, published: real -> Document): World
    requires i < |w.threads| && !action.Call? && !action.Tick?
  {
    match (action, w.threads[i].pc)
    case (ReadClock(_), Start) => Move(w, i, ClockRead(w.now))
    case (CheckFresh(_), ClockRead(t)) =>
      Move(w, i, if t - w.fetchedAt > ttl as real then Asking(t, false) else Looking(t, false))
    case (Respond(_), Asking(t, retry)) =>
      Move(w, i, Holding(t, retry, published(w.now), w.now)).(fetches := w.fetches + 1)
    case (FailFetch(_), Asking(t, retry)) => Move(w, i, Raised)
    case (StoreCache(_), Holding(t, retry, document, servedAt)) =>
      Move(w, i, Stored(t, retry, servedAt)).(cache := Index(document), served := Some(servedAt))
    case (ReadStamp(_), Stored(t, retry, servedAt)) => Move(w, i, StampRead(t, retry, servedAt, w.now))
    case (StoreStamp(_), StampRead(t, retry, servedAt, stamp)) =>
      Move(w, i, Looking(t, retry)).(fetchedAt := stamp, stamped := true)
    case (Lookup(_), Looking(t, retry)) =>
      if w.threads[i].kid in w.cache then
        Move(w, i, Returned(t, w.cache[w.threads[i].kid], if w.served.Some? then w.served.value else w.now))
      else if retry then Move(w, i, Raised)
      else Move(w, i, Asking(t, true)).(misses := w.misses + 1)
    case _ => w
  }

  function Run(start: real, actions: seq<Action>, ttl: int, published: real -> Document, d: real): World {
    if actions == [] then World(start, map[], 0.0, false, None, [], 0, 0)
    else Step(Run(start, actions[..|actions| - 1], ttl, published, d), actions[|actions| - 1], ttl, published, d)
  }

  // ---------- invariant ----------

  /** The cached document, if any, was served at `bound` or later. */
  predicate ServedSince(w: World, bound: real) {
    w.served.Some? ==> w.served.value >= bound
  }

  predicate ThreadOk(w: World, th: Thread, ttl: int, published: real -> Document, d: real) {
    match th.pc
    case Start => true
    case ClockRead(t) => t <= w.now
    case Asking(t, _) => t <= w.now
    case Holding(t, _, document, servedAt) =>
      t <= servedAt <= w.now <= servedAt + d && document == published(servedAt)
    case Stored(t, _, servedAt) =>
      t <= servedAt <= w.now <= servedAt + d && w.served.Some? && ServedSince(w, servedAt - d)
    case StampRead(t, _, servedAt, stamp) =>
      t <= servedAt <= stamp <= w.now <= servedAt + d && w.served.Some? && ServedSince(w, servedAt - d)
    case Looking(t, _) => t <= w.now && ServedSince(w, t - ttl as real - 2.0 * d)
    case Returned(t, key, at) =>
      && t - ttl as real - 2.0 * d <= at <= w.now
      && th.kid in Index(published(at)) && Index(published(at))[th.kid] == key
    case Raised => true
  }

  /** Before the first stamp, the thread that stored the cached document is still in flight. */
  predicate StoredBy(w: World, i: nat)
    requires i < |w.threads|
  {
    var pc := w.threads[i].pc;
    (pc.Stored? || pc.StampRead?) && w.served == Some(pc.servedAt)
  }

  predicate SharedOk(w: World, published: real -> Document, d: real) {
    && (w.served.None? ==> w.cache == map[])
    && (w.served.Some? ==> w.served.value <= w.now && w.cache == Index(published(w.served.value)))
    && (w.stamped ==> w.served.Some? && w.fetchedAt <= w.now && ServedSince(w, w.fetchedAt - 2.0 * d))
    && (!w.stamped && w.served.Some? ==> exists i :: 0 <= i < |w.threads| && StoredBy(w, i))
  }

  predicate Inv(w: World, ttl: int, published: real -> Document, d: real) {
    && SharedOk(w, published, d)
    && forall i :: 0 <= i < |w.threads| ==> ThreadOk(w, w.threads[i], ttl, published, d)
  }

  /** A document still in flight is newer than anything any thread relies on. */
  lemma NewerDocumentKeeps(w: World, v: World, th: Thread, servedAt: real, ttl: int, published: real -> Document,
                           d: real)
    requires ttl >= 0 && d >= 0.0
    requires ThreadOk(w, th, ttl, published, d)
    requires v.now == w.now && v.served == Some(servedAt) && w.now <= servedAt + d
    ensures ThreadOk(v, th, ttl, published, d)
  {
  }

  /** Moving one thread on without touching shared state. */
  lemma MoveKeeps(w: World, i: nat, pc: Pc, ttl: int, published: real -> Document, d: real)
    requires Inv(w, ttl, published, d) && i < |w.threads|
    requires ThreadOk(w, w.threads[i].(pc := pc), ttl, published, d)
    requires !w.stamped && StoredBy(w, i) ==> (pc.Stored? || pc.StampRead?) && pc.servedAt == w.threads[i].pc.servedAt
    ensures Inv(Move(w, i, pc), ttl, published, d)
  {
    var v := Move(w, i, pc);
    forall j | 0 <= j < |v.threads| ensures ThreadOk(v, v.threads[j], ttl, published, d) {
      if j != i {
        assert ThreadOk(w, w.threads[j], ttl, published, d);
      }
    }
    if !w.stamped && w.served.Some? {
      var k :| 0 <= k < |w.threads| && StoredBy(w, k);
      assert StoredBy(v, k);
    }
  }

  /** The counters play no part in the invariant. */
  lemma CountsAreFree(w: World, fetches: nat, misses: nat, ttl: int, published: real -> Document, d: real)
    requires Inv(w, ttl, published, d)
    ensures Inv(w.(fetches := fetches, misses := misses), ttl, published, d)
  {
    var v := w.(fetches := fetches, misses := misses);
    forall j | 0 <= j < |v.threads| ensures ThreadOk(v, v.threads[j], ttl, published, d) {
      assert ThreadOk(w, w.threads[j], ttl, published, d);
    }
    if !w.stamped && w.served.Some? {
      var k :| 0 <= k < |w.threads| && StoredBy(w, k);
      assert StoredBy(v, k);
    }
  }

  lemma StoreCacheKeeps(w: World, i: nat, ttl: int, published: real -> Document, d: real)
    requires ttl >= 0 && d >= 0.0 && Inv(w, ttl, published, d)
    requires i < |w.threads| && w.threads[i].pc.Holding?
    ensures Inv(StepThread(w, i, StoreCache(i), ttl, published), ttl, published, d)
  {
    var v := StepThread(w, i, StoreCache(i), ttl, published);
    var servedAt := w.threads[i].pc.servedAt;
    assert ThreadOk(w, w.threads[i], ttl, published, d);
    forall j | 0 <= j < |v.threads| ensures ThreadOk(v, v.threads[j], ttl, published, d) {
      if j != i {
        assert ThreadOk(w, w.threads[j], ttl, published, d);
        NewerDocumentKeeps(w, v, w.threads[j], servedAt, ttl, published, d);
      }
    }
    assert StoredBy(v, i);
  }

  lemma StoreStampKeeps(w: World, i: nat, ttl: int, published: real -> Document, d: real)
    requires ttl >= 0 && d >= 0.0 && Inv(w, ttl, published, d)
    requires i < |w.threads| && w.threads[i].pc.StampRead?
    ensures Inv(StepThread(w, i, StoreStamp(i), ttl, published), ttl, published, d)
  {
    var v := StepThread(w, i, StoreStamp(i), ttl, published);
    assert ThreadOk(w, w.threads[i], ttl, published, d);
    forall j | 0 <= j < |v.threads| ensures ThreadOk(v, v.threads[j], ttl, published, d) {
      if j != i {
        assert ThreadOk(w, w.threads[j], ttl, published, d);
      }
    }
  }

  lemma CheckFreshKeeps(w: World, i: nat, ttl: int, published: real -> Document, d: real)
    requires ttl >= 0 && d >= 0.0 && Inv(w, ttl, published, d)
    requires i < |w.threads| && w.threads[i].pc.ClockRead?
    ensures Inv(StepThread(w, i, CheckFresh(i), ttl, published), ttl, published, d)
  {
    var t := w.threads[i].pc.readAt;
    assert ThreadOk(w, w.threads[i], ttl, published, d);
    if !w.stamped && w.served.Some? {
      var k :| 0 <= k < |w.threads| && StoredBy(w, k);
      assert ThreadOk(w, w.threads[k], ttl, published, d);
    }
    MoveKeeps(w, i, if t - w.fetchedAt > ttl as real then Asking(t, false) else Looking(t, false), ttl, published, d);
  }

  lemma LookupKeeps(w: World, i: nat, ttl: int, published: real -> Document, d: real)
    requires ttl >= 0 && d >= 0.0 && Inv(w, ttl, published, d)
    requires i < |w.threads| && w.threads[i].pc.Looking?
    ensures Inv(StepThread(w, i, Lookup(i), ttl, published), ttl, published, d)
  {
    assert ThreadOk(w, w.threads[i], ttl, published, d);
    var v := StepThread(w, i, Lookup(i), ttl, published);
    MoveKeeps(w, i, v.threads[i].pc, ttl, published, d);
    CountsAreFree(Move(w, i, v.threads[i].pc), v.fetches, v.misses, ttl, published, d);
  }

  lemma RespondKeeps(w: World, i: nat, ttl: int, published: real -> Document, d: real)
    requires ttl >= 0 && d >= 0.0 && Inv(w, ttl, published, d)
    requires i < |w.threads| && w.threads[i].pc.Asking?
    ensures Inv(StepThread(w, i, Respond(i), ttl, published), ttl, published, d)
  {
    assert ThreadOk(w, w.threads[i], ttl, published, d);
    var v := StepThread(w, i, Respond(i), ttl, published);
    MoveKeeps(w, i, v.threads[i].pc, ttl, published, d);
    CountsAreFree(Move(w, i, v.threads[i].pc), v.fetches, v.misses, ttl, published, d);
  }

  lemma ThreadStepKeeps(w: World, i: nat, action: Action, ttl: int, published: real -> Document, d: real)
    requires ttl >= 0 && d >= 0.0 && Inv(w, ttl, published, d)
    requires i < |w.threads| && !action.Call? && !action.Tick?
    ensures Inv(StepThread(w, i, action, ttl, published), ttl, published, d)
  {
    assert ThreadOk(w, w.threads[i], ttl, published, d);
    match (action, w.threads[i].pc)
    case (ReadClock(_), Start) => MoveKeeps(w, i, ClockRead(w.now), ttl, published, d);
    case (CheckFresh(_), ClockRead(t)) => CheckFreshKeeps(w, i, ttl, published, d);
    case (Respond(_), Asking(t, retry)) => RespondKeeps(w, i, ttl, published, d);
    case (FailFetch(_), Asking(t, retry)) => MoveKeeps(w, i, Raised, ttl, published, d);
    case (StoreCache(_), Holding(t, retry, document, servedAt)) => StoreCacheKeeps(w, i, ttl, published, d);
    case (ReadStamp(_), Stored(t, retry, servedAt)) =>
      MoveKeeps(w, i, StampRead(t, retry, servedAt, w.now), ttl, published, d);
    case (StoreStamp(_), StampRead(t, retry, servedAt, stamp)) => StoreStampKeeps(w, i, ttl, published, d);
    case (Lookup(_), Looking(t, retry)) => LookupKeeps(w, i, ttl, published, d);
    case _ =>
  }

  lemma TickKeeps(w: World, to: real, ttl: int, published: real -> Document, d: real)
    requires Inv(w, ttl, published, d) && MayPass(w, to, d)
    ensures Inv(w.(now := to), ttl, published, d)
  {
    var v := w.(now := to);
    forall j | 0 <= j < |v.threads| ensures ThreadOk(v, v.threads[j], ttl, published, d) {
      assert ThreadOk(w, w.threads[j], ttl, published, d);
    }
    if !w.stamped && w.served.Some? {
      var k :| 0 <= k < |w.threads| && StoredBy(w, k);
      assert StoredBy(v, k);
    }
  }

  lemma CallKeeps(w: World, kid: string, ttl: int, published: real -> Document, d: real)
    requires Inv(w, ttl, published, d)
    ensures Inv(w.(threads := w.threads + [Thread(kid, Start)]), ttl, published, d)
  {
    var v := w.(threads := w.threads + [Thread(kid, Start)]);
    forall j | 0 <= j < |v.threads| ensures ThreadOk(v, v.threads[j], ttl, published, d) {
      if j < |w.threads| {
        assert ThreadOk(w, w.threads[j], ttl, published, d);
      }
    }
    if !w.stamped && w.served.Some? {
      var k :| 0 <= k < |w.threads| && StoredBy(w, k);
      assert StoredBy(v, k);
    }
  }

  lemma {:induction false} RunKeepsInv(start: real, actions: seq<Action>, ttl: int, published: real -> Document,
                                       d: real)
    requires ttl >= 0 && d >= 0.0
    ensures Inv(Run(start, actions, ttl, published, d), ttl, published, d)
  {
    if actions == [] {
    } else {
      var before := actions[..|actions| - 1];
      var action := actions[|actions| - 1];
      var w := Run(start, before, ttl, published, d);
      RunKeepsInv(start, before, ttl, published, d);
      match action
      case Call(kid) => CallKeeps(w, kid, ttl, published, d);
      case Tick(to) =>
        if MayPass(w, to, d) {
          TickKeeps(w, to, ttl, published, d);
        }
      case _ =>
        if action.thread < |w.threads| {
          ThreadStepKeeps(w, action.thread, action, ttl, published, d);
        }
    }
  }

  /**
    With threads the staleness bound loosens by one more fetch: whatever the
    interleaving, a returned key was published at some time no earlier than the
    freshness check minus the time to live minus twice the duration of a fetch.
   */
  lemma BoundedStalenessWithThreads(start: real, actions: seq<Action>, ttl: int, published: real -> Document, d: real,
                                    i: nat)
    requires ttl >= 0 && d >= 0.0
    requires var w := Run(start, actions, ttl, published, d); i < |w.threads| && w.threads[i].pc.Returned?
    ensures var w := Run(start, actions, ttl, published, d);
            var Thread(kid, Returned(readAt, key, at)) := w.threads[i];
            && readAt - ttl as real - 2.0 * d <= at <= w.now
            && kid in Index(published(at)) && Index(published(at))[kid] == key
  {
    RunKeepsInv(start, actions, ttl, published, d);
    var w := Run(start, actions, ttl, published, d);
    assert ThreadOk(w, w.threads[i], ttl, published, d);
  }

  // ---------- how many fetches the callers make ----------

  /** A call at this place may still have a fetch answered before it misses again. */
  function MayFetch(pc: Pc): nat {
    if pc.Start? || pc.ClockRead? || pc.Asking? then 1 else 0
  }

  /** And may still miss for the first time. */
  function MayMiss(pc: Pc): nat {
    match pc
    case Start => 1
    case ClockRead(_) => 1
    case Returned(_, _, _) => 0
    case Raised => 0
    case _ => if pc.retry then 0 else 1
  }

  function Sum(f: Pc -> nat, threads: seq<Thread>): nat {
    if threads == [] then 0 else f(threads[0].pc) + Sum(f, threads[1..])
  }

  lemma {:induction false} SumOfUpdate(f: Pc -> nat, threads: seq<Thread>, i: nat, th: Thread)
    requires i < |threads|
    ensures Sum(f, threads[i := th]) == Sum(f, threads) - f(threads[i].pc) + f(th.pc)
  {
    if i == 0 {
      assert threads[0 := th][1..] == threads[1..];
    } else {
      SumOfUpdate(f, threads[1..], i - 1, th);
      assert threads[i := th][1..] == threads[1..][i - 1 := th];
    }
  }

  lemma {:induction false} SumOfOneMore(f: Pc -> nat, threads: seq<Thread>, th: Thread)
    ensures Sum(f, threads + [th]) == Sum(f, threads) + f(th.pc)
  {
    if threads == [] {
      assert (threads + [th])[1..] == [];
    } else {
      SumOfOneMore(f, threads[1..], th);
      assert (threads + [th])[1..] == threads[1..] + [th];
    }
  }

  predicate WithinBudget(w: World) {
    && w.fetches + Sum(MayFetch, w.threads) <= |w.threads| + w.misses
    && w.misses + Sum(MayMiss, w.threads) <= |w.threads|
  }

  /** A step moves one thread and counts what it uses up. */
  lemma StepCounts(w: World, i: nat, action: Action, ttl: int, published: real -> Document)
    requires i < |w.threads| && !action.Call? && !action.Tick?
    ensures var v, before := StepThread(w, i, action, ttl, published), w.threads[i].pc;
            && |v.threads| == |w.threads| && v.threads == w.threads[i := v.threads[i]]
            && v.fetches + MayFetch(v.threads[i].pc) + w.misses <= w.fetches + MayFetch(before) + v.misses
            && v.misses + MayMiss(v.threads[i].pc) <= w.misses + MayMiss(before)
  {
    assert w.threads[i := w.threads[i]] == w.threads;
  }

  lemma StepKeepsBudget(w: World, action: Action, ttl: int, published: real -> Document, d: real)
    requires WithinBudget(w)
    ensures WithinBudget(Step(w, action, ttl, published, d))
  {
    match action
    case Call(kid) =>
      SumOfOneMore(MayFetch, w.threads, Thread(kid, Start));
      SumOfOneMore(MayMiss, w.threads, Thread(kid, Start));
    case Tick(to) =>
    case _ =>
      var i := action.thread;
      if i < |w.threads| {
        StepCounts(w, i, action, ttl, published);
        var v := StepThread(w, i, action, ttl, published);
        BudgetAfter(w, v, i, v.threads[i]);
      }
  }

  lemma BudgetAfter(w: World, v: World, i: nat, th: Thread)
    requires WithinBudget(w) && i < |w.threads| && v.threads == w.threads[i := th]
    requires v.fetches + MayFetch(th.pc) + w.misses <= w.fetches + MayFetch(w.threads[i].pc) + v.misses
    requires v.misses + MayMiss(th.pc) <= w.misses + MayMiss(w.threads[i].pc)
    ensures WithinBudget(v)
  {
    SumOfUpdate(MayFetch, w.threads, i, th);
    SumOfUpdate(MayMiss, w.threads, i, th);
  }

  /** On every interleaving: at most one answered fetch per call and one per missed lookup, so at most two per call. */
  lemma {:induction false} FetchesWithThreads(start: real, actions: seq<Action>, ttl: int,
                                              published: real -> Document, d: real)
    ensures var w := Run(start, actions, ttl, published, d);
            WithinBudget(w) && w.fetches <= |w.threads| + w.misses && w.misses <= |w.threads|
  {
    if actions == [] {
    } else {
      var before := actions[..|actions| - 1];
      FetchesWithThreads(start, before, ttl, published, d);
      StepKeepsBudget(Run(start, before, ttl, published, d), actions[|actions| - 1], ttl, published, d);
    }
  }

  // ---------- a call that runs alone ----------

  /** What a run depends on beside its actions. */
  datatype Setup = Setup(start: real, ttl: int, published: real -> Document, d: real)

  ghost predicate Reachable(e: Setup, w: World) {
    exists actions :: Run(e.start, actions, e.ttl, e.published, e.d) == w
  }

  lemma Take(e: Setup, w: World, action: Action, v: World)
    requires Reachable(e, w) && Step(w, action, e.ttl, e.published, e.d) == v
    ensures Reachable(e, v)
  {
    var actions :| Run(e.start, actions, e.ttl, e.published, e.d) == w;
    assert (actions + [action])[..|actions|] == actions;
    assert Run(e.start, actions + [action], e.ttl, e.published, e.d) == v;
  }

  /** A new caller that has read the clock. */
  lemma CallerReadsClock(e: Setup, w: World, kid: string) returns (v: World)
    requires Reachable(e, w)
    ensures v == w.(threads := w.threads + [Thread(kid, ClockRead(w.now))]) && Reachable(e, v)
  {
    var i := |w.threads|;
    var w1 := w.(threads := w.threads + [Thread(kid, Start)]);
    v := w.(threads := w.threads + [Thread(kid, ClockRead(w.now))]);
    assert w1.threads[i := v.threads[i]] == v.threads;
    Take(e, w, Action.Call(kid), w1);
    Take(e, w1, ReadClock(i), v);
  }

  /** The world with one more caller, at the given place. */
  function WithCaller(w: World, kid: string, pc: Pc): World {
    w.(threads := w.threads + [Thread(kid, pc)])
  }

  lemma CallerMoves(w: World, kid: string, pc: Pc, to: Pc)
    ensures Move(WithCaller(w, kid, pc), |w.threads|, to) == WithCaller(w, kid, to)
  {
    assert (w.threads + [Thread(kid, pc)])[|w.threads| := Thread(kid, to)] == w.threads + [Thread(kid, to)];
  }

  /** The world after a fetch at one instant. */
  function AfterFetch(e: Setup, w: World): World {
    w.(cache := Index(e.published(w.now)), fetchedAt := w.now, stamped := true, served := Some(w.now),
       fetches := w.fetches + 1)
  }

  /** The world once the answer to a fetch is cached, but not yet stamped. */
  function AfterStore(e: Setup, w: World): World {
    w.(cache := Index(e.published(w.now)), served := Some(w.now), fetches := w.fetches + 1)
  }

  /** A caller that asks is answered and stores the document. */
  lemma CallerStores(e: Setup, w: World, kid: string, t: real, retry: bool)
    requires Reachable(e, WithCaller(w, kid, Asking(t, retry)))
    ensures Reachable(e, WithCaller(AfterStore(e, w), kid, Stored(t, retry, w.now)))
  {
    var i, holding := |w.threads|, Holding(t, retry, e.published(w.now), w.now);
    var held := w.(fetches := w.fetches + 1);
    CallerMoves(w, kid, Asking(t, retry), holding);
    CallerMoves(held, kid, holding, Stored(t, retry, w.now));
    Take(e, WithCaller(w, kid, Asking(t, retry)), Respond(i), WithCaller(held, kid, holding));
    Take(e, WithCaller(held, kid, holding), StoreCache(i), WithCaller(AfterStore(e, w), kid, Stored(t, retry, w.now)));
  }

  /** Then it stamps, all at one instant. */
  lemma CallerFetches(e: Setup, w: World, kid: string, t: real, retry: bool)
    requires Reachable(e, WithCaller(w, kid, Asking(t, retry)))
    ensures Reachable(e, WithCaller(AfterFetch(e, w), kid, Looking(t, retry)))
  {
    var i, stored, read := |w.threads|, AfterStore(e, w), StampRead(t, retry, w.now, w.now);
    CallerStores(e, w, kid, t, retry);
    CallerMoves(stored, kid, Stored(t, retry, w.now), read);
    CallerMoves(stored, kid, read, Looking(t, retry));
    Take(e, WithCaller(stored, kid, Stored(t, retry, w.now)), ReadStamp(i), WithCaller(stored, kid, read));
    Take(e, WithCaller(stored, kid, read), StoreStamp(i), WithCaller(AfterFetch(e, w), kid, Looking(t, retry)));
  }

  lemma CallerFails(e: Setup, w: World, kid: string, t: real, retry: bool)
    requires Reachable(e, WithCaller(w, kid, Asking(t, retry)))
    ensures Reachable(e, WithCaller(w, kid, Pc.Raised))
  {
    CallerMoves(w, kid, Asking(t, retry), Pc.Raised);
    Take(e, WithCaller(w, kid, Asking(t, retry)), FailFetch(|w.threads|), WithCaller(w, kid, Pc.Raised));
  }

  /** What a lookup leads to. */
  function AfterLookup(w: World, kid: string, t: real, retry: bool): Pc {
    if kid in w.cache then Returned(t, w.cache[kid], if w.served.Some? then w.served.value else w.now)
    else if retry then Pc.Raised
    else Asking(t, true)
  }

  lemma CallerLooks(e: Setup, w: World, kid: string, t: real, retry: bool)
    requires Reachable(e, WithCaller(w, kid, Looking(t, retry)))
    ensures var missed := if kid in w.cache || retry then w.misses else w.misses + 1;
            Reachable(e, WithCaller(w.(misses := missed), kid, AfterLookup(w, kid, t, retry)))
  {
    var missed := if kid in w.cache || retry then w.misses else w.misses + 1;
    CallerMoves(w, kid, Looking(t, retry), AfterLookup(w, kid, t, retry));
    Take(e, WithCaller(w, kid, Looking(t, retry)), Lookup(|w.threads|),
         WithCaller(w.(misses := missed), kid, AfterLookup(w, kid, t, retry)));
  }

  function Answering(e: Setup, now: real, ok: bool): Fetch {
    if ok then Served(e.published(now), now, now) else Failed
  }

  /** The cache and stamp, as the single-caller state machine sees them. */
  function StateOf(w: World): State {
    State(w.cache, w.fetchedAt)
  }

  /** The caller has come to the end that answer stands for. */
  predicate Ended(pc: Pc, answer: Outcome) {
    if answer.Found? then pc.Returned? && pc.key == answer.key else pc == Pc.Raised
  }

  /** From a lookup on: the caller finds the key, or asks once more and ends either way. */
  lemma LookupToEnd(e: Setup, w: World, kid: string, retryOk: bool) returns (v: World, pc: Pc)
    requires Reachable(e, WithCaller(w, kid, Looking(w.now, false)))
    ensures v.threads == w.threads && Reachable(e, WithCaller(v, kid, pc))
    ensures var onMiss := Answering(e, w.now, retryOk);
            var after := if kid in w.cache then StateOf(w) else Refreshed(StateOf(w), onMiss);
            && StateOf(v) == after
            && Ended(pc, if kid !in w.cache && !retryOk then FetchFailed
                         else if kid in after.cache then Found(after.cache[kid]) else NotFound)
  {
    CallerLooks(e, w, kid, w.now, false);
    if kid in w.cache {
      v, pc := w, AfterLookup(w, kid, w.now, false);
    } else {
      var missed := w.(misses := w.misses + 1);
      if retryOk {
        CallerFetches(e, missed, kid, w.now, true);
        var fetched := AfterFetch(e, missed);
        CallerLooks(e, fetched, kid, w.now, true);
        v, pc := fetched, AfterLookup(fetched, kid, w.now, true);
      } else {
        CallerFails(e, missed, kid, w.now, true);
        v, pc := missed, Pc.Raised;
      }
    }
  }

  /** A call nobody interferes with does what a single caller's call does, from any world, whichever fetches fail. */
  lemma AloneIsOneCall(e: Setup, w: World, kid: string, staleOk: bool, retryOk: bool) returns (v: World, pc: Pc)
    requires Reachable(e, w)
    ensures v.threads == w.threads && Reachable(e, WithCaller(v, kid, pc))
    ensures var call := JwksCaching.Call(kid, w.now, Answering(e, w.now, staleOk), Answering(e, w.now, retryOk));
            && StateOf(v) == Next(StateOf(w), e.ttl, call)
            && Ended(pc, Answer(StateOf(w), e.ttl, call))
  {
    var i := |w.threads|;
    var read := CallerReadsClock(e, w, kid);
    assert read == WithCaller(w, kid, ClockRead(w.now));
    if w.now - w.fetchedAt > e.ttl as real {
      CallerMoves(w, kid, ClockRead(w.now), Asking(w.now, false));
      Take(e, read, CheckFresh(i), WithCaller(w, kid, Asking(w.now, false)));
      if staleOk {
        CallerFetches(e, w, kid, w.now, false);
        v, pc := LookupToEnd(e, AfterFetch(e, w), kid, retryOk);
      } else {
        CallerFails(e, w, kid, w.now, false);
        v, pc := w, Pc.Raised;
      }
    } else {
      CallerMoves(w, kid, ClockRead(w.now), Looking(w.now, false));
      Take(e, read, CheckFresh(i), WithCaller(w, kid, Looking(w.now, false)));
      v, pc := LookupToEnd(e, w, kid, retryOk);
    }
  }

  // ---------- the bounds are attained ----------

  lemma NoThreads(e: Setup) returns (w: World)
    ensures w == World(e.start, map[], 0.0, false, None, [], 0, 0) && Reachable(e, w)
  {
    w := World(e.start, map[], 0.0, false, None, [], 0, 0);
    assert Run(e.start, [], e.ttl, e.published, e.d) == w;
  }

  /** A new caller that finds the cache stale. */
  lemma CallerAsks(e: Setup, w: World, kid: string) returns (v: World)
    requires Reachable(e, w) && w.now - w.fetchedAt > e.ttl as real
    ensures v == w.(threads := w.threads + [Thread(kid, Asking(w.now, false))]) && Reachable(e, v)
  {
    var i := |w.threads|;
    var read := CallerReadsClock(e, w, kid);
    v := w.(threads := w.threads + [Thread(kid, Asking(w.now, false))]);
    assert read.threads[i := v.threads[i]] == v.threads;
    Take(e, read, CheckFresh(i), v);
  }

  /** Any number of callers at the same instant: every one of them fetches, though no lookup has missed. */
  lemma {:induction false} HerdFetches(e: Setup, kid: string, n: nat) returns (w: World)
    requires e.start > e.ttl as real
    ensures Reachable(e, w)
    ensures w.now == e.start && w.fetchedAt == 0.0
    ensures |w.threads| == n && w.fetches == n && w.misses == 0
  {
    if n == 0 {
      w := NoThreads(e);
    } else {
      var before := HerdFetches(e, kid, n - 1);
      var asking := CallerAsks(e, before, kid);
      var held := Holding(e.start, false, e.published(e.start), e.start);
      w := asking.(threads := before.threads + [Thread(kid, held)], fetches := n);
      assert asking.threads[n - 1 := Thread(kid, held)] == w.threads;
      Take(e, asking, Respond(n - 1), w);
    }
  }

  /** Two threads after the same kid, before any fetch was stored. */
  function Fresh(now: real, kid: string, a: Pc, b: Pc, fetches: nat): World {
    World(now, map[], 0.0, false, None, [Thread(kid, a), Thread(kid, b)], fetches, 0)
  }

  /** And with a document cached that was served at the given time. */
  function Cached(e: Setup, now: real, served: real, kid: string, a: Pc, b: Pc): World {
    World(now, Index(e.published(served)), 0.0, false, Some(served), [Thread(kid, a), Thread(kid, b)], 2, 0)
  }

  predicate Slow(e: Setup) {
    e.start > e.ttl as real && e.ttl >= 0 && e.d >= 0.0
  }

  lemma BothAsk(e: Setup, kid: string)
    requires Slow(e)
    ensures Reachable(e, Fresh(e.start, kid, Asking(e.start, false), Asking(e.start, false), 0))
  {
    var none := NoThreads(e);
    var one := CallerAsks(e, none, kid);
    var two := CallerAsks(e, one, kid);
    assert two == Fresh(e.start, kid, Asking(e.start, false), Asking(e.start, false), 0);
  }

  /** The second is served at once, and one fetch duration passes. */
  lemma SecondServed(e: Setup, kid: string)
    requires Slow(e)
    ensures var s := e.start;
            Reachable(e, Fresh(s + e.d, kid, Asking(s, false), Holding(s, false, e.published(s), s), 1))
  {
    var s := e.start;
    var asks, older := Asking(s, false), Holding(s, false, e.published(s), s);
    BothAsk(e, kid);
    Take(e, Fresh(s, kid, asks, asks, 0), Respond(1), Fresh(s, kid, asks, older, 1));
    Take(e, Fresh(s, kid, asks, older, 1), Tick(s + e.d), Fresh(s + e.d, kid, asks, older, 1));
  }

  /** Then the first is served. */
  lemma BothServed(e: Setup, kid: string)
    requires Slow(e)
    ensures var s, t := e.start, e.start + e.d;
            Reachable(e, Fresh(t, kid, Holding(s, false, e.published(t), t), Holding(s, false, e.published(s), s), 2))
  {
    var s, t := e.start, e.start + e.d;
    var asks, older := Asking(s, false), Holding(s, false, e.published(s), s);
    SecondServed(e, kid);
    Take(e, Fresh(t, kid, asks, older, 1), Respond(0), Fresh(t, kid, Holding(s, false, e.published(t), t), older, 2));
  }

  /** The newer document is stored first and overwritten by the older one. */
  lemma OlderDocumentWins(e: Setup, kid: string)
    requires Slow(e)
    ensures var s, t := e.start, e.start + e.d;
            Reachable(e, Cached(e, t, s, kid, Stored(s, false, t), Stored(s, false, s)))
  {
    var s, t := e.start, e.start + e.d;
    BothServed(e, kid);
    var newer, older := Holding(s, false, e.published(t), t), Holding(s, false, e.published(s), s);
    Take(e, Fresh(t, kid, newer, older, 2), StoreCache(0), Cached(e, t, t, kid, Stored(s, false, t), older));
    Take(e, Cached(e, t, t, kid, Stored(s, false, t), older), StoreCache(1),
         Cached(e, t, s, kid, Stored(s, false, t), Stored(s, false, s)));
  }

  /** The older fetch stamps at once; then another fetch duration passes. */
  lemma OlderStamps(e: Setup, kid: string)
    requires Slow(e)
    ensures var s, t, u := e.start, e.start + e.d, e.start + 2.0 * e.d;
            Reachable(e, Cached(e, u, s, kid, Stored(s, false, t), Looking(s, false)).(fetchedAt := t, stamped := true))
  {
    var s, t, u := e.start, e.start + e.d, e.start + 2.0 * e.d;
    OlderDocumentWins(e, kid);
    var stored, read := Stored(s, false, t), StampRead(s, false, s, t);
    Take(e, Cached(e, t, s, kid, stored, Stored(s, false, s)), ReadStamp(1), Cached(e, t, s, kid, stored, read));
    var w := Cached(e, t, s, kid, stored, Looking(s, false)).(fetchedAt := t, stamped := true);
    Take(e, Cached(e, t, s, kid, stored, read), StoreStamp(1), w);
    Take(e, w, Tick(u), w.(now := u));
  }

  /** The newer one stamps last, and the older document stays. */
  lemma NewerStampWins(e: Setup, kid: string)
    requires Slow(e)
    ensures var s, u := e.start, e.start + 2.0 * e.d;
            Reachable(e, Cached(e, u, s, kid, Looking(s, false), Looking(s, false)).(fetchedAt := u, stamped := true))
  {
    var s, t, u := e.start, e.start + e.d, e.start + 2.0 * e.d;
    OlderStamps(e, kid);
    var look := Looking(s, false);
    var w := Cached(e, u, s, kid, Stored(s, false, t), look).(fetchedAt := t, stamped := true);
    var v := Cached(e, u, s, kid, StampRead(s, false, t, u), look).(fetchedAt := t, stamped := true);
    Take(e, w, ReadStamp(0), v);
    Take(e, v, StoreStamp(0), Cached(e, u, s, kid, look, look).(fetchedAt := u, stamped := true));
  }

  /** A new caller that finds the stamp fresh and the kid cached. */
  lemma CallerFinds(e: Setup, w: World, kid: string) returns (v: World)
    requires Reachable(e, w) && w.now - w.fetchedAt <= e.ttl as real
    requires kid in w.cache && w.served.Some?
    ensures v == w.(threads := w.threads + [Thread(kid, Returned(w.now, w.cache[kid], w.served.value))])
    ensures Reachable(e, v)
  {
    var i := |w.threads|;
    var read := CallerReadsClock(e, w, kid);
    var looking := w.(threads := w.threads + [Thread(kid, Looking(w.now, false))]);
    v := w.(threads := w.threads + [Thread(kid, Returned(w.now, w.cache[kid], w.served.value))]);
    assert read.threads[i := looking.threads[i]] == looking.threads;
    assert looking.threads[i := v.threads[i]] == v.threads;
    Take(e, read, CheckFresh(i), looking);
    Take(e, looking, Lookup(i), v);
  }

  /** One time to live after that stamp it still counts as fresh. */
  lemma StampStillFresh(e: Setup, kid: string) returns (w: World)
    requires Slow(e)
    ensures Reachable(e, w) && |w.threads| == 2
    ensures w.cache == Index(e.published(e.start)) && w.served == Some(e.start)
    ensures w.now == w.fetchedAt + e.ttl as real && e.start == w.now - e.ttl as real - 2.0 * e.d
  {
    var s, u := e.start, e.start + 2.0 * e.d;
    NewerStampWins(e, kid);
    var look := Looking(s, false);
    var v := Cached(e, u, s, kid, look, look).(fetchedAt := u, stamped := true);
    w := v.(now := u + e.ttl as real);
    Take(e, v, Tick(u + e.ttl as real), w);
  }

  /**
    A third caller then gets the key published at the start: the bound, to the
    instant, whatever the time to live and the duration of a fetch.
   */
  lemma BoundIsAttained(e: Setup, kid: string) returns (w: World)
    requires Slow(e) && kid in Index(e.published(e.start))
    ensures Reachable(e, w) && |w.threads| == 3
    ensures var key := Index(e.published(e.start))[kid];
            w.threads[2] == Thread(kid, Returned(w.now, key, w.now - e.ttl as real - 2.0 * e.d))
  {
    var v := StampStillFresh(e, kid);
    w := CallerFinds(e, v, kid);
  }
}
