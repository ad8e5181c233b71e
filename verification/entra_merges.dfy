/**
  The merge functions of the Entra bootstrap tool (`tools/ci/m9_entra_app_bootstrap.py`):
  they fold required scopes, client grants and resource grants into what an app
  registration already has.
 */
module EntraMerges {
  import opened PyText
  import opened Json
  import opened TextOrder

  // ---------- delegated grants to clients ----------

  datatype PreAuth = PreAuth(appId: string, ids: seq<string>)

  function SetOf(xs: seq<string>): set<string> {
    set x | x in xs
  }

  /** The non-blank ids, trimmed. */
  function CleanIds(ids: seq<string>): set<string> {
    set x | x in ids && Strip(x) != "" :: Strip(x)
  }

  ghost function WithIds(entry: PreAuth, ids: seq<string>): PreAuth {
    entry.(ids := Sorted(CleanIds(entry.ids) + SetOf(ids)))
  }

  /** The first entry of the client gets the ids; without one, a new entry is appended. */
  ghost function MergePreauthorized(entries: seq<PreAuth>, client: string, ids: seq<string>): seq<PreAuth> {
    if entries == [] then (if ids == [] then [] else [PreAuth(client, Sorted(SetOf(ids)))])
    else if Strip(entries[0].appId) == client then [WithIds(entries[0], ids)] + entries[1..]
    else [entries[0]] + MergePreauthorized(entries[1..], client, ids)
  }

  lemma HeadFirst<T>(front: seq<T>, rest: seq<T>)
    requires front != []
    ensures front + rest == [front[0]] + (front[1..] + rest)
  {
  }

  /** Entries of other clients at the front are passed over. */
  lemma {:induction false} MergeSkips(front: seq<PreAuth>, rest: seq<PreAuth>, client: string, ids: seq<string>)
    requires forall e :: e in front ==> Strip(e.appId) != client
    ensures MergePreauthorized(front + rest, client, ids) == front + MergePreauthorized(rest, client, ids)
  {
    if front == [] {
      assert front + rest == rest;
    } else {
      var head, tail := front[0], front[1..];
      MergeSkips(tail, rest, client, ids);
      MergeStep(head, tail + rest, client, ids);
      HeadFirst(front, rest);
      HeadFirst(front, MergePreauthorized(rest, client, ids));
    }
  }

  lemma UpdateAt<T>(s: seq<T>, i: nat, x: T)
    requires i < |s|
    ensures s[..i] + s[i..] == s
    ensures s[..i] + ([x] + s[i..][1..]) == s[i := x]
  {
  }

  /** The first match is overwritten where it stands. */
  lemma MergeAtMatch(entries: seq<PreAuth>, client: string, ids: seq<string>, i: nat)
    requires i < |entries| && Strip(entries[i].appId) == client
    requires forall j :: 0 <= j < i ==> Strip(entries[j].appId) != client
    ensures MergePreauthorized(entries, client, ids) == entries[i := WithIds(entries[i], ids)]
  {
    var front, rest := entries[..i], entries[i..];
    MergeSkips(front, rest, client, ids);
    assert rest[0] == entries[i];
    UpdateAt(entries, i, WithIds(entries[i], ids));
  }

  /** The loop of the source, overwriting the matching entry in place. */
  method RunMergePreauthorized(existing: seq<PreAuth>, client: string, ids: seq<string>) returns (entries: seq<PreAuth>)
    ensures entries == MergePreauthorized(existing, client, ids)
  {
    entries := existing;
    for i := 0 to |existing|
      invariant entries == existing
      invariant forall j :: 0 <= j < i ==> Strip(existing[j].appId) != client
    {
      if Strip(entries[i].appId) == client {
        MergeAtMatch(existing, client, ids, i);
        var sorted := Sort(CleanIds(entries[i].ids) + SetOf(ids));
        entries := entries[i := entries[i].(ids := sorted)];
        return;
      }
    }
    MergeSkips(existing, [], client, ids);
    assert existing + [] == existing;
    if ids != [] {
      var sorted := Sort(SetOf(ids));
      entries := entries + [PreAuth(client, sorted)];
    }
  }

  /** The client's first entry, in place: the held ids trimmed, blanks dropped, and the requested ones, in order. */
  lemma MergeUpdates(entries: seq<PreAuth>, client: string, ids: seq<string>, i: nat)
    requires i < |entries| && Strip(entries[i].appId) == client
    requires forall j :: 0 <= j < i ==> Strip(entries[j].appId) != client
    ensures var merged := MergePreauthorized(entries, client, ids);
            && |merged| == |entries|
            && (forall j :: 0 <= j < |entries| && j != i ==> merged[j] == entries[j])
            && merged[i].appId == entries[i].appId
            && Ascending(merged[i].ids)
            && (forall x :: x in merged[i].ids <==>
                  x in ids || exists y :: y in entries[i].ids && Strip(y) != "" && Strip(y) == x)
  {
    MergeAtMatch(entries, client, ids, i);
    assert forall x :: x in CleanIds(entries[i].ids) <==>
             exists y :: y in entries[i].ids && Strip(y) != "" && Strip(y) == x;
  }

  /** A client without an entry gets one at the end, unless nothing is requested. */
  lemma MergeAppends(entries: seq<PreAuth>, client: string, ids: seq<string>)
    requires forall e :: e in entries ==> Strip(e.appId) != client
    ensures var merged := MergePreauthorized(entries, client, ids);
            if ids == [] then merged == entries
            else
              && |merged| == |entries| + 1 && merged[..|entries|] == entries
              && merged[|entries|].appId == client
              && Ascending(merged[|entries|].ids)
              && forall x :: x in merged[|entries|].ids <==> x in ids
  {
    MergeSkips(entries, [], client, ids);
    assert entries + [] == entries;
  }

  /** What a list of entries grants: (client, permission) for every non-blank id. */
  function Grants(entries: seq<PreAuth>): set<(string, string)> {
    if entries == [] then {} else GrantsTo(entries[0].appId, entries[0].ids) + Grants(entries[1..])
  }

  function Pairs(party: string, ids: set<string>): set<(string, string)> {
    set x | x in ids :: (party, x)
  }

  lemma PairsOfUnion(party: string, a: set<string>, b: set<string>)
    ensures Pairs(party, a + b) == Pairs(party, a) + Pairs(party, b)
  {
  }

  function GrantsTo(client: string, ids: seq<string>): set<(string, string)> {
    Pairs(Strip(client), CleanIds(ids))
  }

  /** A grant is in the list when some entry of the client carries the id. */
  lemma {:induction false} GrantMeans(entries: seq<PreAuth>, client: string, id: string)
    ensures (client, id) in Grants(entries) <==>
            exists i :: 0 <= i < |entries| && Strip(entries[i].appId) == client && id in CleanIds(entries[i].ids)
  {
    if entries == [] {
    } else {
      GrantMeans(entries[1..], client, id);
      if i :| 0 <= i < |entries| && Strip(entries[i].appId) == client && id in CleanIds(entries[i].ids) {
        if i > 0 {
          assert entries[1..][i - 1] == entries[i];
        }
      }
      if i :| 0 <= i < |entries[1..]| && Strip(entries[1..][i].appId) == client && id in CleanIds(entries[1..][i].ids) {
        assert entries[i + 1] == entries[1..][i];
      }
    }
  }

  lemma StripTwice(s: string)
    ensures Strip(Strip(s)) == Strip(s)
  {
  }

  /** Sorting the cleaned ids together with the new ones grants exactly both. */
  lemma CleanOfSorted(held: seq<string>, ids: seq<string>)
    ensures CleanIds(Sorted(CleanIds(held) + SetOf(ids))) == CleanIds(held) + CleanIds(ids)
    ensures CleanIds(Sorted(SetOf(ids))) == CleanIds(ids)
  {
    forall x | x in CleanIds(held) ensures Strip(x) == x && x != "" {
      var y :| y in held && Strip(y) != "" && x == Strip(y);
      StripTwice(y);
    }
  }

  lemma GrantsOfUnion(appId: string, held: seq<string>, ids: seq<string>)
    ensures GrantsTo(appId, Sorted(CleanIds(held) + SetOf(ids))) == GrantsTo(appId, held) + GrantsTo(appId, ids)
    ensures GrantsTo(appId, Sorted(SetOf(ids))) == GrantsTo(appId, ids)
  {
    CleanOfSorted(held, ids);
    PairsOfUnion(Strip(appId), CleanIds(held), CleanIds(ids));
  }

  /** A merge adds exactly the requested grants and drops none. */
  lemma {:induction false} MergeAddsExactly(entries: seq<PreAuth>, client: string, ids: seq<string>)
    ensures Grants(MergePreauthorized(entries, client, ids)) == Grants(entries) + GrantsTo(client, ids)
  {
    if entries == [] {
      GrantsOfUnion(client, [], ids);
    } else if Strip(entries[0].appId) == client {
      GrantsOfUnion(entries[0].appId, entries[0].ids, ids);
      assert GrantsTo(entries[0].appId, ids) == GrantsTo(client, ids);
      assert MergePreauthorized(entries, client, ids)[1..] == entries[1..];
    } else {
      MergeAddsExactly(entries[1..], client, ids);
      assert MergePreauthorized(entries, client, ids)[1..] == MergePreauthorized(entries[1..], client, ids);
    }
  }

  /** The place of a client's first entry, if it has one. */
  lemma FirstEntry(entries: seq<PreAuth>, client: string) returns (found: bool, i: nat)
    ensures found ==> i < |entries| && Strip(entries[i].appId) == client
    ensures found ==> forall j :: 0 <= j < i ==> Strip(entries[j].appId) != client
    ensures !found ==> forall e :: e in entries ==> Strip(e.appId) != client
  {
    found, i := false, 0;
    while i < |entries|
      invariant i <= |entries| && !found
      invariant forall j :: 0 <= j < i ==> Strip(entries[j].appId) != client
    {
      if Strip(entries[i].appId) == client {
        return true, i;
      }
      i := i + 1;
    }
  }

  /** Entries other than the client's first one keep their place and content. */
  lemma MergeLeavesOthers(entries: seq<PreAuth>, client: string, ids: seq<string>, i: nat)
    requires i < |entries|
    requires Strip(entries[i].appId) == client ==> exists j :: 0 <= j < i && Strip(entries[j].appId) == client
    ensures |entries| <= |MergePreauthorized(entries, client, ids)| <= |entries| + 1
    ensures MergePreauthorized(entries, client, ids)[i] == entries[i]
  {
    var found, first := FirstEntry(entries, client);
    if found {
      MergeAtMatch(entries, client, ids, first);
    } else {
      MergeAppends(entries, client, ids);
    }
  }

  /** The client's first entry already has the ids, sorted and trimmed; or nothing is asked for. */
  ghost predicate Holds(entries: seq<PreAuth>, client: string, ids: seq<string>) {
    if entries == [] then ids == []
    else if Strip(entries[0].appId) == client then WithIds(entries[0], ids) == entries[0]
    else Holds(entries[1..], client, ids)
  }

  /** Exactly then a merge changes nothing. */
  lemma {:induction false} IdleIffHolds(entries: seq<PreAuth>, client: string, ids: seq<string>)
    ensures MergePreauthorized(entries, client, ids) == entries <==> Holds(entries, client, ids)
  {
    if entries == [] {
    } else {
      IdleIffHolds(entries[1..], client, ids);
      var merged := MergePreauthorized(entries, client, ids);
      assert entries == [entries[0]] + entries[1..];
      if merged == entries {
        assert merged[0] == entries[0] && merged[1..] == entries[1..];
      }
    }
  }

  /** The ids a merge writes are stable when trimming them introduces nothing new. */
  predicate StableIds(held: set<string>, ids: seq<string>) {
    forall x :: x in ids && Strip(x) != "" ==> Strip(x) in ids || Strip(x) in held
  }

  /** The cleaned ids of the client's first entry, if it has one. */
  function OldIds(entries: seq<PreAuth>, client: string): set<string> {
    if entries == [] then {}
    else if Strip(entries[0].appId) == client then CleanIds(entries[0].ids)
    else OldIds(entries[1..], client)
  }

  /** When an entry holding some clean ids has, after being given more, the asked ids in sorted clean form. */
  predicate SettledBy(held: set<string>, ids: seq<string>, more: seq<string>) {
    && StableIds(held, more)
    && SetOf(ids) <= held + SetOf(more)
    && SetOf(more) <= held + CleanIds(more) + SetOf(ids)
  }

  lemma SettledIsSameSet(held: set<string>, ids: seq<string>, more: seq<string>)
    ensures held + CleanIds(more) + SetOf(ids) == held + SetOf(more) <==> SettledBy(held, ids, more)
  {
    var asked, given := held + CleanIds(more) + SetOf(ids), held + SetOf(more);
    if asked == given {
      forall x | x in more && Strip(x) != "" ensures Strip(x) in more || Strip(x) in held {
        assert Strip(x) in CleanIds(more);
        assert Strip(x) in given;
      }
    }
    if StableIds(held, more) {
      assert CleanIds(more) <= given;
    }
  }

  lemma WithIdsAfter(entry: PreAuth, ids: seq<string>, more: seq<string>)
    ensures WithIds(WithIds(entry, more), ids) == WithIds(entry, more) <==> SettledBy(CleanIds(entry.ids), ids, more)
  {
    CleanOfSorted(entry.ids, more);
    SettledIsSameSet(CleanIds(entry.ids), ids, more);
    var once, twice := WithIds(entry, more).ids, WithIds(WithIds(entry, more), ids).ids;
    if SettledBy(CleanIds(entry.ids), ids, more) {
      AscendingUnique(once, twice);
    }
    if once == twice {
      assert forall x :: x in once <==> x in twice;
    }
  }

  /** What a client holds after a merge, for itself or another client, and exactly when. */
  lemma {:induction false} HoldsAfterMerge(entries: seq<PreAuth>, client: string, ids: seq<string>,
                                           other: string, more: seq<string>)
    requires Trimmed(other)
    ensures Holds(MergePreauthorized(entries, other, more), client, ids) <==>
            if other == client then SettledBy(OldIds(entries, client), ids, more) else Holds(entries, client, ids)
  {
    var merged := MergePreauthorized(entries, other, more);
    if entries == [] {
      if more != [] {
        FreshEntry(other, more);
        WithIdsAfter(PreAuth(other, []), ids, more);
        assert merged[0] == WithIds(PreAuth(other, []), more) && merged[1..] == [];
        assert CleanIds([]) == {};
      } else {
        assert ids != [] ==> ids[0] in SetOf(ids);
      }
    } else if Strip(entries[0].appId) == other {
      WithIdsAfter(entries[0], ids, more);
      assert merged[0] == WithIds(entries[0], more) && merged[1..] == entries[1..];
    } else {
      HoldsAfterMerge(entries[1..], client, ids, other, more);
      assert merged[0] == entries[0] && merged[1..] == MergePreauthorized(entries[1..], other, more);
    }
  }

  /** A freshly appended entry is the merge into an empty one. */
  lemma FreshEntry(client: string, ids: seq<string>)
    ensures WithIds(PreAuth(client, []), ids) == PreAuth(client, Sorted(SetOf(ids)))
  {
    assert CleanIds([]) + SetOf(ids) == SetOf(ids);
  }

  /** Asked for the same ids again, only those that are stable are settled. */
  lemma SettledBySelf(held: set<string>, ids: seq<string>)
    ensures SettledBy(held, ids, ids) <==> StableIds(held, ids)
  {
  }

  /** A merge is idempotent exactly when trimming the requested ids introduces none that is not there. */
  lemma MergeIdempotentIff(entries: seq<PreAuth>, client: string, ids: seq<string>)
    requires Trimmed(client)
    ensures var once := MergePreauthorized(entries, client, ids);
            MergePreauthorized(once, client, ids) == once <==> StableIds(OldIds(entries, client), ids)
  {
    IdleIffHolds(MergePreauthorized(entries, client, ids), client, ids);
    HoldsAfterMerge(entries, client, ids, client, ids);
    SettledBySelf(OldIds(entries, client), ids);
  }

  /** An id with a padding space: the first merge stores it as it is, the second adds its trimmed form. */
  lemma PaddedIdNeedsTwoMerges(client: string)
    requires Trimmed(client)
    ensures var once := MergePreauthorized([], client, [" x"]);
            MergePreauthorized(once, client, [" x"]) != once
  {
    assert Strip(" x") == "x" by {
      assert " x"[1..] == "x";
    }
    assert " x" in [" x"] && "x" !in [" x"];
    MergeIdempotentIff([], client, [" x"]);
  }

  /** What a merge does to the cleaned ids of any client's first entry. */
  lemma {:induction false} OldIdsAfterMerge(entries: seq<PreAuth>, client: string, ids: seq<string>, other: string)
    requires Trimmed(client)
    ensures OldIds(MergePreauthorized(entries, client, ids), other) ==
            OldIds(entries, other) + if other == client then CleanIds(ids) else {}
  {
    var merged := MergePreauthorized(entries, client, ids);
    if entries == [] {
      CleanOfSorted([], ids);
      if ids != [] {
        assert merged[0] == PreAuth(client, Sorted(SetOf(ids))) && merged[1..] == [];
      }
    } else if Strip(entries[0].appId) == client {
      CleanOfSorted(entries[0].ids, ids);
      assert merged[0] == WithIds(entries[0], ids) && merged[1..] == entries[1..];
    } else {
      OldIdsAfterMerge(entries[1..], client, ids, other);
      assert merged[0] == entries[0] && merged[1..] == MergePreauthorized(entries[1..], client, ids);
    }
  }

  ghost function TwoMerges(entries: seq<PreAuth>, a: string, idsA: seq<string>, b: string, idsB: seq<string>)
    : seq<PreAuth>
  {
    MergePreauthorized(MergePreauthorized(entries, a, idsA), b, idsB)
  }

  /** For two clients, a pair of merges can be repeated exactly when each of them can. */
  lemma TwoMergesIdempotentIff(entries: seq<PreAuth>, a: string, idsA: seq<string>, b: string, idsB: seq<string>)
    requires Trimmed(a) && Trimmed(b) && a != b
    ensures var once := TwoMerges(entries, a, idsA, b, idsB);
            TwoMerges(once, a, idsA, b, idsB) == once <==>
              StableIds(OldIds(entries, a), idsA) && StableIds(OldIds(entries, b), idsB)
  {
    var first := MergePreauthorized(entries, a, idsA);
    var once := MergePreauthorized(first, b, idsB);
    var again := MergePreauthorized(once, a, idsA);
    OldIdsAfterMerge(entries, a, idsA, b);
    OldIdsAfterMerge(entries, a, idsA, a);
    OldIdsAfterMerge(first, b, idsB, a);
    HoldsAfterMerge(entries, a, idsA, a, idsA);
    HoldsAfterMerge(first, b, idsB, b, idsB);
    HoldsAfterMerge(first, a, idsA, b, idsB);
    SettledBySelf(OldIds(entries, a), idsA);
    SettledBySelf(OldIds(first, b), idsB);
    IdleIffHolds(once, a, idsA);
    IdleIffHolds(once, b, idsB);
    if MergePreauthorized(again, b, idsB) == once {
      // a second merge for the first client always settles it, and the other client leaves it alone
      HeldIsStable(OldIds(entries, a), idsA);
      HoldsAfterMerge(once, a, idsA, a, idsA);
      SettledBySelf(OldIds(once, a), idsA);
      HoldsAfterMerge(again, a, idsA, b, idsB);
    }
  }

  lemma HeldIsStable(held: set<string>, ids: seq<string>)
    ensures StableIds(held + CleanIds(ids), ids)
  {
  }

  /** For one client asked for ids and then for more, only the larger list matters. */
  lemma {:induction false} SameClientIdempotentIff(entries: seq<PreAuth>, client: string, ids: seq<string>,
                                                   more: seq<string>)
    requires Trimmed(client) && ids != [] && SetOf(ids) <= SetOf(more)
    ensures var once := TwoMerges(entries, client, ids, client, more);
            TwoMerges(once, client, ids, client, more) == once <==>
              StableIds(OldIds(entries, client) + CleanIds(ids), more)
  {
    var once := TwoMerges(entries, client, ids, client, more);
    if entries == [] {
      FreshEntry(client, ids);
      EntryTwice(PreAuth(client, []), [], client, ids, more);
      assert [PreAuth(client, [])][1..] == [];
      assert MergePreauthorized([], client, ids) == MergePreauthorized([PreAuth(client, [])], client, ids);
      assert OldIds([], client) == CleanIds([]);
    } else if Strip(entries[0].appId) == client {
      EntryTwice(entries[0], entries[1..], client, ids, more);
      assert entries == [entries[0]] + entries[1..];
    } else {
      SameClientIdempotentIff(entries[1..], client, ids, more);
      var rest := entries[1..];
      assert entries == [entries[0]] + rest;
      OtherEntryFirst(entries[0], rest, client, ids, more);
      var tail := TwoMerges(rest, client, ids, client, more);
      OtherEntryFirst(entries[0], tail, client, ids, more);
      OneHead(entries[0], TwoMerges(tail, client, ids, client, more), tail);
    }
  }

  lemma OneHead<T>(head: T, a: seq<T>, b: seq<T>)
    ensures [head] + a == [head] + b <==> a == b
  {
    assert ([head] + a)[1..] == a && ([head] + b)[1..] == b;
  }

  lemma OtherEntryFirst(head: PreAuth, rest: seq<PreAuth>, client: string, ids: seq<string>, more: seq<string>)
    requires Strip(head.appId) != client
    ensures TwoMerges([head] + rest, client, ids, client, more) == [head] + TwoMerges(rest, client, ids, client, more)
  {
    MergeStep(head, rest, client, ids);
    MergeStep(head, MergePreauthorized(rest, client, ids), client, more);
  }

  lemma CleanMonotone(ids: seq<string>, more: seq<string>)
    requires SetOf(ids) <= SetOf(more)
    ensures CleanIds(ids) <= CleanIds(more)
  {
    forall x | x in CleanIds(ids) ensures x in CleanIds(more) {
      var y :| y in ids && Strip(y) != "" && x == Strip(y);
      assert y in SetOf(more);
    }
  }

  lemma SameCleanIds(a: PreAuth, b: PreAuth, more: seq<string>)
    requires a.appId == b.appId && CleanIds(a.ids) == CleanIds(b.ids)
    ensures WithIds(a, more) == WithIds(b, more)
  {
  }

  /** Ids an entry holds in clean form do not change what it becomes with more ids. */
  lemma LessAddsNothing(entry: PreAuth, ids: seq<string>, more: seq<string>)
    requires CleanIds(ids) <= CleanIds(entry.ids)
    ensures WithIds(WithIds(entry, ids), more) == WithIds(entry, more)
  {
    CleanOfSorted(entry.ids, ids);
    var e := WithIds(entry, ids);
    assert CleanIds(e.ids) == CleanIds(entry.ids);
    SameCleanIds(e, entry, more);
  }

  /** Adding ids and then more to an entry, twice over. */
  lemma IdsTwice(entry: PreAuth, ids: seq<string>, more: seq<string>)
    requires SetOf(ids) <= SetOf(more)
    ensures var once := WithIds(WithIds(entry, ids), more);
            WithIds(WithIds(once, ids), more) == once <==> StableIds(CleanIds(entry.ids) + CleanIds(ids), more)
  {
    var e1 := WithIds(entry, ids);
    var e2 := WithIds(e1, more);
    CleanOfSorted(entry.ids, ids);
    CleanOfSorted(e1.ids, more);
    CleanMonotone(ids, more);
    LessAddsNothing(e2, ids, more);
    WithIdsAfter(e1, more, more);
    SettledBySelf(CleanIds(e1.ids), more);
  }

  lemma TwoMergesAtHead(head: PreAuth, rest: seq<PreAuth>, client: string, ids: seq<string>, more: seq<string>)
    requires Strip(head.appId) == client
    ensures TwoMerges([head] + rest, client, ids, client, more) == [WithIds(WithIds(head, ids), more)] + rest
  {
    MergeStep(head, rest, client, ids);
    MergeStep(WithIds(head, ids), rest, client, more);
  }

  lemma EntryTwice(head: PreAuth, rest: seq<PreAuth>, client: string, ids: seq<string>, more: seq<string>)
    requires Strip(head.appId) == client && SetOf(ids) <= SetOf(more)
    ensures var once := TwoMerges([head] + rest, client, ids, client, more);
            && once == [WithIds(WithIds(head, ids), more)] + rest
            && (TwoMerges(once, client, ids, client, more) == once <==>
                StableIds(CleanIds(head.ids) + CleanIds(ids), more))
  {
    var e2 := WithIds(WithIds(head, ids), more);
    IdsTwice(head, ids, more);
    TwoMergesAtHead(head, rest, client, ids, more);
    TwoMergesAtHead(e2, rest, client, ids, more);
    SameTail(WithIds(WithIds(e2, ids), more), e2, rest);
  }

  lemma SameTail<T>(a: T, b: T, rest: seq<T>)
    ensures [a] + rest == [b] + rest <==> a == b
  {
    assert ([a] + rest)[0] == a && ([b] + rest)[0] == b;
  }

  /** For two different clients the order of the merges only affects the order of appended entries. */
  lemma {:induction false} MergesCommute(entries: seq<PreAuth>, a: string, idsA: seq<string>, b: string,
                                         idsB: seq<string>)
    requires Trimmed(a) && Trimmed(b) && a != b
    ensures multiset(TwoMerges(entries, a, idsA, b, idsB)) == multiset(TwoMerges(entries, b, idsB, a, idsA))
  {
    if entries == [] {
      AppendedBoth(a, idsA, b, idsB);
      AppendedBoth(b, idsB, a, idsA);
    } else {
      var head, rest := entries[0], entries[1..];
      MergesCommute(rest, a, idsA, b, idsB);
      MergeBoth(head, rest, a, idsA, b, idsB);
      MergeBoth(head, rest, b, idsB, a, idsA);
      HeadEitherWay(head, a, idsA, b, idsB);
      SameTails(MergedHead(head, a, idsA, b, idsB), MergedRest(head, rest, a, idsA, b, idsB),
                MergedRest(head, rest, b, idsB, a, idsA));
      assert entries == [head] + rest;
    }
  }

  lemma HeadEitherWay(head: PreAuth, a: string, idsA: seq<string>, b: string, idsB: seq<string>)
    requires a != b
    ensures MergedHead(head, a, idsA, b, idsB) == MergedHead(head, b, idsB, a, idsA)
  {
  }

  lemma SameTails<T>(head: T, x: seq<T>, y: seq<T>)
    requires multiset(x) == multiset(y)
    ensures multiset([head] + x) == multiset([head] + y)
  {
  }

  ghost function NewEntries(client: string, ids: seq<string>): seq<PreAuth> {
    if ids == [] then [] else [PreAuth(client, Sorted(SetOf(ids)))]
  }

  lemma AppendedBoth(a: string, idsA: seq<string>, b: string, idsB: seq<string>)
    requires Trimmed(a) && Trimmed(b) && a != b
    ensures TwoMerges([], a, idsA, b, idsB) == NewEntries(a, idsA) + NewEntries(b, idsB)
  {
    if idsA != [] {
      MergeStep(PreAuth(a, Sorted(SetOf(idsA))), [], b, idsB);
      assert NewEntries(a, idsA) == [PreAuth(a, Sorted(SetOf(idsA)))] + [];
    }
  }

  ghost function MergedHead(head: PreAuth, a: string, idsA: seq<string>, b: string, idsB: seq<string>): PreAuth {
    if Strip(head.appId) == a then WithIds(head, idsA)
    else if Strip(head.appId) == b then WithIds(head, idsB)
    else head
  }

  ghost function MergedRest(head: PreAuth, rest: seq<PreAuth>, a: string, idsA: seq<string>, b: string,
                            idsB: seq<string>): seq<PreAuth>
  {
    if Strip(head.appId) == a then MergePreauthorized(rest, b, idsB)
    else if Strip(head.appId) == b then MergePreauthorized(rest, a, idsA)
    else TwoMerges(rest, a, idsA, b, idsB)
  }

  /** Two merges treat the first entry on its own; the client it belongs to leaves the rest alone. */
  lemma MergeBoth(head: PreAuth, rest: seq<PreAuth>, a: string, idsA: seq<string>, b: string, idsB: seq<string>)
    requires a != b
    ensures TwoMerges([head] + rest, a, idsA, b, idsB) ==
            [MergedHead(head, a, idsA, b, idsB)] + MergedRest(head, rest, a, idsA, b, idsB)
  {
    MergeStep(head, rest, a, idsA);
    if Strip(head.appId) == a {
      MergeStep(WithIds(head, idsA), rest, b, idsB);
    } else {
      MergeStep(head, MergePreauthorized(rest, a, idsA), b, idsB);
    }
  }

  lemma MergeStep(head: PreAuth, rest: seq<PreAuth>, client: string, ids: seq<string>)
    ensures MergePreauthorized([head] + rest, client, ids) ==
            if Strip(head.appId) == client then [WithIds(head, ids)] + rest
            else [head] + MergePreauthorized(rest, client, ids)
  {
    assert ([head] + rest)[1..] == rest;
  }

  // ---------- required resource access ----------

  datatype Access = Access(id: string, kind: string)

  datatype ResourceEntry = ResourceEntry(resourceAppId: string, access: seq<Access>)

  const SCOPE_KIND := "Scope"

  /** The non-blank items by id, the last one of an id winning. */
  function ById(access: seq<Access>): (m: map<string, Access>)
    ensures forall k :: k in m ==> m[k].id == k
  {
    if access == [] then map[]
    else
      var last := access[|access| - 1];
      var earlier := ById(access[..|access| - 1]);
      if Strip(last.id) != "" then earlier[last.id := last] else earlier
  }

  /** The items by id once the missing scopes are added. */
  function Completed(access: seq<Access>, ids: seq<string>): map<string, Access> {
    map k | k in ById(access).Keys + SetOf(ids) ::
      if k in ById(access) then ById(access)[k] else Access(k, SCOPE_KIND)
  }

  /** `sorted(by_id.values(), key=id)` */
  ghost function SortedItems(m: map<string, Access>): seq<Access> {
    var keys := Sorted(m.Keys);
    seq(|keys|, i requires 0 <= i < |keys| => m[keys[i]])
  }

  ghost function WithAccess(entry: ResourceEntry, ids: seq<string>): ResourceEntry {
    entry.(access := SortedItems(Completed(entry.access, ids)))
  }

  ghost function NewResource(resource: string, ids: seq<string>): ResourceEntry {
    ResourceEntry(resource, SortedItems(Completed([], ids)))
  }

  ghost function MergeResourceAccess(entries: seq<ResourceEntry>, resource: string, ids: seq<string>)
    : seq<ResourceEntry>
  {
    if entries == [] then (if ids == [] then [] else [NewResource(resource, ids)])
    else if Strip(entries[0].resourceAppId) == resource then [WithAccess(entries[0], ids)] + entries[1..]
    else [entries[0]] + MergeResourceAccess(entries[1..], resource, ids)
  }

  lemma ResourceMergeStep(head: ResourceEntry, rest: seq<ResourceEntry>, resource: string, ids: seq<string>)
    ensures MergeResourceAccess([head] + rest, resource, ids) ==
            if Strip(head.resourceAppId) == resource then [WithAccess(head, ids)] + rest
            else [head] + MergeResourceAccess(rest, resource, ids)
  {
    assert ([head] + rest)[1..] == rest;
  }

  lemma {:induction false} ResourceMergeSkips(front: seq<ResourceEntry>, rest: seq<ResourceEntry>, resource: string,
                                              ids: seq<string>)
    requires forall e :: e in front ==> Strip(e.resourceAppId) != resource
    ensures MergeResourceAccess(front + rest, resource, ids) == front + MergeResourceAccess(rest, resource, ids)
  {
    if front == [] {
      assert front + rest == rest;
    } else {
      var head, tail := front[0], front[1..];
      ResourceMergeSkips(tail, rest, resource, ids);
      ResourceMergeStep(head, tail + rest, resource, ids);
      HeadFirst(front, rest);
      HeadFirst(front, MergeResourceAccess(rest, resource, ids));
    }
  }

  lemma ResourceMergeAtMatch(entries: seq<ResourceEntry>, resource: string, ids: seq<string>, i: nat)
    requires i < |entries| && Strip(entries[i].resourceAppId) == resource
    requires forall j :: 0 <= j < i ==> Strip(entries[j].resourceAppId) != resource
    ensures MergeResourceAccess(entries, resource, ids) == entries[i := WithAccess(entries[i], ids)]
  {
    var front, rest := entries[..i], entries[i..];
    ResourceMergeSkips(front, rest, resource, ids);
    assert rest[0] == entries[i];
    UpdateAt(entries, i, WithAccess(entries[i], ids));
  }

  /** The non-blank items are indexed by id. */
  method IndexAccess(access: seq<Access>) returns (byId: map<string, Access>)
    ensures byId == ById(access)
  {
    byId := map[];
    for i := 0 to |access|
      invariant byId == ById(access[..i])
    {
      assert access[..i + 1][..i] == access[..i];
      if Strip(access[i].id) != "" {
        byId := byId[access[i].id := access[i]];
      }
    }
    assert access[..|access|] == access;
  }

  /** The id set is walked in any order; the map built is always the same. */
  method AddMissing(held: map<string, Access>, ids: seq<string>) returns (byId: map<string, Access>)
    ensures byId.Keys == held.Keys + SetOf(ids)
    ensures forall k :: k in byId ==> byId[k] == if k in held then held[k] else Access(k, SCOPE_KIND)
  {
    byId := held;
    var rest := SetOf(ids);
    while rest != {}
      invariant rest <= SetOf(ids)
      invariant byId.Keys == held.Keys + (SetOf(ids) - rest)
      invariant forall k :: k in byId ==> byId[k] == if k in held then held[k] else Access(k, SCOPE_KIND)
      decreases rest
    {
      var id :| id in rest;
      if id !in byId {
        byId := byId[id := Access(id, SCOPE_KIND)];
      }
      rest := rest - {id};
    }
  }

  /** So is the sorted list of its values. */
  method CompleteAccess(access: seq<Access>, ids: seq<string>) returns (sorted: seq<Access>)
    ensures sorted == SortedItems(Completed(access, ids))
  {
    var held := IndexAccess(access);
    var byId := AddMissing(held, ids);
    assert byId == Completed(access, ids);
    var keys := Sort(byId.Keys);
    sorted := seq(|keys|, i requires 0 <= i < |keys| => byId[keys[i]]);
  }

  method RunMergeResourceAccess(existing: seq<ResourceEntry>, resource: string, ids: seq<string>)
    returns (entries: seq<ResourceEntry>)
    ensures entries == MergeResourceAccess(existing, resource, ids)
  {
    entries := existing;
    for i := 0 to |existing|
      invariant entries == existing
      invariant forall j :: 0 <= j < i ==> Strip(existing[j].resourceAppId) != resource
    {
      if Strip(entries[i].resourceAppId) == resource {
        ResourceMergeAtMatch(existing, resource, ids, i);
        var sorted := CompleteAccess(entries[i].access, ids);
        entries := entries[i := entries[i].(access := sorted)];
        return;
      }
    }
    ResourceMergeSkips(existing, [], resource, ids);
    assert existing + [] == existing;
    if ids != [] {
      var sorted := CompleteAccess([], ids);
      entries := entries + [ResourceEntry(resource, sorted)];
    }
  }

  predicate Keyed(m: map<string, Access>) {
    forall k :: k in m ==> m[k].id == k
  }

  predicate DistinctIds(access: seq<Access>) {
    forall i, j :: 0 <= i < j < |access| ==> access[i].id != access[j].id
  }

  /** Indexing items with distinct ids finds every non-blank one. */
  lemma {:induction false} ByIdHas(access: seq<Access>, i: nat)
    requires DistinctIds(access) && i < |access| && Strip(access[i].id) != ""
    ensures access[i].id in ById(access) && ById(access)[access[i].id] == access[i]
  {
    var n := |access| - 1;
    if i < n {
      var earlier := access[..n];
      assert earlier[i] == access[i] && access[n].id != access[i].id;
      ByIdHas(earlier, i);
    }
  }

  lemma ByIdHolds(before: seq<Access>, last: Access, k: string)
    ensures var all := ById(before + [last]);
            if k == last.id && Strip(k) != "" then k in all && all[k] == last
            else (k in all <==> k in ById(before)) && (k in all ==> all[k] == ById(before)[k])
  {
    assert (before + [last])[..|before|] == before;
  }

  /** And an indexed id is that of some item, the last that has it. */
  lemma {:induction false} ByIdGives(access: seq<Access>, k: string) returns (i: nat)
    requires k in ById(access)
    ensures i < |access| && access[i] == ById(access)[k] && Strip(k) != ""
    ensures forall j :: i < j < |access| ==> access[j].id != k
  {
    var n := |access| - 1;
    var before, last := access[..n], access[n];
    assert access == before + [last];
    ByIdHolds(before, last, k);
    if last.id == k && Strip(k) != "" {
      i := n;
    } else {
      i := ByIdGives(before, k);
      assert forall j :: i < j < n ==> before[j] == access[j];
    }
  }

  lemma IndexedNotBlank(access: seq<Access>)
    ensures forall k :: k in ById(access) ==> Strip(k) != ""
  {
    forall k | k in ById(access) ensures Strip(k) != "" {
      var i := ByIdGives(access, k);
    }
  }

  /** Indexing the sorted items gives them back, but for blank ids. */
  lemma ByIdOfSortedItems(m: map<string, Access>)
    requires Keyed(m)
    ensures ById(SortedItems(m)) == map k | k in m && Strip(k) != "" :: m[k]
  {
    var items, keys := SortedItems(m), Sorted(m.Keys);
    forall i, j | 0 <= i < j < |items| ensures items[i].id != items[j].id {
      assert keys[i] in m && keys[j] in m;
      LessIrreflexive(keys[i]);
    }
    forall k | k in m && Strip(k) != "" ensures k in ById(items) && ById(items)[k] == m[k] {
      assert k in keys;
      var i :| 0 <= i < |keys| && keys[i] == k;
      assert items[i] == m[k];
      ByIdHas(items, i);
    }
    forall k | k in ById(items) ensures k in m && Strip(k) != "" {
      var i := ByIdGives(items, k);
      assert keys[i] in m;
    }
  }

  lemma CompletedKeyed(access: seq<Access>, ids: seq<string>)
    ensures Keyed(Completed(access, ids))
  {
  }

  /** Completing twice adds nothing the first time did not. */
  lemma CompletedTwice(access: seq<Access>, ids: seq<string>)
    ensures Completed(SortedItems(Completed(access, ids)), ids) == Completed(access, ids)
  {
    var once := Completed(access, ids);
    IndexedNotBlank(access);
    CompletedKeyed(access, ids);
    ByIdOfSortedItems(once);
    var twice := Completed(SortedItems(once), ids);
    forall k
      ensures k in twice <==> k in once
      ensures k in once ==> twice[k] == once[k]
    {
    }
  }

  /** Merging resource access is idempotent, whatever ids are asked for. */
  lemma {:induction false} ResourceMergeIdempotent(entries: seq<ResourceEntry>, resource: string, ids: seq<string>)
    requires Trimmed(resource)
    ensures var once := MergeResourceAccess(entries, resource, ids);
            MergeResourceAccess(once, resource, ids) == once
  {
    var once := MergeResourceAccess(entries, resource, ids);
    if entries == [] {
      if ids != [] {
        CompletedTwice([], ids);
        assert once[0] == NewResource(resource, ids) && once[1..] == [];
      }
    } else if Strip(entries[0].resourceAppId) == resource {
      CompletedTwice(entries[0].access, ids);
      assert once[0] == WithAccess(entries[0], ids) && once[1..] == entries[1..];
    } else {
      ResourceMergeIdempotent(entries[1..], resource, ids);
      assert once[1..] == MergeResourceAccess(entries[1..], resource, ids);
    }
  }

  /** The last item of its id, which is not blank. */
  predicate LastOfId(access: seq<Access>, a: Access) {
    && Strip(a.id) != ""
    && exists i :: 0 <= i < |access| && access[i] == a && forall j :: i < j < |access| ==> access[j].id != a.id
  }

  lemma {:induction false} LastIsById(access: seq<Access>, i: nat)
    requires i < |access| && Strip(access[i].id) != ""
    requires forall j :: i < j < |access| ==> access[j].id != access[i].id
    ensures access[i].id in ById(access) && ById(access)[access[i].id] == access[i]
  {
    var n := |access| - 1;
    var before, last := access[..n], access[n];
    if i < n {
      assert before[i] == access[i] && last.id != access[i].id;
      assert forall j :: i < j < n ==> before[j] == access[j];
      LastIsById(before, i);
    }
    assert ById(access) == if Strip(last.id) != "" then ById(before)[last.id := last] else ById(before);
  }

  lemma ByIdIff(access: seq<Access>, a: Access)
    ensures a.id in ById(access) && ById(access)[a.id] == a <==> LastOfId(access, a)
  {
    if a.id in ById(access) {
      var i := ByIdGives(access, a.id);
    }
    if LastOfId(access, a) {
      var i :| 0 <= i < |access| && access[i] == a && forall j :: i < j < |access| ==> access[j].id != a.id;
      LastIsById(access, i);
    }
  }

  /** The items of a completed list: each held one, the last of its id, and a scope for each id that was missing. */
  lemma CompletedHas(access: seq<Access>, ids: seq<string>, a: Access)
    ensures var items := SortedItems(Completed(access, ids));
            && (forall i, j :: 0 <= i < j < |items| ==> Less(items[i].id, items[j].id))
            && (a in items <==>
                || LastOfId(access, a)
                || (a.id in ids && a.kind == "Scope" && forall b :: LastOfId(access, b) ==> b.id != a.id))
  {
    var m := Completed(access, ids);
    var keys, items := Sorted(m.Keys), SortedItems(m);
    CompletedKeyed(access, ids);
    ByIdIff(access, a);
    forall k | k in ById(access) ensures LastOfId(access, ById(access)[k]) {
      ByIdIff(access, ById(access)[k]);
    }
    forall b | LastOfId(access, b) ensures b.id in ById(access) {
      ByIdIff(access, b);
    }
    if a.id in m && m[a.id] == a {
      assert a.id in keys;
      var i :| 0 <= i < |keys| && keys[i] == a.id;
      assert items[i] == a;
    }
    if a in items {
      var i :| 0 <= i < |items| && items[i] == a;
      assert keys[i] in m && m[keys[i]].id == keys[i];
    }
  }

  /** Only the resource's first entry changes, or one is appended if something is requested. */
  lemma ResourceMergeUpdates(entries: seq<ResourceEntry>, resource: string, ids: seq<string>, i: nat)
    requires i < |entries| && Strip(entries[i].resourceAppId) == resource
    requires forall j :: 0 <= j < i ==> Strip(entries[j].resourceAppId) != resource
    ensures MergeResourceAccess(entries, resource, ids) ==
            entries[i := ResourceEntry(entries[i].resourceAppId, SortedItems(Completed(entries[i].access, ids)))]
  {
    ResourceMergeAtMatch(entries, resource, ids, i);
  }

  lemma ResourceMergeAppends(entries: seq<ResourceEntry>, resource: string, ids: seq<string>)
    requires forall e :: e in entries ==> Strip(e.resourceAppId) != resource
    ensures MergeResourceAccess(entries, resource, ids) ==
            if ids == [] then entries else entries + [ResourceEntry(resource, SortedItems(Completed([], ids)))]
  {
    ResourceMergeSkips(entries, [], resource, ids);
    assert entries + [] == entries;
  }

  /** What a list of entries asks of other apps: (resource, permission) for every non-blank id. */
  function ResourceGrants(entries: seq<ResourceEntry>): set<(string, string)> {
    if entries == [] then {} else AccessTo(entries[0]) + ResourceGrants(entries[1..])
  }

  function AccessTo(entry: ResourceEntry): set<(string, string)> {
    Pairs(Strip(entry.resourceAppId), ById(entry.access).Keys)
  }

  lemma {:induction false} IndexedIff(access: seq<Access>, id: string)
    ensures id in ById(access) <==> Strip(id) != "" && exists k :: 0 <= k < |access| && access[k].id == id
  {
    if access == [] {
    } else {
      var n := |access| - 1;
      var before := access[..n];
      IndexedIff(before, id);
      assert access == before + [access[n]];
      ByIdHolds(before, access[n], id);
      if k :| 0 <= k < n && before[k].id == id {
        assert access[k].id == id;
      }
      if k :| 0 <= k <= n && access[k].id == id {
        assert k < n ==> before[k].id == id;
      }
    }
  }

  /** An app needs a permission when some entry of the resource lists the id, and it is not blank. */
  lemma {:induction false} ResourceGrantMeans(entries: seq<ResourceEntry>, resource: string, id: string)
    ensures (resource, id) in ResourceGrants(entries) <==>
            exists i ::
              0 <= i < |entries| && Strip(entries[i].resourceAppId) == resource && id in ById(entries[i].access)
  {
    if entries == [] {
    } else {
      var rest := entries[1..];
      ResourceGrantMeans(rest, resource, id);
      if i :| 0 <= i < |entries| && Strip(entries[i].resourceAppId) == resource && id in ById(entries[i].access) {
        assert i > 0 ==> rest[i - 1] == entries[i];
      }
      if i :| 0 <= i < |rest| && Strip(rest[i].resourceAppId) == resource && id in ById(rest[i].access) {
        assert entries[i + 1] == rest[i];
      }
    }
  }

  function NonBlank(ids: seq<string>): set<string> {
    set x | x in ids && Strip(x) != ""
  }

  /** The grants a list of requested ids stands for. */
  function ResourceGrantsTo(resource: string, ids: seq<string>): set<(string, string)> {
    Pairs(resource, NonBlank(ids))
  }

  lemma AccessOfCompleted(entry: ResourceEntry, ids: seq<string>)
    ensures AccessTo(WithAccess(entry, ids)) == AccessTo(entry) + ResourceGrantsTo(Strip(entry.resourceAppId), ids)
    ensures forall k :: k in ById(entry.access) ==>
              && k in ById(WithAccess(entry, ids).access)
              && ById(WithAccess(entry, ids).access)[k] == ById(entry.access)[k]
    ensures forall k :: k in NonBlank(ids) && k !in ById(entry.access) ==>
              && k in ById(WithAccess(entry, ids).access)
              && ById(WithAccess(entry, ids).access)[k] == Access(k, SCOPE_KIND)
  {
    CompletedItems(entry.access, ids);
    PairsOfUnion(Strip(entry.resourceAppId), ById(entry.access).Keys, NonBlank(ids));
  }

  lemma CompletedItems(access: seq<Access>, ids: seq<string>)
    ensures var held, again := ById(access), ById(SortedItems(Completed(access, ids)));
            && again.Keys == held.Keys + NonBlank(ids)
            && (forall k :: k in held ==> again[k] == held[k])
            && (forall k :: k in NonBlank(ids) && k !in held ==> again[k] == Access(k, SCOPE_KIND))
  {
    IndexedNotBlank(access);
    CompletedKeyed(access, ids);
    ByIdOfSortedItems(Completed(access, ids));
  }

  /** A merge adds exactly the requested access and drops none. */
  lemma {:induction false} ResourceMergeAddsExactly(entries: seq<ResourceEntry>, resource: string, ids: seq<string>)
    requires Trimmed(resource)
    ensures ResourceGrants(MergeResourceAccess(entries, resource, ids))
            == ResourceGrants(entries) + ResourceGrantsTo(resource, ids)
  {
    if entries == [] {
      AccessOfCompleted(ResourceEntry(resource, []), ids);
      if ids != [] {
        assert MergeResourceAccess(entries, resource, ids)[0] == WithAccess(ResourceEntry(resource, []), ids);
      }
    } else if Strip(entries[0].resourceAppId) == resource {
      AccessOfCompleted(entries[0], ids);
      assert MergeResourceAccess(entries, resource, ids)[1..] == entries[1..];
    } else {
      ResourceMergeAddsExactly(entries[1..], resource, ids);
      assert MergeResourceAccess(entries, resource, ids)[1..] == MergeResourceAccess(entries[1..], resource, ids);
    }
  }

  // ---------- exposed scopes ----------

  /** An exposed scope; the four texts are consent prompts. */
  datatype Scope = Scope(
    value: string, id: Option<string>, enabled: bool, kind: Option<string>,
    adminName: Option<string>, adminText: Option<string>, userName: Option<string>, userText: Option<string>)

  /** uuid5 and `str.title`, kept abstract; a uuid is neither blank nor padded. */
  datatype RawNaming = RawNaming(stableId: (string, string) -> string, title: string -> string)

  ghost predicate MintsPlainIds(n: RawNaming) {
    forall d: string, v: string :: n.stableId(d, v) != "" && Trimmed(n.stableId(d, v))
  }

  type Naming = n: RawNaming | MintsPlainIds(n)
    ghost witness RawNaming((d: string, v: string) => "0", (v: string) => v)

  function NewScope(naming: Naming, display: string, value: string): Scope {
    Scope(value, Some(naming.stableId(display, value)), true, Some("User"),
          Some(display + " " + naming.title(value)),
          Some("Allow delegated access to " + display + " (" + value + ")."),
          Some("Access " + display),
          Some("Allow the app to access " + display + " on your behalf."))
  }

  function Default(held: Option<string>, text: string): Option<string> {
    if held.Some? then held else Some(text)
  }

  /** Enabled, with every missing field filled in. */
  function Repaired(naming: Naming, display: string, value: string, scope: Scope): Scope {
    Scope(scope.value, Default(scope.id, naming.stableId(display, value)), true, Default(scope.kind, "User"),
          Default(scope.adminName, display + " " + value),
          Default(scope.adminText, "Allow delegated access to " + display + "."),
          Default(scope.userName, "Access " + display),
          Default(scope.userText, "Allow delegated access to " + display + "."))
  }

  /** The last existing scope with that value, blank values ignored. */
  function LastByValue(existing: seq<Scope>, value: string): Option<Scope> {
    if existing == [] then None
    else
      var last := existing[|existing| - 1];
      if Strip(last.value) != "" && Strip(last.value) == value then Some(last)
      else LastByValue(existing[..|existing| - 1], value)
  }

  function MergedScope(naming: Naming, display: string, existing: seq<Scope>, value: string): Scope {
    match LastByValue(existing, value)
    case None => NewScope(naming, display, value)
    case Some(scope) => Repaired(naming, display, value, scope)
  }

  function MergeScopes(naming: Naming, display: string, existing: seq<Scope>, required: seq<string>): seq<Scope> {
    seq(|required|, i requires 0 <= i < |required| => MergedScope(naming, display, existing, required[i]))
  }

  /** The two loops of the source: index the existing scopes by value, then append one per required value. */
  method RunMergeScopes(naming: Naming, display: string, existing: seq<Scope>, required: seq<string>)
    returns (merged: seq<Scope>)
    ensures merged == MergeScopes(naming, display, existing, required)
  {
    var byValue: map<string, Scope> := map[];
    for i := 0 to |existing|
      invariant forall v :: v in byValue <==> LastByValue(existing[..i], v).Some?
      invariant forall v :: v in byValue ==> LastByValue(existing[..i], v) == Some(byValue[v])
    {
      assert existing[..i + 1][..i] == existing[..i];
      if Strip(existing[i].value) != "" {
        byValue := byValue[Strip(existing[i].value) := existing[i]];
      }
    }
    assert existing[..|existing|] == existing;
    merged := [];
    for i := 0 to |required|
      invariant |merged| == i
      invariant forall j :: 0 <= j < i ==> merged[j] == MergedScope(naming, display, existing, required[j])
    {
      var value := required[i];
      var scope;
      if value !in byValue {
        scope := NewScope(naming, display, value);
      } else {
        scope := Repaired(naming, display, value, byValue[value]);
      }
      merged := merged + [scope];
    }
  }

  predicate RequiredValues(required: seq<string>) {
    && (forall i :: 0 <= i < |required| ==> required[i] != "" && Trimmed(required[i]))
    && (forall i, j :: 0 <= i < j < |required| ==> required[i] != required[j])
  }

  lemma {:induction false} LastByValueFits(existing: seq<Scope>, value: string)
    ensures LastByValue(existing, value).Some? ==>
              LastByValue(existing, value).value in existing && Strip(LastByValue(existing, value).value.value) == value
  {
    if existing == [] {
    } else {
      LastByValueFits(existing[..|existing| - 1], value);
    }
  }

  /** Each merged scope is the one its own value finds again. */
  lemma {:induction false} FindAmong(scopes: seq<Scope>, values: seq<string>, i: nat)
    requires |scopes| == |values| && RequiredValues(values) && i < |values|
    requires forall k :: 0 <= k < |scopes| ==> Strip(scopes[k].value) == values[k]
    ensures LastByValue(scopes, values[i]) == Some(scopes[i])
  {
    var n := |scopes| - 1;
    if i < n {
      FindAmong(scopes[..n], values[..n], i);
    }
  }

  lemma MergedScopeFits(naming: Naming, display: string, existing: seq<Scope>, value: string)
    requires value != "" && Trimmed(value)
    ensures var m := MergedScope(naming, display, existing, value);
            && Strip(m.value) == value && m.enabled && m.id.Some?
            && Repaired(naming, display, value, m) == m
  {
    LastByValueFits(existing, value);
  }

  lemma LaterValueSkipped(before: seq<Scope>, last: Scope, value: string)
    requires Strip(last.value) != value
    ensures LastByValue(before + [last], value) == LastByValue(before, value)
  {
    assert (before + [last])[..|before|] == before;
  }

  /** Of several scopes with a value the last counts. */
  lemma {:induction false} LastByValueIs(existing: seq<Scope>, value: string, i: nat)
    requires i < |existing| && value != "" && Strip(existing[i].value) == value
    requires forall j :: i < j < |existing| ==> Strip(existing[j].value) != value
    ensures LastByValue(existing, value) == Some(existing[i])
  {
    var n := |existing| - 1;
    if i < n {
      var before, last := existing[..n], existing[n];
      LaterValueSkipped(before, last, value);
      assert existing == before + [last];
      LastByValueIs(before, value, i);
    }
  }

  /** A new scope, in words. */
  lemma NewScopeReads(naming: Naming, display: string, existing: seq<Scope>, value: string)
    requires forall s :: s in existing ==> Strip(s.value) != value
    requires value != ""
    ensures MergedScope(naming, display, existing, value) ==
            Scope(value, Some(naming.stableId(display, value)), true, Some("User"),
                  Some(display + " " + naming.title(value)),
                  Some("Allow delegated access to " + display + " (" + value + ")."),
                  Some("Access " + display),
                  Some("Allow the app to access " + display + " on your behalf."))
  {
    LastByValueMisses(existing, value);
  }

  /** An existing one: enabled, and what it lacks is filled in. */
  lemma RepairedScopeReads(naming: Naming, display: string, existing: seq<Scope>, value: string, i: nat)
    requires i < |existing| && value != "" && Strip(existing[i].value) == value
    requires forall j :: i < j < |existing| ==> Strip(existing[j].value) != value
    ensures var m, s := MergedScope(naming, display, existing, value), existing[i];
            && m.value == s.value && m.enabled
            && m.id == (if s.id.Some? then s.id else Some(naming.stableId(display, value)))
            && m.kind == (if s.kind.Some? then s.kind else Some("User"))
            && m.adminName == (if s.adminName.Some? then s.adminName else Some(display + " " + value))
            && m.adminText == (if s.adminText.Some? then s.adminText
                               else Some("Allow delegated access to " + display + "."))
            && m.userName == (if s.userName.Some? then s.userName else Some("Access " + display))
            && m.userText == (if s.userText.Some? then s.userText
                              else Some("Allow delegated access to " + display + "."))
  {
    LastByValueIs(existing, value, i);
  }

  /** An existing scope keeps its value, id, type and texts; a new one gets the stable id of its value. */
  lemma MergeKeepsExistingScope(naming: Naming, display: string, existing: seq<Scope>, value: string)
    requires value != "" && Trimmed(value)
    ensures var m, found := MergedScope(naming, display, existing, value), LastByValue(existing, value);
            && (found.Some? ==>
                  && m.value == found.value.value
                  && (found.value.id.Some? ==> m.id == found.value.id)
                  && (found.value.kind.Some? ==> m.kind == found.value.kind)
                  && (found.value.adminName.Some? ==> m.adminName == found.value.adminName)
                  && (found.value.adminText.Some? ==> m.adminText == found.value.adminText)
                  && (found.value.userName.Some? ==> m.userName == found.value.userName)
                  && (found.value.userText.Some? ==> m.userText == found.value.userText))
            && (found.None? || found.value.id.None? ==> m.id == Some(naming.stableId(display, value)))
            && (found.None? <==> forall s :: s in existing ==> Strip(s.value) != value)
  {
    LastByValueFits(existing, value);
    LastByValueMisses(existing, value);
  }

  lemma {:induction false} LastByValueMisses(existing: seq<Scope>, value: string)
    requires value != ""
    ensures LastByValue(existing, value).None? <==> forall s :: s in existing ==> Strip(s.value) != value
  {
    if existing == [] {
    } else {
      var n := |existing| - 1;
      LastByValueMisses(existing[..n], value);
      assert existing == existing[..n] + [existing[n]];
    }
  }

  /** Merging the scopes again changes nothing. */
  lemma MergeScopesIdempotent(naming: Naming, display: string, existing: seq<Scope>, required: seq<string>)
    requires RequiredValues(required)
    ensures var once := MergeScopes(naming, display, existing, required);
            MergeScopes(naming, display, once, required) == once
  {
    var once := MergeScopes(naming, display, existing, required);
    forall i | 0 <= i < |required| ensures Strip(once[i].value) == required[i] {
      MergedScopeFits(naming, display, existing, required[i]);
    }
    forall i | 0 <= i < |required| ensures MergedScope(naming, display, once, required[i]) == once[i] {
      MergedScopeFits(naming, display, existing, required[i]);
      FindAmong(once, required, i);
    }
  }
}
