/** The remote calls of a cleanup: what it asks for, in which order, and what the answers make of
    its cache. A cleanup that nothing fails makes exactly the calls of its plan; otherwise it
    stops at the first call that fails. */
module CleanupCalls {
  import opened Collections
  import opened Strings
  import opened Retention

  /** A call with its answer. */
  datatype RemoteCall =
    | CreateCall(key: string, ok: bool)
    | ListCall(res: Result<seq<Record>>)
    | DeleteCall(key: string, ok: bool)
    | PurgeCall(ok: bool)

  /** A listing as it was answered, and what a job makes of it. */
  datatype Listing = Listing(answer: seq<Record>, items: seq<Record>)

  predicate Granted(c: RemoteCall) {
    if c.ListCall? then c.res.Ok? else c.ok
  }

  predicate AllGranted(t: seq<RemoteCall>) {
    forall i :: 0 <= i < |t| ==> Granted(t[i])
  }

  /** No call of a cleanup failed; creations may have. */
  predicate CleanupsGranted(t: seq<RemoteCall>) {
    forall i :: 0 <= i < |t| ==> t[i].CreateCall? || Granted(t[i])
  }

  /** The same call, refused. */
  function Refused(c: RemoteCall): RemoteCall {
    if c.ListCall? then ListCall(Err) else c.(ok := false)
  }

  /** The calls `t` are those of the plan, or they end at the first one that was refused. */
  predicate Follows(t: seq<RemoteCall>, plan: seq<RemoteCall>, ok: bool) {
    if ok then t == plan
    else
      var n := |t| - 1;
      0 <= n < |plan| && t[..n] == plan[..n] && t[n] == Refused(plan[n])
  }

  /** The items of the job in a listing, each once and oldest first. */
  ghost predicate IsSorted(job: Job, l: Listing) {
    && DistinctKeys(l.items) && OldestFirst(l.items)
    && forall r :: r in l.items <==> r in l.answer && Visible(job, r)
  }

  /** At most one listing is asked for. */
  predicate ListsOnce(t: seq<RemoteCall>) {
    forall i, j :: 0 <= i < j < |t| ==> !(t[i].ListCall? && t[j].ListCall?)
  }

  // ---- the plan ----

  function Deletions(s: seq<Record>): (t: seq<RemoteCall>) {
    seq(|s|, i requires 0 <= i < |s| => DeleteCall(s[i].key, true))
  }

  /** How many of `n` cached items have to go. */
  function Excess(count: int, n: nat, retain: nat): nat {
    if count <= retain then 0 else Min(count - retain, n)
  }

  /** One round over the cached items `s`: those in excess, oldest first, and a purge. */
  function Round(s: seq<Record>, count: int, retain: nat, purge: bool): seq<RemoteCall> {
    var deletions := Deletions(s[..Excess(count, |s|, retain)]);
    if purge then deletions + [PurgeCall(true)] else deletions
  }

  function ListRound(l: Listing, retain: nat, purge: bool): seq<RemoteCall> {
    [ListCall(Ok(l.answer))] + Round(l.items, |l.items|, retain, purge)
  }

  /** Everything a cleanup asks for, when nothing fails. Without a cache, or with an empty one and
      too many items, it lists; with a cache that holds fewer than the items in excess it lists
      after a first round. */
  function Plan(c: Cache, l: Listing, retain: nat, purge: bool): seq<RemoteCall> {
    if c.cached.Some? && c.count <= retain then []
    else if Listed(c) == [] then ListRound(l, retain, purge)
    else if c.count - retain <= |Listed(c)| then Round(Listed(c), c.count, retain, purge)
    else Round(Listed(c), c.count, retain, purge) + ListRound(l, retain, purge)
  }

  /** What the answers make of the cache: a listing replaces it and is counted, a deletion drops
      the first entry. */
  function Replay(c: Cache, items: seq<Record>, t: seq<RemoteCall>): Cache {
    if t == [] then c
    else
      var n := |t| - 1;
      var before := Replay(c, items, t[..n]);
      match t[n]
      case ListCall(Ok(_)) => Cache(|items|, Some(items))
      case DeleteCall(_, true) => Cache(before.count - 1, Some(DropFirst(Listed(before))))
      case _ => before
  }

  function DropFirst<T>(s: seq<T>): seq<T> {
    if s == [] then [] else s[1..]
  }

  // ---- following a plan ----

  lemma FollowsAll(t: seq<RemoteCall>, plan: seq<RemoteCall>, ok: bool)
    requires Follows(t, plan, ok) && AllGranted(plan)
    ensures ok <==> AllGranted(t)
  {
    if !ok {
      assert !Granted(t[|t| - 1]);
    }
  }

  lemma FollowsMore(t: seq<RemoteCall>, plan: seq<RemoteCall>, more: seq<RemoteCall>, rest: seq<RemoteCall>, ok: bool)
    requires Follows(t, plan, true) && Follows(more, rest, ok)
    ensures Follows(t + more, plan + rest, ok)
  {
    if !ok {
      var n := |more| - 1;
      assert (t + more)[..|t| + n] == t + more[..n];
      assert (plan + rest)[..|t| + n] == plan + rest[..n];
    }
  }

  lemma FollowsUpTo(t: seq<RemoteCall>, plan: seq<RemoteCall>, rest: seq<RemoteCall>)
    requires Follows(t, plan, false)
    ensures Follows(t, plan + rest, false)
  {
    var n := |t| - 1;
    assert (plan + rest)[..n] == plan[..n];
  }

  lemma OneCall(c: RemoteCall, ok: bool)
    requires Granted(c)
    ensures Follows([if ok then c else Refused(c)], [c], ok)
  {
  }

  lemma PlanGranted(c: Cache, l: Listing, retain: nat, purge: bool)
    ensures AllGranted(Plan(c, l, retain, purge))
  {
  }

  lemma {:induction false} ReplayMore(c: Cache, items: seq<Record>, t: seq<RemoteCall>, more: seq<RemoteCall>)
    ensures Replay(c, items, t + more) == Replay(Replay(c, items, t), items, more)
    decreases |more|
  {
    if more == [] {
      assert t + more == t;
    } else {
      var n := |more| - 1;
      assert (t + more)[..|t| + n] == t + more[..n];
      ReplayMore(c, items, t, more[..n]);
    }
  }

  lemma ReplayOne(c: Cache, items: seq<Record>, call: RemoteCall)
    ensures Replay(c, items, [call]) ==
      match call
      case ListCall(Ok(_)) => Cache(|items|, Some(items))
      case DeleteCall(_, true) => Cache(c.count - 1, Some(DropFirst(Listed(c))))
      case _ => c
  {
    assert [call][..0] == [];
  }

  /** The listing does not matter where none was made. */
  lemma {:induction false} ReplayUnlisted(c: Cache, items: seq<Record>, items': seq<Record>, t: seq<RemoteCall>)
    requires forall i :: 0 <= i < |t| ==> !(t[i].ListCall? && t[i].res.Ok?)
    ensures Replay(c, items, t) == Replay(c, items', t)
  {
    if t != [] {
      ReplayUnlisted(c, items, items', t[..|t| - 1]);
    }
  }

  lemma DeletionsMore(s: seq<Record>, i: nat)
    requires i < |s|
    ensures Deletions(s[..i + 1]) == Deletions(s[..i]) + [DeleteCall(s[i].key, true)]
  {
  }

  // ---- rounds ----

  /** The cache of a run that has created its item. */
  function Counted(c: Cache): Cache {
    Cache(c.count + 1, c.cached)
  }

  /** A cleanup goes on: nothing is cached, or too many items are counted. */
  predicate Unfinished(c: Cache, retain: nat) {
    c.cached.None? || c.count > retain
  }

  function RoundPlan(c: Cache, l: Listing, retain: nat, purge: bool): seq<RemoteCall> {
    if Listed(c) == [] then ListRound(l, retain, purge) else Round(Listed(c), c.count, retain, purge)
  }

  function AfterDeletions(s: seq<Record>, count: int, retain: nat): Cache {
    var e := Excess(count, |s|, retain);
    Cache(count - e, Some(s[e..]))
  }

  function AfterRound(c: Cache, l: Listing, retain: nat): Cache {
    if Listed(c) == [] then AfterDeletions(l.items, |l.items|, retain) else AfterDeletions(Listed(c), c.count, retain)
  }

  /** The first `i` cached items are deleted. */
  predicate DeletedFirst(c: Cache, c': Cache, items: seq<Record>, i: nat, t: seq<RemoteCall>) {
    && c.cached.Some? && i <= |c.cached.value| && t == Deletions(c.cached.value[..i])
    && c' == Cache(c.count - i, Some(c.cached.value[i..])) && c' == Replay(c, items, t)
  }

  predicate DeletedExcess(
      c: Cache, c': Cache, items: seq<Record>, retain: nat, purge: bool, t: seq<RemoteCall>, ok: bool) {
    && Follows(t, Round(Listed(c), c.count, retain, purge), ok) && c' == Replay(c, items, t)
    && (ok ==> c' == AfterDeletions(Listed(c), c.count, retain))
  }

  predicate RoundMade(c: Cache, c': Cache, l: Listing, retain: nat, purge: bool, t: seq<RemoteCall>, ok: bool) {
    && Follows(t, RoundPlan(c, l, retain, purge), ok) && c' == Replay(c, l.items, t)
    && (ok ==> c' == AfterRound(c, l, retain))
  }

  lemma DeletedNext(c: Cache, c': Cache, items: seq<Record>, retain: nat, i: nat, t: seq<RemoteCall>, ok: bool)
    requires DeletedFirst(c, c', items, i, t) && i < Excess(c.count, |Listed(c)|, retain)
    ensures var t' := t + [DeleteCall(c.cached.value[i].key, ok)];
      if ok then DeletedFirst(c, Cache(c'.count - 1, Some(c'.cached.value[1..])), items, i + 1, t')
      else DeletedExcess(c, c', items, retain, false, t', false)
  {
    var s, call := c.cached.value, DeleteCall(c.cached.value[i].key, ok);
    ReplayMore(c, items, t, [call]);
    ReplayOne(c', items, call);
    DeletionsMore(s, i);
    assert c'.cached.value[1..] == s[i + 1..];
    if !ok {
      var plan := Deletions(s[..Excess(c.count, |s|, retain)]);
      assert plan[..i] == t && plan[i] == DeleteCall(s[i].key, true);
      assert (t + [call])[..i] == t;
      assert Round(s, c.count, retain, false) == plan;
    }
  }

  lemma DeletedDone(c: Cache, c': Cache, items: seq<Record>, retain: nat, i: nat, t: seq<RemoteCall>)
    requires DeletedFirst(c, c', items, i, t) && i <= Excess(c.count, |Listed(c)|, retain)
    requires c'.count <= retain || c'.cached.value == []
    ensures DeletedExcess(c, c', items, retain, false, t, true)
  {
  }

  /** A purge completes the round, and a failed deletion is not followed by one. */
  lemma DeletedPurged(c: Cache, c': Cache, items: seq<Record>, retain: nat, t: seq<RemoteCall>, ok: bool)
    requires DeletedExcess(c, c', items, retain, false, t, true)
    ensures DeletedExcess(c, c', items, retain, true, t + [PurgeCall(ok)], ok)
  {
    OneCall(PurgeCall(true), ok);
    FollowsMore(t, t, [PurgeCall(ok)], [PurgeCall(true)], ok);
    ReplayMore(c, items, t, [PurgeCall(ok)]);
    ReplayOne(c', items, PurgeCall(ok));
  }

  lemma NotPurged(c: Cache, c': Cache, items: seq<Record>, retain: nat, purge: bool, t: seq<RemoteCall>)
    requires DeletedExcess(c, c', items, retain, false, t, false)
    ensures DeletedExcess(c, c', items, retain, purge, t, false)
  {
    FollowsUpTo(t, Round(Listed(c), c.count, retain, false), [PurgeCall(true)]);
  }

  lemma ListRefused(c: Cache, l: Listing, retain: nat, purge: bool)
    requires Listed(c) == []
    ensures RoundMade(c, c, l, retain, purge, [ListCall(Err)], false)
  {
    ReplayOne(c, l.items, ListCall(Err));
  }

  lemma ListGranted(c: Cache, c': Cache, l: Listing, retain: nat, purge: bool, t: seq<RemoteCall>, ok: bool)
    requires Listed(c) == [] && DeletedExcess(Cache(|l.items|, Some(l.items)), c', l.items, retain, purge, t, ok)
    ensures RoundMade(c, c', l, retain, purge, [ListCall(Ok(l.answer))] + t, ok)
  {
    var call := ListCall(Ok(l.answer));
    ReplayOne(c, l.items, call);
    ReplayMore(c, l.items, [call], t);
    FollowsMore([call], [call], t, Round(l.items, |l.items|, retain, purge), ok);
  }

  /** The cache after a round: down to Retain, or empty when the round did not list. */
  lemma AfterRoundIs(c: Cache, l: Listing, retain: nat)
    requires Unfinished(c, retain)
    ensures var c' := AfterRound(c, l, retain);
      c'.cached.Some? && (c'.count <= retain || (Listed(c) != [] && Listed(c') == [] && c.count - retain > |Listed(c)|))
  {
  }

  /** One round, or the first of two. */
  lemma FirstRound(c: Cache, c': Cache, l: Listing, retain: nat, purge: bool, t: seq<RemoteCall>, ok: bool)
    requires Unfinished(c, retain) && RoundMade(c, c', l, retain, purge, t, ok)
    ensures ok ==> c'.cached.Some? && (c'.count <= retain || (Listed(c) != [] && Listed(c') == []))
    ensures !ok || c'.count <= retain ==> Follows(t, Plan(c, l, retain, purge), ok)
  {
    AfterRoundIs(c, l, retain);
    if !ok {
      FollowsUpTo(t, RoundPlan(c, l, retain, purge), ListRound(l, retain, purge));
    }
  }

  /** The second round lists, and no third one follows. */
  lemma SecondRound(
      c: Cache, c1: Cache, c2: Cache, l1: Listing, l2: Listing, retain: nat, purge: bool, t1: seq<RemoteCall>,
      t2: seq<RemoteCall>, ok: bool)
    requires Unfinished(c, retain) && RoundMade(c, c1, l1, retain, purge, t1, true) && c1.count > retain
    requires RoundMade(c1, c2, l2, retain, purge, t2, ok)
    ensures Follows(t1 + t2, Plan(c, l2, retain, purge), ok) && c2 == Replay(c, l2.items, t1 + t2)
    ensures ok ==> c2.cached.Some? && c2.count <= retain
  {
    AfterRoundIs(c, l1, retain);
    AfterRoundIs(c1, l2, retain);
    FollowsMore(t1, t1, t2, ListRound(l2, retain, purge), ok);
    ReplayUnlisted(c, l1.items, l2.items, t1);
    ReplayMore(c, l2.items, t1, t2);
  }

  /** What a plan asks for: it lists, once, if and only if nothing is cached or the cache holds fewer
      items than have to go; it ends with a purge if it asks for anything and purging is wanted. */
  lemma PlanShape(c: Cache, l: Listing, retain: nat, purge: bool)
    requires retain > 0
    ensures var plan := Plan(c, l, retain, purge);
      && (plan == [] <==> c.cached.Some? && c.count <= retain)
      && ((exists i :: 0 <= i < |plan| && plan[i].ListCall?) <==>
            c.cached.None? || c.count - retain > |c.cached.value|)
      && (purge && plan != [] ==> plan[|plan| - 1] == PurgeCall(true))
      && (!purge ==> forall i :: 0 <= i < |plan| ==> !plan[i].PurgeCall?)
      && ListsOnce(plan)
  {
    var plan := Plan(c, l, retain, purge);
    if c.cached.None? || c.count - retain > |c.cached.value| {
      var first := if Listed(c) == [] then [] else Round(Listed(c), c.count, retain, purge);
      assert plan == first + ListRound(l, retain, purge);
      assert plan[|first|].ListCall?;
    }
    RoundNotEmpty(c, l, retain, purge);
    PlanListsOnce(c, l, retain, purge);
  }

  lemma RoundListsNothing(s: seq<Record>, count: int, retain: nat, purge: bool)
    ensures var t := Round(s, count, retain, purge); forall i :: 0 <= i < |t| ==> !t[i].ListCall?
  {
  }

  lemma PlanListsOnce(c: Cache, l: Listing, retain: nat, purge: bool)
    ensures ListsOnce(Plan(c, l, retain, purge))
  {
    var first, rest := Round(Listed(c), c.count, retain, purge), Round(l.items, |l.items|, retain, purge);
    RoundListsNothing(Listed(c), c.count, retain, purge);
    RoundListsNothing(l.items, |l.items|, retain, purge);
    var second := ListRound(l, retain, purge);
    forall i | 0 < i < |second| ensures !second[i].ListCall? {
      assert second[i] == rest[i - 1];
    }
    forall i | 0 <= i < |first + second| && i != |first| ensures !(first + second)[i].ListCall? {
    }
  }

  // ---- whole cleanups ----

  lemma FollowsOnce(c: Cache, l: Listing, retain: nat, purge: bool, t: seq<RemoteCall>, ok: bool)
    requires Follows(t, Plan(c, l, retain, purge), ok)
    ensures ListsOnce(t)
  {
    var plan := Plan(c, l, retain, purge);
    PlanListsOnce(c, l, retain, purge);
    if !ok {
      forall i | 0 <= i < |t| ensures t[i].ListCall? <==> plan[i].ListCall? {
        assert i < |t| - 1 ==> t[..|t| - 1][i] == plan[..|t| - 1][i];
      }
    }
  }

  /** Where a cleanup from cache `c` is between two rounds. */
  predicate Progress(
      c: Cache, c': Cache, l: Listing, retain: nat, purge: bool, t: seq<RemoteCall>, rounds: nat) {
    && rounds <= 2
    && (rounds == 0 ==> c' == c && t == [])
    && (rounds > 0 ==> c'.cached.Some? && Unfinished(c, retain) && c' == Replay(c, l.items, t) && t != [])
    && (rounds == 1 && Unfinished(c', retain) ==>
          RoundMade(c, c', l, retain, purge, t, true) && Listed(c') == [])
    && (rounds == 2 ==> !Unfinished(c', retain))
    && (rounds > 0 && !Unfinished(c', retain) ==> t == Plan(c, l, retain, purge))
  }

  /** How a cleanup ends. */
  predicate Ends(c: Cache, c': Cache, l: Listing, retain: nat, purge: bool, t: seq<RemoteCall>, ok: bool) {
    && Follows(t, Plan(c, l, retain, purge), ok) && c' == Replay(c, l.items, t) && (ok <==> AllGranted(t))
  }

  lemma RoundProgress(
      c: Cache, c1: Cache, c2: Cache, l1: Listing, l2: Listing, retain: nat, purge: bool, t: seq<RemoteCall>,
      more: seq<RemoteCall>, rounds: nat, ok: bool)
    requires Progress(c, c1, l1, retain, purge, t, rounds) && Unfinished(c1, retain) && retain > 0
    requires RoundMade(c1, c2, l2, retain, purge, more, ok)
    ensures rounds < 2
    ensures if ok then Progress(c, c2, l2, retain, purge, t + more, rounds + 1)
            else Ends(c, c2, l2, retain, purge, t + more, false)
  {
    if rounds == 0 {
      FirstProgress(c, c2, l2, retain, purge, more, ok);
      assert t + more == more;
    } else {
      SecondProgress(c, c1, c2, l1, l2, retain, purge, t, more, ok);
    }
  }

  lemma FirstProgress(c: Cache, c': Cache, l: Listing, retain: nat, purge: bool, t: seq<RemoteCall>, ok: bool)
    requires Unfinished(c, retain) && RoundMade(c, c', l, retain, purge, t, ok)
    ensures if ok then Progress(c, c', l, retain, purge, t, 1)
            else Ends(c, c', l, retain, purge, t, false)
  {
    FirstRound(c, c', l, retain, purge, t, ok);
    RoundNotEmpty(c, l, retain, purge);
    if !ok {
      PlanGranted(c, l, retain, purge);
      FollowsAll(t, Plan(c, l, retain, purge), ok);
    }
  }

  lemma SecondProgress(
      c: Cache, c1: Cache, c2: Cache, l1: Listing, l2: Listing, retain: nat, purge: bool, t: seq<RemoteCall>,
      more: seq<RemoteCall>, ok: bool)
    requires Progress(c, c1, l1, retain, purge, t, 1) && Unfinished(c1, retain)
    requires RoundMade(c1, c2, l2, retain, purge, more, ok)
    ensures if ok then Progress(c, c2, l2, retain, purge, t + more, 2)
            else Ends(c, c2, l2, retain, purge, t + more, false)
  {
    SecondRound(c, c1, c2, l1, l2, retain, purge, t, more, ok);
    if !ok {
      PlanGranted(c, l2, retain, purge);
      FollowsAll(t + more, Plan(c, l2, retain, purge), ok);
    }
  }

  lemma RoundNotEmpty(c: Cache, l: Listing, retain: nat, purge: bool)
    ensures Unfinished(c, retain) ==>
      RoundPlan(c, l, retain, purge) != []
  {
  }

  lemma ProgressDone(
      c: Cache, c': Cache, l: Listing, retain: nat, purge: bool, t: seq<RemoteCall>, rounds: nat)
    requires Progress(c, c', l, retain, purge, t, rounds) && !Unfinished(c', retain)
    ensures Ends(c, c', l, retain, purge, t, true)
    ensures rounds > 0 <==> t != []
  {
    PlanGranted(c, l, retain, purge);
  }

  // ---- histories ----

  lemma GrantedAfterCreate(key: string, t: seq<RemoteCall>, ok: bool)
    requires ok <==> AllGranted(t)
    requires forall i :: 0 <= i < |t| ==> !t[i].CreateCall?
    ensures CleanupsGranted([CreateCall(key, true)] + t) <==> ok
  {
    var all := [CreateCall(key, true)] + t;
    forall i | 0 <= i < |t| ensures all[i + 1] == t[i] {
    }
  }

  lemma PlanCreatesNothing(c: Cache, l: Listing, retain: nat, purge: bool)
    ensures var plan := Plan(c, l, retain, purge); forall i :: 0 <= i < |plan| ==> !plan[i].CreateCall?
  {
  }

  lemma NoCreation(c: Cache, l: Listing, retain: nat, purge: bool, t: seq<RemoteCall>, ok: bool)
    requires Follows(t, Plan(c, l, retain, purge), ok)
    ensures forall i :: 0 <= i < |t| ==> !t[i].CreateCall?
  {
    var plan := Plan(c, l, retain, purge);
    PlanCreatesNothing(c, l, retain, purge);
    forall i | 0 <= i < |t| ensures !t[i].CreateCall? {
      if i < |t| - 1 && !ok {
        assert t[i] == t[..|t| - 1][i] == plan[..|t| - 1][i];
      }
    }
  }

  lemma OneMoreGranted(granted: seq<bool>, i: nat)
    requires i < |granted|
    ensures true in granted[..i + 1] <==> true in granted[..i] || granted[i]
  {
    assert granted[..i + 1] == granted[..i] + [granted[i]];
  }

  lemma GrantedMore(t: seq<RemoteCall>, more: seq<RemoteCall>)
    ensures CleanupsGranted(t + more) <==> CleanupsGranted(t) && CleanupsGranted(more)
  {
    if CleanupsGranted(t + more) {
      forall i | 0 <= i < |t| ensures t[i] == (t + more)[i] {
      }
      forall i | 0 <= i < |more| ensures more[i] == (t + more)[|t| + i] {
      }
    }
  }
}
