/** The recurring-job tasks: a snapshot job and a backup job, each with an incremental
    cache that its cleanup reads and updates under the task's lock. Creation happens
    outside the lock, so other runs may create items at any remote call of a cleanup. */
module RecurringJobs {
  import opened Collections
  import opened Strings
  import opened Retention
  import opened CleanupCalls

  /** The name a run gives its snapshot: job name, timestamp, random suffix. */
  function SnapName(job: string, time: string, id: string): string {
    job + "-" + (time + "-" + id)
  }

  /** Backups are matched to jobs by a name prefix, so a job does not only see its own: job
      "a" also sees (and deletes) the backups of job "a-b". Exactly when a job sees a backup
      made by `other`: its own name extends to a prefix of the other's, or the other way
      round with the rest matching the timestamp. */
  lemma WhichBackupsAJobSees(name: string, other: string, time: string, id: string, url: string, created: string)
    ensures Visible(BackupJob(name), Backup(url, created, SnapName(other, time, id))) <==>
      if |name| <= |other| then HasPrefix(other + "-", name + "-")
      else HasPrefix(name, other + "-") && HasPrefix(time + "-" + id, name[|other| + 1..] + "-")
  {
    var rest := time + "-" + id;
    var s := SnapName(other, time, id);
    assert s == (other + "-") + rest;
    if |name| <= |other| {
      assert s[..|name| + 1] == (other + "-")[..|name| + 1];
    } else {
      var tail := name[|other| + 1..];
      assert name + "-" == name[..|other| + 1] + (tail + "-");
      if HasPrefix(s, name + "-") {
        assert s[..|other| + 1] == other + "-" && (name + "-")[..|other| + 1] == name[..|other| + 1];
        assert s[|other| + 1..] == rest && (name + "-")[|other| + 1..] == tail + "-";
      }
      if HasPrefix(name, other + "-") && HasPrefix(rest, tail + "-") {
        assert name[..|other| + 1] == other + "-";
        assert s[..|name| + 1] == (other + "-") + rest[..|tail| + 1];
      }
    }
  }

  /** Names without a dash never clash: such jobs see exactly their own backups. */
  lemma DashFreeJobsSeeTheirOwn(name: string, other: string, time: string, id: string, url: string, created: string)
    requires '-' !in name && '-' !in other
    ensures Visible(BackupJob(name), Backup(url, created, SnapName(other, time, id))) <==> name == other
  {
    WhichBackupsAJobSees(name, other, time, id, url, created);
    if |name| <= |other| {
      if HasPrefix(other + "-", name + "-") {
        assert (other + "-")[|name|] == (name + "-")[|name|] == '-';
        assert |name| == |other| && (other + "-")[..|name|] == (name + "-")[..|name|];
      }
    } else if HasPrefix(name, other + "-") {
      assert name[|other|] == (other + "-")[|other|];
    }
  }

  /** Who made a snapshot: a snapshot job, a backup job, or somebody else with labels of their own. */
  datatype Maker = SnapshotRun(job: string) | BackupRun(job: string) | Somebody(labels: map<string, string>)

  function LabelsBy(maker: Maker): map<string, string> {
    match maker
    case SnapshotRun(job) => map["job" := job]
    case BackupRun(job) => map["job" := job, "backupJob" := job]
    case Somebody(labels) => labels
  }

  /** Exactly whose snapshots a cleanup counts and deletes. A snapshot job does not only see its
      own, but also those that a backup job of its name takes; a backup job only sees its own.
      Neither sees what carries no job's name, or has been deleted already. */
  lemma WhichSnapshotsAJobSees(name: string, maker: Maker, key: string, created: string, removed: bool)
    requires name != ""
    ensures var s := Snapshot(key, created, removed, LabelsBy(maker));
      match maker
      case SnapshotRun(job) =>
        (Visible(SnapshotJob(name), s) <==> !removed && job == name) && !Visible(BackupSnapshotJob(name), s)
      case BackupRun(job) =>
        && (Visible(SnapshotJob(name), s) <==> !removed && job == name)
        && (Visible(BackupSnapshotJob(name), s) <==> !removed && job == name)
      case Somebody(labels) =>
        && (Visible(SnapshotJob(name), s) <==> !removed && "job" in labels && labels["job"] == name)
        && (Visible(BackupSnapshotJob(name), s) <==>
              !removed && "job" in labels && "backupJob" in labels && labels["job"] == labels["backupJob"] == name)
    ensures !Visible(BackupJob(name), Snapshot(key, created, removed, LabelsBy(maker)))
  {
    assert JOB_LABEL != BACKUP_JOB_LABEL;
  }

  /** The effect of a delete: a backup is gone, a snapshot is marked removed. */
  function Deleted(all: map<string, Record>, key: string): map<string, Record> {
    if key !in all then all
    else if all[key].Snapshot? then all[key := all[key].(removed := true)]
    else all - {key}
  }

  lemma DeletedLive(all: map<string, Record>, job: Job, key: string)
    ensures LiveOf(Deleted(all, key), job) == LiveOf(all, job) - {key} && Deleted(all, key).Keys <= all.Keys
  {
  }

  /** What a job's cleanup leaves alone: whatever it does not see, unless it is deleted already. */
  ghost predicate Spares(job: Job, all: map<string, Record>, all': map<string, Record>) {
    forall k :: k in all && !Visible(job, all[k]) && !Marked(all[k]) ==> k in all' && all'[k] == all[k]
  }

  predicate Marked(r: Record) {
    r.Snapshot? && r.removed
  }

  predicate NoneMarked(all: map<string, Record>) {
    forall k :: k in all ==> !Marked(all[k])
  }

  lemma DeleteSpares(job: Job, start: map<string, Record>, all: map<string, Record>, key: string)
    requires Spares(job, start, all) && key in LiveOf(all, job)
    ensures Spares(job, start, Deleted(all, key))
  {
  }

  lemma PurgeSpares(job: Job, start: map<string, Record>, all: map<string, Record>)
    requires Spares(job, start, all)
    ensures Spares(job, start, Purged(all)) && NoneMarked(Purged(all))
  {
  }

  /** The effect of a purge: snapshots marked removed are gone. */
  function Purged(all: map<string, Record>): map<string, Record> {
    map k | k in all && !(all[k].Snapshot? && all[k].removed) :: all[k]
  }

  lemma PurgedLive(all: map<string, Record>, job: Job)
    ensures LiveOf(Purged(all), job) == LiveOf(all, job)
  {
  }

  /** A deleted snapshot keeps its place until the next purge; a deleted backup is gone at once. */
  lemma DeletedThenPurged(all: map<string, Record>, key: string)
    requires key in all
    ensures if all[key].Snapshot? then key in Deleted(all, key) && Marked(Deleted(all, key)[key])
            else key !in Deleted(all, key)
    ensures Purged(Deleted(all, key)) == Purged(all) - {key}
    ensures forall k :: k in all && k != key ==> k in Deleted(all, key) && Deleted(all, key)[k] == all[k]
  {
  }

  ghost predicate Keyed(all: map<string, Record>) {
    forall k :: k in all ==> all[k].key == k
  }

  /** The live items that were not there before. */
  ghost function New(all: map<string, Record>, job: Job, before: set<string>): set<string> {
    LiveOf(all, job).Keys - before
  }

  lemma DroppedLive(all: map<string, Record>, job: Job, key: string, before: set<string>)
    requires Keyed(all)
    ensures Keyed(all - {key}) && |New(all - {key}, job, before)| <= |New(all, job, before)|
  {
    SubsetSize(New(all - {key}, job, before), New(all, job, before));
  }

  /** One more item is at most one more live item that was not there before. */
  lemma AddedLive(all: map<string, Record>, job: Job, r: Record, before: set<string>)
    requires Keyed(all) && r.key !in all
    ensures Keyed(all[r.key := r]) && |New(all[r.key := r], job, before)| <= |New(all, job, before)| + 1
  {
    SubsetSize(New(all[r.key := r], job, before), New(all, job, before) + {r.key});
  }

  lemma FewerNew(all: map<string, Record>, job: Job, key: string, before: set<string>)
    requires Keyed(all)
    ensures Keyed(Deleted(all, key)) && |New(Deleted(all, key), job, before)| <= |New(all, job, before)|
  {
    DeletedLive(all, job, key);
    SubsetSize(New(Deleted(all, key), job, before), New(all, job, before));
  }

  /** A listing held elsewhere (the engine's snapshots or a backup store) as one job sees
      it. Every call may fail, and before it takes effect other runs may have created
      items. `uncounted` is the number of creations whose run has not yet counted them. */
  class Remote {
    const job: Job
    // no other run overlaps, nobody else touches the job's items, and failed calls have no effect
    const isolated: bool
    var all: map<string, Record>
    ghost var uncounted: nat
    ghost var calls: seq<RemoteCall>  // every call so far, with its answer

    constructor (job: Job, isolated: bool)
      ensures this.job == job && this.isolated == isolated
      ensures Valid() && Live() == map[] && uncounted == 0 && calls == []
    {
      this.job := job;
      this.isolated := isolated;
      all := map[];
      uncounted, calls := 0, [];
    }

    ghost predicate Valid()
      reads this
    {
      Keyed(all)
    }

    ghost function Live(): Live
      reads this
    {
      LiveOf(all, job)
    }

    /** Other runs act: they may create items, and outsiders may delete some. */
    method Others()
      requires Valid()
      modifies this`all, this`uncounted
      ensures Valid()
      ensures |New(all, job, old(Live().Keys))| + old(uncounted) <= uncounted
      ensures isolated ==> all == old(all) && uncounted == old(uncounted)
    {
      ghost var before := Live().Keys;
      assert New(all, job, before) == {};
      if !isolated {
        var dropped: string := *;
        DroppedLive(all, job, dropped, before);
        all := all - {dropped};
        var n: nat := *;
        var i := 0;
        while i < n
          invariant Valid()
          invariant |New(all, job, before)| + old(uncounted) <= uncounted
        {
          var r: Record := *;
          if r.key !in all {
            AddedLive(all, job, r, before);
            all := all[r.key := r];
            uncounted := uncounted + 1;
          }
          i := i + 1;
        }
      }
    }

    /** A run creates its item, if that is granted. A name that is in use is refused, and a failed
        creation leaves nothing behind. */
    method Create(r: Record, granted: bool) returns (ok: bool)
      requires Valid() && Visible(job, r)
      modifies this
      ensures Valid() && calls == old(calls) + [CreateCall(r.key, ok)]
      ensures !ok ==> Live() == old(Live()) && uncounted == old(uncounted)
      ensures ok <==> granted && r.key !in old(all)
      ensures all.Keys == old(all.Keys) + if ok then {r.key} else {}
      ensures ok ==> Live() == old(Live())[r.key := r.created] && uncounted == old(uncounted) + 1
    {
      ok := granted && r.key !in all;
      if ok {
        all := all[r.key := r];
        uncounted := uncounted + 1;
      }
      calls := calls + [CreateCall(r.key, ok)];
    }

    /** The whole listing, in no particular order. */
    method List() returns (res: Result<seq<Record>>)
      requires Valid()
      modifies this
      ensures Valid() && calls == old(calls) + [ListCall(res)]
      ensures |New(all, job, old(Live().Keys))| + old(uncounted) <= uncounted
      ensures isolated ==> all == old(all) && uncounted == old(uncounted)
      ensures res.Ok? ==> DistinctKeys(res.value)
      ensures res.Ok? ==> forall r :: r in res.value <==> r.key in all && all[r.key] == r
    {
      Others();
      var fails: bool := *;
      if fails {
        calls := calls + [ListCall(Err)];
        return Err;
      }
      var todo := all.Keys;
      var l: seq<Record> := [];
      while todo != {}
        invariant todo <= all.Keys
        invariant DistinctKeys(l)
        invariant forall r :: r in l <==> r.key in all.Keys - todo && all[r.key] == r
        invariant forall i :: 0 <= i < |l| ==> l[i].key !in todo
        decreases |todo|
      {
        var k :| k in todo;
        forall i | 0 <= i < |l| ensures l[i].key != k {}
        l := l + [all[k]];
        todo := todo - {k};
      }
      res := Ok(l);
      calls := calls + [ListCall(res)];
    }

    /** Deletes one item. A snapshot is only marked removed until the next purge. */
    method Delete(key: string) returns (ok: bool)
      requires Valid()
      modifies this
      ensures Valid() && calls == old(calls) + [DeleteCall(key, ok)]
      ensures |New(all, job, old(Live().Keys))| + old(uncounted) <= uncounted
      ensures ok ==> key !in Live()
      ensures isolated ==> all == (if ok then Deleted(old(all), key) else old(all)) && uncounted == old(uncounted)
    {
      Others();
      ok := *;
      var takesEffect: bool := *;
      if ok || (takesEffect && !isolated) {
        DeletedLive(all, job, key);
        FewerNew(all, job, key, old(Live().Keys));
        all := Deleted(all, key);
      }
      calls := calls + [DeleteCall(key, ok)];
    }

    /** Drops the snapshots that are marked removed. */
    method Purge() returns (ok: bool)
      requires Valid()
      modifies this
      ensures Valid() && calls == old(calls) + [PurgeCall(ok)] && (ok ==> NoneMarked(all))
      ensures |New(all, job, old(Live().Keys))| + old(uncounted) <= uncounted
      ensures isolated ==> all == if ok then Purged(old(all)) else old(all)
      ensures isolated ==> Live() == old(Live()) && uncounted == old(uncounted) && all.Keys <= old(all.Keys)
    {
      Others();
      ok := *;
      if ok {
        PurgedLive(all, job);
        all := Purged(all);
      }
      calls := calls + [PurgeCall(ok)];
    }
  }

  /** The part of a listing that a filter keeps, in order. */
  function Filtered(job: Job, l: seq<Record>): seq<Record> {
    if l == [] then []
    else
      var n := |l| - 1;
      Filtered(job, l[..n]) + (if Visible(job, l[n]) then [l[n]] else [])
  }

  lemma {:induction false} FilteredKeeps(job: Job, l: seq<Record>)
    ensures forall r :: r in Filtered(job, l) <==> r in l && Visible(job, r)
    ensures DistinctKeys(l) ==> DistinctKeys(Filtered(job, l))
  {
    if l != [] {
      var n := |l| - 1;
      FilteredKeeps(job, l[..n]);
      var f := Filtered(job, l[..n]);
      assert l == l[..n] + [l[n]];
      if DistinctKeys(l) {
        forall i | 0 <= i < |f| ensures f[i].key != l[n].key {
          assert f[i] in l[..n];
        }
      }
    }
  }

  /** Sorting by creation timestamp. Nothing is promised about ties. */
  method SortByCreated(ss: seq<Record>) returns (r: seq<Record>)
    ensures OldestFirst(r)
    ensures forall x :: x in r <==> x in ss
    ensures DistinctKeys(ss) ==> DistinctKeys(r)
  {
    r := [];
    for n := 0 to |ss|
      invariant OldestFirst(r)
      invariant forall x :: x in r <==> x in ss[..n]
      invariant DistinctKeys(ss) ==> DistinctKeys(r)
    {
      r := Insert(r, ss[n]);
      assert ss[..n + 1] == ss[..n] + [ss[n]];
    }
    assert ss[..|ss|] == ss;
  }

  method Insert(s: seq<Record>, x: Record) returns (r: seq<Record>)
    requires OldestFirst(s)
    ensures OldestFirst(r)
    ensures forall y :: y in r <==> y in s || y == x
    ensures DistinctKeys(s) && (forall y :: y in s ==> y.key != x.key) ==> DistinctKeys(r)
  {
    var i := 0;
    while i < |s| && !LexLess(x.created, s[i].created)
      invariant 0 <= i <= |s|
      invariant forall j :: 0 <= j < i ==> !LexLess(x.created, s[j].created)
    {
      i := i + 1;
    }
    forall j | i <= j < |s| ensures !LexLess(s[j].created, x.created) {
      LexTotal(x.created, s[i].created);
      LexTotal(s[i].created, s[i].created);
      LexTransitive(x.created, s[i].created, s[j].created);
    }
    r := s[..i] + [x] + s[i..];
    InsertedKeepsOrder(s, i, x);
  }

  lemma InsertedKeepsOrder(s: seq<Record>, i: nat, x: Record)
    requires OldestFirst(s) && i <= |s|
    requires forall j :: 0 <= j < i ==> !LexLess(x.created, s[j].created)
    requires forall j :: i <= j < |s| ==> !LexLess(s[j].created, x.created)
    ensures OldestFirst(s[..i] + [x] + s[i..])
  {
    var r := s[..i] + [x] + s[i..];
    forall j | 0 <= j < |r| ensures r[j] == if j < i then s[j] else if j == i then x else s[j - 1] {
    }
  }

  /** Listing, filtering and sorting, as every cleanup does it. */
  ghost predicate IsListing(live: Live, ss: seq<Record>) {
    && DistinctKeys(ss) && OldestFirst(ss)
    && (forall r :: r in ss ==> r.key in live && live[r.key] == r.created)
    && live.Keys <= Keys(ss)
  }

  lemma FilteredListing(all: map<string, Record>, job: Job, l: seq<Record>, ss: seq<Record>)
    requires forall r :: r in l <==> r.key in all && all[r.key] == r
    requires forall k :: k in all ==> all[k].key == k
    requires DistinctKeys(l) && DistinctKeys(ss) && OldestFirst(ss)
    requires forall r :: r in ss <==> r in Filtered(job, l)
    ensures IsListing(LiveOf(all, job), ss)
  {
    FilteredKeeps(job, l);
    var live := LiveOf(all, job);
    forall k | k in live ensures k in Keys(ss) {
      assert all[k] in ss;
      var i :| 0 <= i < |ss| && ss[i] == all[k];
    }
  }

  /** What a cleanup keeps when nothing overlaps it: an exact cache, and only the oldest gone. */
  ghost predicate TracksNewest(before: Live, live: Live, c: Cache, retain: nat) {
    Exact(live, c) && KeepsNewest(before, live, retain)
  }

  lemma RetainedBound(live: Live, c: Cache, uncounted: nat)
    requires Accounted(live, c, uncounted) && c.cached.Some?
    ensures |live| <= c.count + uncounted
  {
    SubsetSize(live.Keys, live.Keys + Keys(c.cached.value));
    assert |live| == |live.Keys|;
  }

  lemma PrunedWhenDone(before: Live, live: Live, c: Cache, retain: nat)
    requires TracksNewest(before, live, c, retain) && c.cached.Some? && c.count <= retain && retain > 0
    ensures Prunes(before, live, retain)
  {
    SubmapSize(live, before);
  }

  /** All the bookkeeping of one deletion. */
  lemma BooksAfterDelete(
      before: Live, live: Live, live': Live, c: Cache, c': Cache, n: nat, n': nat, retain: nat, exact: bool)
    requires Accounted(live, c, n) && c.cached.Some? && c.cached.value != [] && 0 < retain < c.count
    requires c.cached.value[0].key !in live'
    requires |live'.Keys - live.Keys| + n <= n'
    requires c' == Cache(c.count - 1, Some(c.cached.value[1..]))
    requires exact ==> TracksNewest(before, live, c, retain) && live' == live - {c.cached.value[0].key}
    ensures Accounted(live', c', n')
    ensures exact ==> TracksNewest(before, live', c', retain)
  {
    AccountedAfterDelete(live, live', c, n, n');
    if exact {
      ExactAfterDelete(before, live, live', c, retain);
    }
  }

  /** The cache after the deletion of its first entry. */
  function Tail(c: Cache): Cache
    requires c.cached.Some? && c.cached.value != []
  {
    Cache(c.count - 1, Some(c.cached.value[1..]))
  }

  /** The same, whether or not the deletion succeeds. */
  lemma BooksAfterTry(
      before: Live, live: Live, live': Live, c: Cache, n: nat, n': nat, retain: nat, exact: bool, ok: bool)
    requires Accounted(live, c, n) && c.cached.Some? && c.cached.value != [] && 0 < retain < c.count
    requires |live'.Keys - live.Keys| + n <= n' && (ok ==> c.cached.value[0].key !in live')
    requires exact ==> TracksNewest(before, live, c, retain)
    requires exact ==> live' == if ok then live - {c.cached.value[0].key} else live
    ensures Accounted(live', if ok then Tail(c) else c, n')
    ensures exact ==> TracksNewest(before, live', if ok then Tail(c) else c, retain)
  {
    if ok {
      BooksAfterDelete(before, live, live', c, Tail(c), n, n', retain, exact);
    } else {
      AccountedAfterDrift(live, live', c, n, n');
    }
  }

  /** A task's `count` and `cached` with the code that works on them. The source spells this
      out three times: for snapshots, for backups, and for the snapshots behind backups. */
  class JobCache {
    const retain: nat
    const ops: Remote
    var count: int
    var cached: Option<seq<Record>>

    constructor (retain: nat, ops: Remote)
      requires ops.Valid()
      ensures this.retain == retain && this.ops == ops
      ensures State() == Cache(0, None) && Valid()
    {
      this.retain := retain;
      this.ops := ops;
      count := 0;
      cached := None;
    }

    ghost function State(): Cache
      reads this
    {
      Cache(count, cached)
    }

    ghost predicate Valid()
      reads this, ops
    {
      ops.Valid() && Accounted(ops.Live(), State(), ops.uncounted)
    }

    /** Nothing overlaps, and the cache will be exact once the run's own item is counted. */
    ghost predicate ReadyToCount()
      reads this, ops
    {
      if retain > 0 && ops.isolated then Exact(ops.Live(), Counted(State())) else false
    }

    /** Nothing overlaps, the cache is exact and `r` is not older than anything live. */
    ghost predicate ReadyFor(r: Record)
      reads this, ops
    {
      if retain > 0 && ops.isolated then ExactAndOlder(ops.Live(), State(), r) else false
    }

    /** The cache is exact and only the oldest are gone; after a success exactly Retain are left. */
    ghost predicate Pruned(before: Live, ok: bool)
      reads this, ops
    {
      TracksNewest(before, ops.Live(), State(), retain) && (ok ==> Prunes(before, ops.Live(), retain))
    }

    /** In a cleanup that nothing overlaps the cache is exact, only the oldest are gone, and what
        the job does not see is left alone. */
    ghost predicate Tracks(start: map<string, Record>, exact: bool)
      reads this, ops
    {
      Booked(State(), start, exact)
    }

    ghost predicate Booked(c: Cache, start: map<string, Record>, exact: bool)
      reads ops
    {
      if exact
      then
        && ops.isolated && TracksNewest(LiveOf(start, ops.job), ops.Live(), c, retain)
        && Spares(ops.job, start, ops.all)
      else true
    }

    /** A cleanup from cache `c`: its calls are those of the plan, it succeeds if and only if every
        one of them does, and the cache is what the answers make of it. */
    ghost predicate CleanedUp(c: Cache, l: Listing, t: seq<RemoteCall>, purge: bool, ok: bool)
      reads this
    {
      IsSorted(ops.job, l) && Ends(Counted(c), State(), l, retain, purge, t, ok)
    }

    method Filter(l: seq<Record>) returns (r: seq<Record>)
      ensures r == Filtered(ops.job, l)
    {
      r := [];
      for i := 0 to |l|
        invariant r == Filtered(ops.job, l[..i])
      {
        assert l[..i + 1][..i] == l[..i];
        if Visible(ops.job, l[i]) {
          r := r + [l[i]];
        }
      }
      assert l[..|l|] == l;
    }

    method ListItems() returns (res: Result<seq<Record>>, ghost l: Listing)
      requires ops.Valid()
      modifies ops
      ensures ops.Valid() && IsSorted(ops.job, l) && (res.Ok? ==> res.value == l.items)
      ensures ops.calls == old(ops.calls) + [ListCall(if res.Ok? then Ok(l.answer) else Err)]
      ensures |ops.Live().Keys - old(ops.Live().Keys)| + old(ops.uncounted) <= ops.uncounted
      ensures ops.isolated ==> ops.all == old(ops.all) && ops.uncounted == old(ops.uncounted)
      ensures res.Ok? ==> IsListing(ops.Live(), res.value)
    {
      l := Listing([], []);
      var answer := ops.List();
      if answer.Err? {
        return Err, l;
      }
      var ss := Filter(answer.value);
      FilteredKeeps(ops.job, answer.value);
      ss := SortByCreated(ss);
      FilteredListing(ops.all, ops.job, answer.value, ss);
      res, l := Ok(ss), Listing(answer.value, ss);
    }

    /** The listing of an outer iteration: afterwards `count` is the cache's length.
        `start` and `exact` describe the cleanup it is part of. */
    method Refill(ghost start: map<string, Record>, ghost exact: bool) returns (ok: bool, ghost l: Listing)
      requires Valid() && retain > 0
      requires Tracks(start, exact)
      modifies this, ops
      ensures Valid() && IsSorted(ops.job, l)
      ensures ops.calls == old(ops.calls) + [ListCall(if ok then Ok(l.answer) else Err)]
      ensures State() == if ok then Cache(|l.items|, Some(l.items)) else old(State())
      ensures ops.isolated ==> ops.all.Keys <= old(ops.all.Keys) && ops.uncounted == old(ops.uncounted)
      ensures Tracks(start, exact)
    {
      ghost var live, uncounted := ops.Live(), ops.uncounted;
      var res;
      res, l := ListItems();
      ok := res.Ok?;
      if ok {
        FreshListing(ops.Live(), res.value, ops.uncounted);
        cached := Some(res.value);
        count := |res.value|;
      } else {
        AccountedAfterDrift(live, ops.Live(), State(), uncounted, ops.uncounted);
      }
    }

    /** The remote part of a deletion: what the books say if the cache then drops its first entry. */
    method TryDelete(ghost start: map<string, Record>, ghost exact: bool) returns (ok: bool)
      requires Valid() && cached.Some? && cached.value != [] && 0 < retain < count && Tracks(start, exact)
      modifies ops
      ensures ops.Valid() && ops.calls == old(ops.calls) + [DeleteCall(cached.value[0].key, ok)]
      ensures Accounted(ops.Live(), if ok then Tail(State()) else State(), ops.uncounted)
      ensures Booked(if ok then Tail(State()) else State(), start, exact)
      ensures ops.isolated ==> ops.all.Keys <= old(ops.all.Keys) && ops.uncounted == old(ops.uncounted)
    {
      ghost var all, live, n := ops.all, ops.Live(), ops.uncounted;
      var key := cached.value[0].key;
      ok := ops.Delete(key);
      DeletedLive(all, ops.job, key);
      BooksAfterTry(LiveOf(start, ops.job), live, ops.Live(), State(), n, ops.uncounted, retain, exact, ok);
      if exact && ok {
        assert cached.value[0] in cached.value;
        DeleteSpares(ops.job, start, all, key);
      }
    }

    /** One deletion of the inner loop: the oldest cached item, then the books. */
    method DeleteOldest(ghost start: map<string, Record>, ghost exact: bool) returns (ok: bool)
      requires Valid() && cached.Some? && cached.value != [] && 0 < retain < count && Tracks(start, exact)
      modifies this, ops
      ensures Valid() && Tracks(start, exact)
      ensures ops.calls == old(ops.calls) + [DeleteCall(old(cached).value[0].key, ok)]
      ensures ops.isolated ==> ops.all.Keys <= old(ops.all.Keys) && ops.uncounted == old(ops.uncounted)
      ensures State() == if ok then Tail(old(State())) else old(State())
    {
      ghost var next := Tail(State());
      ok := TryDelete(start, exact);
      if ok {
        cached, count := Some(cached.value[1..]), count - 1;
        assert State() == next;
      }
    }

    /** The inner loop: delete while more than Retain are counted and the cache lasts. */
    method DeleteExcess(ghost start: map<string, Record>, ghost exact: bool, ghost items: seq<Record>)
      returns (ok: bool, ghost t: seq<RemoteCall>)
      requires Valid() && cached.Some? && retain > 0 && Tracks(start, exact)
      modifies this, ops
      ensures Valid() && Tracks(start, exact) && ops.calls == old(ops.calls) + t
      ensures ops.isolated ==> ops.all.Keys <= old(ops.all.Keys) && ops.uncounted == old(ops.uncounted)
      ensures DeletedExcess(old(State()), State(), items, retain, false, t, ok)
    {
      ghost var c, i := State(), 0;
      t := [];
      while count > retain && |cached.value| > 0
        invariant Valid() && Tracks(start, exact) && ops.calls == old(ops.calls) + t
        invariant ops.isolated ==> ops.all.Keys <= old(ops.all.Keys) && ops.uncounted == old(ops.uncounted)
        invariant DeletedFirst(c, State(), items, i, t) && i <= Excess(c.count, |Listed(c)|, retain)
        decreases |cached.value|
      {
        ghost var c1 := State();
        ok := DeleteOldest(start, exact);
        DeletedNext(c, c1, items, retain, i, t, ok);
        Appended(old(ops.calls), t, [DeleteCall(c.cached.value[i].key, ok)]);
        t := t + [DeleteCall(c.cached.value[i].key, ok)];
        if !ok {
          return;
        }
        i := i + 1;
      }
      DeletedDone(c, State(), items, retain, i, t);
      ok := true;
    }

    method Purge(ghost start: map<string, Record>, ghost exact: bool) returns (ok: bool)
      requires Valid() && retain > 0
      requires Tracks(start, exact)
      modifies ops
      ensures Valid() && Tracks(start, exact) && (ok ==> NoneMarked(ops.all))
      ensures ops.calls == old(ops.calls) + [PurgeCall(ok)]
      ensures ops.isolated ==> ops.all.Keys <= old(ops.all.Keys) && ops.uncounted == old(ops.uncounted)
    {
      ghost var all, live, uncounted := ops.all, ops.Live(), ops.uncounted;
      ok := ops.Purge();
      AccountedAfterDrift(live, ops.Live(), State(), uncounted, ops.uncounted);
      if exact {
        PurgeSpares(ops.job, start, all);
      }
    }

    /** A round over what is cached. */
    method DeleteAndPurge(ghost start: map<string, Record>, ghost exact: bool, purge: bool, ghost items: seq<Record>)
      returns (ok: bool, ghost t: seq<RemoteCall>)
      requires Valid() && cached.Some? && retain > 0 && Tracks(start, exact)
      modifies this, ops
      ensures Valid() && Tracks(start, exact) && ops.calls == old(ops.calls) + t
      ensures ops.isolated ==> ops.all.Keys <= old(ops.all.Keys) && ops.uncounted == old(ops.uncounted)
      ensures DeletedExcess(old(State()), State(), items, retain, purge, t, ok)
      ensures ok && purge ==> NoneMarked(ops.all)
    {
      ghost var c, before := State(), ops.calls;
      ok, t := DeleteExcess(start, exact, items);
      if !ok {
        NotPurged(c, State(), items, retain, purge, t);
      } else if purge {
        ok, t := PurgeAfter(start, exact, c, items, before, t);
      }
    }

    /** The purge that completes a round, which began with cache `c` and made the calls `deletions`. */
    method PurgeAfter(
        ghost start: map<string, Record>, ghost exact: bool, ghost c: Cache, ghost items: seq<Record>,
        ghost before: seq<RemoteCall>, ghost deletions: seq<RemoteCall>)
      returns (ok: bool, ghost t: seq<RemoteCall>)
      requires Valid() && retain > 0 && Tracks(start, exact) && ops.calls == before + deletions
      requires DeletedExcess(c, State(), items, retain, false, deletions, true)
      modifies ops
      ensures Valid() && Tracks(start, exact) && ops.calls == before + t
      ensures ops.isolated ==> ops.all.Keys <= old(ops.all.Keys) && ops.uncounted == old(ops.uncounted)
      ensures DeletedExcess(c, State(), items, retain, true, t, ok)
      ensures ok ==> NoneMarked(ops.all)
    {
      ok := Purge(start, exact);
      DeletedPurged(c, State(), items, retain, deletions, ok);
      Appended(before, deletions, [PurgeCall(ok)]);
      t := deletions + [PurgeCall(ok)];
    }

    /** A round over what a new listing says. */
    method ListAndPurge(ghost start: map<string, Record>, ghost exact: bool, purge: bool)
      returns (ok: bool, ghost l: Listing, ghost t: seq<RemoteCall>)
      requires Valid() && retain > 0 && Listed(State()) == [] && Tracks(start, exact)
      modifies this, ops
      ensures Valid() && Tracks(start, exact) && ops.calls == old(ops.calls) + t
      ensures ops.isolated ==> ops.all.Keys <= old(ops.all.Keys) && ops.uncounted == old(ops.uncounted)
      ensures IsSorted(ops.job, l) && RoundMade(old(State()), State(), l, retain, purge, t, ok)
      ensures ok && purge ==> NoneMarked(ops.all)
    {
      ghost var c := State();
      ok, l := Refill(start, exact);
      if !ok {
        ListRefused(c, l, retain, purge);
        return false, l, [ListCall(Err)];
      }
      ok, t := DeleteAndPurge(start, exact, purge, l.items);
      ListGranted(c, State(), l, retain, purge, t, ok);
      Appended(old(ops.calls), [ListCall(Ok(l.answer))], t);
      t := [ListCall(Ok(l.answer))] + t;
    }

    /** One turn of the outer loop. */
    method OneRound(ghost start: map<string, Record>, ghost exact: bool, purge: bool)
      returns (ok: bool, ghost l: Listing, ghost t: seq<RemoteCall>)
      requires Valid() && retain > 0 && Unfinished(State(), retain) && Tracks(start, exact)
      modifies this, ops
      ensures Valid() && Tracks(start, exact) && ops.calls == old(ops.calls) + t
      ensures ops.isolated ==> ops.all.Keys <= old(ops.all.Keys) && ops.uncounted == old(ops.uncounted)
      ensures IsSorted(ops.job, l) && RoundMade(old(State()), State(), l, retain, purge, t, ok)
      ensures ok && purge ==> NoneMarked(ops.all)
    {
      if cached == None || cached.value == [] {
        ok, l, t := ListAndPurge(start, exact, purge);
      } else {
        l := Listing([], []);
        ok, t := DeleteAndPurge(start, exact, purge, []);
      }
    }

    // ---- histories ----

    /** Nothing overlaps, and the cache is exact, as that of a new task always is. */
    ghost predicate HistoryStarts(items: seq<Record>, granted: seq<bool>)
      reads this, ops
    {
      && retain > 0 && ops.isolated && Exact(ops.Live(), State())
      && |granted| == |items| && InOrder(ops.Live(), items)
      && forall r :: r in items ==> Visible(ops.job, r) && r.key !in ops.all
    }

    /** `count` is the number of live items and `cached` an oldest-first prefix of them. The
        survivors are a newest part of everything there was or was created, and whenever no more
        than Retain are counted, as after a successful cleanup, exactly the newest Retain. */
    ghost predicate HistoryHolds(start: Live, items: seq<Record>, granted: seq<bool>)
      requires |granted| == |items|
      reads this, ops
    {
      && Exact(ops.Live(), State())
      && KeepsNewest(CreatedBy(start, items, granted), ops.Live(), retain)
      && (cached.Some? && count <= retain ==> Prunes(CreatedBy(start, items, granted), ops.Live(), retain))
    }

    /** One more item, created and cleaned up after. */
    lemma HistoryGoesOn(start: Live, items: seq<Record>, granted: seq<bool>, i: nat, live: Live, ok: bool)
      requires i < |items| == |granted| && granted[i] && InOrder(start, items) && retain > 0
      requires KeepsNewest(CreatedBy(start, items[..i], granted[..i]), live, retain)
      requires Pruned(live[items[i].key := items[i].created], ok)
      ensures HistoryHolds(start, items[..i + 1], granted[..i + 1])
    {
      var history, x := CreatedBy(start, items[..i], granted[..i]), items[i];
      NextCreated(start, items, granted, i, live);
      IncrementalPruning(history, live, ops.Live(), x.key, x.created, retain);
      if cached.Some? && count <= retain {
        PrunedWhenDone(CreatedBy(start, items[..i + 1], granted[..i + 1]), ops.Live(), State(), retain);
      }
    }

    /** A whole history of items, each created, if that is granted, and cleaned up after; cleanups
        may fail. This is what snapshots, backups and backup snapshots of a job go through. If no
        call of a cleanup fails, exactly the newest Retain are left as soon as one was created. */
    method RunHistory(items: seq<Record>, granted: seq<bool>, purge: bool)
      returns (lastOk: bool, ghost t: seq<RemoteCall>)
      requires Valid() && HistoryStarts(items, granted)
      modifies this, ops
      ensures Valid() && ops.calls == old(ops.calls) + t
      ensures HistoryHolds(old(ops.Live()), items, granted)
      ensures lastOk ==> cached.Some? && count <= retain
      ensures CleanupsGranted(t) && true in granted ==>
        lastOk && Prunes(CreatedBy(old(ops.Live()), items, granted), ops.Live(), retain)
    {
      ghost var start, names := ops.Live(), ops.all.Keys;
      lastOk, t := false, [];
      for i := 0 to |items|
        invariant Valid() && ops.all.Keys <= names + Keys(items[..i]) && ops.calls == old(ops.calls) + t
        invariant HistoryHolds(start, items[..i], granted[..i])
        invariant lastOk ==> cached.Some? && count <= retain
        invariant CleanupsGranted(t) && true in granted[..i] ==> lastOk
      {
        var created, ok;
        ghost var more;
        created, ok, more := NextInHistory(items, granted, i, purge, start, names);
        GrantedMore(t, more);
        OneMoreGranted(granted, i);
        Appended(old(ops.calls), t, more);
        lastOk, t := if created then ok else lastOk, t + more;
      }
      assert items[..|items|] == items && granted[..|granted|] == granted;
    }

    method NextInHistory(
        items: seq<Record>, granted: seq<bool>, i: nat, purge: bool, ghost start: Live, ghost names: set<string>)
      returns (created: bool, ok: bool, ghost t: seq<RemoteCall>)
      requires Valid() && retain > 0 && ops.isolated && i < |items| == |granted| && InOrder(start, items)
      requires forall r :: r in items ==> Visible(ops.job, r) && r.key !in names
      requires ops.all.Keys <= names + Keys(items[..i]) && HistoryHolds(start, items[..i], granted[..i])
      modifies this, ops
      ensures Valid() && ops.all.Keys <= names + Keys(items[..i + 1]) && ops.calls == old(ops.calls) + t
      ensures HistoryHolds(start, items[..i + 1], granted[..i + 1])
      ensures (created <==> granted[i]) && (created ==> (ok <==> CleanupsGranted(t)))
      ensures created ==> (ok ==> cached.Some? && count <= retain)
      ensures !created ==> State() == old(State())
    {
      ghost var live := ops.Live();
      NextCreated(start, items, granted, i, live);
      assert items[i] in items;
      created, ok, t := CreateAndCleanUp(items[i], granted[i], purge);
      if created {
        HistoryGoesOn(start, items, granted, i, live, ok);
      }
    }

    method CreateAndCleanUp(item: Record, granted: bool, purge: bool)
      returns (created: bool, ok: bool, ghost t: seq<RemoteCall>)
      requires Valid() && Visible(ops.job, item) && retain > 0
      modifies this, ops
      ensures Valid() && ops.calls == old(ops.calls) + t && t != [] && t[0] == CreateCall(item.key, created)
      ensures created ==> (ok <==> CleanupsGranted(t))
      ensures created <==> granted && item.key !in old(ops.all)
      ensures ops.isolated ==> ops.all.Keys <= old(ops.all.Keys) + {item.key}
      ensures !created ==> !ok && State() == old(State()) && ops.Live() == old(ops.Live())
      ensures ok ==> cached.Some? && count <= retain
      ensures created && old(ReadyFor(item)) ==> Pruned(old(ops.Live())[item.key := item.created], ok)
    {
      created := CreateItem(item, granted);
      ok, t := false, [CreateCall(item.key, created)];
      if created {
        var rounds;
        ghost var l, more;
        ok, rounds, l, more := Cleanup(purge);
        NoCreation(Counted(old(State())), l, retain, purge, more, ok);
        Appended(old(ops.calls), t, more);
        GrantedAfterCreate(item.key, more, ok);
        t := t + more;
      }
    }

    /** The creation that a run begins with, and what it means for the cache. */
    method CreateItem(item: Record, granted: bool) returns (created: bool)
      requires Valid() && Visible(ops.job, item)
      modifies ops
      ensures Valid() && (created <==> granted && item.key !in old(ops.all))
      ensures ops.calls == old(ops.calls) + [CreateCall(item.key, created)]
      ensures ops.all.Keys <= old(ops.all.Keys) + {item.key}
      ensures !created ==> ops.Live() == old(ops.Live())
      ensures created ==> ops.Live() == old(ops.Live())[item.key := item.created] && ops.uncounted > 0
      ensures created && old(ReadyFor(item)) ==> ReadyToCount()
    {
      ghost var live, n, c := ops.Live(), ops.uncounted, State();
      created := ops.Create(item, granted);
      if created {
        BooksAfterCreate(live, c, item, n);
      }
    }

    /** One cleanup under the lock, by a run that has created its item and not counted it
        yet. `rounds` counts the outer iterations, `t` are the remote calls, and `l` is what was
        listed. */
    method Cleanup(purge: bool) returns (ok: bool, rounds: nat, ghost l: Listing, ghost t: seq<RemoteCall>)
      requires Valid() && ops.uncounted > 0 && retain > 0
      modifies this, ops
      ensures Valid() && rounds <= 2 && ops.calls == old(ops.calls) + t && ListsOnce(t)
      ensures CleanedUp(old(State()), l, t, purge, ok)
      ensures ok ==> cached.Some? && count <= retain
      ensures ops.isolated ==> ops.all.Keys <= old(ops.all.Keys) && ops.uncounted == old(ops.uncounted) - 1
      ensures ok && purge && t != [] ==> NoneMarked(ops.all)
      // what is left of the job's items, whatever the other runs did meanwhile
      ensures ok ==> |ops.Live()| <= retain + ops.uncounted
      // exactness, when nothing overlaps
      ensures old(ReadyToCount()) ==> Pruned(old(ops.Live()), ok) && Spares(ops.job, old(ops.all), ops.all)
    {
      ghost var start, c := ops.all, Counted(State());
      ghost var exact := ops.isolated && Exact(ops.Live(), c);
      count := count + 1;
      ops.uncounted := ops.uncounted - 1;
      assert State() == c;
      ok, rounds, l, t := Rounds(purge, start, exact);
      FollowsOnce(c, l, retain, purge, t, ok);
      if ok {
        RetainedBound(ops.Live(), State(), ops.uncounted);
      }
      if ok && exact {
        PrunedWhenDone(LiveOf(start, ops.job), ops.Live(), State(), retain);
      }
    }

    /** The outer loop. */
    method Rounds(purge: bool, ghost start: map<string, Record>, ghost exact: bool)
      returns (ok: bool, rounds: nat, ghost l: Listing, ghost t: seq<RemoteCall>)
      requires Valid() && retain > 0 && Tracks(start, exact)
      modifies this, ops
      ensures Valid() && rounds <= 2 && Tracks(start, exact) && ops.calls == old(ops.calls) + t
      ensures IsSorted(ops.job, l) && Ends(old(State()), State(), l, retain, purge, t, ok)
      ensures ok ==> cached.Some? && count <= retain
      ensures ops.isolated ==> ops.all.Keys <= old(ops.all.Keys) && ops.uncounted == old(ops.uncounted)
      ensures ok && purge && t != [] ==> NoneMarked(ops.all)
    {
      rounds, l, t := 0, Listing([], []), [];
      ghost var c := State();
      while cached == None || count > retain
        invariant Valid() && Tracks(start, exact) && ops.calls == old(ops.calls) + t
        invariant ops.isolated ==> ops.all.Keys <= old(ops.all.Keys) && ops.uncounted == old(ops.uncounted)
        invariant IsSorted(ops.job, l) && Progress(c, State(), l, retain, purge, t, rounds)
        invariant rounds > 0 && purge ==> NoneMarked(ops.all)
        decreases 2 - rounds
      {
        ghost var c1 := State();
        ghost var l', more;
        ok, l', more := OneRound(start, exact, purge);
        Appended(old(ops.calls), t, more);
        RoundProgress(c, c1, State(), l, l', retain, purge, t, more, rounds, ok);
        l, t := l', t + more;
        if !ok {
          return;
        }
        rounds := rounds + 1;
      }
      ok := true;
      ProgressDone(c, State(), l, retain, purge, t, rounds);
    }
  }

  /** A recurring snapshot job. Retain 0 switches its cleanup off. */
  class SnapshotTask {
    const cache: JobCache

    constructor (name: string, retain: nat, ops: Remote)
      requires ops.Valid() && ops.job == SnapshotJob(name)
      ensures Valid() && cache.ops == ops && cache.retain == retain
      ensures cache.State() == Cache(0, None) && fresh(cache)
    {
      cache := new JobCache(retain, ops);
    }

    ghost predicate Valid()
      reads this, cache, cache.ops
    {
      cache.Valid() && cache.ops.job.SnapshotJob?
    }

    method Cleanup() returns (ok: bool, ghost l: Listing, ghost t: seq<RemoteCall>)
      requires Valid() && cache.ops.uncounted > 0
      modifies cache, cache.ops
      ensures Valid() && cache.ops.calls == old(cache.ops.calls) + t
      ensures cache.ops.isolated ==> cache.ops.all.Keys <= old(cache.ops.all.Keys)
      ensures if cache.retain == 0 then ok && t == [] && cache.State() == old(cache.State())
              else cache.CleanedUp(old(cache.State()), l, t, true, ok)
      ensures cache.retain == 0 ==> cache.ops.Live() == old(cache.ops.Live())
      ensures ok && cache.retain > 0 ==> cache.cached.Some? && cache.count <= cache.retain
      ensures ok && cache.retain > 0 ==> |cache.ops.Live()| <= cache.retain + cache.ops.uncounted
      ensures old(cache.ReadyToCount()) ==>
        cache.Pruned(old(cache.ops.Live()), ok) && Spares(cache.ops.job, old(cache.ops.all), cache.ops.all)
    {
      l, t := Listing([], []), [];
      if cache.retain == 0 {
        return true, l, t;
      }
      var rounds;
      ok, rounds, l, t := cache.Cleanup(true);
    }

    /** One tick of the job: create a snapshot named and labelled for the job, if the engine grants
        it, then clean up. It succeeds if and only if every call does. */
    method Run(snapshot: Record, granted: bool)
      returns (created: bool, ok: bool, ghost l: Listing, ghost t: seq<RemoteCall>)
      requires Valid() && Visible(cache.ops.job, snapshot)
      modifies cache, cache.ops
      ensures Valid() && cache.ops.calls == old(cache.ops.calls) + [CreateCall(snapshot.key, created)] + t
      ensures created <==> granted && snapshot.key !in old(cache.ops.all)
      ensures cache.ops.isolated ==> cache.ops.all.Keys <= old(cache.ops.all.Keys) + {snapshot.key}
      ensures created && cache.retain > 0 ==> cache.CleanedUp(old(cache.State()), l, t, true, ok)
      ensures created && cache.retain == 0 ==>
        && ok && t == [] && cache.State() == old(cache.State())
        && cache.ops.Live() == old(cache.ops.Live())[snapshot.key := snapshot.created]
      ensures !created ==>
        !ok && t == [] && cache.State() == old(cache.State()) && cache.ops.Live() == old(cache.ops.Live())
      ensures ok && cache.retain > 0 ==> cache.cached.Some? && cache.count <= cache.retain
      ensures ok && cache.retain > 0 ==> |cache.ops.Live()| <= cache.retain + cache.ops.uncounted
      // a run that overlaps nothing is one step of a sequential history
      ensures created && old(cache.ReadyFor(snapshot)) ==>
        cache.Pruned(old(cache.ops.Live())[snapshot.key := snapshot.created], ok)
    {
      created := cache.CreateItem(snapshot, granted);
      if !created {
        return false, false, Listing([], []), [];
      }
      ok, l, t := Cleanup();
    }

    /** A whole history of runs of a task. It may start over snapshots that are there already, as
        it does after every attach and every change of the schedule. */
    method RunHistory(snapshots: seq<Record>, granted: seq<bool>) returns (lastOk: bool, ghost t: seq<RemoteCall>)
      requires Valid() && cache.HistoryStarts(snapshots, granted)
      modifies cache, cache.ops
      ensures Valid() && cache.ops.calls == old(cache.ops.calls) + t
      ensures cache.HistoryHolds(old(cache.ops.Live()), snapshots, granted)
      ensures lastOk ==> cache.cached.Some? && cache.count <= cache.retain
      ensures CleanupsGranted(t) && true in granted ==>
        lastOk && Prunes(CreatedBy(old(cache.ops.Live()), snapshots, granted), cache.ops.Live(), cache.retain)
    {
      ghost var start, names := cache.ops.Live(), cache.ops.all.Keys;
      lastOk, t := false, [];
      for i := 0 to |snapshots|
        invariant Valid() && cache.HistoryHolds(start, snapshots[..i], granted[..i])
        invariant cache.ops.all.Keys <= names + Keys(snapshots[..i]) && cache.ops.calls == old(cache.ops.calls) + t
        invariant lastOk ==> cache.cached.Some? && cache.count <= cache.retain
        invariant CleanupsGranted(t) && true in granted[..i] ==> lastOk
      {
        var created, ok;
        ghost var more;
        created, ok, more := RunNext(snapshots, granted, i, start, names);
        GrantedMore(t, more);
        OneMoreGranted(granted, i);
        Appended(old(cache.ops.calls), t, more);
        lastOk, t := if created then ok else lastOk, t + more;
      }
      assert snapshots[..|snapshots|] == snapshots && granted[..|granted|] == granted;
    }

    method RunNext(
        snapshots: seq<Record>, granted: seq<bool>, i: nat, ghost start: Live, ghost names: set<string>)
      returns (created: bool, ok: bool, ghost t: seq<RemoteCall>)
      requires Valid() && cache.retain > 0 && cache.ops.isolated
      requires i < |snapshots| == |granted| && InOrder(start, snapshots)
      requires forall r :: r in snapshots ==> Visible(cache.ops.job, r) && r.key !in names
      requires cache.ops.all.Keys <= names + Keys(snapshots[..i])
      requires cache.HistoryHolds(start, snapshots[..i], granted[..i])
      modifies cache, cache.ops
      ensures Valid() && cache.ops.all.Keys <= names + Keys(snapshots[..i + 1])
      ensures cache.ops.calls == old(cache.ops.calls) + t
      ensures cache.HistoryHolds(start, snapshots[..i + 1], granted[..i + 1])
      ensures (created <==> granted[i]) && (created ==> (ok <==> CleanupsGranted(t)))
      ensures created ==> (ok ==> cache.cached.Some? && cache.count <= cache.retain)
      ensures !created ==> cache.State() == old(cache.State())
    {
      ghost var live, c := cache.ops.Live(), cache.State();
      NextCreated(start, snapshots, granted, i, live);
      assert snapshots[i] in snapshots;
      ghost var l, more;
      created, ok, l, more := Run(snapshots[i], granted[i]);
      t := [CreateCall(snapshots[i].key, created)] + more;
      Appended(old(cache.ops.calls), [CreateCall(snapshots[i].key, created)], more);
      if created {
        cache.HistoryGoesOn(start, snapshots, granted, i, live, ok);
        NoCreation(Counted(c), l, cache.retain, true, more, ok);
        GrantedAfterCreate(snapshots[i].key, more, ok);
      }
    }
  }

  /** Everything there was at the start or was created since, if the creations marked so are
      granted. */
  function CreatedBy(start: Live, items: seq<Record>, granted: seq<bool>): Live
    requires |granted| == |items|
  {
    if items == [] then start
    else
      var n := |items| - 1;
      var before := CreatedBy(start, items[..n], granted[..n]);
      if granted[n] then before[items[n].key := items[n].created] else before
  }

  lemma {:induction false} CreatedFrom(start: Live, items: seq<Record>, granted: seq<bool>, k: string)
    requires |granted| == |items| && k in CreatedBy(start, items, granted)
    ensures var created := CreatedBy(start, items, granted)[k];
      || (k in start && start[k] == created)
      || exists j :: 0 <= j < |items| && items[j].key == k && items[j].created == created
  {
    if items != [] {
      var n := |items| - 1;
      if !(granted[n] && k == items[n].key) {
        CreatedFrom(start, items[..n], granted[..n], k);
      }
    }
  }

  /** Fresh names, and timestamps that decrease neither among the items nor against the start. */
  ghost predicate InOrder(start: Live, items: seq<Record>) {
    && DistinctKeys(items) && OldestFirst(items)
    && forall r :: r in items ==> r.key !in start && NotOlder(r.created, start)
  }

  /** The next item is new, and no older than anything created or still live. */
  lemma NextCreated(start: Live, items: seq<Record>, granted: seq<bool>, i: nat, live: Live)
    requires i < |items| == |granted| && InOrder(start, items)
    requires NewestPart(CreatedBy(start, items[..i], granted[..i]), live)
    ensures var history, x := CreatedBy(start, items[..i], granted[..i]), items[i];
      && CreatedBy(start, items[..i + 1], granted[..i + 1]) ==
           (if granted[i] then history[x.key := x.created] else history)
      && x.key !in history && NotOlder(x.created, history) && NotOlder(x.created, live)
    ensures Keys(items[..i + 1]) == Keys(items[..i]) + {items[i].key}
    ensures items[i].key !in Keys(items[..i])
  {
    var history, x := CreatedBy(start, items[..i], granted[..i]), items[i];
    assert x in items && items[..i + 1][..i] == items[..i] && granted[..i + 1][..i] == granted[..i];
    forall k | k in history ensures k != x.key && !LexLess(x.created, history[k]) {
      CreatedFrom(start, items[..i], granted[..i], k);
    }
    assert items[..i + 1] == items[..i] + [x];
  }

  /** The cache is exact and `r` is not older than anything live. */
  ghost predicate ExactAndOlder(live: Live, c: Cache, r: Record) {
    Exact(live, c) && NotOlder(r.created, live)
  }

  lemma BooksAfterCreate(live: Live, c: Cache, r: Record, n: nat)
    requires Accounted(live, c, n) && r.key !in live
    ensures Accounted(live[r.key := r.created], c, n + 1)
    ensures ExactAndOlder(live, c, r) ==> Exact(live[r.key := r.created], Cache(c.count + 1, c.cached))
  {
    var live' := live[r.key := r.created];
    SubsetSize(live'.Keys - live.Keys, {r.key});
    AccountedAfterDrift(live, live', c, n, n + 1);
    if ExactAndOlder(live, c, r) {
      ExactAfterCreate(live, c, r.key, r.created);
    }
  }

  const RETAIN_BACKUP_SNAPSHOTS := 2

  /** A recurring backup job: one cache over the backups, one over their snapshots. */
  class BackupTask {
    const backups: JobCache
    const snapshots: JobCache

    constructor (name: string, retain: nat, store: Remote, engine: Remote)
      requires store.Valid() && store.job == BackupJob(name)
      requires engine.Valid() && engine.job == BackupSnapshotJob(name)
      ensures Valid() && backups.ops == store && snapshots.ops == engine && backups.retain == retain
      ensures backups.State() == snapshots.State() == Cache(0, None)
      ensures fresh(backups) && fresh(snapshots)
    {
      backups := new JobCache(retain, store);
      snapshots := new JobCache(RETAIN_BACKUP_SNAPSHOTS, engine);
    }

    ghost predicate Valid()
      reads this, backups, snapshots, backups.ops, snapshots.ops
    {
      && backups.Valid() && snapshots.Valid()
      && backups != snapshots && backups.ops != snapshots.ops
      && backups.ops.job.BackupJob? && snapshots.ops.job.BackupSnapshotJob?
      && snapshots.retain == RETAIN_BACKUP_SNAPSHOTS
    }

    method CleanupBackups() returns (ok: bool, ghost l: Listing, ghost t: seq<RemoteCall>)
      requires Valid() && backups.ops.uncounted > 0
      modifies backups, backups.ops
      ensures Valid() && backups.ops.calls == old(backups.ops.calls) + t
      ensures backups.retain == 0 ==>
        ok && t == [] && backups.State() == old(backups.State()) && backups.ops.Live() == old(backups.ops.Live())
      ensures backups.retain > 0 ==> backups.CleanedUp(old(backups.State()), l, t, false, ok)
      ensures ok && backups.retain > 0 ==> |backups.ops.Live()| <= backups.retain + backups.ops.uncounted
      ensures old(backups.ReadyToCount()) ==>
        backups.Pruned(old(backups.ops.Live()), ok) && Spares(backups.ops.job, old(backups.ops.all), backups.ops.all)
    {
      l, t := Listing([], []), [];
      if backups.retain == 0 {
        return true, l, t;
      }
      var rounds;
      ok, rounds, l, t := backups.Cleanup(false);
    }

    method CleanupBackupSnapshots() returns (ok: bool, ghost l: Listing, ghost t: seq<RemoteCall>)
      requires Valid() && snapshots.ops.uncounted > 0
      modifies snapshots, snapshots.ops
      ensures Valid() && snapshots.ops.calls == old(snapshots.ops.calls) + t
      ensures snapshots.CleanedUp(old(snapshots.State()), l, t, false, ok)
      ensures ok ==> |snapshots.ops.Live()| <= 2 + snapshots.ops.uncounted
      ensures old(snapshots.ReadyToCount()) ==>
        && snapshots.Pruned(old(snapshots.ops.Live()), ok)
        && Spares(snapshots.ops.job, old(snapshots.ops.all), snapshots.ops.all)
    {
      var rounds;
      ok, rounds, l, t := snapshots.Cleanup(false);
    }

    /** The hook a backup calls when it is done. Both cleanups are made, that of the snapshots
        first; a failure of it is only logged. */
    method Cleanup()
      returns (ok: bool, ghost ls: Listing, ghost ts: seq<RemoteCall>, ghost lb: Listing, ghost tb: seq<RemoteCall>)
      requires Valid() && backups.ops.uncounted > 0 && snapshots.ops.uncounted > 0
      modifies backups, backups.ops, snapshots, snapshots.ops
      ensures Valid()
      ensures snapshots.ops.calls == old(snapshots.ops.calls) + ts && backups.ops.calls == old(backups.ops.calls) + tb
      ensures snapshots.CleanedUp(old(snapshots.State()), ls, ts, false, AllGranted(ts))
      ensures if backups.retain == 0 then ok && tb == []
              else backups.CleanedUp(old(backups.State()), lb, tb, false, ok)
      ensures ok && backups.retain > 0 ==> |backups.ops.Live()| <= backups.retain + backups.ops.uncounted
      ensures old(snapshots.ReadyToCount()) ==> snapshots.Pruned(old(snapshots.ops.Live()), AllGranted(ts))
      ensures old(backups.ReadyToCount()) ==> backups.Pruned(old(backups.ops.Live()), ok)
    {
      var logged;
      logged, ls, ts := CleanupBackupSnapshots();
      ok, lb, tb := CleanupBackups();
    }
  }
}
