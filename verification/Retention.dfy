/** What "keep the newest Retain" means for a recurring job, independently of how the
    task caches its listing. A job's live items are a map from key (snapshot name or
    backup URL) to creation timestamp. */
module Retention {
  import opened Collections
  import opened Strings

  /** An entry of a listing. Only the fields that retention reads are kept. */
  datatype Record =
    | Snapshot(key: string, created: string, removed: bool, labels: map<string, string>)
    | Backup(key: string, created: string, snapshotName: string)

  /** Which listing a cleanup works on, and for which job. */
  datatype Job = SnapshotJob(name: string) | BackupSnapshotJob(name: string) | BackupJob(name: string)

  type Live = map<string, string>

  /** The incremental cache of a task: `cached` is None until the first listing. */
  datatype Cache = Cache(count: int, cached: Option<seq<Record>>)

  const JOB_LABEL := "job"
  const BACKUP_JOB_LABEL := "backupJob"

  /** Reading a missing label yields the empty string. */
  function Label(labels: map<string, string>, key: string): string {
    if key in labels then labels[key] else ""
  }

  predicate Visible(job: Job, r: Record) {
    match job
    case SnapshotJob(name) =>
      r.Snapshot? && !r.removed && Label(r.labels, JOB_LABEL) == name
    case BackupSnapshotJob(name) =>
      r.Snapshot? && !r.removed && Label(r.labels, JOB_LABEL) == name && Label(r.labels, BACKUP_JOB_LABEL) == name
    case BackupJob(name) =>
      r.Backup? && HasPrefix(r.snapshotName, name + "-")
  }

  ghost function LiveOf(all: map<string, Record>, job: Job): Live {
    map k | k in all && Visible(job, all[k]) :: all[k].created
  }

  function Keys(s: seq<Record>): set<string> {
    set i | 0 <= i < |s| :: s[i].key
  }

  predicate DistinctKeys(s: seq<Record>) {
    forall i, j :: 0 <= i < j < |s| ==> s[i].key != s[j].key
  }

  predicate OldestFirst(s: seq<Record>) {
    forall i, j :: 0 <= i < j < |s| ==> !LexLess(s[j].created, s[i].created)
  }

  function Listed(c: Cache): seq<Record> {
    if c.cached.Some? then c.cached.value else []
  }

  /** Whatever the schedule: once a listing is cached, what is live (or still queued for
      deletion) is covered by `count` and the creations that `count` has not seen yet. */
  ghost predicate Accounted(live: Live, c: Cache, uncounted: nat) {
    c.cached.Some? ==>
      && DistinctKeys(c.cached.value)
      && |live.Keys + Keys(c.cached.value)| <= c.count + uncounted
  }

  /** With no overlap between runs the cache is exact: `count` is the number of live items
      and `cached` is an oldest-first prefix of them. */
  ghost predicate Exact(live: Live, c: Cache) {
    c.cached.Some? ==>
      && c.count == |live|
      && DistinctKeys(c.cached.value)
      && OldestFirst(c.cached.value)
      && (forall r :: r in c.cached.value ==> r.key in live && live[r.key] == r.created)
      && (forall r, k :: r in c.cached.value && k in live && k !in Keys(c.cached.value) ==>
            !LexLess(live[k], r.created))
  }

  ghost predicate NotOlder(created: string, live: Live) {
    forall k :: k in live ==> !LexLess(created, live[k])
  }

  /** How many of `n` items a successful cleanup leaves; Retain 0 keeps everything. */
  function Quota(retain: nat, n: nat): nat {
    if retain == 0 then n else Min(retain, n)
  }

  /** `after` is a newest part of `before`: nothing kept is older than something dropped. */
  ghost predicate NewestPart(before: Live, after: Live) {
    && (forall k :: k in after ==> k in before && after[k] == before[k])
    && (forall d, k :: d in before && d !in after && k in after ==> !LexLess(after[k], before[d]))
  }

  /** `after` keeps at least the newest `retain` of `before`: deletion was oldest first. */
  ghost predicate KeepsNewest(before: Live, after: Live, retain: nat) {
    NewestPart(before, after) && |after| >= Quota(retain, |before|)
  }

  /** `after` is exactly the newest `retain` of `before`. */
  ghost predicate Prunes(before: Live, after: Live, retain: nat) {
    NewestPart(before, after) && |after| == Quota(retain, |before|)
  }

  lemma {:induction false} DistinctCount(s: seq<Record>)
    requires DistinctKeys(s)
    ensures |Keys(s)| == |s|
  {
    if s != [] {
      var n := |s| - 1;
      DistinctCount(s[..n]);
      assert Keys(s) == Keys(s[..n]) + {s[n].key};
      assert s[n].key !in Keys(s[..n]);
    }
  }

  /** Dropping the first cached entry drops exactly its key. */
  lemma KeysTail(s: seq<Record>)
    requires s != [] && DistinctKeys(s)
    ensures Keys(s[1..]) == Keys(s) - {s[0].key}
    ensures DistinctKeys(s[1..])
  {
    forall k | k in Keys(s) - {s[0].key} ensures k in Keys(s[1..]) {
      var i :| 0 <= i < |s| && s[i].key == k;
      assert s[1..][i - 1].key == k;
    }
    forall k | k in Keys(s[1..]) ensures k in Keys(s) - {s[0].key} {
      var i :| 0 <= i < |s| - 1 && s[1..][i].key == k;
      assert s[i + 1].key == k;
    }
  }

  lemma SubmapSize(a: Live, b: Live)
    requires forall k :: k in a ==> k in b
    ensures |a| <= |b|
  {
    assert |a| == |a.Keys| && |b| == |b.Keys|;
    SubsetSize(a.Keys, b.Keys);
  }

  /** Creations by other runs keep the account balanced. */
  lemma AccountedAfterDrift(live: Live, live': Live, c: Cache, n: nat, n': nat)
    requires Accounted(live, c, n)
    requires |live'.Keys - live.Keys| + n <= n'
    ensures Accounted(live', c, n')
  {
    if c.cached.Some? {
      var u := live.Keys + Keys(c.cached.value);
      assert live'.Keys + Keys(c.cached.value) <= u + (live'.Keys - live.Keys);
      SubsetSize(live'.Keys + Keys(c.cached.value), u + (live'.Keys - live.Keys));
    }
  }

  /** Deleting the head of the cache and counting down keeps the account balanced. */
  lemma AccountedAfterDelete(live: Live, live': Live, c: Cache, n: nat, n': nat)
    requires Accounted(live, c, n) && c.cached.Some? && c.cached.value != []
    requires c.cached.value[0].key !in live'
    requires |live'.Keys - live.Keys| + n <= n'
    ensures Accounted(live', Cache(c.count - 1, Some(c.cached.value[1..])), n')
  {
    var s := c.cached.value;
    KeysTail(s);
    var u := live.Keys + Keys(s);
    var u' := live'.Keys + Keys(s[1..]);
    assert s[0].key in Keys(s);
    OneLess(u, s[0].key, live'.Keys - live.Keys, u');
  }

  lemma OneLess(u: set<string>, x: string, more: set<string>, u': set<string>)
    requires x in u && u' <= (u - {x}) + more
    ensures |u'| <= |u| - 1 + |more|
  {
    SubsetSize(u', (u - {x}) + more);
    SubsetSize((u - {x}) * more, u - {x});
  }

  /** Deleting the head of an exact cache keeps it exact and deletes oldest first. */
  lemma ExactAfterDelete(before: Live, live: Live, live': Live, c: Cache, retain: nat)
    requires Exact(live, c) && c.cached.Some? && c.cached.value != []
    requires 0 < retain < c.count
    requires live' == live - {c.cached.value[0].key}
    requires KeepsNewest(before, live, retain)
    ensures Exact(live', Cache(c.count - 1, Some(c.cached.value[1..])))
    ensures KeepsNewest(before, live', retain)
  {
    var d := c.cached.value[0];
    assert d in c.cached.value;
    OneFewer(live, d.key);
    HeadIsOldest(live, c, d);
    ExactTail(live, live', c);
    assert NewestPart(before, live');
  }

  lemma OneFewer(live: Live, key: string)
    requires key in live
    ensures |live - {key}| == |live| - 1
  {
    var live' := live - {key};
    assert live'.Keys == live.Keys - {key};
    assert |live'| == |live'.Keys| && |live| == |live.Keys|;
  }

  /** Nothing live is older than the first entry of an exact cache. */
  lemma HeadIsOldest(live: Live, c: Cache, d: Record)
    requires Exact(live, c) && c.cached.Some? && c.cached.value != [] && d == c.cached.value[0]
    ensures forall k :: k in live && k != d.key ==> !LexLess(live[k], d.created)
  {
    var s := c.cached.value;
    assert d in s;
    forall k | k in live && k != d.key ensures !LexLess(live[k], d.created) {
      if k in Keys(s) {
        var i :| 0 <= i < |s| && s[i].key == k;
        assert s[i] in s;
      }
    }
  }

  lemma ExactTail(live: Live, live': Live, c: Cache)
    requires Exact(live, c) && c.cached.Some? && c.cached.value != []
    requires live' == live - {c.cached.value[0].key}
    ensures Exact(live', Cache(c.count - 1, Some(c.cached.value[1..])))
  {
    var s := c.cached.value;
    assert s[0] in s;
    OneFewer(live, s[0].key);
    TailInside(s);
    KeysTail(s);
    TailEntries(live, s);
    TailOrder(live, s);
  }

  lemma TailEntries(live: Live, s: seq<Record>)
    requires s != [] && DistinctKeys(s) && forall r :: r in s ==> r.key in live && live[r.key] == r.created
    ensures var live' := live - {s[0].key}; forall r :: r in s[1..] ==> r.key in live' && live'[r.key] == r.created
  {
    TailInside(s);
  }

  lemma TailOrder(live: Live, s: seq<Record>)
    requires s != [] && DistinctKeys(s)
    requires forall r, k :: r in s && k in live && k !in Keys(s) ==> !LexLess(live[k], r.created)
    ensures var live' := live - {s[0].key};
      forall r, k :: r in s[1..] && k in live' && k !in Keys(s[1..]) ==> !LexLess(live'[k], r.created)
  {
    var live', tail := live - {s[0].key}, s[1..];
    TailInside(s);
    KeysTail(s);
    forall r, k | r in tail && k in live' && k !in Keys(tail) ensures !LexLess(live'[k], r.created) {
      assert r in s && k in live && k !in Keys(s);
    }
  }

  lemma TailInside(s: seq<Record>)
    requires s != [] && DistinctKeys(s)
    ensures forall r :: r in s[1..] ==> r in s && r.key != s[0].key
    ensures OldestFirst(s) ==> OldestFirst(s[1..])
  {
    forall r | r in s[1..] ensures r in s && r.key != s[0].key {
      var i :| 0 <= i < |s| - 1 && s[1..][i] == r;
      assert s[i + 1] == r;
    }
  }

  /** A fresh sorted listing is an exact and balanced cache. */
  lemma FreshListing(live: Live, ss: seq<Record>, uncounted: nat)
    requires DistinctKeys(ss) && OldestFirst(ss)
    requires forall r :: r in ss ==> r.key in live && live[r.key] == r.created
    requires live.Keys <= Keys(ss)
    ensures Exact(live, Cache(|ss|, Some(ss)))
    ensures Accounted(live, Cache(|ss|, Some(ss)), uncounted)
  {
    assert forall i :: 0 <= i < |ss| ==> ss[i] in ss;
    assert live.Keys == Keys(ss);
    DistinctCount(ss);
    assert |live| == |live.Keys|;
    assert live.Keys + Keys(ss) == Keys(ss);
  }

  /** A run creates an item no older than any live one; counting it keeps the cache exact. */
  lemma ExactAfterCreate(live: Live, c: Cache, key: string, created: string)
    requires Exact(live, c) && key !in live
    requires NotOlder(created, live)
    ensures Exact(live[key := created], Cache(c.count + 1, c.cached))
  {
    var live' := live[key := created];
    assert live'.Keys == live.Keys + {key};
    assert |live'| == |live'.Keys| == |live| + 1;
    if c.cached.Some? {
      forall r | r in c.cached.value ensures r.key in live' && live'[r.key] == r.created {
        assert r.key in live;
      }
    }
  }

  /** Pruning incrementally is pruning the whole history: if `live` already keeps the newest
      of the history, then pruning `live` plus one more item keeps the newest of the
      history plus that item. */
  lemma IncrementalPruning(history: Live, live: Live, live': Live, key: string, created: string, retain: nat)
    requires KeepsNewest(history, live, retain)
    requires key !in history
    requires NotOlder(created, history)
    requires KeepsNewest(live[key := created], live', retain)
    ensures KeepsNewest(history[key := created], live', retain)
    ensures Prunes(live[key := created], live', retain) ==> Prunes(history[key := created], live', retain)
  {
    NewestPartExtends(history, live, live', key, created);
    SubmapSize(live, history);
    ExtendedSize(history, key, created);
    ExtendedSize(live, key, created);
  }

  lemma ExtendedSize(live: Live, key: string, created: string)
    requires key !in live
    ensures |live[key := created]| == |live| + 1
  {
    var l := live[key := created];
    assert l.Keys == live.Keys + {key};
    assert |l| == |l.Keys|;
  }

  lemma NewestPartExtends(history: Live, live: Live, live': Live, key: string, created: string)
    requires NewestPart(history, live)
    requires key !in history
    requires NotOlder(created, history)
    requires NewestPart(live[key := created], live')
    ensures NewestPart(history[key := created], live')
  {
    var h, l := history[key := created], live[key := created];
    forall k | k in live' ensures k in h && live'[k] == h[k] {
      assert k in l;
    }
    forall d, k | d in h && d !in live' && k in live' ensures !LexLess(live'[k], h[d]) {
      assert k in l && live'[k] == l[k];
      if d in l {
        assert l[d] == h[d];
      } else {
        assert d in history && d !in live;
        if k == key {
          assert !LexLess(created, history[d]);
        } else {
          assert !LexLess(live[k], history[d]);
        }
      }
    }
  }

  /** The simple algorithm: list everything, sort it, keep the last Retain. */
  function KeepLast(sorted: seq<Record>, retain: nat): seq<Record> {
    if retain == 0 || |sorted| <= retain then sorted else sorted[|sorted| - retain..]
  }

  ghost function LiveOfSeq(s: seq<Record>): Live
    requires DistinctKeys(s)
  {
    map k | k in Keys(s) :: (var i :| 0 <= i < |s| && s[i].key == k; s[i].created)
  }

  lemma LiveOfSeqAt(s: seq<Record>, i: nat)
    requires DistinctKeys(s) && i < |s|
    ensures s[i].key in LiveOfSeq(s) && LiveOfSeq(s)[s[i].key] == s[i].created
  {
    assert s[i].key in Keys(s);
  }

  /** The simple algorithm prunes ... */
  lemma SimpleAlgorithmPrunes(sorted: seq<Record>, retain: nat)
    requires DistinctKeys(sorted) && OldestFirst(sorted)
    ensures DistinctKeys(KeepLast(sorted, retain))
    ensures Prunes(LiveOfSeq(sorted), LiveOfSeq(KeepLast(sorted, retain)), retain)
  {
    var kept := KeepLast(sorted, retain);
    var off := |sorted| - |kept|;
    assert kept == sorted[off..];
    SuffixIsNewest(sorted, off);
    LiveCount(sorted);
    LiveCount(kept);
  }

  lemma LiveCount(s: seq<Record>)
    requires DistinctKeys(s)
    ensures |LiveOfSeq(s)| == |s|
  {
    DistinctCount(s);
    assert LiveOfSeq(s).Keys == Keys(s);
    assert |LiveOfSeq(s)| == |LiveOfSeq(s).Keys|;
  }

  lemma SuffixIsNewest(sorted: seq<Record>, off: nat)
    requires DistinctKeys(sorted) && OldestFirst(sorted) && off <= |sorted|
    ensures DistinctKeys(sorted[off..])
    ensures NewestPart(LiveOfSeq(sorted), LiveOfSeq(sorted[off..]))
  {
    var before, after := LiveOfSeq(sorted), LiveOfSeq(sorted[off..]);
    forall k | k in after ensures k in before && after[k] == before[k] {
      var i := KeptAt(sorted, off, k);
    }
    forall d, k | d in before && d !in after && k in after ensures !LexLess(after[k], before[d]) {
      var i := KeptAt(sorted, off, k);
      var j := DroppedAt(sorted, off, d);
    }
  }

  /** Where a kept item, and where a dropped one, is in the sorted list. */
  lemma KeptAt(sorted: seq<Record>, off: nat, k: string) returns (i: nat)
    requires DistinctKeys(sorted) && off <= |sorted| && DistinctKeys(sorted[off..]) && k in LiveOfSeq(sorted[off..])
    ensures off <= i < |sorted| && sorted[i].key == k && k in LiveOfSeq(sorted)
    ensures LiveOfSeq(sorted[off..])[k] == LiveOfSeq(sorted)[k] == sorted[i].created
  {
    var kept := sorted[off..];
    var h :| 0 <= h < |kept| && kept[h].key == k;
    i := off + h;
    LiveOfSeqAt(kept, h);
    LiveOfSeqAt(sorted, i);
  }

  lemma DroppedAt(sorted: seq<Record>, off: nat, d: string) returns (j: nat)
    requires DistinctKeys(sorted) && off <= |sorted| && DistinctKeys(sorted[off..])
    requires d in LiveOfSeq(sorted) && d !in LiveOfSeq(sorted[off..])
    ensures j < off && LiveOfSeq(sorted)[d] == sorted[j].created
  {
    var kept := sorted[off..];
    j :| 0 <= j < |sorted| && sorted[j].key == d;
    LiveOfSeqAt(sorted, j);
    forall h | off <= h < |sorted| ensures sorted[h].key in Keys(kept) {
      assert kept[h - off] == sorted[h];
    }
  }

  /** ... and, when no two items share a timestamp, it is the only way to prune. */
  lemma PruningIsUnique(before: Live, a: Live, b: Live, retain: nat)
    requires forall j, k :: j in before && k in before && before[j] == before[k] ==> j == k
    requires Prunes(before, a, retain) && Prunes(before, b, retain)
    ensures a == b
  {
    assert |a| == |a.Keys| && |b| == |b.Keys|;
    if a.Keys != b.Keys {
      SameSizeSubset(a.Keys, b.Keys);
      SameSizeSubset(b.Keys, a.Keys);
      var x :| x in a && x !in b;
      var y :| y in b && y !in a;
      assert !LexLess(b[y], before[x]) && !LexLess(a[x], before[y]);
      LexTotal(before[x], before[y]);
    }
  }

  lemma SameSizeSubset(a: set<string>, b: set<string>)
    requires |a| == |b|
    ensures a <= b ==> a == b
  {
    if a <= b {
      assert b == a + (b - a);
    }
  }
}
