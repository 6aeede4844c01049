/** Every interleaving of the runs of one recurring snapshot job. A run creates its
    snapshot outside the lock and then cleans up inside it, so any number of runs can have
    created a snapshot that no cleanup has counted yet. Snapshots are named by their
    (unique) keys; ordering by age is the subject of module Retention. */
module RetentionRuns {
  import opened Collections
  import opened Strings

  /** Where the run that holds the lock is. */
  datatype Point = AtGuard | InLoop

  datatype Holder = Holder(run: nat, point: Point, rounds: nat, listings: nat)

  datatype State = State(
    live: set<string>,
    count: int,
    cached: Option<seq<string>>,
    pending: set<nat>,        // runs that created their snapshot and have not counted it
    holder: Option<Holder>,
    strays: nat,              // creations that no cleanup will count, since the last listing
    overlap: nat,             // runs that were pending at the last listing
    settled: bool             // the last cleanup to finish succeeded
  )

  datatype Step =
    | Create(run: nat, key: string)
    | Stray(key: string)
    | Vanish(key: string)
    | Skip(run: nat)  // with Retain 0 a run returns before it counts or locks
    | Enter(run: nat)
    | Exit
    | List(listing: seq<string>)
    | ListFails
    | UseCache
    | Delete
    | DeleteFails(tookEffect: bool)
    | Purge
    | PurgeFails

  const INIT := State({}, 0, None, {}, None, 0, 0, false)

  function Listed(s: State): seq<string> {
    if s.cached.Some? then s.cached.value else []
  }

  predicate Fresh(s: State, key: string) {
    key !in s.live && key !in Listed(s)
  }

  /** The guard of the outer loop. */
  predicate MustClean(s: State, retain: int) {
    s.cached == None || s.count > retain
  }

  predicate At(s: State, p: Point) {
    s.holder.Some? && s.holder.value.point == p
  }

  predicate Enabled(s: State, step: Step, retain: int) {
    match step
    case Create(run, key) =>
      run !in s.pending && (s.holder.Some? ==> s.holder.value.run != run) && Fresh(s, key)
    case Stray(key) => Fresh(s, key)
    case Vanish(key) => key in s.live
    case Skip(run) => retain == 0 && run in s.pending
    case Enter(run) => retain != 0 && s.holder == None && run in s.pending
    case Exit => At(s, AtGuard) && !MustClean(s, retain)
    case List(listing) =>
      At(s, AtGuard) && MustClean(s, retain) && Listed(s) == [] && Distinct(listing) && Elems(listing) == s.live
    case ListFails => At(s, AtGuard) && MustClean(s, retain) && Listed(s) == []
    case UseCache => At(s, AtGuard) && MustClean(s, retain) && Listed(s) != []
    case Delete => At(s, InLoop) && s.count > retain && Listed(s) != []
    case DeleteFails(_) => At(s, InLoop) && s.count > retain && Listed(s) != []
    case Purge => At(s, InLoop) && !(s.count > retain && Listed(s) != [])
    case PurgeFails => At(s, InLoop) && !(s.count > retain && Listed(s) != [])
  }

  function Release(s: State, ok: bool): State {
    s.(holder := None, settled := ok)
  }

  function Apply(s: State, step: Step): State {
    match step
    case Create(run, key) => s.(live := s.live + {key}, pending := s.pending + {run})
    case Stray(key) => s.(live := s.live + {key}, strays := s.strays + 1)
    case Vanish(key) => s.(live := s.live - {key})
    case Skip(run) => s.(pending := s.pending - {run}, strays := s.strays + 1)
    case Enter(run) =>
      s.(pending := s.pending - {run}, holder := Some(Holder(run, AtGuard, 0, 0)), count := s.count + 1,
         settled := false)
    case Exit => Release(s, true)
    case List(listing) =>
      if s.holder == None then s else
        var h := s.holder.value;
        s.(cached := Some(listing), count := |listing|, strays := 0, overlap := |s.pending|,
           holder := Some(h.(point := InLoop, listings := h.listings + 1)))
    case ListFails => Release(s, false)
    case UseCache =>
      if s.holder == None then s else s.(holder := Some(s.holder.value.(point := InLoop)))
    case Delete =>
      if Listed(s) == [] then s else
        s.(live := s.live - {Listed(s)[0]}, cached := Some(Listed(s)[1..]), count := s.count - 1)
    case DeleteFails(tookEffect) =>
      if Listed(s) == [] then s else
        Release(if tookEffect then s.(live := s.live - {Listed(s)[0]}) else s, false)
    case Purge =>
      if s.holder == None then s else
        var h := s.holder.value;
        s.(holder := Some(h.(point := AtGuard, rounds := h.rounds + 1)))
    case PurgeFails => Release(s, false)
  }

  predicate Feasible(s: State, steps: seq<Step>, retain: int)
    decreases |steps|
  {
    steps == [] || (Enabled(s, steps[0], retain) && Feasible(Apply(s, steps[0]), steps[1..], retain))
  }

  function Final(s: State, steps: seq<Step>): State
    decreases |steps|
  {
    if steps == [] then s else Final(Apply(s, steps[0]), steps[1..])
  }

  /** What every step keeps, for any Retain, negative ones included. */
  ghost predicate Inv(s: State) {
    && Distinct(Listed(s))
    && s.count >= |Listed(s)|
    && (s.holder.Some? ==> s.holder.value.run !in s.pending)
    && (s.cached.Some? ==> |s.live + Elems(s.cached.value)| <= s.count + |s.pending| + s.strays)
  }

  lemma {:induction false} DistinctSize(s: seq<string>)
    requires Distinct(s)
    ensures |Elems(s)| == |s|
  {
    if s != [] {
      var n := |s| - 1;
      DistinctSize(s[..n]);
      assert s == s[..n] + [s[n]];
      assert Elems(s) == Elems(s[..n]) + {s[n]};
    }
  }

  lemma TailElems(s: seq<string>)
    requires Distinct(s) && s != []
    ensures Elems(s[1..]) == Elems(s) - {s[0]} && Distinct(s[1..])
  {
    assert s == [s[0]] + s[1..];
  }

  lemma StepKeepsInv(s: State, step: Step, retain: int)
    requires Inv(s) && Enabled(s, step, retain)
    ensures Inv(Apply(s, step))
  {
    match step
    case Create(_, key) => CreationKeepsInv(s, step, retain);
    case Stray(key) => CreationKeepsInv(s, step, retain);
    case Vanish(key) => LossKeepsInv(s, step, retain);
    case List(listing) =>
      DistinctSize(listing);
      assert s.live + Elems(listing) == s.live;
    case Delete => DeleteKeepsInv(s, retain);
    case DeleteFails(_) => LossKeepsInv(s, step, retain);
    case _ =>
  }

  lemma CreationKeepsInv(s: State, step: Step, retain: int)
    requires Inv(s) && Enabled(s, step, retain) && (step.Create? || step.Stray?)
    ensures Inv(Apply(s, step))
  {
    var u := s.live + Elems(Listed(s));
    assert Apply(s, step).live + Elems(Listed(s)) == u + {step.key};
  }

  lemma LossKeepsInv(s: State, step: Step, retain: int)
    requires Inv(s) && Enabled(s, step, retain) && (step.Vanish? || step.DeleteFails?)
    ensures Inv(Apply(s, step))
  {
    SubsetSize(Apply(s, step).live + Elems(Listed(s)), s.live + Elems(Listed(s)));
  }

  lemma DeleteKeepsInv(s: State, retain: int)
    requires Inv(s) && Enabled(s, Delete, retain)
    ensures Inv(Apply(s, Delete))
  {
    var s' := Apply(s, Delete);
    TailElems(Listed(s));
    assert Listed(s)[0] in Elems(Listed(s));
    assert s'.live + Elems(Listed(s')) == (s.live + Elems(Listed(s))) - {Listed(s)[0]};
  }

  /** Inside one cleanup, for Retain >= 0: at most one listing and two outer iterations. */
  predicate Bounded(s: State, retain: int) {
    s.holder.Some? ==>
      var h := s.holder.value;
      && h.listings <= 1 && h.rounds <= 2
      && (h.listings == 1 ==> s.cached.Some? && (s.count <= retain || (h.point == InLoop && s.count == |Listed(s)|)))
      && (h.rounds == 1 ==> s.cached.Some? && (Listed(s) == [] || s.count <= retain || h.listings == 1))
      && (h.rounds == 2 ==> s.cached.Some? && s.count <= retain && h.point == AtGuard)
      && (h.point == InLoop ==> s.cached.Some? && h.rounds <= 1)
      && (h.rounds == 1 && h.point == InLoop ==> h.listings == 1)
  }

  lemma StepKeepsBounded(s: State, step: Step, retain: nat)
    requires Bounded(s, retain) && Enabled(s, step, retain)
    ensures Bounded(Apply(s, step), retain)
  {
  }

  /** A cleanup that succeeded left at most Retain on the books, until the next one starts. */
  predicate Settled(s: State, retain: int) {
    s.settled ==> s.holder == None && s.cached.Some? && s.count <= retain
  }

  /** Safety over every run and every interleaving. Whatever the schedule, live snapshots are
      covered by `count`, the pending runs and the strays; so when nothing is pending and the
      last cleanup succeeded, at most Retain remain. Every cleanup does at most one listing. */
  lemma {:induction false} RetentionHolds(s: State, steps: seq<Step>, retain: nat)
    requires Inv(s) && Bounded(s, retain) && Settled(s, retain)
    requires Feasible(s, steps, retain)
    ensures var f := Final(s, steps);
      && Inv(f) && Bounded(f, retain) && Settled(f, retain)
      && (f.cached.Some? ==> |f.live| <= f.count + |f.pending| + f.strays)
      && (f.settled ==> |f.live| <= retain + |f.pending| + f.strays)
      && (f.holder.Some? ==> f.holder.value.listings <= 1 && f.holder.value.rounds <= 2)
    decreases |steps|
  {
    if steps == [] {
      if s.cached.Some? {
        SubsetSize(s.live, s.live + Elems(s.cached.value));
      }
    } else {
      StepKeepsInv(s, steps[0], retain);
      StepKeepsBounded(s, steps[0], retain);
      RetentionHolds(Apply(s, steps[0]), steps[1..], retain);
    }
  }

  /** The same from the start: no outside creation and no pending run means at most Retain. */
  lemma RetentionFromStart(steps: seq<Step>, retain: nat)
    requires Feasible(INIT, steps, retain)
    ensures var f := Final(INIT, steps);
      f.settled && f.pending == {} && f.strays == 0 ==> |f.live| <= retain
  {
    RetentionHolds(INIT, steps, retain);
  }

  /** How far a cleanup is from ending: outer iterations left, then deletions left. */
  function Distance(s: State): nat
    requires s.holder.Some? && s.holder.value.rounds <= 2
  {
    if s.holder.value.point == InLoop then 3 * (2 - s.holder.value.rounds) + 1 else 3 * (2 - s.holder.value.rounds) + 2
  }

  /** Every step of the lock holder ends the cleanup, or brings it closer to its end. */
  lemma HolderProgresses(s: State, step: Step, retain: nat)
    requires Inv(s) && Bounded(s, retain) && Enabled(s, step, retain) && s.holder.Some?
    requires !step.Create? && !step.Stray? && !step.Vanish? && !step.Skip?
    ensures var s' := Apply(s, step);
      || s'.holder == None
      || Distance(s') < Distance(s)
      || (Distance(s') == Distance(s) && |Listed(s')| < |Listed(s)|)
  {
    StepKeepsBounded(s, step, retain);
  }

  /** ... and the holder is never stuck: some step of it is always enabled. */
  lemma HolderCanMove(s: State, retain: int) returns (step: Step)
    requires s.holder.Some?
    ensures Enabled(s, step, retain) && !step.Create? && !step.Stray? && !step.Vanish? && !step.Skip?
  {
    if At(s, AtGuard) {
      step := if !MustClean(s, retain) then Exit else if Listed(s) == [] then ListFails else UseCache;
    } else {
      step := if s.count > retain && Listed(s) != [] then Delete else Purge;
    }
  }

  /** What the holder does is decided by the count and the cache: it ends when a listing is cached
      and no more than Retain are counted, it lists if and only if nothing is cached, it deletes
      while there are too many and the cache lasts, and then it purges. */
  lemma HolderChoice(s: State, step: Step, retain: int)
    requires s.holder.Some? && Enabled(s, step, retain)
    requires !step.Create? && !step.Stray? && !step.Vanish? && !step.Skip?
    ensures var cached := if s.cached.Some? then s.cached.value else [];
      match s.holder.value.point
      case AtGuard =>
        if s.cached.Some? && s.count <= retain then step.Exit?
        else if cached == [] then step.ListFails? || (step.List? && Elems(step.listing) == s.live)
        else step.UseCache?
      case InLoop =>
        if s.count > retain && cached != [] then step.Delete? || step.DeleteFails? else step.Purge? || step.PurgeFails?
  {
  }

  function Skips(steps: seq<Step>): nat {
    if steps == [] then 0 else (if steps[0].Skip? then 1 else 0) + Skips(steps[1..])
  }

  function Creations(steps: seq<Step>): nat {
    if steps == [] then 0 else (if steps[0].Create? then 1 else 0) + Creations(steps[1..])
  }

  /** With Retain 0 no run ever takes the lock, counts or lists, nothing is deleted but by somebody
      else, and every run that returns is no longer pending. */
  lemma {:induction false} ZeroRetainKeepsAll(s: State, steps: seq<Step>)
    requires s.holder == None && Feasible(s, steps, 0)
    ensures var f := Final(s, steps);
      && f.holder == None && f.count == s.count && f.cached == s.cached
      && ((forall i :: 0 <= i < |steps| ==> !steps[i].Vanish?) ==> s.live <= f.live)
      && |f.pending| + Skips(steps) == |s.pending| + Creations(steps)
    decreases |steps|
  {
    if steps != [] {
      ZeroRetainStep(s, steps[0]);
      ZeroRetainKeepsAll(Apply(s, steps[0]), steps[1..]);
      assert forall i :: 0 <= i < |steps| - 1 ==> steps[1..][i] == steps[i + 1];
    }
  }

  lemma ZeroRetainStep(s: State, step: Step)
    requires s.holder == None && Enabled(s, step, 0)
    ensures var s' := Apply(s, step);
      && s'.holder == None && s'.count == s.count && s'.cached == s.cached && (!step.Vanish? ==> s.live <= s'.live)
      && |s'.pending| + (if step.Skip? then 1 else 0) == |s.pending| + if step.Create? then 1 else 0
  {
  }

  /** With a negative Retain no cleanup ever succeeds: the outer loop's guard never falls. */
  lemma {:induction false} NegativeRetainNeverExits(s: State, steps: seq<Step>, retain: int)
    requires Inv(s) && Feasible(s, steps, retain) && retain < 0
    ensures Inv(Final(s, steps)) && !Enabled(Final(s, steps), Exit, retain)
    decreases |steps|
  {
    if steps != [] {
      StepKeepsInv(s, steps[0], retain);
      NegativeRetainNeverExits(Apply(s, steps[0]), steps[1..], retain);
    }
  }

  /** A step that only the job itself takes, and that fails cleanly if it fails. */
  predicate Undisturbed(step: Step) {
    !step.Stray? && !step.Vanish? && (step.DeleteFails? ==> !step.tookEffect)
  }

  /** A step that loses no snapshot behind the job's back. */
  predicate LosesNothing(step: Step) {
    !step.Vanish? && (step.DeleteFails? ==> !step.tookEffect)
  }

  /** The exact account: a run that was pending at the last listing is counted twice, once by
      the listing and once when it enters; a stray is not counted at all. */
  ghost predicate ExactAccount(s: State) {
    s.cached.Some? ==> Elems(s.cached.value) <= s.live && s.count + |s.pending| + s.strays == |s.live| + s.overlap
  }

  lemma {:induction false} OvercountIsOverlap(s: State, steps: seq<Step>, retain: int)
    requires Inv(s) && ExactAccount(s) && Feasible(s, steps, retain)
    requires forall i :: 0 <= i < |steps| ==> LosesNothing(steps[i])
    ensures ExactAccount(Final(s, steps))
    decreases |steps|
  {
    if steps != [] {
      var s' := Apply(s, steps[0]);
      StepKeepsInv(s, steps[0], retain);
      match steps[0] {
        case List(listing) => DistinctSize(listing);
        case Delete => TailElems(Listed(s)); assert Listed(s)[0] in Elems(Listed(s));
        case _ =>
      }
      OvercountIsOverlap(s', steps[1..], retain);
    }
  }

  /** So with Retain > 0 a deletion never leaves fewer than Retain alive if no run was pending
      at the last listing; `overlap` is how far below it can go. */
  lemma DeletionLeaves(s: State, retain: nat)
    requires ExactAccount(s) && Enabled(s, Delete, retain)
    ensures |Apply(s, Delete).live| + s.overlap >= retain
  {
    assert Listed(s)[0] in Elems(Listed(s));
  }

  /** From the start, in any run that loses nothing: once nothing is pending, the live snapshots
      are exactly as many as are counted, plus the strays, minus the overlap. With Retain on the
      books and no stray, the overlap is exactly how many are missing. */
  lemma OverlapIsTheShortfall(steps: seq<Step>, retain: int)
    requires Feasible(INIT, steps, retain) && forall i :: 0 <= i < |steps| ==> LosesNothing(steps[i])
    ensures var f := Final(INIT, steps);
      f.cached.Some? && f.pending == {} ==> |f.live| == f.count + f.strays - f.overlap
  {
    OvercountIsOverlap(INIT, steps, retain);
  }

  /** Overlapping runs can delete too much: two runs, Retain 2, and only one snapshot left. */
  lemma OverlapDeletesTooMuch() returns (steps: seq<Step>)
    ensures Feasible(INIT, steps, 2)
    ensures forall i :: 0 <= i < |steps| ==> Undisturbed(steps[i])
    ensures var f := Final(INIT, steps); f.settled && f.pending == {} && f.live == {"b"}
  {
    TwoCreations();
    FirstCleanup();
    SecondCleanup();
    Compose(AFTER_CREATIONS, FIRST_CLEANUP, SECOND_CLEANUP, 2);
    Compose(INIT, CREATIONS, FIRST_CLEANUP + SECOND_CLEANUP, 2);
    TraceUndisturbed();
    steps := CREATIONS + (FIRST_CLEANUP + SECOND_CLEANUP);
  }

  const CREATIONS := [Create(1, "a"), Create(2, "b")]
  const FIRST_CLEANUP := [Enter(2), List(["a", "b"]), Purge, Exit]
  const SECOND_CLEANUP := [Enter(1), UseCache, Delete, Purge, Exit]

  const AFTER_CREATIONS := State({"a", "b"}, 0, None, {1, 2}, None, 0, 0, false)
  const AFTER_FIRST := State({"a", "b"}, 2, Some(["a", "b"]), {1}, None, 0, 1, true)
  const AFTER_SECOND := State({"b"}, 2, Some(["b"]), {}, None, 0, 1, true)

  lemma TraceUndisturbed()
    ensures var steps := CREATIONS + (FIRST_CLEANUP + SECOND_CLEANUP);
      forall i :: 0 <= i < |steps| ==> Undisturbed(steps[i])
  {
  }

  lemma TwoCreations()
    ensures Feasible(INIT, CREATIONS, 2) && Final(INIT, CREATIONS) == AFTER_CREATIONS
  {
    var before, s2 := CREATIONS, AFTER_CREATIONS;
    var s1 := State({"a"}, 0, None, {1}, None, 0, 0, false);
    assert before[1..] == [Create(2, "b")] && [Create(2, "b")][1..] == [];
    assert Apply(INIT, before[0]) == s1;
    assert Apply(s1, Create(2, "b")) == s2;
    assert Feasible(s1, [Create(2, "b")], 2) && Final(s1, [Create(2, "b")]) == s2;
  }

  lemma FirstCleanup()
    ensures Feasible(AFTER_CREATIONS, FIRST_CLEANUP, 2) && Final(AFTER_CREATIONS, FIRST_CLEANUP) == AFTER_FIRST
  {
    var first, s2, s6 := FIRST_CLEANUP, AFTER_CREATIONS, AFTER_FIRST;
    var a1 := Apply(s2, first[0]);
    assert a1.pending == {1};
    var a2 := Apply(a1, first[1]);
    assert Elems(["a", "b"]) == {"a", "b"};
    var a3 := Apply(a2, first[2]);
    assert first[1..][1..] == [Purge, Exit] && [Purge, Exit][1..] == [Exit] && [Exit][1..] == [];
    assert Feasible(a3, [Exit], 2) && Final(a3, [Exit]) == s6;
    assert Feasible(a2, [Purge, Exit], 2) && Final(a2, [Purge, Exit]) == s6;
  }

  lemma SecondCleanup()
    ensures Feasible(AFTER_FIRST, SECOND_CLEANUP, 2) && Final(AFTER_FIRST, SECOND_CLEANUP) == AFTER_SECOND
  {
    var second, s6, s11 := SECOND_CLEANUP, AFTER_FIRST, AFTER_SECOND;
    var b1 := Apply(s6, second[0]);
    assert b1.pending == {};
    var b2 := Apply(b1, second[1]);
    var b3 := Apply(b2, second[2]);
    assert ["a", "b"][1..] == ["b"];
    assert b3.live == {"b"};
    var b4 := Apply(b3, second[3]);
    assert second[1..][1..] == [Delete, Purge, Exit];
    assert [Delete, Purge, Exit][1..] == [Purge, Exit] && [Purge, Exit][1..] == [Exit] && [Exit][1..] == [];
    assert Feasible(b4, [Exit], 2) && Final(b4, [Exit]) == s11;
    assert Feasible(b3, [Purge, Exit], 2) && Final(b3, [Purge, Exit]) == s11;
    assert Feasible(b2, [Delete, Purge, Exit], 2) && Final(b2, [Delete, Purge, Exit]) == s11;
  }

  lemma {:induction false} Compose(s: State, a: seq<Step>, b: seq<Step>, retain: int)
    requires Feasible(s, a, retain) && Feasible(Final(s, a), b, retain)
    ensures Feasible(s, a + b, retain) && Final(s, a + b) == Final(Final(s, a), b)
    decreases |a|
  {
    if a == [] {
      assert a + b == b;
    } else {
      assert (a + b)[1..] == a[1..] + b;
      Compose(Apply(s, a[0]), a[1..], b, retain);
    }
  }
}
