/** Rebuilding within one attachment. The monitor checks the volume again and again; a check
    that finds too few good replicas creates one and spawns a goroutine that adds it to the
    engine. The goroutine itself raises the adding counter that later checks look at, and a
    check reads the engine's replicas some time before it reads the counter. */
module Rebuild {
  import opened Collections
  import opened Strings

  datatype Mode = RW | WO | ERR

  /** A check under way: what its listing showed, and whether a replica has joined the engine
      since then. */
  datatype Seen = Seen(good: nat, writeOnly: nat, stale: bool)

  /** `spawned` are the goroutines that have not yet raised the counter, `counted` those that
      have and have not yet lowered it. */
  datatype State = State(
    engine: map<string, Mode>, spawned: set<string>, counted: set<string>, counter: int, check: Option<Seen>)

  datatype Event =
    | List                   // a check lists the replicas and gets rid of the ERR ones
    | Decide(name: string)   // the check reads the counter and may create replica `name`
    | Abandon                // the check ends otherwise: a removal, a creation or a start failed
    | Count(name: string)    // a goroutine raises the counter
    | Join(name: string)     // its replica appears in the engine, write-only
    | Promote(name: string)  // the replica has caught up
    | Finish(name: string)   // the goroutine lowers the counter, whether or not adding worked
    | Break(name: string)    // a replica fails
    | Remove(name: string)   // a replica is removed from the engine

  function InMode(engine: map<string, Mode>, mode: Mode): set<string> {
    set n | n in engine && engine[n] == mode
  }

  function WithoutErr(engine: map<string, Mode>): map<string, Mode> {
    map n | n in engine && engine[n] != ERR :: engine[n]
  }

  function InFlight(s: State): set<string> {
    s.spawned + s.counted
  }

  /** The decision of a check, on what it listed and the counter it reads. */
  predicate Spawns(s: State, wanted: int) {
    s.check.Some? && 0 < s.check.value.good < wanted && s.check.value.writeOnly == 0 && s.counter == 0
  }

  predicate Enabled(s: State, e: Event) {
    match e
    case List => s.check.None?
    case Decide(n) => s.check.Some? && n !in s.engine && n !in InFlight(s)
    case Abandon => s.check.Some?
    case Count(n) => n in s.spawned
    case Join(n) => n in s.counted && n !in s.engine
    case Promote(n) => n in s.engine && s.engine[n] == WO
    case Finish(n) => n in s.counted
    case Break(n) => n in s.engine
    case Remove(n) => n in s.engine
  }

  function Apply(s: State, e: Event, wanted: int): State {
    match e
    case List =>
      var engine := WithoutErr(s.engine);
      s.(engine := engine, check := Some(Seen(|InMode(engine, RW)|, |InMode(engine, WO)|, false)))
    case Decide(n) =>
      s.(check := None, spawned := if Spawns(s, wanted) then s.spawned + {n} else s.spawned)
    case Abandon => s.(check := None)
    case Count(n) => s.(spawned := s.spawned - {n}, counted := s.counted + {n}, counter := s.counter + 1)
    case Join(n) =>
      s.(engine := s.engine[n := WO], check := if s.check.Some? then Some(s.check.value.(stale := true)) else None)
    case Promote(n) => s.(engine := s.engine[n := RW])
    case Finish(n) => s.(counted := s.counted - {n}, counter := s.counter - 1)
    case Break(n) => s.(engine := s.engine[n := ERR])
    case Remove(n) => s.(engine := s.engine - {n})
  }

  predicate Feasible(s: State, events: seq<Event>, wanted: int)
    decreases |events|
  {
    events == [] || (Enabled(s, events[0]) && Feasible(Apply(s, events[0], wanted), events[1..], wanted))
  }

  function Final(s: State, events: seq<Event>, wanted: int): State
    decreases |events|
  {
    if events == [] then s else Final(Apply(s, events[0], wanted), events[1..], wanted)
  }

  /** The start of an attachment. */
  function Init(engine: map<string, Mode>): State {
    State(engine, {}, {}, 0, None)
  }

  // ---- the counter ----

  /** The counter is the number of adds that have been counted; spawned and counted are apart. */
  predicate Counted(s: State) {
    s.counter == |s.counted| && s.spawned !! s.counted
  }

  lemma StepKeepsCounted(s: State, e: Event, wanted: int)
    requires Counted(s) && Enabled(s, e)
    ensures Counted(Apply(s, e, wanted))
  {
  }

  /** Over every run, with or without races, the counter is exactly the number of counted adds,
      so it is never negative. */
  lemma {:induction false} CounterExact(s: State, events: seq<Event>, wanted: int)
    requires Counted(s) && Feasible(s, events, wanted)
    ensures Counted(Final(s, events, wanted)) && Final(s, events, wanted).counter >= 0
    decreases |events|
  {
    if events != [] {
      StepKeepsCounted(s, events[0], wanted);
      CounterExact(Apply(s, events[0], wanted), events[1..], wanted);
    }
  }

  // ---- what a check does ----

  function Good(engine: map<string, Mode>): set<string> {
    set n | n in engine && engine[n] == RW
  }

  /** A check that nothing disturbs gets rid of the ERR replicas, keeps the others, and creates one
      more if and only if there are some good replicas but fewer than wanted, none is write-only
      and the counter is 0. */
  lemma CheckCreatesIff(s: State, n: string, wanted: int)
    requires s.check.None? && n !in s.engine && n !in InFlight(s)
    ensures var listed := Apply(s, List, wanted); var s' := Apply(listed, Decide(n), wanted);
      && Enabled(s, List) && Enabled(listed, Decide(n)) && s'.check.None?
      && (forall m :: m in s'.engine <==> m in s.engine && s.engine[m] != ERR)
      && (forall m :: m in s'.engine ==> s'.engine[m] == s.engine[m])
      && (s'.spawned != s.spawned <==>
            0 < |Good(s.engine)| < wanted && (forall m :: m in s.engine ==> s.engine[m] != WO) && s.counter == 0)
      && (s'.spawned == s.spawned || s'.spawned == s.spawned + {n})
      && s'.counted == s.counted && s'.counter == s.counter
  {
    var engine := WithoutErr(s.engine);
    assert InMode(engine, RW) == Good(s.engine);
    forall m | m in s.engine && s.engine[m] == WO ensures m in InMode(engine, WO) {
    }
    forall m | m in InMode(engine, WO) ensures m in s.engine && s.engine[m] == WO {
    }
  }

  /** An add from its goroutine's first step to its last: the new replica is good in the end, and
      no later check counts it as being added. */
  lemma WholeAdd(s: State, n: string, wanted: int)
    requires Counted(s) && n in s.spawned && n !in s.engine
    ensures var events := [Count(n)] + ([Join(n)] + ([Promote(n)] + ([Finish(n)] + [])));
      var f := Final(s, events, wanted);
      && Feasible(s, events, wanted)
      && f.engine == s.engine[n := RW] && f.counter == s.counter && f.counted == s.counted
      && f.spawned == s.spawned - {n} && (s.check.Some? ==> f.check == Some(s.check.value.(stale := true)))
  {
    var s1 := Apply(s, Count(n), wanted);
    var s2 := Apply(s1, Join(n), wanted);
    var s3 := Apply(s2, Promote(n), wanted);
    RunStep(s, Count(n), [Join(n)] + ([Promote(n)] + ([Finish(n)] + [])), wanted);
    RunStep(s1, Join(n), [Promote(n)] + ([Finish(n)] + []), wanted);
    RunStep(s2, Promote(n), [Finish(n)] + [], wanted);
    RunStep(s3, Finish(n), [], wanted);
    assert s.engine[n := WO][n := RW] == s.engine[n := RW];
    assert (s.counted + {n}) - {n} == s.counted;
  }

  /** However a check ends, the next one can begin; it drops a replica that has broken. */
  lemma ChecksGoOn(s: State, n: string, m: string, wanted: int)
    requires s.check.Some? && n !in s.engine && n !in InFlight(s)
    ensures Enabled(s, Abandon) && Enabled(Apply(s, Abandon, wanted), List)
    ensures Enabled(s, Decide(n)) && Enabled(Apply(s, Decide(n), wanted), List)
    ensures Enabled(s, Break(m)) ==>
      m !in Apply(Apply(Apply(s, Break(m), wanted), Abandon, wanted), List, wanted).engine
  {
  }

  /** While its replica is joining, no check creates another. */
  lemma JoiningBlocks(s: State, m: string, n: string, wanted: int)
    requires s.check.None? && Enabled(s, Join(m)) && n !in s.engine && n !in InFlight(s) && n != m
    ensures var joined := Apply(s, Join(m), wanted);
      Apply(Apply(joined, List, wanted), Decide(n), wanted).spawned == s.spawned
  {
    var joined := Apply(s, Join(m), wanted);
    CheckCreatesIff(joined, n, wanted);
    assert m in joined.engine && joined.engine[m] == WO;
  }

  // ---- at most one add ----

  /** A check creates a replica while an earlier add is spawned but not yet counted. */
  predicate Overtakes(s: State, e: Event, wanted: int) {
    e.Decide? && Spawns(s, wanted) && s.spawned != {}
  }

  predicate NoneOvertakes(s: State, events: seq<Event>, wanted: int)
    decreases |events|
  {
    events == [] ||
    (!Overtakes(s, events[0], wanted) && NoneOvertakes(Apply(s, events[0], wanted), events[1..], wanted))
  }

  predicate OneAtATime(s: State, events: seq<Event>, wanted: int)
    decreases |events|
  {
    |InFlight(s)| <= 1 && (events == [] || OneAtATime(Apply(s, events[0], wanted), events[1..], wanted))
  }

  lemma StepInFlight(s: State, e: Event, wanted: int)
    requires Counted(s) && Enabled(s, e) && |InFlight(s)| <= 1
    ensures |InFlight(Apply(s, e, wanted))| <= 1 <==> !Overtakes(s, e, wanted)
  {
    var s' := Apply(s, e, wanted);
    match e
    case Decide(n) =>
      if Spawns(s, wanted) {
        assert s.counted == {};
        assert InFlight(s) == s.spawned && InFlight(s') == s.spawned + {n};
      } else {
        assert InFlight(s') == InFlight(s);
      }
    case Count(n) => assert InFlight(s') == InFlight(s);
    case Finish(n) => assert InFlight(s') == InFlight(s) - {n};
    case _ => assert InFlight(s') == InFlight(s);
  }

  /** There is never more than one add in flight if and only if no check creates a replica
      while an earlier one's goroutine has not yet raised the counter. */
  lemma {:induction false} OneAddIff(s: State, events: seq<Event>, wanted: int)
    requires Counted(s) && |InFlight(s)| <= 1 && Feasible(s, events, wanted)
    ensures OneAtATime(s, events, wanted) <==> NoneOvertakes(s, events, wanted)
    decreases |events|
  {
    if events != [] {
      var next := Apply(s, events[0], wanted);
      StepKeepsCounted(s, events[0], wanted);
      StepInFlight(s, events[0], wanted);
      if |InFlight(next)| <= 1 {
        OneAddIff(next, events[1..], wanted);
      }
    }
  }

  // ---- the bound on replicas ----

  function All(s: State): set<string> {
    s.engine.Keys + InFlight(s)
  }

  /** A check creates a replica although there are enough in the engine and on their way. */
  predicate Overfills(s: State, e: Event, wanted: int) {
    e.Decide? && Spawns(s, wanted) && |All(s)| >= wanted
  }

  predicate NoneOverfills(s: State, events: seq<Event>, wanted: int)
    decreases |events|
  {
    events == [] ||
    (!Overfills(s, events[0], wanted) && NoneOverfills(Apply(s, events[0], wanted), events[1..], wanted))
  }

  predicate NeverExceeds(s: State, events: seq<Event>, wanted: int)
    decreases |events|
  {
    |All(s)| <= wanted && (events == [] || NeverExceeds(Apply(s, events[0], wanted), events[1..], wanted))
  }

  /** Only a decision adds to the replicas, and it adds exactly one. */
  lemma StepAll(s: State, e: Event, wanted: int)
    requires Enabled(s, e)
    ensures var after := All(Apply(s, e, wanted));
      if e.Decide? && Spawns(s, wanted) then |after| == |All(s)| + 1 else |after| <= |All(s)|
  {
    var s' := Apply(s, e, wanted);
    if e.Decide? && Spawns(s, wanted) {
      assert All(s') == All(s) + {e.name};
    } else {
      NothingNew(s, e, wanted);
      SubsetSize(All(s'), All(s));
    }
  }

  lemma NothingNew(s: State, e: Event, wanted: int)
    requires Enabled(s, e) && !(e.Decide? && Spawns(s, wanted))
    ensures All(Apply(s, e, wanted)) <= All(s)
  {
    if e.List? {
      assert WithoutErr(s.engine).Keys <= s.engine.Keys;
    }
  }

  /** The engine's replicas and those on their way never exceed the wanted number if and only if
      no check creates one while there are already enough. */
  lemma {:induction false} NeverExceedsIff(s: State, events: seq<Event>, wanted: int)
    requires |All(s)| <= wanted && Feasible(s, events, wanted)
    ensures NeverExceeds(s, events, wanted) <==> NoneOverfills(s, events, wanted)
    decreases |events|
  {
    if events != [] {
      var next := Apply(s, events[0], wanted);
      StepAll(s, events[0], wanted);
      if |All(next)| <= wanted {
        NeverExceedsIff(next, events[1..], wanted);
      } else {
        assert Overfills(s, events[0], wanted);
      }
    }
  }

  /** A check decides on a listing that a replica has joined since. */
  predicate DecidesOnStale(s: State, e: Event, wanted: int) {
    e.Decide? && Spawns(s, wanted) && s.check.value.stale
  }

  predicate Disciplined(s: State, events: seq<Event>, wanted: int)
    decreases |events|
  {
    events == [] ||
    (&& !Overtakes(s, events[0], wanted) && !DecidesOnStale(s, events[0], wanted)
     && Disciplined(Apply(s, events[0], wanted), events[1..], wanted))
  }

  /** The replicas in the engine and those on their way there are no more than wanted, and a
      fresh listing covers the engine. */
  predicate Bounded(s: State, wanted: int) {
    && Counted(s)
    && |All(s)| <= wanted
    && (s.check.Some? && !s.check.value.stale ==> |s.engine| <= s.check.value.good + s.check.value.writeOnly)
  }

  lemma ListingCovers(engine: map<string, Mode>)
    requires ERR !in engine.Values
    ensures |engine| == |InMode(engine, RW)| + |InMode(engine, WO)|
  {
    assert engine.Keys == InMode(engine, RW) + InMode(engine, WO);
    assert |engine| == |engine.Keys|;
  }

  lemma DecideKeepsBounded(s: State, n: string, wanted: int)
    requires Bounded(s, wanted) && Enabled(s, Decide(n))
    requires !Overtakes(s, Decide(n), wanted) && !DecidesOnStale(s, Decide(n), wanted)
    ensures Bounded(Apply(s, Decide(n), wanted), wanted)
  {
    var s' := Apply(s, Decide(n), wanted);
    if Spawns(s, wanted) {
      assert s.counted == {} && s.spawned == {};
      assert All(s') == s.engine.Keys + {n};
      assert |s.engine.Keys| == |s.engine|;
    } else {
      assert All(s') == All(s);
    }
  }

  lemma StepKeepsBounded(s: State, e: Event, wanted: int)
    requires Bounded(s, wanted) && Enabled(s, e)
    requires !Overtakes(s, e, wanted) && !DecidesOnStale(s, e, wanted)
    ensures Bounded(Apply(s, e, wanted), wanted)
  {
    var s' := Apply(s, e, wanted);
    StepKeepsCounted(s, e, wanted);
    if e.Decide? {
      DecideKeepsBounded(s, e.name, wanted);
    } else {
      StepAll(s, e, wanted);
      if e.List? {
        ListingCovers(s'.engine);
      } else if !e.Join? {
        SubsetSize(s'.engine.Keys, s.engine.Keys);
        assert |s'.engine.Keys| == |s'.engine| && |s.engine.Keys| == |s.engine|;
      }
    }
  }

  /** Discipline is a schedule that meets that condition: if no check that creates a replica
      overtakes an add or decides on a stale listing, none overfills, so the wanted number is
      never exceeded, whatever breaks, is removed, finishes or is abandoned in between. */
  lemma {:induction false} RebuildBound(s: State, events: seq<Event>, wanted: int)
    requires Bounded(s, wanted) && Feasible(s, events, wanted) && Disciplined(s, events, wanted)
    ensures NoneOverfills(s, events, wanted) && NeverExceeds(s, events, wanted)
    ensures Bounded(Final(s, events, wanted), wanted)
    decreases |events|
  {
    if events != [] {
      StepKeepsBounded(s, events[0], wanted);
      StepAll(s, events[0], wanted);
      RebuildBound(Apply(s, events[0], wanted), events[1..], wanted);
    }
  }

  lemma StartIsBounded(engine: map<string, Mode>, wanted: int)
    requires |engine| <= wanted
    ensures Bounded(Init(engine), wanted)
  {
    assert All(Init(engine)) == engine.Keys;
    assert |engine.Keys| == |engine|;
  }

  /** One step of a run, taken apart. */
  lemma RunStep(s: State, e: Event, rest: seq<Event>, wanted: int)
    ensures var run := [e] + rest; var next := Apply(s, e, wanted);
      && Final(s, run, wanted) == Final(next, rest, wanted)
      && (Feasible(s, run, wanted) <==> Enabled(s, e) && Feasible(next, rest, wanted))
      && (NoneOvertakes(s, run, wanted) <==> !Overtakes(s, e, wanted) && NoneOvertakes(next, rest, wanted))
  {
    assert ([e] + rest)[1..] == rest;
  }

  /** What a check sees of an engine with one good replica. */
  lemma ListsOneGood(a: string, spawned: set<string>, counted: set<string>, n: int)
    ensures Apply(State(map[a := RW], spawned, counted, n, None), List, 2) ==
      State(map[a := RW], spawned, counted, n, Some(Seen(1, 0, false)))
  {
    assert WithoutErr(map[a := RW]) == map[a := RW];
    assert InMode(map[a := RW], RW) == {a};
    assert InMode(map[a := RW], WO) == {};
  }

  /** The bound does fail. Two checks can both create a replica, because the first one's
      goroutine has not yet raised the counter when the second reads it. */
  lemma OvertakingExceeds(a: string, b: string, c: string)
    requires a != b && b != c && a != c
    ensures var s := Init(map[a := RW]); var events := [List] + ([Decide(b)] + ([List] + ([Decide(c)] + [])));
      && Bounded(s, 2) && Feasible(s, events, 2)
      && InFlight(Final(s, events, 2)) == {b, c} && All(Final(s, events, 2)) == {a, b, c}
  {
    var s := Init(map[a := RW]);
    StartIsBounded(map[a := RW], 2);
    var seen := Some(Seen(1, 0, false));
    var s1 := State(map[a := RW], {}, {}, 0, seen);
    var s2 := State(map[a := RW], {b}, {}, 0, None);
    var s3 := State(map[a := RW], {b}, {}, 0, seen);
    ListsOneGood(a, {}, {}, 0);
    ListsOneGood(a, {b}, {}, 0);
    assert Apply(s1, Decide(b), 2) == s2;
    assert Apply(s3, Decide(c), 2) == State(map[a := RW], {b, c}, {}, 0, None);
    RunStep(s, List, [Decide(b)] + ([List] + ([Decide(c)] + [])), 2);
    RunStep(s1, Decide(b), [List] + ([Decide(c)] + []), 2);
    RunStep(s2, List, [Decide(c)] + [], 2);
    RunStep(s3, Decide(c), [], 2);
  }

  /** A check under way that saw one good replica, and the add of `b` around it. */
  function During(a: string, b: string, mode: Option<Mode>): State {
    match mode
    case None => State(map[a := RW], {}, {b}, 1, Some(Seen(1, 0, false)))
    case Some(m) => State(map[a := RW, b := m], {}, {b}, 1, Some(Seen(1, 0, true)))
  }

  function AfterAdd(a: string, b: string): State {
    State(map[a := RW, b := RW], {}, {}, 0, Some(Seen(1, 0, true)))
  }

  lemma DuringReachable(a: string, b: string)
    requires a != b
    ensures var s := Init(map[a := RW]); var events := [List] + ([Decide(b)] + ([Count(b)] + ([List] + [])));
      Feasible(s, events, 2) && Final(s, events, 2) == During(a, b, None)
  {
    var s := Init(map[a := RW]);
    var s1 := State(map[a := RW], {}, {}, 0, Some(Seen(1, 0, false)));
    var s2 := State(map[a := RW], {b}, {}, 0, None);
    var s3 := State(map[a := RW], {}, {b}, 1, None);
    ListsOneGood(a, {}, {}, 0);
    ListsOneGood(a, {}, {b}, 1);
    assert Apply(s1, Decide(b), 2) == s2;
    assert Apply(s2, Count(b), 2) == s3;
    RunStep(s, List, [Decide(b)] + ([Count(b)] + ([List] + [])), 2);
    RunStep(s1, Decide(b), [Count(b)] + ([List] + []), 2);
    RunStep(s2, Count(b), [List] + [], 2);
    RunStep(s3, List, [], 2);
  }

  lemma AddSteps(a: string, b: string)
    requires a != b
    ensures Bounded(During(a, b, None), 2)
    ensures Apply(During(a, b, None), Join(b), 2) == During(a, b, Some(WO))
    ensures Apply(During(a, b, Some(WO)), Promote(b), 2) == During(a, b, Some(RW))
    ensures Apply(During(a, b, Some(RW)), Finish(b), 2) == AfterAdd(a, b)
  {
    assert All(During(a, b, None)) == {a, b};
    assert map[a := RW][b := WO] == map[a := RW, b := WO];
    assert map[a := RW, b := WO][b := RW] == map[a := RW, b := RW];
  }

  lemma DecidesLate(a: string, b: string, c: string)
    requires a != b && b != c && a != c
    ensures var s := AfterAdd(a, b); var run := [Decide(c)] + [];
      Feasible(s, run, 2) && NoneOvertakes(s, run, 2) && All(Final(s, run, 2)) == {a, b, c}
  {
    var s := AfterAdd(a, b);
    RunStep(s, Decide(c), [], 2);
    assert Apply(s, Decide(c), 2) == State(map[a := RW, b := RW], {c}, {}, 0, None);
  }

  /** And even when every add has been counted in time: a whole add can fit between a
      check's listing and its look at the counter. The run starts where DuringReachable ends. */
  lemma StaleListingExceeds(a: string, b: string, c: string)
    requires a != b && b != c && a != c
    ensures var s := During(a, b, None); var events := [Join(b)] + ([Promote(b)] + ([Finish(b)] + ([Decide(c)] + [])));
      && Bounded(s, 2) && Feasible(s, events, 2) && NoneOvertakes(s, events, 2)
      && All(Final(s, events, 2)) == {a, b, c}
  {
    AddSteps(a, b);
    DecidesLate(a, b, c);
    RunStep(During(a, b, None), Join(b), [Promote(b)] + ([Finish(b)] + ([Decide(c)] + [])), 2);
    RunStep(During(a, b, Some(WO)), Promote(b), [Finish(b)] + ([Decide(c)] + []), 2);
    RunStep(During(a, b, Some(RW)), Finish(b), [Decide(c)] + [], 2);
  }
}
