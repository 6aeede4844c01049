/** Fan-out over replicas with a WaitGroup and an unbuffered error channel. The main
    goroutine spawns one goroutine per replica, which may spawn more; a closer waits for the
    WaitGroup and closes the channel; the main goroutine collects until it is closed. The
    model runs arbitrary such programs under every schedule. */
module FanOut {

  /** What one goroutine reports. */
  datatype Kind = RemoveReplica | MarkBad | StopReplica | ParseTime
  datatype Report = Report(replica: nat, kind: Kind, failed: bool)

  /** The part of a goroutine that matters: `wg.Add`, `go`, and sends on the channel. Every
      goroutine ends with its deferred `wg.Done`. */
  datatype Prog = Stop | Add(n: nat, next: Prog) | Go(body: Prog, next: Prog) | Send(report: Report, next: Prog)

  /** A goroutine: what it still has to do, and Adds it made for goroutines not yet spawned. */
  datatype Thread = Thread(prog: Prog, credit: int)

  datatype State = State(main: Thread, threads: seq<Thread>, counter: int, closed: bool, collected: multiset<Report>)

  datatype Step = MainStep | ThreadStep(i: nat) | CloseStep

  /** Every goroutine is announced by an Add that its parent made before spawning it. */
  predicate Announced(p: Prog, credit: int) {
    match p
    case Stop => credit == 0
    case Add(n, next) => Announced(next, credit + n)
    case Go(body, next) => credit >= 1 && Announced(body, 0) && Announced(next, credit - 1)
    case Send(_, next) => Announced(next, credit)
  }

  /** The main goroutine does not send: it is the one that receives. */
  predicate NoSend(p: Prog) {
    match p
    case Stop => true
    case Add(_, next) => NoSend(next)
    case Go(_, next) => NoSend(next)
    case Send(_, _) => false
  }

  /** All reports a goroutine and its descendants send. */
  function Reports(p: Prog): multiset<Report> {
    match p
    case Stop => multiset{}
    case Add(_, next) => Reports(next)
    case Go(body, next) => Reports(body) + Reports(next)
    case Send(r, next) => multiset{r} + Reports(next)
  }

  /** Steps left, the final Done of each spawned goroutine included. */
  function Weight(p: Prog): nat {
    match p
    case Stop => 0
    case Add(_, next) => 1 + Weight(next)
    case Go(body, next) => 1 + (Weight(body) + 1) + Weight(next)
    case Send(_, next) => 1 + Weight(next)
  }

  function Init(p: Prog): State {
    State(Thread(p, 0), [], 0, false, multiset{})
  }

  /** A send is possible only while the main goroutine is collecting. A closed channel is no
      obstacle here: that nobody sends on it is a theorem. */
  predicate Enabled(s: State, step: Step) {
    match step
    case MainStep => !s.main.prog.Stop?
    case ThreadStep(i) => i < |s.threads| && (s.threads[i].prog.Send? ==> s.main.prog.Stop?)
    case CloseStep => s.main.prog.Stop? && s.counter == 0 && !s.closed
  }

  /** The steps that would panic: a send on a closed channel, a Done below zero. */
  predicate Panics(s: State, step: Step) {
    step.ThreadStep? && step.i < |s.threads| &&
      ((s.threads[step.i].prog.Send? && s.closed) || (s.threads[step.i].prog.Stop? && s.counter <= 0))
  }

  /** An Add from zero that races with the closer's Wait misuses the WaitGroup. */
  predicate MisusesWait(s: State, step: Step) {
    step.ThreadStep? && step.i < |s.threads| && s.threads[step.i].prog.Add? && s.counter == 0
  }

  function Advance(t: Thread): Thread {
    match t.prog
    case Stop => t
    case Add(n, next) => Thread(next, t.credit + n)
    case Go(_, next) => Thread(next, t.credit - 1)
    case Send(_, next) => Thread(next, t.credit)
  }

  function Spawned(p: Prog): seq<Thread> {
    if p.Go? then [Thread(p.body, 0)] else []
  }

  function Apply(s: State, step: Step): State {
    match step
    case MainStep =>
      s.(main := Advance(s.main), threads := s.threads + Spawned(s.main.prog),
         counter := if s.main.prog.Add? then s.counter + s.main.prog.n else s.counter)
    case ThreadStep(i) =>
      if i >= |s.threads| then s else
      var t := s.threads[i];
      var others := s.threads[..i] + s.threads[i + 1..];
      if t.prog.Stop? then s.(threads := others, counter := s.counter - 1)
      else
        s.(threads := others + [Advance(t)] + Spawned(t.prog),
           counter := if t.prog.Add? then s.counter + t.prog.n else s.counter,
           collected := if t.prog.Send? then s.collected + multiset{t.prog.report} else s.collected)
    case CloseStep => s.(closed := true)
  }

  // ---- sums over the live goroutines ----

  function Sum(f: Thread -> int, ts: seq<Thread>): int {
    if ts == [] then 0 else Sum(f, ts[..|ts| - 1]) + f(ts[|ts| - 1])
  }

  /** Goroutines that a goroutine has announced and not yet spawned. */
  function Credit(t: Thread): int {
    t.credit
  }

  /** Steps a goroutine still takes, its final Done included. */
  function Work(t: Thread): int {
    Weight(t.prog) + 1
  }

  /** How often a goroutine and its descendants still send `r`. */
  function Sends(r: Report): Thread -> int {
    (t: Thread) => Reports(t.prog)[r] as int
  }

  lemma {:induction false} SumConcat(f: Thread -> int, a: seq<Thread>, b: seq<Thread>)
    ensures Sum(f, a + b) == Sum(f, a) + Sum(f, b)
  {
    if b == [] {
      assert a + b == a;
    } else {
      var n := |b| - 1;
      assert (a + b)[..|a + b| - 1] == a + b[..n];
      SumConcat(f, a, b[..n]);
    }
  }

  lemma SumOne(f: Thread -> int, t: Thread)
    ensures Sum(f, [t]) == f(t)
  {
    assert Sum(f, [t][..0]) == 0;
  }

  lemma SumMiddle(f: Thread -> int, left: seq<Thread>, t: Thread, right: seq<Thread>)
    ensures Sum(f, left + ([t] + right)) == Sum(f, left + right) + f(t)
  {
    SumConcat(f, left, [t] + right);
    SumConcat(f, [t], right);
    SumConcat(f, left, right);
    SumOne(f, t);
  }

  /** Taking one goroutine out takes its share out of the sum. */
  lemma SumWithout(f: Thread -> int, ts: seq<Thread>, i: nat)
    requires i < |ts|
    ensures Sum(f, ts) == Sum(f, ts[..i] + ts[i + 1..]) + f(ts[i])
  {
    var left, t, right := ts[..i], ts[i], ts[i + 1..];
    assert left + ([t] + right) == ts;
    SumMiddle(f, left, t, right);
  }

  /** The share of the goroutine that an operation spawns. */
  function Child(f: Thread -> int, p: Prog): int {
    if p.Go? then f(Thread(p.body, 0)) else 0
  }

  lemma SumSpawn(f: Thread -> int, ts: seq<Thread>, p: Prog)
    ensures Sum(f, ts + Spawned(p)) == Sum(f, ts) + Child(f, p)
  {
    SumConcat(f, ts, Spawned(p));
    if p.Go? {
      SumOne(f, Thread(p.body, 0));
    }
  }

  /** What a step of goroutine `i` does to a sum. */
  lemma SumStep(f: Thread -> int, ts: seq<Thread>, i: nat)
    requires i < |ts|
    ensures var others := ts[..i] + ts[i + 1..]; var t := ts[i];
      && Sum(f, others) == Sum(f, ts) - f(t)
      && Sum(f, others + [Advance(t)] + Spawned(t.prog)) == Sum(f, ts) - f(t) + f(Advance(t)) + Child(f, t.prog)
  {
    var others := ts[..i] + ts[i + 1..];
    var t := ts[i];
    SumWithout(f, ts, i);
    SumSpawn(f, others + [Advance(t)], t.prog);
    SumConcat(f, others, [Advance(t)]);
    SumOne(f, Advance(t));
  }

  // ---- the invariant ----

  predicate Credited(t: Thread) {
    Announced(t.prog, t.credit) && t.credit >= 0
  }

  predicate AllCredited(ts: seq<Thread>) {
    forall i :: 0 <= i < |ts| ==> Credited(ts[i])
  }

  /** The counter is the number of live goroutines plus the announced ones. */
  predicate Counted(s: State) {
    s.counter == |s.threads| + Sum(Credit, s.threads) + s.main.credit
  }

  /** Every report is either collected or still to come. */
  ghost predicate Conserved(s: State, total: multiset<Report>) {
    forall r :: s.collected[r] + Sum(Sends(r), s.threads) + Reports(s.main.prog)[r] == total[r]
  }

  ghost predicate Inv(s: State, total: multiset<Report>) {
    && Credited(s.main) && NoSend(s.main.prog)
    && AllCredited(s.threads)
    && Counted(s)
    && (s.closed ==> s.main.prog.Stop? && s.threads == [])
    && Conserved(s, total)
  }

  lemma {:induction false} CreditsNonNegative(ts: seq<Thread>)
    requires AllCredited(ts)
    ensures Sum(Credit, ts) >= 0
  {
    if ts != [] {
      CreditsNonNegative(ts[..|ts| - 1]);
    }
  }

  lemma AdvanceCredited(t: Thread)
    requires Credited(t) && !t.prog.Stop?
    ensures Credited(Advance(t)) && AllCredited(Spawned(t.prog))
    ensures Advance(t).credit + |Spawned(t.prog)| == t.credit + (if t.prog.Add? then t.prog.n else 0)
    ensures Child(Credit, t.prog) == 0
    ensures NoSend(t.prog) ==> NoSend(Advance(t).prog)
  {
  }

  /** Advancing a goroutine sends what its head operation sends. */
  lemma AdvanceSends(t: Thread, r: Report)
    requires !t.prog.Stop?
    ensures Sends(r)(t) ==
      Sends(r)(Advance(t)) + Child(Sends(r), t.prog) + (if t.prog.Send? then multiset{t.prog.report}[r] else 0)
  {
  }

  lemma MainKeepsCounts(s: State)
    requires Credited(s.main) && NoSend(s.main.prog) && AllCredited(s.threads) && Counted(s) && Enabled(s, MainStep)
    ensures var s' := Apply(s, MainStep);
      Credited(s'.main) && NoSend(s'.main.prog) && AllCredited(s'.threads) && Counted(s')
  {
    AdvanceCredited(s.main);
    SumSpawn(Credit, s.threads, s.main.prog);
  }

  lemma MainConserves(s: State, total: multiset<Report>)
    requires Conserved(s, total) && NoSend(s.main.prog) && Enabled(s, MainStep)
    ensures Conserved(Apply(s, MainStep), total)
  {
    var s' := Apply(s, MainStep);
    forall r ensures s'.collected[r] + Sum(Sends(r), s'.threads) + Reports(s'.main.prog)[r] == total[r] {
      SumSpawn(Sends(r), s.threads, s.main.prog);
      AdvanceSends(s.main, r);
    }
  }

  lemma ThreadKeepsCounts(s: State, i: nat)
    requires AllCredited(s.threads) && Counted(s) && i < |s.threads|
    ensures AllCredited(Apply(s, ThreadStep(i)).threads) && Counted(Apply(s, ThreadStep(i)))
  {
    var t := s.threads[i];
    SumStep(Credit, s.threads, i);
    CreditedStep(s.threads, i);
    if !t.prog.Stop? {
      AdvanceCredited(t);
    }
  }

  lemma CreditedStep(ts: seq<Thread>, i: nat)
    requires AllCredited(ts) && i < |ts|
    ensures var others, t := ts[..i] + ts[i + 1..], ts[i];
      && AllCredited(others)
      && (!t.prog.Stop? ==> AllCredited(others + [Advance(t)] + Spawned(t.prog)))
  {
    var others, t := ts[..i] + ts[i + 1..], ts[i];
    forall k | 0 <= k < |others| ensures Credited(others[k]) {
      assert others[k] == ts[if k < i then k else k + 1];
    }
    if !t.prog.Stop? {
      AdvanceCredited(t);
    }
  }

  lemma ThreadConserves(s: State, i: nat, total: multiset<Report>)
    requires Conserved(s, total) && i < |s.threads|
    ensures Conserved(Apply(s, ThreadStep(i)), total)
  {
    var t := s.threads[i];
    var s' := Apply(s, ThreadStep(i));
    forall r ensures s'.collected[r] + Sum(Sends(r), s'.threads) + Reports(s'.main.prog)[r] == total[r] {
      SumStep(Sends(r), s.threads, i);
      if !t.prog.Stop? {
        AdvanceSends(t, r);
      }
    }
  }

  /** The goroutine counter covers the live goroutines, so while one is left it is positive:
      nothing panics and no Add races with the closer. */
  lemma NoPanic(s: State, step: Step, total: multiset<Report>)
    requires Inv(s, total) && Enabled(s, step)
    ensures !Panics(s, step) && !MisusesWait(s, step)
  {
    CreditsNonNegative(s.threads);
  }

  lemma StepKeepsInv(s: State, step: Step, total: multiset<Report>)
    requires Inv(s, total) && Enabled(s, step)
    ensures Inv(Apply(s, step), total)
  {
    match step
    case MainStep =>
      MainKeepsCounts(s);
      MainConserves(s, total);
    case ThreadStep(i) =>
      ThreadKeepsCounts(s, i);
      ThreadConserves(s, i, total);
    case CloseStep =>
      CreditsNonNegative(s.threads);
      assert Counted(Apply(s, step)) && Conserved(Apply(s, step), total);
  }

  /** Steps left until everything is done. */
  function Remaining(s: State): int {
    Weight(s.main.prog) + Sum(Work, s.threads) + (if s.closed then 0 else 1)
  }

  lemma AdvanceWorks(t: Thread)
    requires !t.prog.Stop?
    ensures Work(Advance(t)) + Child(Work, t.prog) == Work(t) - 1
  {
  }

  /** Every step brings the end one step closer. */
  lemma StepProgresses(s: State, step: Step)
    requires Enabled(s, step)
    ensures Remaining(Apply(s, step)) == Remaining(s) - 1
  {
    match step
    case MainStep =>
      SumSpawn(Work, s.threads, s.main.prog);
      AdvanceWorks(s.main);
    case ThreadStep(i) =>
      var t := s.threads[i];
      SumStep(Work, s.threads, i);
      if !t.prog.Stop? {
        AdvanceWorks(t);
      }
    case CloseStep =>
  }

  /** There is no deadlock: until the channel is closed some step is enabled. */
  lemma CanStep(s: State, total: multiset<Report>) returns (step: Step)
    requires Inv(s, total) && !s.closed
    ensures Enabled(s, step)
  {
    if !s.main.prog.Stop? {
      step := MainStep;
    } else if s.threads != [] {
      step := ThreadStep(0);
    } else {
      step := CloseStep;
    }
  }

  predicate Feasible(s: State, steps: seq<Step>)
    decreases |steps|
  {
    steps == [] || (Enabled(s, steps[0]) && Feasible(Apply(s, steps[0]), steps[1..]))
  }

  function Final(s: State, steps: seq<Step>): State
    decreases |steps|
  {
    if steps == [] then s else Final(Apply(s, steps[0]), steps[1..])
  }

  lemma {:induction false} ScheduleKeepsInv(s: State, steps: seq<Step>, total: multiset<Report>)
    requires Inv(s, total) && Feasible(s, steps)
    ensures Inv(Final(s, steps), total)
    ensures Remaining(Final(s, steps)) == Remaining(s) - |steps|
    decreases |steps|
  {
    if steps != [] {
      StepKeepsInv(s, steps[0], total);
      StepProgresses(s, steps[0]);
      ScheduleKeepsInv(Apply(s, steps[0]), steps[1..], total);
    }
  }

  lemma {:induction false} WeightsPositive(ts: seq<Thread>)
    ensures Sum(Work, ts) >= |ts|
  {
    if ts != [] {
      WeightsPositive(ts[..|ts| - 1]);
    }
  }

  /** The counter equals the live and announced goroutines, and no step that can be taken
      next panics or misuses the WaitGroup. */
  ghost predicate Safe(s: State) {
    Counted(s) && forall step :: Enabled(s, step) ==> !Panics(s, step) && !MisusesWait(s, step)
  }

  ghost predicate Finished(s: State) {
    forall step :: !Enabled(s, step)
  }

  /** Safety and liveness for any announced program and any schedule of it: it is safe
      throughout, there is no deadlock, every schedule that runs to the end takes the same
      number of steps, and when the channel is closed every report has been collected
      exactly once. */
  lemma FanOutIsSafe(p: Prog, steps: seq<Step>)
    requires Announced(p, 0) && NoSend(p) && Feasible(Init(p), steps)
    ensures var f := Final(Init(p), steps);
      && Safe(f)
      && |steps| <= Weight(p) + 1
      && (f.closed <==> |steps| == Weight(p) + 1)
      && (f.closed <==> Finished(f))
      && (f.closed ==> f.collected == Reports(p))
  {
    var total := Reports(p);
    ScheduleKeepsInv(Init(p), steps, total);
    var f := Final(Init(p), steps);
    WeightsPositive(f.threads);
    forall step | Enabled(f, step) ensures !Panics(f, step) && !MisusesWait(f, step) {
      NoPanic(f, step, total);
    }
    if f.closed {
      forall r ensures f.collected[r] == total[r] {
        assert Sum(Sends(r), f.threads) == 0;
      }
    } else {
      var step := CanStep(f, total);
    }
  }

  // ---- the fan-outs of the manager ----

  /** One announced goroutine per replica. */
  function ForEach(bodies: seq<Prog>): Prog {
    if bodies == [] then Stop
    else
      var n := |bodies| - 1;
      Add(1, Go(bodies[n], ForEach(bodies[..n])))
  }

  /** Goroutine `i` is announced and sends each report about replica `i` that is expected
      once, and nothing else. */
  ghost predicate SendsExactly(p: Prog, i: nat, expected: Report -> bool) {
    && Announced(p, 0)
    && forall r :: Reports(p)[r] == if r.replica == i && expected(r) then 1 else 0
  }

  /** If each goroutine sends exactly what is expected of it, so does the whole fan-out. */
  lemma {:induction false} ForEachSends(bodies: seq<Prog>, expected: Report -> bool)
    requires forall i :: 0 <= i < |bodies| ==> SendsExactly(bodies[i], i, expected)
    ensures Announced(ForEach(bodies), 0) && NoSend(ForEach(bodies))
    ensures forall r :: Reports(ForEach(bodies))[r] == if r.replica < |bodies| && expected(r) then 1 else 0
  {
    if bodies != [] {
      var n := |bodies| - 1;
      var rest := ForEach(bodies[..n]);
      ForEachSends(bodies[..n], expected);
      assert SendsExactly(bodies[n], n, expected);
      assert Announced(Go(bodies[n], rest), 1);
      assert Reports(ForEach(bodies)) == Reports(bodies[n]) + Reports(rest);
    }
  }

  /** What every schedule of such a fan-out collects by the time the channel is closed. */
  lemma CollectsExactly(bodies: seq<Prog>, expected: Report -> bool, steps: seq<Step>)
    requires forall i :: 0 <= i < |bodies| ==> SendsExactly(bodies[i], i, expected)
    requires Feasible(Init(ForEach(bodies)), steps)
    ensures var f := Final(Init(ForEach(bodies)), steps);
      && Safe(f)
      && (f.closed <==> Finished(f))
      && (f.closed ==> forall r :: f.collected[r] == if r.replica < |bodies| && expected(r) then 1 else 0)
  {
    ForEachSends(bodies, expected);
    FanOutIsSafe(ForEach(bodies), steps);
  }

  /** Attach and detach: stop or start each replica, and report only failures. */
  function StopBody(i: nat, failed: bool): Prog {
    if failed then Send(Report(i, StopReplica, true), Stop) else Stop
  }

  function StopAll(failed: seq<bool>): Prog {
    ForEach(seq(|failed|, i requires 0 <= i < |failed| => StopBody(i, failed[i])))
  }

  predicate StopExpected(failed: seq<bool>, r: Report) {
    r.replica < |failed| && failed[r.replica] && r == Report(r.replica, StopReplica, true)
  }

  /** The health check: for each ERR replica, remove it from the engine and mark it bad. */
  datatype CheckOutcome = CheckOutcome(removeFails: bool, markFails: bool)

  function CheckBody(i: nat, o: CheckOutcome): Prog {
    Add(2,
      Go(Send(Report(i, RemoveReplica, o.removeFails), Stop),
      Go(Send(Report(i, MarkBad, o.markFails), Stop),
      Stop)))
  }

  function CheckAll(errs: seq<CheckOutcome>): Prog {
    ForEach(seq(|errs|, i requires 0 <= i < |errs| => CheckBody(i, errs[i])))
  }

  predicate CheckExpected(errs: seq<CheckOutcome>, r: Report) {
    && r.replica < |errs|
    && var o := errs[r.replica];
      r == Report(r.replica, RemoveReplica, o.removeFails) || r == Report(r.replica, MarkBad, o.markFails)
  }

  /** The periodic cleanup: for each bad replica, stop it if it runs, and remove it once it
      has been bad for long enough; an unreadable timestamp is reported instead. */
  datatype BadReplica = BadReplica(running: bool, stopFails: bool, readable: bool, expired: bool, removeFails: bool)

  function RemovePart(i: nat, b: BadReplica): Prog {
    if !b.readable then Send(Report(i, ParseTime, true), Stop)
    else if b.expired then Add(1, Go(Send(Report(i, RemoveReplica, b.removeFails), Stop), Stop))
    else Stop
  }

  function CleanupBody(i: nat, b: BadReplica): Prog {
    if b.running
    then Add(1, Go(Send(Report(i, StopReplica, b.stopFails), Stop), RemovePart(i, b)))
    else RemovePart(i, b)
  }

  function CleanupAll(bad: seq<BadReplica>): Prog {
    ForEach(seq(|bad|, i requires 0 <= i < |bad| => CleanupBody(i, bad[i])))
  }

  predicate CleanupExpected(bad: seq<BadReplica>, r: Report) {
    && r.replica < |bad|
    && var b := bad[r.replica];
      || (r.kind == StopReplica && b.running && r.failed == b.stopFails)
      || (r.kind == ParseTime && !b.readable && r.failed)
      || (r.kind == RemoveReplica && b.readable && b.expired && r.failed == b.removeFails)
  }

  lemma CheckBodySends(errs: seq<CheckOutcome>, i: nat)
    requires i < |errs|
    ensures SendsExactly(CheckBody(i, errs[i]), i, (r: Report) => CheckExpected(errs, r))
  {
    var remove := Send(Report(i, RemoveReplica, errs[i].removeFails), Stop);
    var mark := Send(Report(i, MarkBad, errs[i].markFails), Stop);
    assert Announced(Stop, 0);
    assert Announced(mark, 0) && Announced(remove, 0);
    assert Announced(Go(mark, Stop), 1);
    assert Announced(Go(remove, Go(mark, Stop)), 2);
    assert Reports(Go(mark, Stop)) == multiset{mark.report};
    assert Reports(Go(remove, Go(mark, Stop))) == multiset{remove.report, mark.report};
    assert Reports(CheckBody(i, errs[i])) == multiset{remove.report, mark.report};
  }

  lemma RemovePartSends(i: nat, b: BadReplica)
    ensures Announced(RemovePart(i, b), 0)
    ensures Reports(RemovePart(i, b)) ==
      if !b.readable then multiset{Report(i, ParseTime, true)}
      else if b.expired then multiset{Report(i, RemoveReplica, b.removeFails)}
      else multiset{}
  {
    var remove := Send(Report(i, RemoveReplica, b.removeFails), Stop);
    assert Announced(Stop, 0) && Announced(remove, 0);
    assert Reports(remove) == multiset{remove.report};
    assert Announced(Go(remove, Stop), 1) && Reports(Go(remove, Stop)) == multiset{remove.report};
  }

  /** The reports about replica `i`, as a multiset. */
  function CleanupReports(i: nat, b: BadReplica): multiset<Report> {
    (if b.running then multiset{Report(i, StopReplica, b.stopFails)} else multiset{}) +
    (if !b.readable then multiset{Report(i, ParseTime, true)}
     else if b.expired then multiset{Report(i, RemoveReplica, b.removeFails)}
     else multiset{})
  }

  lemma CleanupBodyReports(i: nat, b: BadReplica)
    ensures Announced(CleanupBody(i, b), 0)
    ensures Reports(CleanupBody(i, b)) == CleanupReports(i, b)
  {
    var tail := RemovePart(i, b);
    RemovePartSends(i, b);
    if b.running {
      var halt := Send(Report(i, StopReplica, b.stopFails), Stop);
      assert Announced(halt, 0) && Reports(halt) == multiset{halt.report};
      assert Announced(Go(halt, tail), 1);
      assert Reports(Go(halt, tail)) == Reports(halt) + Reports(tail);
    }
  }

  lemma CleanupBodySends(bad: seq<BadReplica>, i: nat)
    requires i < |bad|
    ensures SendsExactly(CleanupBody(i, bad[i]), i, (r: Report) => CleanupExpected(bad, r))
  {
    CleanupBodyReports(i, bad[i]);
  }

  /** The health check's fan-out: whatever the schedule, nothing panics, the channel is
      closed exactly when everything is done, and by then each ERR replica has exactly one
      remove and one mark result and there is no other. */
  lemma CheckCollectsEverything(errs: seq<CheckOutcome>, steps: seq<Step>)
    requires Feasible(Init(CheckAll(errs)), steps)
    ensures var f := Final(Init(CheckAll(errs)), steps);
      && Safe(f)
      && (f.closed <==> Finished(f))
      && (f.closed ==> forall r :: f.collected[r] == if CheckExpected(errs, r) then 1 else 0)
  {
    var bodies := seq(|errs|, i requires 0 <= i < |errs| => CheckBody(i, errs[i]));
    forall i | 0 <= i < |bodies| ensures SendsExactly(bodies[i], i, (r: Report) => CheckExpected(errs, r)) {
      CheckBodySends(errs, i);
    }
    CollectsExactly(bodies, (r: Report) => CheckExpected(errs, r), steps);
  }

  /** The cleanup's fan-out likewise: one stop result for each running bad replica, one
      remove result for each expired one, one complaint for each unreadable timestamp. */
  lemma CleanupCollectsEverything(bad: seq<BadReplica>, steps: seq<Step>)
    requires Feasible(Init(CleanupAll(bad)), steps)
    ensures var f := Final(Init(CleanupAll(bad)), steps);
      && Safe(f)
      && (f.closed <==> Finished(f))
      && (f.closed ==> forall r :: f.collected[r] == if CleanupExpected(bad, r) then 1 else 0)
  {
    var bodies := seq(|bad|, i requires 0 <= i < |bad| => CleanupBody(i, bad[i]));
    forall i | 0 <= i < |bodies| ensures SendsExactly(bodies[i], i, (r: Report) => CleanupExpected(bad, r)) {
      CleanupBodySends(bad, i);
    }
    CollectsExactly(bodies, (r: Report) => CleanupExpected(bad, r), steps);
  }

  /** Stopping or starting the replicas: when the channel is closed there is one error for
      each call that failed, so the error list is empty if and only if all succeeded. */
  lemma StopCollectsFailures(failed: seq<bool>, steps: seq<Step>)
    requires Feasible(Init(StopAll(failed)), steps)
    ensures var f := Final(Init(StopAll(failed)), steps);
      && Safe(f)
      && (f.closed <==> Finished(f))
      && (f.closed ==> forall r :: f.collected[r] == if StopExpected(failed, r) then 1 else 0)
      && (f.closed ==> (f.collected == multiset{} <==> forall i :: 0 <= i < |failed| ==> !failed[i]))
  {
    var bodies := seq(|failed|, i requires 0 <= i < |failed| => StopBody(i, failed[i]));
    forall i | 0 <= i < |bodies| ensures SendsExactly(bodies[i], i, (r: Report) => StopExpected(failed, r)) {
      assert bodies[i] == StopBody(i, failed[i]);
      assert Announced(bodies[i], 0);
      assert Reports(bodies[i]) == if failed[i] then multiset{Report(i, StopReplica, true)} else multiset{};
    }
    CollectsExactly(bodies, (r: Report) => StopExpected(failed, r), steps);
    var f := Final(Init(StopAll(failed)), steps);
    if f.closed {
      forall i | 0 <= i < |failed| && failed[i] ensures f.collected != multiset{} {
        assert f.collected[Report(i, StopReplica, true)] == 1;
      }
    }
  }
}
