/** The single background worker of a controller, the submitters and a viewer. The task view
    concatenates the latest tasks, read under a lock, with the queue, read later by a
    request to the queue's loop; submitters and the worker move in between. */
module BgTasks {
  import opened Strings
  import opened TaskQueue

  /** Where the worker is: about to take, waiting in the queue, between taking a task and
      publishing it as running, running it, or gone. */
  datatype Worker = Idle | Waiting | Holding(task: Task) | Running | Stopped

  datatype System = System(q: State, closed: bool, worker: Worker, last: Option<Task>, running: Option<Task>)

  datatype Event = Submit(payload: int) | WorkerTakes | Begin | Finish | Close

  const WORKER := 0
  const VIEWER := 1

  const INIT := System(EMPTY, false, Idle, None, None)

  predicate Enabled(s: System, e: Event) {
    match e
    case Submit(_) => true
    case WorkerTakes => s.worker.Idle?
    case Begin => s.worker.Holding?
    case Finish => s.worker.Running?
    case Close => true
  }

  /** The queue handles one request; a delivery wakes or feeds the worker. */
  function Served(s: System, r: Request, otherwise: Worker): System {
    var (q, out) := Handle(s.q, r);
    s.(q := q, worker := if out != [] && out[0].Deliver? then Holding(out[0].task) else otherwise)
  }

  /** A put or take on a closed queue is dropped, and the take yields nil. */
  function Apply(s: System, e: Event): System {
    match e
    case Submit(payload) => if s.closed then s else Served(s, Put(payload), s.worker)
    case WorkerTakes => if s.closed then s.(worker := Stopped) else Served(s, Take(WORKER), Waiting)
    case Begin => if s.worker.Holding? then s.(running := Some(s.worker.task), worker := Running) else s
    case Finish => s.(last := s.running, running := None, worker := Idle)
    case Close => s.(closed := true, worker := if s.worker.Waiting? then Stopped else s.worker)
  }

  function Optional(t: Option<Task>): seq<Task> {
    if t.Some? then [t.value] else []
  }

  /** LatestBgTasks: the last finished task, then the running one. */
  function Latest(s: System): seq<Task> {
    Optional(s.last) + Optional(s.running)
  }

  /** What the queue's loop replies to a list request; on a closed queue that yields nothing. */
  function Queued(s: System): seq<Task> {
    var (_, out) := Handle(s.q, List(VIEWER));
    if !s.closed && out != [] && out[0].Listing? then out[0].tasks else []
  }

  /** The view reads the latest tasks in `s` and the queue in a later state `s'`. */
  function View(s: System, s': System): seq<Task> {
    Latest(s) + Queued(s')
  }

  function Taken(s: System): int {
    s.q.i - |s.q.queue|
  }

  /** The tasks put before the queue was closed, numbered in order. */
  function Submitted(events: seq<Event>): seq<Task> {
    if events == [] then []
    else
      var n := |events| - 1;
      var before := Submitted(events[..n]);
      if events[n].Submit? && Close !in events then before + [Task(|before| + 1, events[n].payload)] else before
  }

  lemma SubmittedNext(events: seq<Event>, n: nat)
    requires n < |events|
    ensures var before, e := Submitted(events[..n]), events[n];
      Submitted(events[..n + 1]) ==
        if e.Submit? && Close !in events[..n] then before + [Task(|before| + 1, e.payload)] else before
    ensures Close in events[..n + 1] <==> Close in events[..n] || events[n] == Close
  {
    assert events[..n + 1][..n] == events[..n] && events[..n + 1] == events[..n] + [events[n]];
  }

  /** Of the submitted tasks, the worker has taken a first part in order: it holds or runs the
      last of these, the one before is the last finished, and the rest is queued. */
  predicate Inv(s: System, tasks: seq<Task>) {
    var n := Taken(s);
    && |tasks| == s.q.i && (forall k :: 0 <= k < |tasks| ==> tasks[k].num == k + 1)
    && 0 <= n && (forall k :: 0 <= k < |s.q.queue| ==> s.q.queue[k] == tasks[n + k])
    && |s.q.takers| <= 1
    && (s.q.takers != [] ==> s.q.queue == [] && (s.worker.Waiting? || s.closed))
    && (s.worker.Waiting? ==> s.q.takers != [] && !s.closed)
    && (s.worker.Running? <==> s.running.Some?)
    && (s.worker.Holding? ==> n > 0 && s.worker.task == tasks[n - 1])
    && (s.running.Some? ==> n > 0 && s.running.value == tasks[n - 1])
    && s.last == Finished(tasks, if s.worker.Holding? || s.worker.Running? then n - 1 else n)
  }

  function Finished(tasks: seq<Task>, n: int): Option<Task> {
    if 0 < n <= |tasks| then Some(tasks[n - 1]) else None
  }

  function SubmittedAfter(s: System, e: Event, tasks: seq<Task>): seq<Task> {
    if e.Submit? && !s.closed then tasks + [Task(|tasks| + 1, e.payload)] else tasks
  }

  lemma StepKeepsInv(s: System, e: Event, tasks: seq<Task>)
    requires Inv(s, tasks) && Enabled(s, e)
    ensures Inv(Apply(s, e), SubmittedAfter(s, e, tasks)) && Taken(s) <= Taken(Apply(s, e))
  {
    match e
    case Submit(payload) =>
      if !s.closed {
        SubmitKeepsInv(s, payload, tasks);
      }
    case WorkerTakes => TakeKeepsInv(s, tasks);
    case _ =>
  }

  lemma SubmitKeepsInv(s: System, payload: int, tasks: seq<Task>)
    requires Inv(s, tasks) && !s.closed
    ensures var s' := Apply(s, Submit(payload));
      Inv(s', tasks + [Task(|tasks| + 1, payload)]) && Taken(s) <= Taken(s')
  {
  }

  lemma TakeKeepsInv(s: System, tasks: seq<Task>)
    requires Inv(s, tasks) && Enabled(s, WorkerTakes)
    ensures Inv(Apply(s, WorkerTakes), tasks) && Taken(s) <= Taken(Apply(s, WorkerTakes))
  {
  }

  /** What has happened so far says where everything is. */
  predicate After(s: System, past: seq<Event>) {
    if s.closed <==> Close in past then Inv(s, Submitted(past)) else false
  }

  lemma AfterNext(s: System, events: seq<Event>, n: nat)
    requires n < |events| && After(s, events[..n]) && Enabled(s, events[n])
    ensures After(Apply(s, events[n]), events[..n + 1]) && Taken(s) <= Taken(Apply(s, events[n]))
  {
    var tasks, next := Submitted(events[..n]), Submitted(events[..n + 1]);
    var s' := Apply(s, events[n]);
    assert next == SubmittedAfter(s, events[n], tasks) && (s'.closed <==> Close in events[..n + 1]) by {
      SubmittedNext(events, n);
    }
    StepKeepsInv(s, events[n], tasks);
  }

  /** A run: states connected by enabled events. */
  predicate IsRun(states: seq<System>, events: seq<Event>) {
    && |states| == |events| + 1
    && states[0] == INIT
    && forall i :: 0 <= i < |events| ==> Enabled(states[i], events[i]) && states[i + 1] == Apply(states[i], events[i])
  }

  lemma {:induction false} InvHolds(states: seq<System>, events: seq<Event>, n: nat)
    requires IsRun(states, events) && n < |states|
    ensures After(states[n], events[..n])
  {
    if n == 0 {
      assert events[..n] == [];
    } else {
      InvHolds(states, events, n - 1);
      AfterNext(states[n - 1], events, n - 1);
    }
  }

  lemma {:induction false} TakenGrows(states: seq<System>, events: seq<Event>, m: nat, n: nat)
    requires IsRun(states, events) && m <= n < |states|
    ensures Taken(states[m]) <= Taken(states[n])
    decreases n
  {
    if m < n {
      TakenGrows(states, events, m, n - 1);
      InvHolds(states, events, n - 1);
      AfterNext(states[n - 1], events, n - 1);
    }
  }

  predicate Increasing(tasks: seq<Task>) {
    forall i, j :: 0 <= i < j < |tasks| ==> tasks[i].num < tasks[j].num
  }

  /** Whatever happens between the two reads, the view is strictly increasing in number, so
      it never shows a task twice or out of order. */
  lemma ViewIncreasing(states: seq<System>, events: seq<Event>, m: nat, n: nat)
    requires IsRun(states, events) && m <= n < |states|
    ensures Increasing(View(states[m], states[n]))
  {
    InvHolds(states, events, m);
    InvHolds(states, events, n);
    TakenGrows(states, events, m, n);
    TwoReads(states[m], Submitted(events[..m]), states[n], Submitted(events[..n]));
  }

  lemma TwoReads(s: System, tasks: seq<Task>, s': System, tasks': seq<Task>)
    requires Inv(s, tasks) && Inv(s', tasks') && Taken(s) <= Taken(s')
    ensures Increasing(View(s, s'))
  {
    LatestTaken(s, tasks);
    QueuedUntaken(s', tasks');
    IncreasingConcat(Latest(s), Queued(s'), Taken(s));
  }

  lemma LatestTaken(s: System, tasks: seq<Task>)
    requires Inv(s, tasks)
    ensures Increasing(Latest(s)) && forall i :: 0 <= i < |Latest(s)| ==> Latest(s)[i].num <= Taken(s)
  {
  }

  lemma QueuedUntaken(s: System, tasks: seq<Task>)
    requires Inv(s, tasks)
    ensures Increasing(Queued(s)) && forall j :: 0 <= j < |Queued(s)| ==> Taken(s) < Queued(s)[j].num
  {
  }

  lemma IncreasingConcat(a: seq<Task>, b: seq<Task>, bound: int)
    requires Increasing(a) && Increasing(b)
    requires forall i :: 0 <= i < |a| ==> a[i].num <= bound
    requires forall j :: 0 <= j < |b| ==> bound < b[j].num
    ensures Increasing(a + b)
  {
  }

  /** A view whose two reads coincide shows exactly the submitted tasks from the last finished one
      on, except for a task the worker has taken and not yet published. */
  lemma InstantViewComplete(states: seq<System>, events: seq<Event>, n: nat)
    requires IsRun(states, events) && n < |states| && !states[n].closed
    ensures var s, tasks := states[n], Submitted(events[..n]);
      var k := if s.last.Some? then s.last.value.num - 1 else 0;
      && 0 <= k <= Taken(s) <= |tasks| && (s.worker.Holding? ==> k < Taken(s))
      && View(s, s) == if s.worker.Holding? then tasks[k..Taken(s) - 1] + tasks[Taken(s)..] else tasks[k..]
  {
    InvHolds(states, events, n);
    InstantView(states[n], Submitted(events[..n]));
  }

  lemma InstantView(s: System, tasks: seq<Task>)
    requires Inv(s, tasks) && !s.closed
    ensures var k := if s.last.Some? then s.last.value.num - 1 else 0;
      && 0 <= k <= Taken(s) <= |tasks| && (s.worker.Holding? ==> k < Taken(s))
      && View(s, s) == if s.worker.Holding? then tasks[k..Taken(s) - 1] + tasks[Taken(s)..] else tasks[k..]
  {
    var n, k := Taken(s), if s.last.Some? then s.last.value.num - 1 else 0;
    LatestIs(s, tasks);
    QueuedIs(s, tasks);
    SliceConcat(tasks, k, n);
  }

  lemma SliceConcat(tasks: seq<Task>, k: nat, n: nat)
    requires k <= n <= |tasks|
    ensures tasks[k..n] + tasks[n..] == tasks[k..]
  {
  }

  lemma QueuedIs(s: System, tasks: seq<Task>)
    requires Inv(s, tasks) && !s.closed
    ensures 0 <= Taken(s) <= |tasks| && Queued(s) == tasks[Taken(s)..]
  {
  }

  lemma LatestIs(s: System, tasks: seq<Task>)
    requires Inv(s, tasks)
    ensures var n, k := Taken(s), if s.last.Some? then s.last.value.num - 1 else 0;
      && 0 <= k <= n <= |tasks| && (s.worker.Holding? ==> k < n)
      && Latest(s) == if s.worker.Holding? then tasks[k..n - 1] else tasks[k..n]
  {
    var n := Taken(s);
    var m := if s.worker.Holding? || s.worker.Running? then n - 1 else n;
    FinishedIs(tasks, m);
    if s.worker.Running? {
      assert Optional(s.running) == tasks[m..n];
    } else {
      assert Optional(s.running) == [];
    }
  }

  lemma FinishedIs(tasks: seq<Task>, n: nat)
    requires n <= |tasks| && forall k :: 0 <= k < |tasks| ==> tasks[k].num == k + 1
    ensures var last := Finished(tasks, n);
      Optional(last) == tasks[if last.Some? then last.value.num - 1 else 0..n]
  {
  }

  /** The worker takes the first queued task, publishes it as running and then as finished, and is
      ready for the next. */
  lemma OneTask(s: System, tasks: seq<Task>)
    requires Inv(s, tasks) && s.worker.Idle? && !s.closed && s.q.queue != []
    ensures var s1 := Apply(s, WorkerTakes); var s2 := Apply(s1, Begin); var s3 := Apply(s2, Finish);
      && Enabled(s, WorkerTakes) && Enabled(s1, Begin) && Enabled(s2, Finish) && Enabled(s3, WorkerTakes)
      && Taken(s3) == Taken(s) + 1 && s3.q.queue == s.q.queue[1..]
      && s2.running == Some(s.q.queue[0]) && s2.last == s.last
      && s3.running == None && s3.last == Some(s.q.queue[0])
  {
  }

  /** With nothing queued it waits, and is given the next task that is submitted. */
  lemma WaitsForTask(s: System, tasks: seq<Task>, payload: int)
    requires Inv(s, tasks) && s.worker.Idle? && !s.closed && s.q.queue == [] && s.q.takers == []
    ensures var s1 := Apply(s, WorkerTakes); var s2 := Apply(s1, Submit(payload));
      && s1.worker == Waiting && s2.worker == Holding(Task(|tasks| + 1, payload))
      && s2.q.queue == [] && s2.q.takers == []
  {
  }

  /** On a closed queue the view is only what was published before. */
  lemma ClosedView(s: System, s': System)
    requires s'.closed
    ensures View(s, s') == Optional(s.last) + Optional(s.running)
  {
  }

  /** Closing ends the worker: once the queue is closed and its current task is done, the next
      take yields nil and nothing starts it again. */
  lemma ClosedWorkerStops(s: System, tasks: seq<Task>)
    requires Inv(s, tasks) && s.closed && Enabled(s, WorkerTakes)
    ensures Apply(s, WorkerTakes).worker == Stopped
    ensures forall e :: Enabled(Apply(s, WorkerTakes), e) ==> Apply(Apply(s, WorkerTakes), e).worker == Stopped
  {
  }
}
