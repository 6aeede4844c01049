/** The health monitor of one attached volume: a loop over ticks that checks the volume,
    counts consecutive failures and gives up by closing its channel and detaching. Whether a
    failed check is retried depends on the error value that it returns: the monitor takes any
    error with a Cause method for a broken controller. A check that finds no good replica left
    detaches the volume itself, and that closes the channel of the very monitor that made it. */
module Monitor {
  import opened Strings
  import opened Calls

  const MONITORING_MAX_RETRIES := 3

  // ---- errors ----

  /** Errors as the code builds them: a plain one, one wrapped with a message by the errors
      package, the manager's own controller error, and a list collected from goroutines. */
  datatype Error = Fundamental | Wrapped(cause: Error) | ControllerError(cause: Error) | Errs(list: seq<Error>)

  /** The structural test the monitor makes. */
  predicate HasCause(e: Error) {
    e.Wrapped? || e.ControllerError?
  }

  /** Wrapping nil gives nil. */
  function Wrap(e: Option<Error>): Option<Error> {
    if e.None? then None else Some(Wrapped(e.value))
  }

  // ---- one health check ----

  datatype Mode = RW | WO | ERR

  /** A replica as the engine lists it, and what removing it from the engine and marking it bad
      would be answered. */
  datatype Listed = Listed(mode: Mode, remove: Option<Error>, mark: Option<Error>)

  /** How a detach by name can go: the volume cannot be read, is gone, or the detach is tried, with
      the errors its calls returned. */
  datatype DetachAnswer = NotRead(e: Error) | NoVolume | Tried(result: DetachResult, e: Error, stops: seq<Error>)

  /** Everything a check is answered. */
  datatype Answers = Answers(
    replicas: Option<seq<Listed>>, listError: Error, wanted: int, adding: int,
    detach: DetachAnswer, create: Option<Error>, start: Option<Error>)

  /** The error a detach returns: a failed stop of replicas comes back as the list, every other
      failure wrapped. */
  function DetachError(d: DetachAnswer): Option<Error> {
    match d
    case NotRead(e) => Wrap(Some(e))
    case NoVolume => None
    case Tried(Detached, _, _) => None
    case Tried(ReplicasNotStopped, _, stops) => Some(Errs(stops))
    case Tried(_, e, _) => Wrap(Some(e))
  }

  function Count(replicas: seq<Listed>, mode: Mode): nat {
    if replicas == [] then 0
    else Count(replicas[..|replicas| - 1], mode) + if replicas[|replicas| - 1].mode == mode then 1 else 0
  }

  /** Some call on an ERR replica failed. */
  predicate CallFailed(replicas: seq<Listed>) {
    exists i :: 0 <= i < |replicas| && replicas[i].mode == ERR && (replicas[i].remove.Some? || replicas[i].mark.Some?)
  }

  /** A replacement is due: some good replicas but too few, none write-only, none being added. */
  predicate Lacks(a: Answers, replicas: seq<Listed>) {
    0 < Count(replicas, RW) < a.wanted && Count(replicas, WO) == 0 && a.adding == 0
  }

  /** The failures of a check whose error has a cause: the replicas cannot be listed; the last good
      replica is gone and the volume cannot be read or its controller not stopped or removed; a
      replacement is due and cannot be created or started. */
  predicate Grave(a: Answers) {
    || a.replicas.None?
    || (!CallFailed(a.replicas.value) &&
        if Count(a.replicas.value, RW) == 0
        then a.detach.NotRead? || (a.detach.Tried? && a.detach.result in {ControllerNotStopped, ControllerNotRemoved})
        else Lacks(a, a.replicas.value) && (a.create.Some? || a.start.Some?))
  }

  /** The failures whose error is plain: a call on an ERR replica failed, or the last good replica
      is gone and some other replica could not be stopped. */
  predicate Passing(a: Answers) {
    && a.replicas.Some?
    && (CallFailed(a.replicas.value) ||
        (Count(a.replicas.value, RW) == 0 && a.detach.Tried? && a.detach.result == ReplicasNotStopped))
  }

  /** The check detaches the volume itself: no call on an ERR replica failed, no good replica is
      left, and the volume is read. Detaching begins with closing the monitor's channels. */
  predicate DetachesItself(a: Answers) {
    a.replicas.Some? && !CallFailed(a.replicas.value) && Count(a.replicas.value, RW) == 0 && a.detach.Tried?
  }

  /** Which failures of a check give an error with a cause and which a plain one, and when the
      check closes the monitor's channel. */
  method CheckController(a: Answers) returns (r: Option<Error>, closes: bool)
    ensures r.Some? && HasCause(r.value) <==> Grave(a)
    ensures r.Some? && !HasCause(r.value) <==> Passing(a)
    ensures closes <==> DetachesItself(a)
  {
    closes := false;
    if a.replicas.None? {
      return Some(ControllerError(a.listError)), closes;
    }
    var replicas := a.replicas.value;
    var good, wo, errs: seq<Error> := 0, 0, [];
    for i := 0 to |replicas|
      invariant good == Count(replicas[..i], RW) && wo == Count(replicas[..i], WO)
      invariant errs != [] <==> CallFailed(replicas[..i])
    {
      CountNext(replicas, i);
      match replicas[i].mode {
        case RW => good := good + 1;
        case WO => wo := wo + 1;
        case ERR =>
          var removed, marked := Wrap(replicas[i].remove), Wrap(replicas[i].mark);
          errs := errs + (if removed.Some? then [removed.value] else []);
          errs := errs + (if marked.Some? then [marked.value] else []);
      }
    }
    assert replicas[..|replicas|] == replicas;
    if |errs| > 0 {
      return Some(Errs(errs)), closes;
    }
    if good == 0 {
      return DetachError(a.detach), a.detach.Tried?;
    }
    if good < a.wanted && wo == 0 && a.adding == 0 {
      r := CreateAndAddReplica(a);
      return;
    }
    r := None;
  }

  method CreateAndAddReplica(a: Answers) returns (r: Option<Error>)
    ensures r.Some? <==> a.create.Some? || a.start.Some?
    ensures r.Some? ==> r.value.Wrapped?
  {
    r := Wrap(a.create);
    if r.None? {
      r := Wrap(a.start);
    }
  }

  lemma CountNext(replicas: seq<Listed>, i: nat)
    requires i < |replicas|
    ensures forall mode ::
      Count(replicas[..i + 1], mode) == Count(replicas[..i], mode) + if replicas[i].mode == mode then 1 else 0
    ensures CallFailed(replicas[..i + 1]) <==>
      CallFailed(replicas[..i]) || (replicas[i].mode == ERR && (replicas[i].remove.Some? || replicas[i].mark.Some?))
  {
    var more, less := replicas[..i + 1], replicas[..i];
    assert more[..i] == less && more[i] == replicas[i];
    assert forall j :: 0 <= j < i ==> more[j] == less[j];
  }

  // ---- the trace specification ----

  /** Four plain failures in a row, the last of them at `k`. */
  predicate FourPassing(checks: seq<Answers>, k: nat) {
    && MONITORING_MAX_RETRIES <= k < |checks|
    && forall i :: k - MONITORING_MAX_RETRIES <= i <= k ==> Passing(checks[i])
  }

  /** The monitor decides at check `k` to close its channel and detach. */
  predicate Fatal(checks: seq<Answers>, k: nat) {
    k < |checks| && (Grave(checks[k]) || FourPassing(checks, k))
  }

  /** Check `k` is the last one made if the monitor gets that far. */
  predicate IsLast(checks: seq<Answers>, k: nat) {
    k < |checks| && (DetachesItself(checks[k]) || Fatal(checks, k))
  }

  predicate IsFirstLast(checks: seq<Answers>, k: nat) {
    IsLast(checks, k) && forall j :: 0 <= j < k ==> !IsLast(checks, j)
  }

  /** How the monitor's loop ends: it has not, it gave up and detached the volume, its channel was
      closed by its own check, or it closed a closed channel, which crashes the process. */
  datatype End = Watching | GaveUp | Ended | Crashed

  function EndAt(checks: seq<Answers>, k: nat): End {
    if !IsLast(checks, k) then Watching
    else if !DetachesItself(checks[k]) then GaveUp
    else if Fatal(checks, k) then Crashed
    else Ended
  }

  /** How many plain failures in a row end just before `k`. */
  predicate Streak(checks: seq<Answers>, k: nat, n: nat) {
    && n <= k <= |checks|
    && (forall i :: k - n <= i < k ==> Passing(checks[i]))
    && (n < k ==> !Passing(checks[k - n - 1]))
  }

  lemma FourPassingIffStreak(checks: seq<Answers>, k: nat, n: nat)
    requires k < |checks| && Streak(checks, k, n) && n <= MONITORING_MAX_RETRIES
    ensures FourPassing(checks, k) <==> Passing(checks[k]) && n == 3
  {
    assert n < k ==> !Passing(checks[k - n - 1]);
  }

  /** What a check that detaches the volume itself does to the monitor, by how the detach goes. A
      success ends it; so does a failure to stop a replica, unless calls on ERR replicas failed
      in the three checks before; every other failure crashes it. */
  lemma DetachingCheckEnds(checks: seq<Answers>, k: nat)
    requires IsFirstLast(checks, k) && DetachesItself(checks[k])
    ensures EndAt(checks, k) ==
      match checks[k].detach.result
      case Detached => Ended
      case ReplicasNotStopped =>
        if k >= MONITORING_MAX_RETRIES && (forall i :: k - MONITORING_MAX_RETRIES <= i < k ==> ErrCallFailed(checks[i]))
        then Crashed else Ended
      case _ => Crashed
  {
    forall i | 0 <= i < k ensures Passing(checks[i]) ==> ErrCallFailed(checks[i]) {
      assert !IsLast(checks, i);
    }
  }

  predicate ErrCallFailed(a: Answers) {
    a.replicas.Some? && CallFailed(a.replicas.value)
  }

  /** It does crash: the very first check finds no good replica, and the controller cannot be
      stopped. */
  lemma CrashHappens(e: Error) returns (checks: seq<Answers>)
    ensures IsFirstLast(checks, 0) && EndAt(checks, 0) == Crashed
  {
    checks := [Answers(Some([]), e, 1, 0, Tried(ControllerNotStopped, e, []), None, None)];
  }

  class Watcher {
    var checked: nat
    var detaches: nat
    var closed: bool

    constructor ()
      ensures checked == 0 && detaches == 0 && !closed
    {
      checked, detaches, closed := 0, 0, false;
    }

    /** The loop over the ticks that arrive. The first tick is consumed without a check; the
        check at tick `i + 1` is answered `checks[i]`. Until these ticks are over nobody but the
        monitor and its own checks closes the channel. The loop ends at the first check that is
        fatal or detaches the volume itself, as `EndAt` says, and at no other; it asks for a
        detach, once, exactly when it gives up. Without such a check it makes one at every tick. */
    method Watch(ticks: nat, checks: seq<Answers>) returns (end: End)
      requires !closed && checked == 0 && detaches == 0
      requires |checks| == if ticks == 0 then 0 else ticks - 1
      modifies this
      ensures end == Watching <==> forall k :: !IsLast(checks, k)
      ensures end == Watching ==> !closed && checked == |checks|
      ensures end != Watching ==>
        closed && checked > 0 && IsFirstLast(checks, checked - 1) && end == EndAt(checks, checked - 1)
      ensures detaches == if end == GaveUp then 1 else 0
    {
      end := Watching;
      if ticks == 0 {
        return;
      }
      var failedAttempts := 0;
      while checked < |checks| && !closed
        invariant checked <= |checks| && (closed <==> end != Watching)
        invariant !closed ==> failedAttempts <= MONITORING_MAX_RETRIES && Streak(checks, checked, failedAttempts)
        invariant !closed ==> forall k :: 0 <= k < checked ==> !IsLast(checks, k)
        invariant closed ==> checked > 0 && IsFirstLast(checks, checked - 1) && end == EndAt(checks, checked - 1)
        invariant detaches == if end == GaveUp then 1 else 0
        decreases |checks| - checked
      {
        FourPassingIffStreak(checks, checked, failedAttempts);
        var err, closes := CheckController(checks[checked]);
        checked := checked + 1;
        closed := closes;
        if closed {
          end := Ended;
        }
        var fatal := false;
        if err.Some? {
          if HasCause(err.value) {
            fatal := true;
          } else {
            failedAttempts := failedAttempts + 1;
            fatal := failedAttempts > MONITORING_MAX_RETRIES;
          }
        } else {
          failedAttempts := 0;
        }
        if fatal && closed {
          end := Crashed;
        } else if fatal {
          closed, end, detaches := true, GaveUp, detaches + 1;
        }
      }
      assert end != Watching ==> IsLast(checks, checked - 1);
    }
  }
}
