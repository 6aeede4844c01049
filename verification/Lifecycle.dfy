/** Attaching, detaching and deleting a volume. The manager works on a snapshot of the
    volume and asks the orchestrator to stop, start, create and remove instances; any of
    these calls may fail, and a call that reports failure may still have had its effect. */
module Lifecycle {
  import opened Collections
  import opened Strings
  import opened StoreTypes
  import opened StoreKeys
  import opened Instances
  import opened VolumeFrames
  import opened BadMarks
  import opened Calls

  datatype AttachResult =
    Attached | Panicked | NotRead | DetachFailed | StopFailed | NoReplicas | StartFailed | ControllerFailed

  datatype Operation = AttachVolume(name: string) | DetachVolume(name: string) | RemoveVolume(name: string)

  /** What the world outside does to one call: whether the host is reached and its answer comes back,
      what docker and the store answer there, and whether the store can be read and written here. */
  datatype Delivery = Delivery(reached: bool, returned: bool, answers: Answers, readable: bool, writable: bool)

  predicate Fine(d: Delivery) {
    d.reached && d.returned && d.readable && d.writable && FineAnswers(d.answers)
  }

  datatype CreateResult = Launched(controller: Instance) | NotLaunched | Crashed

  class Manager {
    const cluster: Cluster
    const currentHost: string
    const parses: string -> bool     // which timestamps can be read
    const outside: nat -> Delivery   // what happens to each call
    var monitors: set<string>
    var calls: seq<Call>             // every call so far, and whether it reported success

    constructor (cluster: Cluster, currentHost: string, parses: string -> bool, outside: nat -> Delivery)
      ensures this.cluster == cluster && this.currentHost == currentHost
      ensures this.parses == parses && this.outside == outside
      ensures monitors == {} && calls == []
    {
      this.cluster, this.currentHost, this.parses, this.outside := cluster, currentHost, parses, outside;
      monitors, calls := {}, [];
    }

    ghost predicate Valid()
      reads this, cluster
    {
      cluster.Valid()
    }

    ghost function Now(): World
      reads this, cluster
    {
      World(cluster.containers, cluster.content)
    }

    // ---- the orchestrator ----

    /** No call from the n-th on is disturbed. */
    ghost predicate FineFrom(n: nat) {
      forall k: nat {:trigger outside(k)} :: n <= k ==> Fine(outside(k))
    }

    /** Nothing goes wrong from here on, and the instances of the volume are sound. */
    ghost predicate Smooth(v: string)
      reads this, cluster
    {
      FineFrom(|calls|) && SoundAll(Now(), v)
    }

    /** Route a request to its host, which may not be reached, and whose answer may get lost. */
    method Schedule(req: Request) returns (r: Option<Instance>)
      requires Valid()
      modifies cluster
      ensures Valid()
      ensures var d := outside(|calls|); var e := Event(req.instance.hostID, req, d.answers);
        && Now() == (if d.reached then Step(old(Now()), e) else old(Now()))
        && r == if d.reached && d.returned
             then ReplyTo(old(cluster.containers), old(cluster.content), e.host, req, e.answers) else None
    {
      var d := outside(|calls|);
      r := None;
      if d.reached {
        r := cluster.ProcessSchedule(req.instance.hostID, req, d.answers);
        r := if d.returned then r else None;
      }
    }

    /** Whether a request about an instance succeeds and is heard of. */
    ghost predicate Heard(w: World, n: nat, action: Action, i: Instance) {
      var d := outside(n);
      Complete(i) && d.reached && d.returned && Works(w, Event(i.hostID, Ask(action, i), d.answers))
    }

    method StopInstance(i: Instance, ghost s: Slot) returns (r: Option<Instance>)
      requires Valid() && Bound(cluster.content, s, i)
      modifies this`calls, cluster
      ensures Valid() && calls == old(calls) + [Call(Stop, s, r.Some?)]
      ensures Toggled(old(Now()), Now(), s, i.id) && (!Complete(i) ==> Now() == old(Now()))
      ensures r.Some? <==> Heard(old(Now()), old(|calls|), Action.StopInstance, i)
      ensures r.Some? ==> Recorded(cluster.content, s) == r && Halted(Now(), s)
      ensures Complete(i) && old(Smooth(s.volume)) ==> r.Some? && SoundAll(Now(), s.volume)
    {
      ghost var w, e := Now(), Event(i.hostID, Ask(Action.StopInstance, i), outside(|calls|).answers);
      r := None;
      UnchangedToggled(w, s, i);
      if Complete(i) {
        r := Schedule(Ask(Action.StopInstance, i));
        RequestToggles(w, e, s, i);
        SmoothToggle(w, e, s, i);
      }
      calls := calls + [Call(Stop, SlotOf(i), r.Some?)];
    }

    method StartInstance(i: Instance, ghost s: Slot) returns (r: Option<Instance>)
      requires Valid() && Bound(cluster.content, s, i)
      modifies this`calls, cluster
      ensures Valid() && calls == old(calls) + [Call(Start, s, r.Some?)]
      ensures Toggled(old(Now()), Now(), s, i.id) && (!Complete(i) ==> Now() == old(Now()))
      ensures r.Some? <==> Heard(old(Now()), old(|calls|), Action.StartInstance, i)
      ensures r.Some? ==> Recorded(cluster.content, s) == r && Up(Now(), s)
      ensures Complete(i) && old(Smooth(s.volume)) ==> r.Some? && SoundAll(Now(), s.volume)
    {
      ghost var w, e := Now(), Event(i.hostID, Ask(Action.StartInstance, i), outside(|calls|).answers);
      r := None;
      UnchangedToggled(w, s, i);
      if Complete(i) {
        r := Schedule(Ask(Action.StartInstance, i));
        RequestToggles(w, e, s, i);
        SmoothToggle(w, e, s, i);
      }
      calls := calls + [Call(Start, SlotOf(i), r.Some?)];
    }

    method RemoveInstance(i: Instance, ghost s: Slot) returns (ok: bool)
      requires Valid() && Bound(cluster.content, s, i)
      modifies this`calls, cluster
      ensures Valid() && calls == old(calls) + [Call(Remove, s, ok)]
      ensures cluster.content == old(cluster.content) || cluster.content == old(cluster.content) - {s}
      ensures cluster.containers == old(cluster.containers) || cluster.containers == old(cluster.containers) - {i.id}
      ensures Others(old(Now()), Now(), s.volume) && (!Complete(i) ==> Now() == old(Now()))
      ensures ok <==> Heard(old(Now()), old(|calls|), DeleteInstance, i)
      ensures ok ==>
        cluster.content == old(cluster.content) - {s} && cluster.containers == old(cluster.containers) - {i.id}
      ensures Complete(i) && old(Smooth(s.volume)) && !old(Recorded(cluster.content, s)).value.running ==>
        ok && SoundAll(Now(), s.volume)
    {
      ghost var w, e := Now(), Event(i.hostID, Ask(DeleteInstance, i), outside(|calls|).answers);
      var r := None;
      if Complete(i) {
        r := Schedule(Ask(DeleteInstance, i));
        SmoothRemoval(w, e, s, i);
      }
      RemovedOthers(w, Now(), s, i);
      ok := r.Some?;
      calls := calls + [Call(Remove, SlotOf(i), ok)];
    }

    method Get(name: string) returns (r: Result<Option<Volume>>)
      requires Valid()
      modifies this`calls
      ensures calls == old(calls) + [Call(Read, BaseSlot(name), r.Ok?)]
      ensures r.Ok? <==> outside(old(|calls|)).readable
      ensures r.Ok? ==> r.value == StoreView.VolumeOf(cluster.content, name)
    {
      r := if outside(|calls|).readable then Ok(StoreView.VolumeOf(cluster.content, name)) else Err;
      calls := calls + [Call(Read, BaseSlot(name), r.Ok?)];
    }

    // ---- loops over the replicas ----

    /** One turn of a loop that stops replicas of a snapshot, `w0` being where the loop began. */
    method StopReplica(v: string, replicas: map<string, Replica>, r: string, ghost w0: World) returns (ok: bool)
      requires Valid() && Snapshot(cluster.content, v, replicas) && Kept(w0, Now(), v) && r in replicas
      modifies this`calls, cluster
      ensures Valid() && Snapshot(cluster.content, v, replicas) && Kept(w0, Now(), v)
      ensures calls == old(calls) + [Call(Stop, ReplicaSlot(v, r), ok)]
      ensures ok ==> Stopped(Now(), v, r)
      ensures forall q {:trigger Stopped(Now(), v, q)} :: q != r && old(Stopped(Now(), v, q)) ==> Stopped(Now(), v, q)
      ensures SameAt(old(cluster.content), cluster.content, ControllerSlot(v))
      ensures CompleteAll(replicas) && old(Smooth(v)) ==> ok && Smooth(v)
    {
      ghost var w := Now();
      assert Bound(w.content, ReplicaSlot(v, r), replicas[r].inst);
      var stopped := StopInstance(replicas[r].inst, ReplicaSlot(v, r));
      LoopStep(w0, w, Now(), v, replicas, r);
      ok := stopped.Some?;
    }

    method StartReplica(v: string, replicas: map<string, Replica>, r: string, ghost w0: World) returns (ok: bool)
      requires Valid() && Snapshot(cluster.content, v, replicas) && Kept(w0, Now(), v) && r in replicas
      modifies this`calls, cluster
      ensures Valid() && Snapshot(cluster.content, v, replicas) && Kept(w0, Now(), v)
      ensures calls == old(calls) + [Call(Start, ReplicaSlot(v, r), ok)]
      ensures ok ==> Running(Now(), v, r)
      ensures forall q {:trigger Running(Now(), v, q)} :: q != r && old(Running(Now(), v, q)) ==> Running(Now(), v, q)
      ensures CompleteAll(replicas) && old(Smooth(v)) ==> ok && Smooth(v)
    {
      ghost var w := Now();
      assert Bound(w.content, ReplicaSlot(v, r), replicas[r].inst);
      var started := StartInstance(replicas[r].inst, ReplicaSlot(v, r));
      LoopStep(w0, w, Now(), v, replicas, r);
      ok := started.Some?;
    }

    /** Stop every replica; the calls run side by side, so any order is possible. */
    method StopAll(v: string, replicas: map<string, Replica>) returns (failed: bool, ghost done: seq<Call>)
      requires Valid() && Snapshot(cluster.content, v, replicas)
      modifies this`calls, cluster
      ensures Valid() && Kept(old(Now()), Now(), v)
      ensures calls == old(calls) + done && Round(done, Stop, v, replicas.Keys)
      ensures failed <==> !AllOk(done)
      ensures !failed ==>
        forall r {:trigger Stopped(Now(), v, r)} :: r in replicas ==> Stopped(Now(), v, r)
      ensures SameAt(old(cluster.content), cluster.content, ControllerSlot(v))
      ensures CompleteAll(replicas) && old(Smooth(v)) ==> !failed && SoundAll(Now(), v)
    {
      failed, done := false, [];
      var left := replicas.Keys;
      ghost var w0, smooth := Now(), CompleteAll(replicas) && Smooth(v);
      KeptReflexive(w0, v);
      RoundStart(Stop, v);
      while left != {}
        invariant left <= replicas.Keys && Valid() && Snapshot(cluster.content, v, replicas) && Kept(w0, Now(), v)
        invariant calls == old(calls) + done && Round(done, Stop, v, replicas.Keys - left)
        invariant failed <==> !AllOk(done)
        invariant !failed ==>
          forall r {:trigger Stopped(Now(), v, r)} :: r in replicas && r !in left ==>
            Stopped(Now(), v, r)
        invariant SameAt(w0.content, cluster.content, ControllerSlot(v))
        invariant smooth ==> !failed && Smooth(v)
      {
        var r :| r in left;
        var ok := StopReplica(v, replicas, r, w0);
        RoundMore(done, Stop, v, replicas.Keys - left, r, ok);
        Appended(old(calls), done, [Call(Stop, ReplicaSlot(v, r), ok)]);
        done := done + [Call(Stop, ReplicaSlot(v, r), ok)];
        failed := failed || !ok;
        assert replicas.Keys - (left - {r}) == (replicas.Keys - left) + {r};
        left := left - {r};
      }
      assert replicas.Keys - left == replicas.Keys;
    }

    method StartAll(v: string, replicas: map<string, Replica>, selected: set<string>)
      returns (failed: bool, ghost done: seq<Call>)
      requires Valid() && Snapshot(cluster.content, v, replicas) && selected <= replicas.Keys
      modifies this`calls, cluster
      ensures Valid() && Kept(old(Now()), Now(), v)
      ensures calls == old(calls) + done && Round(done, Start, v, selected)
      ensures failed <==> !AllOk(done)
      ensures !failed ==>
        forall r {:trigger Running(Now(), v, r)} :: r in selected ==> Running(Now(), v, r)
      ensures CompleteAll(replicas) && old(Smooth(v)) ==> !failed && SoundAll(Now(), v)
    {
      failed, done := false, [];
      var left := selected;
      ghost var w0, smooth := Now(), CompleteAll(replicas) && Smooth(v);
      KeptReflexive(w0, v);
      RoundStart(Start, v);
      while left != {}
        invariant left <= selected && Valid() && Snapshot(cluster.content, v, replicas) && Kept(w0, Now(), v)
        invariant calls == old(calls) + done && Round(done, Start, v, selected - left)
        invariant failed <==> !AllOk(done)
        invariant !failed ==>
          forall r {:trigger Running(Now(), v, r)} :: r in selected && r !in left ==>
            Running(Now(), v, r)
        invariant smooth ==> !failed && Smooth(v)
      {
        var r :| r in left;
        var ok := StartReplica(v, replicas, r, w0);
        RoundMore(done, Start, v, selected - left, r, ok);
        Appended(old(calls), done, [Call(Start, ReplicaSlot(v, r), ok)]);
        done := done + [Call(Start, ReplicaSlot(v, r), ok)];
        failed := failed || !ok;
        assert selected - (left - {r}) == (selected - left) + {r};
        left := left - {r};
      }
      assert selected - left == selected;
    }

    /** A bad mark whose time can be read makes the loop look at the most recent bad replica
        so far, which is still nil. */
    predicate Fatal(replica: Replica) {
      replica.badTimestamp != "" && parses(replica.badTimestamp)
    }

    ghost predicate SomeFatal(volume: Volume) {
      exists r :: r in Replicas(volume) && Fatal(Replicas(volume)[r])
    }

    /** The first loop of an attach: stop what runs, and select the replicas without a bad
        mark. Bad replicas whose mark cannot be read are passed over. */
    method StopAndSelect(volume: Volume)
      returns (selected: set<string>, failed: bool, panicked: bool, ghost done: seq<Call>)
      requires Valid() && Snapshot(cluster.content, volume.name, Replicas(volume))
      modifies this`calls, cluster
      ensures Valid() && Kept(old(Now()), Now(), volume.name)
      ensures calls == old(calls) + done && NoCreate(done)
      ensures panicked <==> SomeFatal(volume)
      ensures !panicked ==> selected == Selected(volume)
      ensures !panicked ==> Round(done, Stop, volume.name, RunningIn(volume)) && (failed <==> !AllOk(done))
      ensures CompleteAll(Replicas(volume)) && old(Smooth(volume.name)) ==> !failed && SoundAll(Now(), volume.name)
    {
      var v, replicas := volume.name, Replicas(volume);
      selected, failed, panicked, done := {}, false, false, [];
      var left := replicas.Keys;
      ghost var w0, seen: set<string>, smooth := Now(), {}, CompleteAll(replicas) && Smooth(v);
      KeptReflexive(w0, v);
      RoundStart(Stop, v);
      while left != {}
        invariant left <= replicas.Keys && Valid() && Snapshot(cluster.content, v, replicas) && Kept(w0, Now(), v)
        invariant forall r :: r in replicas && r !in left ==> !Fatal(replicas[r])
        invariant selected == set r | r in replicas && r !in left && replicas[r].badTimestamp == ""
        invariant seen == set r | r in replicas && r !in left && replicas[r].inst.running
        invariant calls == old(calls) + done && Round(done, Stop, v, seen)
        invariant failed <==> !AllOk(done)
        invariant smooth ==> !failed && Smooth(v)
      {
        var r :| r in left;
        if replicas[r].inst.running {
          var ok := StopReplica(v, replicas, r, w0);
          RoundMore(done, Stop, v, seen, r, ok);
          Appended(old(calls), done, [Call(Stop, ReplicaSlot(v, r), ok)]);
          done := done + [Call(Stop, ReplicaSlot(v, r), ok)];
          seen := seen + {r};
          failed := failed || !ok;
        }
        RoundOk(done, Stop, v, seen);
        if replicas[r].badTimestamp == "" {
          selected := selected + {r};
        } else if parses(replicas[r].badTimestamp) {
          panicked := true;
          assert Fatal(Replicas(volume)[r]);
          return;
        }
        left := left - {r};
      }
      assert seen == RunningIn(volume) && selected == Selected(volume);
      RoundOk(done, Stop, v, seen);
    }

    // ---- detach ----

    method StopMonitoring(v: string)
      modifies this`monitors
      ensures monitors == old(monitors) - {v}
    {
      monitors := monitors - {v};
    }

    method StartMonitoring(v: string)
      modifies this`monitors
      ensures monitors == old(monitors) + {v}
    {
      monitors := monitors + {v};
    }

    /** The part of a detach that stops instances. */
    method StopInstances(volume: Volume) returns (r: DetachResult, ghost done: seq<Call>)
      requires Valid() && StoreView.VolumeOf(cluster.content, volume.name) == Some(volume)
      modifies this`calls, cluster
      ensures Valid() && Kept(old(Now()), Now(), volume.name)
      ensures calls == old(calls) + done && r != ControllerNotRemoved
      ensures r == ControllerNotStopped ==>
        && ControllerRuns(volume) && done == [Call(Stop, ControllerSlot(volume.name), false)]
        && ReplicasSame(old(cluster.content), cluster.content, volume.name)
      ensures r != ControllerNotStopped ==> StopCalls(done, volume) && (r == Detached <==> AllOk(done))
      ensures r == Detached ==> AllStopped(Now(), volume)
      ensures old(Smooth(volume.name)) ==>
        r == Detached && SoundAll(Now(), volume.name) && ControllerIdle(Now(), volume)
    {
      var v := volume.name;
      ghost var w0 := Now();
      var stopped;
      stopped, done := StopController(volume);
      if !stopped {
        return ControllerNotStopped, done;
      }
      ghost var w1 := Now();
      var failed;
      ghost var round;
      failed, round := StopAll(v, Replicas(volume));
      KeptTransitive(w0, w1, Now(), v);
      StopOrder(done, round, volume);
      Appended(old(calls), done, round);
      done := done + round;
      r := if failed then ReplicasNotStopped else Detached;
    }

    /** A running controller is stopped. */
    method StopController(volume: Volume) returns (ok: bool, ghost first: seq<Call>)
      requires Valid() && StoreView.VolumeOf(cluster.content, volume.name) == Some(volume)
      modifies this`calls, cluster
      ensures Valid() && Kept(old(Now()), Now(), volume.name)
      ensures Snapshot(cluster.content, volume.name, Replicas(volume))
      ensures ReplicasSame(old(cluster.content), cluster.content, volume.name)
      ensures calls == old(calls) + first && (!ok ==> ControllerRuns(volume))
      ensures first == if ControllerRuns(volume) then [Call(Stop, ControllerSlot(volume.name), ok)] else []
      ensures old(Smooth(volume.name)) ==>
        ok && Smooth(volume.name) && ControllerIdle(Now(), volume) && CompleteAll(Replicas(volume))
    {
      var v := volume.name;
      ghost var w0, s := Now(), ControllerSlot(v);
      ReadIsSnapshot(w0, v, volume);
      KeptReflexive(w0, v);
      if Smooth(v) {
        SoundRead(w0, v, volume);
      }
      ok, first := true, [];
      if volume.controller.Some? && volume.controller.value.running {
        var stopped := StopInstance(volume.controller.value, s);
        ToggledKept(w0, Now(), s, volume.controller.value);
        ControllerToggled(w0, Now(), v, volume.controller.value.id);
        KeptReplicas(w0, Now(), v);
        ok, first := stopped.Some?, [Call(Stop, s, stopped.Some?)];
      }
      SnapshotBeside(w0.content, cluster.content, v, Replicas(volume));
    }

    /** Stop the controller, then the replicas, then remove the controller: no replica is
        touched unless a running controller was stopped, and the controller is not removed
        unless every replica was. Replica records survive whatever happens. The detach succeeds
        if and only if every call does, and then leaves the replicas stopped, no controller and
        no monitor. */
    method DoDetach(volume: Volume) returns (r: DetachResult, ghost done: seq<Call>)
      requires Valid() && StoreView.VolumeOf(cluster.content, volume.name) == Some(volume)
      modifies this`monitors, this`calls, cluster
      ensures Valid() && monitors == old(monitors) - {volume.name}
      ensures calls == old(calls) + done && OrderlyDetach(done, volume)
      ensures r == Detached <==> AllOk(done)
      ensures r == ControllerNotStopped <==> done != [] && done[0] == Call(Stop, ControllerSlot(volume.name), false)
      ensures r == ControllerNotStopped ==>
        |done| == 1 && ReplicasSame(old(cluster.content), cluster.content, volume.name)
      ensures OnlyToggles(old(Now()), Now(), volume.name)
      ensures r == Detached ==> Detachment(old(Now()), Now(), volume) && FullDetach(done, volume)
      ensures cluster.content.Keys <= old(cluster.content.Keys) && NothingNew(old(Now()), Now())
      ensures old(Smooth(volume.name)) ==> r == Detached && SoundAll(Now(), volume.name)
    {
      var v := volume.name;
      StopMonitoring(v);
      ghost var w0 := Now();
      ReadIsSnapshot(w0, v, volume);
      r, done := StopInstances(volume);
      ghost var w1 := Now();
      KeptToggles(w0, w1, v);
      KeptNothingNew(w0, w1, v);
      if r == ControllerNotStopped {
        DetachRefused(volume);
        return;
      }
      StopCallsOrderly(done, volume);
      if r == Detached && volume.controller.Some? {
        BoundKept(w0, w1, v, ControllerSlot(v), volume.controller.value);
        if SoundAll(w0, v) {
          SoundRead(w0, v, volume);
        }
        var removed := RemoveController(volume, w0);
        RemoveOrderly(done, removed, volume);
        Appended(old(calls), done, [Call(Remove, ControllerSlot(v), removed)]);
        done := done + [Call(Remove, ControllerSlot(v), removed)];
        r := if removed then Detached else ControllerNotRemoved;
      }
    }

    /** The last part of a detach, `w0` being where it began. */
    method RemoveController(volume: Volume, ghost w0: World) returns (ok: bool)
      requires Valid() && volume.controller.Some?
      requires Bound(cluster.content, ControllerSlot(volume.name), volume.controller.value)
      requires OnlyToggles(w0, Now(), volume.name) && NothingNew(w0, Now()) && AllStopped(Now(), volume)
      modifies this`calls, cluster
      ensures Valid() && calls == old(calls) + [Call(Remove, ControllerSlot(volume.name), ok)]
      ensures OnlyToggles(w0, Now(), volume.name) && NothingNew(w0, Now()) && AllStopped(Now(), volume)
      ensures cluster.content.Keys <= old(cluster.content.Keys)
      ensures ok ==> cluster.content.Keys == old(cluster.content.Keys) - {ControllerSlot(volume.name)}
      ensures ok ==> cluster.containers.Keys == old(cluster.containers.Keys) - {volume.controller.value.id}
      ensures Complete(volume.controller.value) && old(Smooth(volume.name) && ControllerIdle(Now(), volume)) ==>
        ok && SoundAll(Now(), volume.name)
    {
      ghost var w1 := Now();
      ok := RemoveInstance(volume.controller.value, ControllerSlot(volume.name));
      RemovalToggles(w0, w1, Now(), volume);
      RemovedNothingNew(w1, Now(), ControllerSlot(volume.name), volume.controller.value.id);
      NothingNewTransitive(w0, w1, Now());
    }

    method Detach(name: string) returns (ok: bool, ghost done: seq<Call>)
      requires Valid()
      modifies this`monitors, this`calls, cluster
      ensures Valid() && (monitors == old(monitors) || monitors == old(monitors) - {name})
      ensures calls == old(calls) + done && NoCreate(done) && (ok <==> AllOk(done))
      ensures OnlyToggles(old(Now()), Now(), name) && cluster.content.Keys <= old(cluster.content.Keys)
      ensures match StoreView.VolumeOf(old(cluster.content), name)
        case None => |done| == 1 && monitors == old(monitors) && Now() == old(Now())
        case Some(volume) =>
          && done != [] && done[0].op == Read && (!done[0].ok ==> |done| == 1) && OrderlyDetach(done[1..], volume)
          && (ok ==> name !in monitors && Detachment(old(Now()), Now(), volume) && FullDetach(done, volume))
      ensures NothingNew(old(Now()), Now())
      ensures old(Smooth(name)) ==> ok && SoundAll(Now(), name)
    {
      KeptReflexive(Now(), name);
      KeptNothingNew(Now(), Now(), name);
      var volume := Get(name);
      done := [Call(Read, BaseSlot(name), volume.Ok?)];
      AllOkOne(done[0]);
      if volume.Err? || volume.value.None? {
        return volume.Ok?, done;
      }
      ReadHasName(cluster.content, name, volume.value.value);
      var r;
      ghost var detached;
      r, detached := DoDetach(volume.value.value);
      AllOkConcat(done, detached);
      DetachNoCreate(detached, volume.value.value);
      if r == Detached {
        FullDetachMore(done, detached, [], volume.value.value);
      }
      done := done + detached;
      assert done[1..] == detached;
      ok := r == Detached;
    }

    // ---- attach ----

    /** Collect the URLs of the given replicas from the store. For a volume that is gone the error
        that is wrapped is nil, so the call succeeds with nothing. */
    method PrepareCreateController(v: string, selected: set<string>)
      returns (r: Result<Option<Launch>>, ghost read: bool)
      requires Valid()
      modifies this`calls
      ensures calls == old(calls) + [Call(Read, BaseSlot(v), read)]
      ensures !read ==> r.Err?
      ensures read <==> outside(old(|calls|)).readable
      ensures read ==> (r == Ok(None) <==> BaseSlot(v) !in cluster.content)
      ensures r.Ok? && r.value.Some? ==> GivenExactly(cluster.content, r.value.value, v, selected)
      ensures read && r.Err? ==> !AllRunning(Now(), v, selected)
    {
      var got := Get(v);
      read := got.Ok?;
      if got.Err? {
        return Err, read;
      }
      if got.value.None? {
        return Ok(None), read;
      }
      var volume := got.value.value;
      ReadIsSnapshot(Now(), v, volume);
      var names: seq<string>, urls: seq<string>, left := [], [], selected;
      while left != {}
        invariant calls == old(calls) + [Call(Read, BaseSlot(v), true)]
        invariant left <= selected && GivenExactly(cluster.content, Launch(v, names, urls), v, selected - left)
      {
        var name :| name in left;
        if name !in Replicas(volume) || Replicas(volume)[name].inst.address == "" {
          assert !Running(Now(), v, name);
          return Err, read;
        }
        GivenOneMore(cluster.content, Launch(v, names, urls), v, selected - left, name);
        names, urls := names + [name], urls + [Url(Replicas(volume)[name].inst.address)];
        assert selected - (left - {name}) == (selected - left) + {name};
        left := left - {name};
      }
      assert selected - left == selected;
      r := Ok(Some(Launch(v, names, urls)));
    }

    /** Ask for a controller on this host. A volume that is gone makes it crash on the nil data. */
    method CreateController(v: string, selected: set<string>) returns (r: CreateResult, ghost done: seq<Call>)
      requires Valid()
      modifies this`calls, cluster
      ensures Valid() && calls == old(calls) + done
      ensures Others(old(Now()), Now(), v) && ReplicasSame(old(cluster.content), cluster.content, v)
      ensures 1 <= |done| <= 2 && done[0].op == Read
      ensures |done| == 2 ==>
        done[0].ok && done[1].op.Create? && done[1] == Call(done[1].op, ControllerSlot(v), r.Launched?)
      ensures |done| == 2 ==> GivenExactly(cluster.content, done[1].op.launch, v, selected)
      ensures r == Crashed <==> done[0].ok && BaseSlot(v) !in old(cluster.content)
      ensures r == NotLaunched && AllOk(done) ==> !AllRunning(old(Now()), v, selected)
      ensures r.Launched? ==> |done| == 2 && Recorded(cluster.content, ControllerSlot(v)) == Some(r.controller)
      ensures r.Launched? ==> ControllerHere(Now(), v, currentHost, done[1].op.launch.urls)
      ensures NoOtherRecord(old(Now()), Now(), v, currentHost) && NoneTouched(old(Now()), Now())
      ensures old(FineFrom(|calls|) && Launchable(Now(), v, |calls|) && AllRunning(Now(), v, selected)) ==>
        r != NotLaunched
    {
      ghost var w := Now();
      NothingStored(w, w, v);
      var launch;
      ghost var read;
      launch, read := PrepareCreateController(v, selected);
      done := [Call(Read, BaseSlot(v), read)];
      AllOkOne(done[0]);
      if launch.Err? {
        return NotLaunched, done;
      }
      if launch.value.None? {
        return Crashed, done;
      }
      var name := ControllerName(v);
      var i := Instance(name, ControllerType, "", currentHost, "", false, v);
      var data := Data(name, v, launch.value.value.urls);
      var req := Request(ORC_NAME, Action.CreateController, i, Some(data));
      ghost var d := outside(|calls|);
      var instance := Schedule(req);
      var call := Call(Create(launch.value.value), ControllerSlot(v), instance.Some?);
      AllOkOne(call);
      AllOkConcat(done, [call]);
      done := done + [call];
      calls := calls + [call];
      ControllerRequest(w, Event(currentHost, req, d.answers), v, launch.value.value.urls);
      GivenSame(w.content, cluster.content, launch.value.value, v, selected);
      r := if instance.Some? then Launched(instance.value) else NotLaunched;
    }

    /** A controller of the volume can be made here: none is recorded, its name is free, and docker
        gives out unused IDs. */
    ghost predicate Launchable(w: World, v: string, n: nat) {
      && v != "" && currentHost != "" && ControllerSlot(v) !in w.content
      && !NameTaken(w.containers, currentHost, ControllerName(v)) && Unused(n, w)
    }

    /** The IDs that docker gives out from the n-th call on are new. */
    ghost predicate Unused(n: nat, w: World) {
      forall k: nat {:trigger outside(k)} :: n <= k && outside(k).answers.created.Some? ==>
        var id := outside(k).answers.created.value; id !in w.containers && !HasRecord(w.content, id)
    }

    predicate AlreadyHere(volume: Volume) {
      volume.controller.Some? && volume.controller.value.running && volume.controller.value.hostID == currentHost
    }

    /** Stop what runs and start what is selected. */
    method StopAndStart(volume: Volume) returns (r: AttachResult, ghost done: seq<Call>)
      requires Valid() && Snapshot(cluster.content, volume.name, Replicas(volume))
      modifies this`calls, cluster
      ensures Valid() && Kept(old(Now()), Now(), volume.name)
      ensures calls == old(calls) + done && Readied(Now(), volume, r, done) && r != ControllerFailed
      ensures CompleteAll(Replicas(volume)) && old(Smooth(volume.name)) ==> r != StopFailed && r != StartFailed
    {
      var v, replicas := volume.name, Replicas(volume);
      ghost var w1 := Now();
      var selected, failed, panicked;
      selected, failed, panicked, done := StopAndSelect(volume);
      ghost var w2 := Now();
      KeptReplicas(w1, w2, v);
      if panicked || failed || selected == {} {
        r := if panicked then Panicked else if failed then StopFailed else NoReplicas;
        NoLaunch(Now(), volume, currentHost, SomeFatal(volume), r, done);
        return;
      }
      SnapshotBeside(w1.content, w2.content, v, replicas);
      ghost var starts;
      failed, starts := StartAll(v, replicas, selected);
      KeptTransitive(w1, w2, Now(), v);
      StartOrder(done, starts, volume);
      done := done + starts;
      r := Attached;
      if failed {
        r := StartFailed;
        NoLaunch(Now(), volume, currentHost, SomeFatal(volume), r, done);
      }
    }

    /** Either everything is ready for a controller, or the attach has failed. */
    ghost predicate Readied(w: World, volume: Volume, r: AttachResult, done: seq<Call>) {
      if r == Attached then
        && !SomeFatal(volume) && Selected(volume) != {}
        && ReadyToLaunch(done, volume) && AllRunning(w, volume.name, Selected(volume))
      else
        && AttachOutcome(w, volume, currentHost, SomeFatal(volume), r, done)
        && (r == Panicked <==> SomeFatal(volume)) && r != DetachFailed && r != NotRead
    }

    /** The last part of an attach, when everything is ready. */
    method LaunchController(volume: Volume, ghost ready: seq<Call>) returns (r: AttachResult, ghost asked: seq<Call>)
      requires Valid() && BaseSlot(volume.name) in cluster.content
      requires ReadyToLaunch(ready, volume) && Selected(volume) != {}
      requires AllRunning(Now(), volume.name, Selected(volume))
      modifies this`calls, cluster
      ensures Valid() && calls == old(calls) + asked && OnlyToggles(old(Now()), Now(), volume.name)
      ensures r == Attached || r == ControllerFailed
      ensures NoOtherRecord(old(Now()), Now(), volume.name, currentHost)
      ensures AttachOutcome(Now(), volume, currentHost, false, r, ready + asked)
      ensures old(FineFrom(|calls|) && Launchable(Now(), volume.name, |calls|)) ==> r == Attached
    {
      ghost var w := Now();
      KeptReflexive(w, volume.name);
      var controller;
      controller, asked := CreateController(volume.name, Selected(volume));
      LaunchToggles(w, w, Now(), volume.name, Selected(volume));
      LaunchOutcome(Now(), volume, currentHost, ready, asked, controller.Launched?);
      r := if controller.Launched? then Attached else ControllerFailed;
    }

    /** The part of an attach after any detach, on a snapshot taken before it. */
    method StartAndLaunch(volume: Volume) returns (r: AttachResult, ghost done: seq<Call>)
      requires Valid() && Snapshot(cluster.content, volume.name, Replicas(volume))
      requires BaseSlot(volume.name) in cluster.content
      modifies this`calls, cluster
      ensures Valid() && r != DetachFailed && r != NotRead
      ensures OnlyToggles(old(Now()), Now(), volume.name)
      ensures NoOtherRecord(old(Now()), Now(), volume.name, currentHost)
      ensures calls == old(calls) + done
      ensures r == Panicked <==> SomeFatal(volume)
      ensures AttachOutcome(Now(), volume, currentHost, SomeFatal(volume), r, done)
      ensures CompleteAll(Replicas(volume)) && old(Smooth(volume.name) && Launchable(Now(), volume.name, |calls|)) ==>
        AsPossible(volume, r)
    {
      var v := volume.name;
      ghost var w1, n := Now(), |calls|;
      r, done := StopAndStart(volume);
      ghost var w2 := Now();
      KeptToggles(w1, w2, v);
      if r != Attached {
        return;
      }
      LaunchableStays(w1, w2, v, n, |calls|);
      ghost var asked;
      r, asked := LaunchController(volume, done);
      TogglesTransitive(w1, w2, Now(), v);
      Appended(old(calls), done, asked);
      done := done + asked;
    }

    /** The attach succeeds, unless there is a readable bad mark or no replica without one. */
    ghost predicate AsPossible(volume: Volume, r: AttachResult) {
      r == Attached || (r == Panicked && SomeFatal(volume)) || (r == NoReplicas && Selected(volume) == {})
    }

    /** A controller can be made on this host, once the recorded one is gone. */
    ghost predicate CanLaunch(v: string)
      reads this, cluster
    {
      v != "" && currentHost != "" && NameFree(Now(), v, currentHost) && Unused(|calls|, Now())
    }

    lemma UnusedStays(w: World, w': World, n: nat, m: nat)
      requires Unused(n, w) && NothingNew(w, w') && n <= m
      ensures Unused(m, w')
    {
      forall k: nat | m <= k && outside(k).answers.created.Some?
        ensures var id := outside(k).answers.created.value; id !in w'.containers && !HasRecord(w'.content, id)
      {
        var id := outside(k).answers.created.value;
        assert BoxAt(w, w', id) && IdKnown(w, w', id);
      }
    }

    lemma LaunchableStays(w: World, w': World, v: string, n: nat, m: nat)
      requires Kept(w, w', v) && n <= m
      ensures Launchable(w, v, n) ==> Launchable(w', v, m)
    {
      KeptNothingNew(w, w', v);
      if Unused(n, w) {
        UnusedStays(w, w', n, m);
      }
      var cs', name := w'.containers, ControllerName(v);
      if k :| k in cs' && cs'[k].name == name && cs'[k].hostID == currentHost {
        assert BoxAt(w, w', k);
      }
    }

    /** A volume attached elsewhere is detached before it is attached here. */
    method DetachFirst(volume: Volume) returns (ok: bool, ghost done: seq<Call>)
      requires Valid() && StoreView.VolumeOf(cluster.content, volume.name) == Some(volume)
      modifies this`monitors, this`calls, cluster
      ensures Valid() && (monitors == old(monitors) || monitors == old(monitors) - {volume.name})
      ensures calls == old(calls) + done && NoCreate(done) && (ok <==> AllOk(done))
      ensures OnlyToggles(old(Now()), Now(), volume.name)
      ensures Snapshot(cluster.content, volume.name, Replicas(volume)) && BaseSlot(volume.name) in cluster.content
      ensures !ok ==> volume.controller.Some?
      ensures ok && volume.controller.Some? ==> FullDetach(done, volume)
      ensures ok ==> ControllerSlot(volume.name) !in cluster.content
      ensures ok && volume.controller.Some? ==> volume.controller.value.id !in cluster.containers
      ensures cluster.content.Keys <= old(cluster.content.Keys) && NothingNew(old(Now()), Now())
      ensures old(Smooth(volume.name)) ==> ok && SoundAll(Now(), volume.name)
    {
      ghost var w := Now();
      KeptReflexive(w, volume.name);
      KeptNothingNew(w, w, volume.name);
      ReadIsSnapshot(w, volume.name, volume);
      AllOkOne(Call(Read, BaseSlot(""), true));
      ok, done := true, [];
      if volume.controller.Some? {
        ok, done := Detach(volume.name);
      }
      SnapshotBeside(w.content, cluster.content, volume.name, Replicas(volume));
      assert SameAt(w.content, cluster.content, BaseSlot(volume.name));
    }

    /** How an attach of `volume` can end. After a success a controller is recorded as running on
        this host. Nothing is asked for if and only if that was so before. A bad replica whose mark
        can be read crashes an attach, unless a detach before fails. */
    ghost predicate AttachEnds(w: World, w': World, volume: Volume, r: AttachResult, done: seq<Call>) {
      && (r == Attached ==> RecordedHere(w'.content, volume.name, currentHost))
      && (r == Attached && done == [] <==>
            volume.controller.Some? && volume.controller.value.running && volume.controller.value.hostID == currentHost)
      && if r == Attached && done == [] then w' == w else AttachedAnew(w', volume, r, done)
    }

    ghost predicate AttachedAnew(w: World, volume: Volume, r: AttachResult, done: seq<Call>) {
      && AttachOutcome(w, volume, currentHost, SomeFatal(volume), r, done)
      && (r == Panicked ==> SomeFatal(volume)) && (SomeFatal(volume) ==> r == Panicked || r == DetachFailed)
      && (r == DetachFailed ==> volume.controller.Some? && !AllOk(done)) && r != NotRead
      && (volume.controller.None? ==> (r == Panicked <==> SomeFatal(volume)))
      && (volume.controller.Some? && r != DetachFailed ==> FullDetach(done, volume))
    }

    /** Attach a volume that is not attached here. */
    method AttachHere(volume: Volume) returns (r: AttachResult, ghost done: seq<Call>)
      requires Valid() && StoreView.VolumeOf(cluster.content, volume.name) == Some(volume) && !AlreadyHere(volume)
      modifies this`monitors, this`calls, cluster
      ensures Valid() && (monitors == old(monitors) || monitors == old(monitors) - {volume.name})
      ensures OnlyToggles(old(Now()), Now(), volume.name) && calls == old(calls) + done
      ensures NoOtherRecord(old(Now()), Now(), volume.name, currentHost)
      ensures AttachEnds(old(Now()), Now(), volume, r, done)
      ensures old(Smooth(volume.name) && CanLaunch(volume.name)) ==> AsPossible(volume, r)
    {
      ghost var w0, n, smooth := Now(), |calls|, Smooth(volume.name) && CanLaunch(volume.name);
      ReadIsSnapshot(w0, volume.name, volume);
      if smooth {
        SoundRead(w0, volume.name, volume);
      }
      var detached;
      detached, done := DetachFirst(volume);
      if !detached {
        NoLaunch(Now(), volume, currentHost, SomeFatal(volume), DetachFailed, done);
        return DetachFailed, done;
      }
      ghost var w1 := Now();
      if smooth {
        UnusedStays(w0, w1, n, |calls|);
        NameStaysFree(w0, w1, volume.name, currentHost);
      }
      ghost var asked;
      r, asked := StartAndLaunch(volume);
      TogglesTransitive(w0, w1, Now(), volume.name);
      OutcomeAfter(Now(), volume, currentHost, SomeFatal(volume), r, done, asked);
      if volume.controller.Some? {
        FullDetachMore([], done, asked, volume);
      }
      Appended(old(calls), done, asked);
      done := done + asked;
    }

    /** Attach. No controller is asked for unless every replica that ran was stopped, every
        selected one was started and no call failed; when one is asked for, the selected replicas
        are running and it is given exactly their addresses, whether or not it comes up. A failed
        attach starts no monitor. */
    method DoAttach(volume: Volume) returns (r: AttachResult, ghost done: seq<Call>)
      requires Valid() && StoreView.VolumeOf(cluster.content, volume.name) == Some(volume)
      modifies this`monitors, this`calls, cluster
      ensures Valid() && OnlyToggles(old(Now()), Now(), volume.name)
      ensures if r == Attached then monitors == old(monitors) + {volume.name}
              else monitors == old(monitors) || monitors == old(monitors) - {volume.name}
      ensures calls == old(calls) + done && NoOtherRecord(old(Now()), Now(), volume.name, currentHost)
      ensures AttachEnds(old(Now()), Now(), volume, r, done)
      ensures old(Smooth(volume.name) && CanLaunch(volume.name)) ==> AsPossible(volume, r)
    {
      KeptReflexive(Now(), volume.name);
      if AlreadyHere(volume) {
        r, done := Attached, [];
      } else {
        r, done := AttachHere(volume);
      }
      if r == Attached {
        StartMonitoring(volume.name);
      }
    }

    /** Attach by name. For a volume that does not exist it crashes. In every store the manager's
        writes can reach no replica is marked bad, so there an existing volume is attached with
        all its replicas and never crashes. */
    method Attach(name: string) returns (r: AttachResult, ghost found: Option<Volume>, ghost asked: seq<Call>)
      requires Valid()
      modifies this`monitors, this`calls, cluster
      ensures Valid() && calls == old(calls) + [Call(Read, BaseSlot(name), r != NotRead)] + asked
      ensures OnlyToggles(old(Now()), Now(), name) && NoOtherRecord(old(Now()), Now(), name, currentHost)
      ensures if r == Attached then name in monitors else monitors <= old(monitors)
      ensures found == StoreView.VolumeOf(old(cluster.content), name)
      ensures r == NotRead || found.None? ==> asked == [] && Now() == old(Now()) && (r == NotRead || r == Panicked)
      ensures r != NotRead && found.Some? ==> AttachEnds(old(Now()), Now(), found.value, r, asked)
      ensures r != NotRead && found.Some? ==> UsesAll(old(cluster.content), cluster.content, found.value, r)
      ensures found.Some? && old(Smooth(name) && CanLaunch(name)) ==> AsPossible(found.value, r)
    {
      KeptReflexive(Now(), name);
      found, asked := StoreView.VolumeOf(cluster.content, name), [];
      var volume := Get(name);
      if volume.Err? {
        r := NotRead;
      } else if volume.value.None? {
        r := Panicked;
      } else {
        ReadHasName(cluster.content, name, volume.value.value);
        r, asked := AttachFound(volume.value.value);
      }
    }

    /** The part of an attach by name after the store was read. */
    method AttachFound(volume: Volume) returns (r: AttachResult, ghost done: seq<Call>)
      requires Valid() && StoreView.VolumeOf(cluster.content, volume.name) == Some(volume)
      modifies this`monitors, this`calls, cluster
      ensures Valid() && calls == old(calls) + done
      ensures OnlyToggles(old(Now()), Now(), volume.name) && NoOtherRecord(old(Now()), Now(), volume.name, currentHost)
      ensures if r == Attached then volume.name in monitors else monitors <= old(monitors)
      ensures AttachEnds(old(Now()), Now(), volume, r, done)
      ensures UsesAll(old(cluster.content), cluster.content, volume, r)
      ensures old(Smooth(volume.name) && CanLaunch(volume.name)) ==> AsPossible(volume, r)
    {
      ghost var w := Now();
      r, done := DoAttach(volume);
      UnmarkedUsesAll(w, Now(), volume, r, done);
    }

    /** From an unmarked store an attach uses all replicas, does not crash and marks none. */
    ghost predicate UsesAll(c: Content, c': Content, volume: Volume, r: AttachResult) {
      if Unmarked(c) then r != Panicked && Selected(volume) == Replicas(volume).Keys && Unmarked(c') else true
    }

    lemma UnmarkedUsesAll(w: World, w': World, volume: Volume, r: AttachResult, done: seq<Call>)
      requires AllFit(w.content) && AllFit(w'.content) && StoreView.VolumeOf(w.content, volume.name) == Some(volume)
      requires OnlyToggles(w, w', volume.name) && AttachEnds(w, w', volume, r, done)
      ensures UsesAll(w.content, w'.content, volume, r)
    {
      if Unmarked(w.content) {
        UnmarkedVolume(w.content, volume);
        StaysUnmarked(w, w', volume.name);
      }
    }

    // ---- runs of operations ----

    /** Any sequence of operations on any volumes: once a left-over container blocks a volume's
        controller on this host, it stays, and no attach of that volume succeeds ever again. */
    method Operate(operations: seq<Operation>, ghost v: string) returns (attached: seq<bool>)
      requires Valid() && Blocked(Now(), v, currentHost)
      modifies this`monitors, this`calls, cluster
      ensures Valid() && Blocked(Now(), v, currentHost) && |attached| == |operations|
      ensures forall k :: 0 <= k < |operations| && operations[k] == AttachVolume(v) ==> !attached[k]
    {
      attached := [];
      for n := 0 to |operations|
        invariant Valid() && Blocked(Now(), v, currentHost) && |attached| == n
        invariant forall k :: 0 <= k < n && operations[k] == AttachVolume(v) ==> !attached[k]
      {
        var done := OperateOnce(operations[n], v);
        attached := attached + [done];
      }
    }

    method OperateOnce(operation: Operation, ghost v: string) returns (attached: bool)
      requires Valid() && Blocked(Now(), v, currentHost)
      modifies this`monitors, this`calls, cluster
      ensures Valid() && Blocked(Now(), v, currentHost)
      ensures operation == AttachVolume(v) ==> !attached
    {
      ghost var w, u := Now(), operation.name;
      ghost var done;
      match operation {
        case AttachVolume(name) =>
          var r;
          ghost var found;
          r, found, done := Attach(name);
          attached := r == Attached;
          OthersAreOtherVolumes(w, Now(), u);
          StaysBlocked(w, Now(), u, v, currentHost);
          if u == v && r != NotRead && found.Some? {
            BlockedFails(w, Now(), v, found.value, r, done);
          }
        case DetachVolume(name) =>
          attached, done := Detach(name);
          OthersAreOtherVolumes(w, Now(), u);
          StaysBlocked(w, Now(), u, v, currentHost);
        case RemoveVolume(name) =>
          attached, done := Delete(name);
          StaysBlocked(w, Now(), u, v, currentHost);
      }
    }

    lemma BlockedFails(w: World, w': World, v: string, volume: Volume, r: AttachResult, done: seq<Call>)
      requires AllFit(w.content) && StoreView.VolumeOf(w.content, v) == Some(volume)
      requires AttachEnds(w, w', volume, r, done)
      requires Blocked(w, v, currentHost) && !ControllerUp(w', v, currentHost)
      ensures r != Attached
    {
      ReadHasName(w.content, v, volume);
      assert volume.controller.None?;
    }

    // ---- delete ----

    /** Detach, remove every replica, then drop the volume's metadata, each only if nothing failed
        before. When it succeeds, nothing recorded about the volume is left, nor any container
        that was bound to it. */
    method Delete(name: string) returns (ok: bool, ghost done: seq<Call>)
      requires Valid()
      modifies this`monitors, this`calls, cluster
      ensures Valid() && calls == old(calls) + done && (ok <==> AllOk(done))
      ensures monitors - {name} == old(monitors) - {name}
      ensures OtherVolumes(old(Now()), Now(), name) && cluster.content.Keys <= old(cluster.content.Keys)
      ensures match StoreView.VolumeOf(old(cluster.content), name)
        case None => |done| == 1 && monitors == old(monitors) && Now() == old(Now())
        case Some(volume) =>
          && done != [] && OrderlyDelete(done[1..], volume)
          && (ok ==> name !in monitors && Deleted(old(Now()), Now(), name))
      ensures old(Smooth(name)) ==> ok
    {
      ghost var w0 := Now();
      KeptReflexive(w0, name);
      OthersAreOtherVolumes(w0, w0, name);
      var got := Get(name);
      done := [Call(Read, BaseSlot(name), got.Ok?)];
      AllOkOne(done[0]);
      if got.Err? || got.value.None? {
        return got.Ok?, done;
      }
      ReadHasName(w0.content, name, got.value.value);
      ghost var deleted;
      ok, deleted := DoDelete(got.value.value);
      AllOkConcat(done, deleted);
      done := done + deleted;
      assert done[1..] == deleted;
    }

    method DoDelete(volume: Volume) returns (ok: bool, ghost done: seq<Call>)
      requires Valid() && StoreView.VolumeOf(cluster.content, volume.name) == Some(volume)
      modifies this`monitors, this`calls, cluster
      ensures Valid() && monitors == old(monitors) - {volume.name}
      ensures calls == old(calls) + done && OrderlyDelete(done, volume) && (ok <==> AllOk(done))
      ensures OtherVolumes(old(Now()), Now(), volume.name) && cluster.content.Keys <= old(cluster.content.Keys)
      ensures ok ==> Deleted(old(Now()), Now(), volume.name)
      ensures old(Smooth(volume.name)) ==> ok
    {
      var name := volume.name;
      ghost var w0 := Now();
      ReadIsSnapshot(w0, name, volume);
      if Smooth(name) {
        SoundRead(w0, name, volume);
      }
      var detached;
      detached, done := DoDetach(volume);
      ghost var w1 := Now();
      OthersAreOtherVolumes(w0, w1, name);
      DeleteStarts(done, volume);
      if detached != Detached {
        return false, done;
      }
      SnapshotBeside(w0.content, w1.content, name, Replicas(volume));
      ghost var more;
      ok, more := RemoveAndDrop(volume, w0, done);
      Appended(old(calls), done, more);
      done := done + more;
    }

    /** The part of a delete after the detach, which began in `w0` and made the calls `first`. */
    method RemoveAndDrop(volume: Volume, ghost w0: World, ghost first: seq<Call>)
      returns (ok: bool, ghost more: seq<Call>)
      requires Valid() && Snapshot(cluster.content, volume.name, Replicas(volume))
      requires AllFit(w0.content) && StoreView.VolumeOf(w0.content, volume.name) == Some(volume)
      requires Others(w0, Now(), volume.name) && Detachment(w0, Now(), volume)
      requires OrderlyDelete(first, volume) && AllOk(first)
      modifies this`calls, cluster
      ensures Valid() && calls == old(calls) + more
      ensures OrderlyDelete(first + more, volume) && (ok <==> AllOk(first + more))
      ensures OtherVolumes(w0, Now(), volume.name) && cluster.content.Keys <= old(cluster.content.Keys)
      ensures ok ==> Deleted(w0, Now(), volume.name)
      ensures CompleteAll(Replicas(volume)) && old(Smooth(volume.name)) ==> ok
    {
      var name := volume.name;
      ghost var w1 := Now();
      ok, more := RemoveAll(name, Replicas(volume));
      OthersTransitive(w0, w1, Now(), name);
      OthersAreOtherVolumes(w0, Now(), name);
      DeleteOrder(first, more, volume);
      if ok {
        NoneOwned(w0, w1, Now(), volume);
        ok := DeleteVolume(name);
        DropOrder(first + more, Call(Drop, BaseSlot(name), ok), volume);
        Appended(first, more, [Call(Drop, BaseSlot(name), ok)]);
        Appended(old(calls), more, [Call(Drop, BaseSlot(name), ok)]);
        more := more + [Call(Drop, BaseSlot(name), ok)];
      }
    }

    /** Remove the replicas one after the other, up to the first failure. */
    method RemoveAll(v: string, replicas: map<string, Replica>) returns (ok: bool, ghost done: seq<Call>)
      requires Valid() && Snapshot(cluster.content, v, replicas)
      modifies this`calls, cluster
      ensures Valid() && Others(old(Now()), Now(), v) && cluster.content.Keys <= old(cluster.content.Keys)
      ensures calls == old(calls) + done && OneByOne(done, Remove) && (ok <==> AllOk(done))
      ensures ok ==> EachOk(done, Remove, v, replicas.Keys) && cluster.containers.Keys <= old(cluster.containers.Keys)
      ensures ok ==> forall r {:trigger Gone(cluster.containers, replicas, r)} :: r in replicas ==>
        Gone(cluster.containers, replicas, r)
      ensures CompleteAll(replicas) && old(Smooth(v) && NoneRuns(Now(), v, replicas.Keys)) ==> ok
    {
      done := [];
      var left := replicas.Keys;
      ghost var w0, smooth := Now(), CompleteAll(replicas) && Smooth(v) && NoneRuns(Now(), v, left);
      KeptReflexive(w0, v);
      while left != {}
        invariant left <= replicas.Keys && Valid() && SnapshotOf(cluster.content, v, replicas, left)
        invariant Others(w0, Now(), v) && cluster.content.Keys <= w0.content.Keys
        invariant calls == old(calls) + done && OneByOne(done, Remove) && AllOk(done)
        invariant EachOk(done, Remove, v, replicas.Keys - left) && cluster.containers.Keys <= w0.containers.Keys
        invariant forall r {:trigger Gone(cluster.containers, replicas, r)} ::
          r in replicas && r !in left ==> Gone(cluster.containers, replicas, r)
        invariant smooth ==> Smooth(v) && NoneRuns(Now(), v, left)
      {
        var r :| r in left;
        ghost var w, s := Now(), ReplicaSlot(v, r);
        assert Bound(w.content, s, replicas[r].inst);
        assert smooth ==> Stopped(w, v, r);
        ok := RemoveInstance(replicas[r].inst, s);
        OthersTransitive(w0, w, Now(), v);
        OneMore(done, Call(Remove, s, ok));
        EachOkMore(done, Remove, v, replicas.Keys - left, r);
        Appended(old(calls), done, [Call(Remove, s, ok)]);
        done := done + [Call(Remove, s, ok)];
        if !ok {
          return;
        }
        SnapshotShrinks(w.content, v, replicas, left, r);
        NoneRunsFewer(w, Now(), v, left, r);
        forall q | q in replicas && q !in left - {r} ensures Gone(cluster.containers, replicas, q) {
          assert q == r || Gone(w.containers, replicas, q);
        }
        assert replicas.Keys - (left - {r}) == (replicas.Keys - left) + {r};
        left := left - {r};
      }
      assert replicas.Keys - left == replicas.Keys;
      ok := true;
    }

    /** The store's recursive delete. */
    method DeleteVolume(name: string) returns (ok: bool)
      requires Valid()
      modifies this`calls, cluster`content
      ensures Valid() && calls == old(calls) + [Call(Drop, BaseSlot(name), ok)]
      ensures ok <==> outside(old(|calls|)).writable
      ensures cluster.content == if ok then WithoutVolume(old(cluster.content), name) else old(cluster.content)
      ensures ok ==> forall s :: s in cluster.content <==>
        s in old(cluster.content) && s != BaseSlot(name) && s != ControllerSlot(name) &&
        !(s.ReplicaSlot? && s.volume == name)
    {
      ok := outside(|calls|).writable;
      if ok {
        WithoutVolumeConsistent(cluster.containers, cluster.content, name);
        cluster.content := WithoutVolume(cluster.content, name);
      }
      calls := calls + [Call(Drop, BaseSlot(name), ok)];
    }
  }

  /** A start or stop, and the removal of a stopped instance, in a sound volume when nothing fails. */
  lemma SmoothToggle(w: World, e: Event, s: Slot, i: Instance)
    requires Consistent(w.containers, w.content) && Bound(w.content, s, i) && Complete(i) && e.host == i.hostID
    requires e.req == Ask(StartInstance, i) || e.req == Ask(StopInstance, i)
    ensures FineAnswers(e.answers) && SoundAll(w, s.volume) ==> Works(w, e) && SoundAll(Step(w, e), s.volume)
  {
    if FineAnswers(e.answers) && SoundAll(w, s.volume) {
      assert Sound(w, s);
      FineToggle(w, e, s, i);
      RequestToggles(w, e, s, i);
      SoundToggled(w, Step(w, e), s, i);
    }
  }

  lemma SmoothRemoval(w: World, e: Event, s: Slot, i: Instance)
    requires Bound(w.content, s, i) && Complete(i) && e.host == i.hostID && e.req == Ask(DeleteInstance, i)
    ensures FineAnswers(e.answers) && SoundAll(w, s.volume) && !Recorded(w.content, s).value.running ==>
      Works(w, e) && SoundAll(Step(w, e), s.volume)
  {
    if FineAnswers(e.answers) && SoundAll(w, s.volume) && !Recorded(w.content, s).value.running {
      assert Sound(w, s);
      FineRemoval(w, e, s, i);
      SoundRemoved(w, Step(w, e), s, i);
    }
  }

  /** The controller, if there is one, is recorded as stopped. */
  ghost predicate ControllerIdle(w: World, volume: Volume) {
    var i := Recorded(w.content, ControllerSlot(volume.name));
    volume.controller.Some? ==> i.Some? && !i.value.running
  }

  /** Nothing but the recorded controller of the volume holds the name of its controller on this
      host. */
  ghost predicate NameFree(w: World, v: string, host: string) {
    forall k {:trigger Holds(w, k, host, ControllerName(v))} :: Holds(w, k, host, ControllerName(v)) ==>
      var i := Recorded(w.content, ControllerSlot(v)); i.Some? && i.value.id == k
  }

  lemma NameStaysFree(w: World, w': World, v: string, host: string)
    requires NameFree(w, v, host) && Boxes(w, w') && ControllerSlot(v) !in w'.content
    requires Recorded(w.content, ControllerSlot(v)).Some? ==>
      Recorded(w.content, ControllerSlot(v)).value.id !in w'.containers
    ensures NameFree(w', v, host) && !NameTaken(w'.containers, host, ControllerName(v))
  {
    forall k | k in w'.containers ensures !Holds(w', k, host, ControllerName(v)) {
      assert BoxAt(w, w', k);
      assert Holds(w', k, host, ControllerName(v)) ==> Holds(w, k, host, ControllerName(v));
    }
  }

  /** Nothing but instances of `v` is touched, and its replicas are at most started or stopped. */
  ghost predicate OnlyToggles(w: World, w': World, v: string) {
    Others(w, w', v) && ReplicasKept(w.content, w'.content, v)
  }

  // ---- left-over controllers ----

  /** A container that no record names holds the name of the volume's controller on this host, and
      no controller of the volume is recorded. */
  ghost predicate Blocked(w: World, v: string, host: string) {
    ControllerSlot(v) !in w.content && exists id {:trigger Orphan(w, id)} :: Leftover(w, id, v, host)
  }

  predicate Leftover(w: World, id: string, v: string, host: string) {
    Orphan(w, id) && Holds(w, id, host, ControllerName(v))
  }

  /** Every failed creation of a controller, once docker has made its container, does that. */
  lemma FailedControllerBlocks(w: World, e: Event, v: string)
    requires Accepted(e.req) && e.req.action == CreateController && !Works(w, e)
    requires e.req.data.value.instanceName == ControllerName(v) && ControllerSlot(v) !in w.content
    requires CanCreate(w.containers, w.content, e.host, ControllerName(v), e.answers)
    ensures Blocked(Step(w, e), v, e.host)
  {
    FailedControllerLeaves(w, e);
    assert Leftover(Step(w, e), e.answers.created.value, v, e.host);
  }

  /** Two containers cannot hold the name, so no controller comes up beside a left-over one. */
  lemma LeftoverExcludes(w: World, id: string, v: string, host: string)
    requires Consistent(w.containers, w.content) && Leftover(w, id, v, host)
    ensures !ControllerUp(w, v, host)
  {
    var i := Recorded(w.content, ControllerSlot(v));
    assert ControllerSlot(v) in w.content ==> Tied(w.containers, w.content, ControllerSlot(v));
    var other := if i.Some? then i.value.id else "";
    assert i.Some? ==> HasRecord(w.content, other);
    assert !SameName(w.containers, id, other) || id == other;
  }

  lemma OwnedHasRecord(c: Content, v: string, id: string)
    requires Owned(c, v, id)
    ensures HasRecord(c, id)
  {
    var s :| s in c && InstanceOf(s, v) && Recorded(c, s).Some? && Recorded(c, s).value.id == id;
  }

  lemma LeftoverStays(w: World, w': World, u: string, id: string, v: string, host: string)
    requires OtherVolumes(w, w', u) && Leftover(w, id, v, host)
    ensures Leftover(w', id, v, host)
  {
    if Owned(w.content, u, id) {
      OwnedHasRecord(w.content, u, id);
    }
    assert SameContainer(w.containers, w'.containers, id);
    assert HasRecord(w'.content, id) ==> HasRecord(w.content, id);
  }

  /** What leaves other volumes alone and records nothing new but a controller keeps it blocked. */
  lemma StaysBlocked(w: World, w': World, u: string, v: string, host: string)
    requires Consistent(w'.containers, w'.content) && OtherVolumes(w, w', u) && Blocked(w, v, host)
    requires w'.content.Keys <= w.content.Keys || (if u == v then ControllerUp(w', v, host) else true)
    ensures Blocked(w', v, host) && !ControllerUp(w', v, host)
  {
    var id :| Orphan(w, id) && Leftover(w, id, v, host);
    LeftoverStays(w, w', u, id, v, host);
    assert Orphan(w', id);
    LeftoverExcludes(w', id, v, host);
    if u != v {
      assert SameAt(w.content, w'.content, ControllerSlot(v));
    }
  }

  lemma KeptToggles(w: World, w': World, v: string)
    requires Kept(w, w', v)
    ensures OnlyToggles(w, w', v)
  {
    KeptReplicas(w, w', v);
  }

  lemma TogglesTransitive(w: World, w1: World, w2: World, v: string)
    requires OnlyToggles(w, w1, v) && OnlyToggles(w1, w2, v)
    ensures OnlyToggles(w, w2, v)
  {
    OthersTransitive(w, w1, w2, v);
    ReplicasKeptTransitive(w.content, w1.content, w2.content, v);
  }

  lemma RemovalToggles(w: World, w1: World, w2: World, volume: Volume)
    requires OnlyToggles(w, w1, volume.name) && Others(w1, w2, volume.name) && AllStopped(w1, volume)
    requires w2.content == w1.content || w2.content == w1.content - {ControllerSlot(volume.name)}
    requires forall k :: k in w2.containers ==> k in w1.containers && w2.containers[k] == w1.containers[k]
    ensures OnlyToggles(w, w2, volume.name) && AllStopped(w2, volume)
  {
    OthersTransitive(w, w1, w2, volume.name);
    ReplicasBeside(w.content, w1.content, w2.content, volume.name);
    forall r | r in Replicas(volume) ensures Stopped(w2, volume.name, r) {
      assert Stopped(w1, volume.name, r);
    }
  }

  lemma LaunchToggles(w: World, w1: World, w2: World, v: string, names: set<string>)
    requires OnlyToggles(w, w1, v) && Others(w1, w2, v) && ReplicasSame(w1.content, w2.content, v)
    requires NoneTouched(w1, w2) && AllRunning(w1, v, names)
    ensures OnlyToggles(w, w2, v) && AllRunning(w2, v, names)
  {
    OthersTransitive(w, w1, w2, v);
    SameReplicasKept(w.content, w1.content, w2.content, v);
    SameRunning(w1, w2, v);
    forall r | r in names ensures Running(w2, v, r) {
      assert Running(w1, v, r);
    }
  }

  lemma UnchangedToggled(w: World, s: Slot, i: Instance)
    requires AllFit(w.content) && Bound(w.content, s, i)
    ensures Toggled(w, w, s, i.id)
  {
    assert Fits(s, w.content[s]);
  }

  // ---- detach ----

  /** A volume detached: all its replicas are stopped, its controller is gone with its
      container, and there is nothing else that was not there before. */
  ghost predicate Detachment(w: World, w': World, volume: Volume) {
    var v, c' := volume.name, w'.content;
    && c'.Keys == w.content.Keys - {ControllerSlot(v)}
    && AllStopped(w', volume)
    && w'.containers.Keys == w.containers.Keys - (if volume.controller.Some? then {volume.controller.value.id} else {})
  }

  ghost predicate AllStopped(w: World, volume: Volume) {
    forall r {:trigger Stopped(w, volume.name, r)} :: r in Replicas(volume) ==> Stopped(w, volume.name, r)
  }

  /** Removing the controller's record leaves the replicas as they were. */
  lemma ReplicasBeside(c0: Content, c: Content, c': Content, v: string)
    requires ReplicasKept(c0, c, v) && (c' == c || c' == c - {ControllerSlot(v)})
    ensures ReplicasKept(c0, c', v)
  {
    forall r ensures ReplicaKept(c0, c', v, r) {
      assert ReplicaKept(c0, c, v, r);
    }
  }

  // ---- attach ----

  function ControllerName(v: string): string {
    v + "-controller"
  }

  function Url(address: string): string {
    "tcp://" + address + ":9502"
  }

  /** A launch names each of `selected` once, with the URL of its recorded address. */
  predicate GivenExactly(c: Content, launch: Launch, v: string, selected: set<string>) {
    && launch.volume == v && |launch.urls| == |launch.names| && Covers(launch.names, selected)
    && (forall i :: 0 <= i < |launch.names| ==> GivenAt(c, v, launch.names[i], launch.urls[i]))
  }

  predicate GivenAt(c: Content, v: string, name: string, url: string) {
    var i := Recorded(c, ReplicaSlot(v, name));
    i.Some? && i.value.address != "" && url == "tcp://" + i.value.address + ":9502"
  }

  lemma GivenOneMore(c: Content, launch: Launch, v: string, done: set<string>, name: string)
    requires GivenExactly(c, launch, v, done) && name !in done
    requires Recorded(c, ReplicaSlot(v, name)).Some? && Recorded(c, ReplicaSlot(v, name)).value.address != ""
    ensures var url := Url(Recorded(c, ReplicaSlot(v, name)).value.address);
      GivenExactly(c, Launch(v, launch.names + [name], launch.urls + [url]), v, done + {name})
  {
    CoversAppend(launch.names, done, name);
  }

  lemma GivenSame(c: Content, c': Content, launch: Launch, v: string, selected: set<string>)
    requires GivenExactly(c, launch, v, selected) && ReplicasSame(c, c', v)
    ensures GivenExactly(c', launch, v, selected)
  {
    forall i | 0 <= i < |launch.names| ensures GivenAt(c', v, launch.names[i], launch.urls[i]) {
      assert GivenAt(c, v, launch.names[i], launch.urls[i]);
      assert SameAt(c, c', ReplicaSlot(v, launch.names[i]));
    }
  }

  lemma SameRunning(w: World, w': World, v: string)
    requires ReplicasSame(w.content, w'.content, v) && NoneTouched(w, w')
    ensures forall r {:trigger Running(w', v, r)} :: Running(w, v, r) ==> Running(w', v, r)
  {
    forall r | Running(w, v, r) ensures Running(w', v, r) {
      assert SameAt(w.content, w'.content, ReplicaSlot(v, r));
      assert SameContainer(w.containers, w'.containers, Recorded(w.content, ReplicaSlot(v, r)).value.id);
    }
  }

  /** No container that was there is touched. */
  ghost predicate NoneTouched(w: World, w': World) {
    forall k {:trigger SameContainer(w.containers, w'.containers, k)} ::
      k in w.containers ==> SameContainer(w.containers, w'.containers, k)
  }

  /** What a controller finds when it is asked for: the selected replicas running, and their
      addresses given to it, each once. */
  ghost predicate Prepared(w: World, volume: Volume, call: Call) {
    && call.op.Create? && GivenExactly(w.content, call.op.launch, volume.name, Selected(volume))
    && AllRunning(w, volume.name, Selected(volume))
    && forall r :: r in call.op.launch.names <==> r in Replicas(volume) && Replicas(volume)[r].badTimestamp == ""
  }

  ghost predicate AllRunning(w: World, v: string, names: set<string>) {
    forall r {:trigger Running(w, v, r)} :: r in names ==> Running(w, v, r)
  }

  /** A controller of the volume is recorded, with its container on this host. */
  ghost predicate ControllerUp(w: World, v: string, host: string) {
    var i := Recorded(w.content, ControllerSlot(v));
    i.Some? && i.value.name == v + "-controller" && i.value.hostID == host && i.value.id in w.containers
  }

  /** A controller of the volume is recorded as running on this host. */
  ghost predicate RecordedHere(c: Content, v: string, host: string) {
    var i := Recorded(c, ControllerSlot(v));
    i.Some? && i.value.running && i.value.hostID == host
  }

  /** It is running, and was launched with exactly these replicas. */
  ghost predicate ControllerHere(w: World, v: string, host: string, urls: seq<string>) {
    var i := Recorded(w.content, ControllerSlot(v));
    && ControllerUp(w, v, host) && Up(w, ControllerSlot(v))
    && w.containers[i.value.id].urls == urls
  }

  /** Nothing new is recorded, unless it is the controller. */
  ghost predicate NoOtherRecord(w: World, w': World, v: string, host: string) {
    w'.content.Keys <= w.content.Keys || ControllerUp(w', v, host)
  }

  /** How an attach ends: a controller is asked for only when everything is ready for it, and then
      finds the selected replicas running and is given their addresses, whether or not it comes
      up; the attach succeeds if and only if no call failed, and then the controller runs here. */
  ghost predicate AttachOutcome(
      w: World, volume: Volume, host: string, fatal: bool, r: AttachResult, done: seq<Call>) {
    && OrderlyAttach(done, volume)
    && (r == Attached <==> !fatal && Selected(volume) != {} && AllOk(done))
    && (r == NoReplicas ==> Selected(volume) == {})
    && (!NoCreate(done) ==> done != [] && Prepared(w, volume, done[|done| - 1]))
    && (r == Attached ==> !NoCreate(done) && ControllerHere(w, volume.name, host, done[|done| - 1].op.launch.urls))
  }

  lemma NoLaunch(w: World, volume: Volume, host: string, fatal: bool, r: AttachResult, done: seq<Call>)
    requires NoCreate(done) && r != Attached && (fatal || Selected(volume) == {} || !AllOk(done))
    requires r == NoReplicas ==> Selected(volume) == {}
    ensures AttachOutcome(w, volume, host, fatal, r, done)
  {
  }

  lemma LaunchOutcome(w: World, volume: Volume, host: string, ready: seq<Call>, asked: seq<Call>, launched: bool)
    requires ReadyToLaunch(ready, volume) && Selected(volume) != {}
    requires AllRunning(w, volume.name, Selected(volume))
    requires 1 <= |asked| <= 2 && asked[0].op == Read && (launched <==> AllOk(asked))
    requires |asked| == 2 ==> asked[0].ok && asked[1].op.Create? && asked[1].slot == ControllerSlot(volume.name)
    requires |asked| == 2 ==> GivenExactly(w.content, asked[1].op.launch, volume.name, Selected(volume))
    requires launched ==> |asked| == 2 && ControllerHere(w, volume.name, host, asked[1].op.launch.urls)
    ensures AttachOutcome(w, volume, host, false, if launched then Attached else ControllerFailed, ready + asked)
  {
    LaunchOrder(ready, asked, volume);
  }

  /** A successful detach before does not change that. */
  lemma OutcomeAfter(
      w: World, volume: Volume, host: string, fatal: bool, r: AttachResult, first: seq<Call>,
      done: seq<Call>)
    requires NoCreate(first) && AllOk(first) && AttachOutcome(w, volume, host, fatal, r, done)
    ensures AttachOutcome(w, volume, host, fatal, r, first + done)
  {
    AttachOrder(first, done, volume);
  }

  /** A request to create the volume's controller records it or changes no record. */
  lemma ControllerRequest(w: World, e: Event, v: string, urls: seq<string>)
    requires e.req.action == CreateController && e.req.data == Some(Data(ControllerName(v), v, urls))
    ensures Others(w, Step(w, e), v) && ReplicasSame(w.content, Step(w, e).content, v)
    ensures NoOtherRecord(w, Step(w, e), v, e.host) && NoneTouched(w, Step(w, e))
    ensures Works(w, e) ==>
      && Recorded(Step(w, e).content, ControllerSlot(v)) == Some(Reported(w.containers, e.host, e.req, e.answers))
      && ControllerHere(Step(w, e), v, e.host, urls)
  {
    var w' := Step(w, e);
    if Works(w, e) {
      ControllerStored(w, w', v, Reported(w.containers, e.host, e.req, e.answers));
    } else {
      NothingStored(w, w', v);
    }
  }

  lemma ControllerStored(w: World, w': World, v: string, i: Instance)
    requires Stored(w.content, w'.content, i) && SlotOf(i) == ControllerSlot(v) && i.id !in w.containers
    requires i.typ == ControllerType
    requires forall k | k in w.containers :: k in w'.containers && w'.containers[k] == w.containers[k]
    ensures Others(w, w', v) && ReplicasSame(w.content, w'.content, v)
    ensures Recorded(w'.content, ControllerSlot(v)) == Some(i)
  {
    var c, c' := w.content, w'.content;
    forall k | k in w.containers && Owned(c', v, k) ensures Owned(c, v, k) {
      var t :| t in c' && InstanceOf(t, v) && Recorded(c', t).Some? && Recorded(c', t).value.id == k;
      assert t != ControllerSlot(v);
      assert Recorded(c, t).Some? && Recorded(c, t).value.id == k;
    }
  }

  lemma NothingStored(w: World, w': World, v: string)
    requires w'.content == w.content
    requires forall k | k in w.containers :: k in w'.containers && w'.containers[k] == w.containers[k]
    ensures Others(w, w', v) && ReplicasSame(w.content, w'.content, v)
  {
  }

  /** A volume read from an unmarked store is attached with all its replicas. */
  lemma UnmarkedVolume(c: Content, volume: Volume)
    requires AllFit(c) && Unmarked(c) && StoreView.VolumeOf(c, volume.name) == Some(volume)
    ensures Selected(volume) == Replicas(volume).Keys
    ensures forall r :: r in Replicas(volume) ==> Replicas(volume)[r].badTimestamp == ""
  {
    forall r | r in Replicas(volume) ensures Replicas(volume)[r].badTimestamp == "" {
      assert Fits(ReplicaSlot(volume.name, r), c[ReplicaSlot(volume.name, r)]);
      assert MarkAt(c, ReplicaSlot(volume.name, r)) == "";
    }
  }

  /** An operation that leaves the other volumes alone and keeps or adds no marked replica. */
  lemma StaysUnmarked(w: World, w': World, v: string)
    requires Unmarked(w.content) && AllFit(w'.content) && Others(w, w', v) && ReplicasKept(w.content, w'.content, v)
    ensures Unmarked(w'.content)
  {
    forall s ensures MarkAt(w'.content, s) == "" {
      assert MarkAt(w.content, s) == "";
      assert s in w'.content ==> Fits(s, w'.content[s]);
      if s.ReplicaSlot? && s.volume == v {
        assert ReplicaKept(w.content, w'.content, v, s.replica);
      } else if !InstanceOf(s, v) {
        assert SameAt(w.content, w'.content, s);
      }
    }
  }

  // ---- delete ----

  function WithoutVolume(c: Content, v: string): Content {
    map s | s in c && !(OfVolume(s) && s.volume == v) :: c[s]
  }

  lemma WithoutVolumeConsistent(cs: Containers, c: Content, v: string)
    requires Consistent(cs, c)
    ensures Consistent(cs, WithoutVolume(c, v))
  {
    var c' := WithoutVolume(c, v);
    forall s | s in c' ensures Fits(s, c'[s]) && Tied(cs, c', s) {
      assert Fits(s, c[s]) && Tied(cs, c, s);
    }
  }

  ghost predicate NoneRuns(w: World, v: string, names: set<string>) {
    forall r {:trigger Stopped(w, v, r)} :: r in names ==> Stopped(w, v, r)
  }

  lemma NoneRunsFewer(w: World, w': World, v: string, names: set<string>, r: string)
    requires w'.content == w.content - {ReplicaSlot(v, r)}
    requires forall k :: k in w'.containers ==> k in w.containers && w'.containers[k] == w.containers[k]
    ensures NoneRuns(w, v, names) ==> NoneRuns(w', v, names - {r})
  {
    forall q | NoneRuns(w, v, names) && q in names - {r} ensures Stopped(w', v, q) {
      assert Stopped(w, v, q);
    }
  }

  ghost predicate Gone(cs: Containers, replicas: map<string, Replica>, r: string) {
    r in replicas && replicas[r].inst.id !in cs
  }

  /** Nothing recorded about the volume is left, nor any container that was bound to it. */
  ghost predicate Deleted(w: World, w': World, v: string) {
    && (forall s :: s in w'.content && OfVolume(s) ==> s.volume != v)
    && (forall id :: Owned(w.content, v, id) ==> id !in w'.containers)
  }

  /** Whatever is not of volume `v`, its base included, is as before. */
  ghost predicate OtherVolumes(w: World, w': World, v: string) {
    && (forall s {:trigger SameAt(w.content, w'.content, s)} ::
          !(OfVolume(s) && s.volume == v) ==> SameAt(w.content, w'.content, s))
    && (forall k {:trigger SameContainer(w.containers, w'.containers, k)} ::
          k in w.containers && !Owned(w.content, v, k) ==> SameContainer(w.containers, w'.containers, k))
    && (forall k {:trigger HasRecord(w'.content, k)} ::
          k in w.containers && HasRecord(w'.content, k) ==> HasRecord(w.content, k))
  }

  lemma OthersAreOtherVolumes(w: World, w': World, v: string)
    requires Others(w, w', v)
    ensures OtherVolumes(w, w', v)
    ensures OtherVolumes(w, w'.(content := WithoutVolume(w'.content, v)), v)
  {
    var c, c', c'' := w.content, w'.content, WithoutVolume(w'.content, v);
    forall s | !(OfVolume(s) && s.volume == v) ensures SameAt(c, c', s) && SameAt(c, c'', s) {
      assert SameAt(c, c', s);
    }
    forall k | k in w.containers && HasRecord(c', k) ensures HasRecord(c, k) {
      OldRecord(w, w', v, k);
    }
    forall k | HasRecord(c'', k) ensures HasRecord(c', k) {
      var t :| t in c'' && Recorded(c'', t).Some? && Recorded(c'', t).value.id == k;
      assert Recorded(c', t) == Recorded(c'', t);
    }
  }

  lemma OldRecord(w: World, w': World, v: string, k: string)
    requires Others(w, w', v) && k in w.containers && HasRecord(w'.content, k)
    ensures HasRecord(w.content, k)
  {
    var t :| t in w'.content && Recorded(w'.content, t).Some? && Recorded(w'.content, t).value.id == k;
    if InstanceOf(t, v) {
      assert Owned(w'.content, v, k) && Owned(w.content, v, k);
    } else {
      assert SameAt(w.content, w'.content, t);
    }
  }

  /** With the controller's container removed by the detach and the replicas' one by one,
      no container of the volume is left. */
  lemma NoneOwned(w0: World, w1: World, w2: World, volume: Volume)
    requires AllFit(w0.content) && StoreView.VolumeOf(w0.content, volume.name) == Some(volume)
    requires Detachment(w0, w1, volume) && w2.containers.Keys <= w1.containers.Keys
    requires forall r {:trigger Gone(w2.containers, Replicas(volume), r)} ::
      r in Replicas(volume) ==> Gone(w2.containers, Replicas(volume), r)
    ensures forall id :: Owned(w0.content, volume.name, id) ==> id !in w2.containers
  {
    var v, c := volume.name, w0.content;
    forall id | Owned(c, v, id) ensures id !in w2.containers {
      var s :| s in c && InstanceOf(s, v) && Recorded(c, s).Some? && Recorded(c, s).value.id == id;
      assert Fits(s, c[s]);
      if s.ReplicaSlot? {
        assert s.replica in ReplicaNames(c, v);
        assert Gone(w2.containers, Replicas(volume), s.replica);
      }
    }
  }
}
