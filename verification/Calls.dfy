/** The calls an operation on a volume makes, in order, and what each was answered. */
module Calls {
  import opened StoreTypes
  import opened StoreKeys

  /** What a new controller is given: the replicas, and their URLs. */
  datatype Launch = Launch(volume: string, names: seq<string>, urls: seq<string>)

  datatype Op = Read | Stop | Start | Remove | Create(launch: Launch) | Drop

  datatype Call = Call(op: Op, slot: Slot, ok: bool)

  /** How a detach ends. */
  datatype DetachResult = Detached | ControllerNotStopped | ReplicasNotStopped | ControllerNotRemoved

  // ---- properties of all calls ----

  predicate OkAt(calls: seq<Call>, k: nat) {
    k < |calls| && calls[k].ok
  }

  ghost predicate AllOk(calls: seq<Call>) {
    forall k: nat {:trigger OkAt(calls, k)} :: k < |calls| ==> OkAt(calls, k)
  }

  predicate CreateAt(calls: seq<Call>, k: nat) {
    k < |calls| && calls[k].op.Create?
  }

  ghost predicate NoCreate(calls: seq<Call>) {
    forall k: nat {:trigger CreateAt(calls, k)} :: !CreateAt(calls, k)
  }

  predicate OkFor(calls: seq<Call>, op: Op, v: string, r: string) {
    Call(op, ReplicaSlot(v, r), true) in calls
  }

  /** Every one of these replicas had a successful call of this kind. */
  ghost predicate EachOk(calls: seq<Call>, op: Op, v: string, names: set<string>) {
    forall r {:trigger OkFor(calls, op, v, r)} :: r in names ==> OkFor(calls, op, v, r)
  }

  lemma AllOkOne(call: Call)
    ensures AllOk([call]) <==> call.ok
    ensures NoCreate([call]) <==> !call.op.Create?
    ensures AllOk([]) && NoCreate([])
  {
    assert OkAt([call], 0) <==> call.ok;
    assert CreateAt([call], 0) <==> call.op.Create?;
  }

  lemma AllOkConcat(a: seq<Call>, b: seq<Call>)
    ensures AllOk(a + b) <==> AllOk(a) && AllOk(b)
    ensures NoCreate(a + b) <==> NoCreate(a) && NoCreate(b)
  {
    forall k: nat | k < |a| ensures OkAt(a + b, k) <==> OkAt(a, k) {
    }
    forall k: nat | k < |b| ensures OkAt(a + b, |a| + k) <==> OkAt(b, k) {
    }
    forall k: nat | k < |a| ensures CreateAt(a + b, k) <==> CreateAt(a, k) {
    }
    forall k: nat | k < |b| ensures CreateAt(a + b, |a| + k) <==> CreateAt(b, k) {
    }
    if AllOk(a) && AllOk(b) {
      forall k: nat | k < |a + b| ensures OkAt(a + b, k) {
        assert k < |a| ==> OkAt(a, k);
        assert k >= |a| ==> OkAt(b, k - |a|);
      }
    }
    if NoCreate(a) && NoCreate(b) {
      forall k: nat ensures !CreateAt(a + b, k) {
        assert k < |a| ==> !CreateAt(a, k);
        assert k >= |a| ==> !CreateAt(b, k - |a|);
      }
    }
    if AllOk(a + b) {
      forall k: nat | k < |b| ensures OkAt(b, k) {
        assert OkAt(a + b, |a| + k);
      }
    }
    if NoCreate(a + b) {
      forall k: nat ensures !CreateAt(b, k) {
        assert !CreateAt(a + b, |a| + k);
      }
    }
  }

  lemma EachOkConcat(a: seq<Call>, b: seq<Call>, op: Op, v: string, names: set<string>)
    requires EachOk(a, op, v, names) || EachOk(b, op, v, names)
    ensures EachOk(a + b, op, v, names)
  {
    forall r | r in names ensures OkFor(a + b, op, v, r) {
      assert OkFor(a, op, v, r) || OkFor(b, op, v, r);
    }
  }

  lemma EachOkMore(calls: seq<Call>, op: Op, v: string, names: set<string>, r: string)
    requires EachOk(calls, op, v, names)
    ensures EachOk(calls + [Call(op, ReplicaSlot(v, r), true)], op, v, names + {r})
  {
    var call := Call(op, ReplicaSlot(v, r), true);
    forall q | q in names + {r} ensures OkFor(calls + [call], op, v, q) {
      assert q != r ==> OkFor(calls, op, v, q);
      assert (calls + [call])[|calls|] == call;
    }
  }

  // ---- rounds ----

  predicate IsCall(calls: seq<Call>, k: nat, op: Op, v: string, names: set<string>) {
    && k < |calls| && calls[k].op == op
    && calls[k].slot.ReplicaSlot? && calls[k].slot.volume == v && calls[k].slot.replica in names
  }

  predicate Called(calls: seq<Call>, op: Op, v: string, r: string) {
    Call(op, ReplicaSlot(v, r), true) in calls || Call(op, ReplicaSlot(v, r), false) in calls
  }

  predicate Apart(calls: seq<Call>, j: nat, k: nat) {
    j < k < |calls| ==> calls[j].slot != calls[k].slot
  }

  /** One call of this kind for each of these replicas, and no other call. */
  ghost predicate Round(calls: seq<Call>, op: Op, v: string, names: set<string>) {
    && (forall k: nat {:trigger IsCall(calls, k, op, v, names)} :: k < |calls| ==> IsCall(calls, k, op, v, names))
    && (forall j: nat, k: nat {:trigger Apart(calls, j, k)} :: Apart(calls, j, k))
    && (forall r {:trigger Called(calls, op, v, r)} :: r in names ==> Called(calls, op, v, r))
  }

  lemma RoundStart(op: Op, v: string)
    ensures Round([], op, v, {}) && AllOk([])
  {
  }

  lemma RoundMore(calls: seq<Call>, op: Op, v: string, names: set<string>, r: string, ok: bool)
    requires Round(calls, op, v, names) && r !in names
    ensures Round(calls + [Call(op, ReplicaSlot(v, r), ok)], op, v, names + {r})
    ensures AllOk(calls + [Call(op, ReplicaSlot(v, r), ok)]) <==> AllOk(calls) && ok
  {
    var call := Call(op, ReplicaSlot(v, r), ok);
    var more := calls + [call];
    AllOkConcat(calls, [call]);
    AllOkOne(call);
    forall k: nat | k < |more| ensures IsCall(more, k, op, v, names + {r}) {
      assert k < |calls| ==> IsCall(calls, k, op, v, names);
    }
    forall j: nat, k: nat ensures Apart(more, j, k) {
      assert Apart(calls, j, k);
      assert j < |calls| ==> IsCall(calls, j, op, v, names);
    }
    forall q | q in names + {r} ensures Called(more, op, v, q) {
      assert more[|calls|] == call;
      assert q != r ==> Called(calls, op, v, q);
    }
  }

  lemma RoundOk(calls: seq<Call>, op: Op, v: string, names: set<string>)
    requires Round(calls, op, v, names)
    ensures AllOk(calls) ==> EachOk(calls, op, v, names)
    ensures !op.Create? ==> NoCreate(calls)
  {
    if AllOk(calls) {
      forall r | r in names ensures OkFor(calls, op, v, r) {
        assert Called(calls, op, v, r);
        var k: nat :| k < |calls| && calls[k].op == op && calls[k].slot == ReplicaSlot(v, r);
        assert OkAt(calls, k);
        assert calls[k] == Call(op, ReplicaSlot(v, r), true);
      }
    }
    forall k: nat | !op.Create? ensures !CreateAt(calls, k) {
      assert k < |calls| ==> IsCall(calls, k, op, v, names);
    }
  }

  // ---- detach ----

  predicate ControllerRuns(volume: Volume) {
    volume.controller.Some? && volume.controller.value.running
  }

  /** A replica is stopped only after a running controller was, and the controller is removed
      only if no call failed and every replica was stopped. */
  ghost predicate OrderlyDetach(calls: seq<Call>, volume: Volume) {
    forall k: nat {:trigger OrderlyDetachCall(calls, volume, k)} :: k < |calls| ==> OrderlyDetachCall(calls, volume, k)
  }

  ghost predicate OrderlyDetachCall(calls: seq<Call>, volume: Volume, k: nat) {
    && k < |calls|
    && match calls[k].slot
       case ReplicaSlot(v, r) =>
         && calls[k].op == Stop && v == volume.name && r in Replicas(volume)
         && (ControllerRuns(volume) ==> k > 0 && calls[0] == Call(Stop, ControllerSlot(volume.name), true))
       case ControllerSlot(v) =>
         && v == volume.name && volume.controller.Some?
         && if k == 0 && ControllerRuns(volume) then calls[k].op == Stop
            else
              && calls[k].op == Remove && k == |calls| - 1 && AllOk(calls[..k])
              && EachOk(calls[..k], Stop, volume.name, Replicas(volume).Keys)
       case _ => false
  }

  /** The calls that stop instances: one for a running controller, then a round over the
      replicas. */
  ghost predicate StopCalls(calls: seq<Call>, volume: Volume) {
    var n := if ControllerRuns(volume) then 1 else 0;
    && n <= |calls| && (n == 1 ==> calls[0] == Call(Stop, ControllerSlot(volume.name), true))
    && Round(calls[n..], Stop, volume.name, Replicas(volume).Keys)
  }

  lemma StopOrder(first: seq<Call>, round: seq<Call>, volume: Volume)
    requires first == if ControllerRuns(volume) then [Call(Stop, ControllerSlot(volume.name), true)] else []
    requires Round(round, Stop, volume.name, Replicas(volume).Keys)
    ensures StopCalls(first + round, volume) && (AllOk(first + round) <==> AllOk(round))
  {
    AllOkConcat(first, round);
    AllOkOne(Call(Stop, ControllerSlot(volume.name), true));
    assert (first + round)[|first|..] == round;
  }

  lemma StopCallsOrderly(calls: seq<Call>, volume: Volume)
    requires StopCalls(calls, volume)
    ensures OrderlyDetach(calls, volume)
    ensures calls != [] ==> calls[0] != Call(Stop, ControllerSlot(volume.name), false)
    ensures forall k :: 0 <= k < |calls| ==> calls[k].op == Stop
    ensures AllOk(calls) ==> EachOk(calls, Stop, volume.name, Replicas(volume).Keys)
  {
    var n := if ControllerRuns(volume) then 1 else 0;
    var round := calls[n..];
    assert calls == calls[..n] + round;
    AllOkConcat(calls[..n], round);
    RoundOk(round, Stop, volume.name, Replicas(volume).Keys);
    if AllOk(calls) {
      EachOkConcat(calls[..n], round, Stop, volume.name, Replicas(volume).Keys);
    }
    forall k: nat | k < |calls| ensures OrderlyDetachCall(calls, volume, k) && calls[k].op == Stop {
      if n <= k {
        assert IsCall(round, k - n, Stop, volume.name, Replicas(volume).Keys);
      }
    }
  }

  lemma RemoveOrderly(calls: seq<Call>, ok: bool, volume: Volume)
    requires StopCalls(calls, volume) && AllOk(calls) && volume.controller.Some?
    ensures var all := calls + [Call(Remove, ControllerSlot(volume.name), ok)];
      && OrderlyDetach(all, volume) && (AllOk(all) <==> ok) && (ok ==> FullDetach(all, volume))
      && all[0] != Call(Stop, ControllerSlot(volume.name), false)
  {
    var call := Call(Remove, ControllerSlot(volume.name), ok);
    var all := calls + [call];
    StopCallsOrderly(calls, volume);
    EachOkConcat(calls, [call], Stop, volume.name, Replicas(volume).Keys);
    assert all[|calls|] == call && (ControllerRuns(volume) ==> all[0] == calls[0]);
    AllOkConcat(calls, [call]);
    AllOkOne(call);
    forall k: nat | k < |all| ensures OrderlyDetachCall(all, volume, k) {
      if k < |calls| {
        assert all[k] == calls[k] && all[0] == calls[0];
        assert OrderlyDetachCall(calls, volume, k);
        assert calls[k].op == Stop;
      } else {
        assert all[..k] == calls;
      }
    }
  }

  /** A failed first call to stop the controller, on its own. */
  lemma DetachRefused(volume: Volume)
    requires ControllerRuns(volume)
    ensures var calls := [Call(Stop, ControllerSlot(volume.name), false)]; OrderlyDetach(calls, volume) && !AllOk(calls)
  {
    AllOkOne(Call(Stop, ControllerSlot(volume.name), false));
  }

  lemma DetachNoCreate(calls: seq<Call>, volume: Volume)
    requires OrderlyDetach(calls, volume)
    ensures NoCreate(calls)
  {
    forall k: nat ensures !CreateAt(calls, k) {
      assert k < |calls| ==> OrderlyDetachCall(calls, volume, k);
    }
  }

  /** The calls of a detach that succeeds: a running controller is stopped and every replica is,
      and the controller is removed. */
  ghost predicate FullDetach(calls: seq<Call>, volume: Volume) {
    && (volume.controller.Some? && volume.controller.value.running ==>
          Call(Stop, ControllerSlot(volume.name), true) in calls)
    && (volume.controller.Some? ==> Call(Remove, ControllerSlot(volume.name), true) in calls)
    && EachOk(calls, Stop, volume.name, Replicas(volume).Keys)
  }

  lemma FullDetachMore(before: seq<Call>, calls: seq<Call>, after: seq<Call>, volume: Volume)
    requires FullDetach(calls, volume)
    ensures FullDetach(before + calls, volume) && FullDetach(calls + after, volume)
  {
    EachOkConcat(before, calls, Stop, volume.name, Replicas(volume).Keys);
    EachOkConcat(calls, after, Stop, volume.name, Replicas(volume).Keys);
  }

  // ---- attach ----

  /** The replicas an attach uses, and those it stops first. */
  function Selected(volume: Volume): set<string> {
    set r | r in Replicas(volume) && Replicas(volume)[r].badTimestamp == ""
  }

  function RunningIn(volume: Volume): set<string> {
    set r | r in Replicas(volume) && Replicas(volume)[r].inst.running
  }

  /** No call failed, every replica that ran was stopped and every selected one was started. */
  ghost predicate ReadyToLaunch(calls: seq<Call>, volume: Volume) {
    && NoCreate(calls) && AllOk(calls)
    && EachOk(calls, Stop, volume.name, RunningIn(volume))
    && EachOk(calls, Start, volume.name, Selected(volume))
  }

  /** A controller is asked for at most once, as the last call, and only then. */
  ghost predicate OrderlyAttach(calls: seq<Call>, volume: Volume) {
    NoCreate(calls) || LaunchedLast(calls, volume)
  }

  ghost predicate LaunchedLast(calls: seq<Call>, volume: Volume) {
    var n := |calls| - 1;
    n >= 0 && calls[n].op.Create? && calls[n].slot == ControllerSlot(volume.name) && ReadyToLaunch(calls[..n], volume)
  }

  /** What that means for each replica: no controller is asked for unless every replica that was
      recorded as running was stopped, and every one without a bad mark was started. */
  lemma LaunchMeans(calls: seq<Call>, volume: Volume, r: string)
    requires OrderlyAttach(calls, volume) && !NoCreate(calls) && r in Replicas(volume)
    ensures Replicas(volume)[r].inst.running ==> Call(Stop, ReplicaSlot(volume.name, r), true) in calls
    ensures Replicas(volume)[r].badTimestamp == "" ==> Call(Start, ReplicaSlot(volume.name, r), true) in calls
    ensures forall k :: 0 <= k < |calls| && calls[k].op.Create? ==> k == |calls| - 1
    ensures forall k :: 0 <= k < |calls| - 1 ==> calls[k].ok
  {
    var n := |calls| - 1;
    var before := calls[..n];
    assert r in RunningIn(volume) ==> OkFor(before, Stop, volume.name, r);
    assert r in Selected(volume) ==> OkFor(before, Start, volume.name, r);
    forall k | 0 <= k < n ensures calls[k].ok && !calls[k].op.Create? {
      assert OkAt(before, k) && !CreateAt(before, k);
    }
  }

  lemma StartOrder(stops: seq<Call>, starts: seq<Call>, volume: Volume)
    requires Round(stops, Stop, volume.name, RunningIn(volume)) && Round(starts, Start, volume.name, Selected(volume))
    requires AllOk(stops)
    ensures NoCreate(stops + starts) && (AllOk(stops + starts) <==> AllOk(starts))
    ensures AllOk(starts) ==> ReadyToLaunch(stops + starts, volume)
  {
    RoundOk(stops, Stop, volume.name, RunningIn(volume));
    RoundOk(starts, Start, volume.name, Selected(volume));
    AllOkConcat(stops, starts);
    if AllOk(starts) {
      EachOkConcat(stops, starts, Stop, volume.name, RunningIn(volume));
      EachOkConcat(stops, starts, Start, volume.name, Selected(volume));
    }
  }

  /** A read of the store and the request for the controller come last. */
  lemma LaunchOrder(ready: seq<Call>, asked: seq<Call>, volume: Volume)
    requires ReadyToLaunch(ready, volume)
    requires 1 <= |asked| <= 2 && asked[0].op == Read
    requires |asked| == 2 ==> asked[0].ok && asked[1].op.Create? && asked[1].slot == ControllerSlot(volume.name)
    ensures OrderlyAttach(ready + asked, volume)
    ensures NoCreate(ready + asked) <==> |asked| == 1
    ensures AllOk(ready + asked) <==> AllOk(asked)
    ensures (ready + asked)[|ready + asked| - 1] == asked[|asked| - 1]
  {
    AllOkConcat(ready, asked);
    AllOkOne(asked[0]);
    if |asked| == 2 {
      AllOkConcat(ready, [asked[0]]);
      EachOkConcat(ready, [asked[0]], Stop, volume.name, RunningIn(volume));
      EachOkConcat(ready, [asked[0]], Start, volume.name, Selected(volume));
      assert (ready + asked)[..|ready| + 1] == ready + [asked[0]];
      assert CreateAt(ready + asked, |ready| + 1);
    } else {
      assert asked == [asked[0]];
    }
  }

  /** Calls that succeeded and ask for no controller may come before. */
  lemma AttachOrder(first: seq<Call>, asked: seq<Call>, volume: Volume)
    requires NoCreate(first) && AllOk(first) && OrderlyAttach(asked, volume)
    ensures OrderlyAttach(first + asked, volume)
    ensures AllOk(first + asked) <==> AllOk(asked)
    ensures NoCreate(first + asked) <==> NoCreate(asked)
    ensures asked != [] ==> (first + asked)[|first + asked| - 1] == asked[|asked| - 1]
  {
    AllOkConcat(first, asked);
    if LaunchedLast(asked, volume) {
      var before := asked[..|asked| - 1];
      AllOkConcat(first, before);
      EachOkConcat(first, before, Stop, volume.name, RunningIn(volume));
      EachOkConcat(first, before, Start, volume.name, Selected(volume));
      assert (first + asked)[..|first + asked| - 1] == first + before;
    }
  }

  // ---- delete ----

  /** Instances are removed and the volume's metadata dropped only while nothing has failed, and
      the metadata only after every replica was removed. */
  ghost predicate OrderlyDelete(calls: seq<Call>, volume: Volume) {
    forall k: nat {:trigger OrderlyDeleteCall(calls, volume, k)} :: k < |calls| ==> OrderlyDeleteCall(calls, volume, k)
  }

  ghost predicate OrderlyDeleteCall(calls: seq<Call>, volume: Volume, k: nat) {
    && k < |calls|
    && (calls[k].op == Remove || calls[k].op == Drop ==> AllOk(calls[..k]))
    && (calls[k].op == Drop ==> EachOk(calls[..k], Remove, volume.name, Replicas(volume).Keys))
  }

  predicate OneByOneCall(calls: seq<Call>, op: Op, k: nat) {
    k < |calls| && calls[k].op == op && (k < |calls| - 1 ==> calls[k].ok)
  }

  /** One attempt after the other, up to the first failure. */
  ghost predicate OneByOne(calls: seq<Call>, op: Op) {
    forall k: nat {:trigger OneByOneCall(calls, op, k)} :: k < |calls| ==> OneByOneCall(calls, op, k)
  }

  lemma OneMore(calls: seq<Call>, call: Call)
    requires OneByOne(calls, call.op) && AllOk(calls)
    ensures OneByOne(calls + [call], call.op)
    ensures AllOk(calls + [call]) <==> call.ok
  {
    AllOkConcat(calls, [call]);
    AllOkOne(call);
    forall k: nat | k < |calls + [call]| ensures OneByOneCall(calls + [call], call.op, k) {
      assert k < |calls| ==> OneByOneCall(calls, call.op, k) && OkAt(calls, k);
    }
  }

  /** The calls of a delete: first those of the detach, ... */
  lemma DeleteStarts(calls: seq<Call>, volume: Volume)
    requires OrderlyDetach(calls, volume)
    ensures OrderlyDelete(calls, volume)
  {
    forall k: nat | k < |calls| ensures OrderlyDeleteCall(calls, volume, k) {
      assert OrderlyDetachCall(calls, volume, k);
    }
  }

  /** ... then the replicas' removals, if the detach went well, ... */
  lemma DeleteOrder(first: seq<Call>, removals: seq<Call>, volume: Volume)
    requires OrderlyDelete(first, volume) && AllOk(first) && OneByOne(removals, Remove)
    ensures OrderlyDelete(first + removals, volume)
    ensures AllOk(first + removals) <==> AllOk(removals)
    ensures EachOk(removals, Remove, volume.name, Replicas(volume).Keys) ==>
      EachOk(first + removals, Remove, volume.name, Replicas(volume).Keys)
  {
    var calls := first + removals;
    AllOkConcat(first, removals);
    if EachOk(removals, Remove, volume.name, Replicas(volume).Keys) {
      EachOkConcat(first, removals, Remove, volume.name, Replicas(volume).Keys);
    }
    forall k: nat | k < |calls| ensures OrderlyDeleteCall(calls, volume, k) {
      if k < |first| {
        assert calls[k] == first[k] && calls[..k] == first[..k];
        assert OrderlyDeleteCall(first, volume, k);
      } else {
        RemovalOrder(first, removals, k - |first|);
      }
    }
  }

  lemma RemovalOrder(first: seq<Call>, removals: seq<Call>, j: nat)
    requires OneByOne(removals, Remove) && AllOk(first) && j < |removals|
    ensures var calls, k := first + removals, |first| + j; calls[k].op == Remove && AllOk(calls[..k])
  {
    assert (first + removals)[..|first| + j] == first + removals[..j];
    assert OneByOneCall(removals, Remove, j);
    AllOkConcat(first, removals[..j]);
    forall i: nat | i < j ensures OkAt(removals[..j], i) {
      assert OneByOneCall(removals, Remove, i);
    }
  }

  /** ... then the metadata's. */
  lemma DropOrder(calls: seq<Call>, drop: Call, volume: Volume)
    requires OrderlyDelete(calls, volume) && AllOk(calls) && drop.op == Drop
    requires EachOk(calls, Remove, volume.name, Replicas(volume).Keys)
    ensures OrderlyDelete(calls + [drop], volume) && (AllOk(calls + [drop]) <==> drop.ok)
  {
    var all := calls + [drop];
    AllOkConcat(calls, [drop]);
    AllOkOne(drop);
    forall k: nat | k < |all| ensures OrderlyDeleteCall(all, volume, k) {
      if k < |calls| {
        assert all[k] == calls[k] && all[..k] == calls[..k];
        assert OrderlyDeleteCall(calls, volume, k);
      } else {
        assert all[..k] == calls;
      }
    }
  }
}
