/** What belongs to a volume, what an operation on it leaves alone, and what a snapshot of it is
    worth while its instances are being started and stopped. */
module VolumeFrames {
  import opened Strings
  import opened StoreTypes
  import opened StoreKeys
  import StoreView
  import opened Instances

  predicate InstanceOf(s: Slot, v: string) {
    IsInstanceSlot(s) && s.volume == v
  }

  /** A container that one of the volume's records is bound to. */
  ghost predicate Owned(c: Content, v: string, id: string) {
    exists s :: s in c && InstanceOf(s, v) && Recorded(c, s).Some? && Recorded(c, s).value.id == id
  }

  ghost predicate SameAt(c: Content, c': Content, s: Slot) {
    (s in c' <==> s in c) && (s in c ==> c'[s] == c[s])
  }

  ghost predicate SameContainer(cs: Containers, cs': Containers, k: string) {
    k in cs && k in cs' && cs'[k] == cs[k]
  }

  ghost predicate RecordKept(c: Content, c': Content, s: Slot) {
    s in c && s in c' && SameRecord(s, c[s], c'[s])
  }

  // ---- operations on one volume ----

  /** Whatever is not an instance of volume `v` is as before: other volumes' records and
      containers, all volume bases, hosts and settings. */
  ghost predicate Others(w: World, w': World, v: string) {
    && (forall s {:trigger SameAt(w.content, w'.content, s)} :: !InstanceOf(s, v) ==> SameAt(w.content, w'.content, s))
    && (forall k {:trigger SameContainer(w.containers, w'.containers, k)} ::
          k in w.containers && !Owned(w.content, v, k) ==> SameContainer(w.containers, w'.containers, k))
    && (forall k {:trigger Owned(w'.content, v, k)} ::
          k in w.containers && Owned(w'.content, v, k) ==> Owned(w.content, v, k))
  }

  lemma OthersTransitive(w: World, w1: World, w2: World, v: string)
    requires Others(w, w1, v) && Others(w1, w2, v)
    ensures Others(w, w2, v)
  {
    var c, c1, c2 := w.content, w1.content, w2.content;
    var cs, cs1, cs2 := w.containers, w1.containers, w2.containers;
    forall s | !InstanceOf(s, v) ensures SameAt(c, c2, s) {
      assert SameAt(c, c1, s) && SameAt(c1, c2, s);
    }
    forall k | k in cs && !Owned(c, v, k) ensures SameContainer(cs, cs2, k) {
      assert SameContainer(cs, cs1, k) && !Owned(c1, v, k) && SameContainer(cs1, cs2, k);
    }
    forall k | k in cs && Owned(c2, v, k) ensures Owned(c, v, k) {
      assert SameContainer(cs, cs1, k) || Owned(c, v, k);
    }
  }

  /** Instances of `v` have at most been started or stopped: every record is still there with
      its identity, its mode and its bad mark. */
  ghost predicate Kept(w: World, w': World, v: string) {
    && Others(w, w', v)
    && w'.content.Keys == w.content.Keys && w'.containers.Keys == w.containers.Keys
    && (forall s {:trigger RecordKept(w.content, w'.content, s)} :: s in w.content ==>
      RecordKept(w.content, w'.content, s))
    && Boxes(w, w')
  }

  ghost predicate BoxAt(w: World, w': World, k: string) {
    k in w'.containers ==> k in w.containers && SameBox(w.containers[k], w'.containers[k])
  }

  /** Every container was there before, under its name, on its host and launched as it is. */
  ghost predicate Boxes(w: World, w': World) {
    forall k {:trigger BoxAt(w, w', k)} :: BoxAt(w, w', k)
  }

  ghost predicate IdKnown(w: World, w': World, id: string) {
    HasRecord(w'.content, id) ==> HasRecord(w.content, id)
  }

  /** No container and no recorded ID is new. */
  ghost predicate NothingNew(w: World, w': World) {
    Boxes(w, w') && forall id {:trigger IdKnown(w, w', id)} :: IdKnown(w, w', id)
  }

  lemma BoxesTransitive(w: World, w1: World, w2: World)
    requires Boxes(w, w1) && Boxes(w1, w2)
    ensures Boxes(w, w2)
  {
    forall k ensures BoxAt(w, w2, k) {
      assert BoxAt(w, w1, k) && BoxAt(w1, w2, k);
    }
  }

  lemma NothingNewTransitive(w: World, w1: World, w2: World)
    requires NothingNew(w, w1) && NothingNew(w1, w2)
    ensures NothingNew(w, w2)
  {
    BoxesTransitive(w, w1, w2);
    forall id ensures IdKnown(w, w2, id) {
      assert IdKnown(w, w1, id) && IdKnown(w1, w2, id);
    }
  }

  lemma KeptNothingNew(w: World, w': World, v: string)
    requires Kept(w, w', v)
    ensures NothingNew(w, w')
  {
    forall id ensures IdKnown(w, w', id) {
      if HasRecord(w'.content, id) {
        var s :| s in w'.content && Recorded(w'.content, s).Some? && Recorded(w'.content, s).value.id == id;
        assert RecordKept(w.content, w'.content, s);
        assert Recorded(w.content, s).Some? && Recorded(w.content, s).value.id == id;
      }
    }
  }

  lemma RemovedNothingNew(w: World, w': World, s: Slot, id: string)
    requires w'.content == w.content || w'.content == w.content - {s}
    requires w'.containers == w.containers || w'.containers == w.containers - {id}
    ensures NothingNew(w, w')
  {
    forall k ensures BoxAt(w, w', k) {
    }
    forall j ensures IdKnown(w, w', j) {
      if HasRecord(w'.content, j) {
        var t :| t in w'.content && Recorded(w'.content, t).Some? && Recorded(w'.content, t).value.id == j;
        assert Recorded(w.content, t) == Recorded(w'.content, t);
      }
    }
  }

  lemma KeptTransitive(w: World, w1: World, w2: World, v: string)
    requires Kept(w, w1, v) && Kept(w1, w2, v)
    ensures Kept(w, w2, v)
  {
    OthersTransitive(w, w1, w2, v);
    BoxesTransitive(w, w1, w2);
    forall s | s in w.content ensures RecordKept(w.content, w2.content, s) {
      assert RecordKept(w.content, w1.content, s) && RecordKept(w1.content, w2.content, s);
    }
  }

  lemma KeptReflexive(w: World, v: string)
    requires AllFit(w.content)
    ensures Kept(w, w, v) && ReplicasKept(w.content, w.content, v)
  {
    forall s | s in w.content ensures RecordKept(w.content, w.content, s) {
      assert Fits(s, w.content[s]);
    }
    KeptReplicas(w, w, v);
  }

  /** Every replica record of the volume is still there, with identity, mode and bad mark, and
      there is no new one. */
  ghost predicate ReplicasKept(c: Content, c': Content, v: string) {
    forall r {:trigger ReplicaKept(c, c', v, r)} :: ReplicaKept(c, c', v, r)
  }

  ghost predicate ReplicaKept(c: Content, c': Content, v: string, r: string) {
    var s := ReplicaSlot(v, r);
    (s in c' <==> s in c) && (s in c ==> RecordKept(c, c', s))
  }

  ghost predicate ReplicasSame(c: Content, c': Content, v: string) {
    forall r {:trigger SameAt(c, c', ReplicaSlot(v, r))} :: SameAt(c, c', ReplicaSlot(v, r))
  }

  lemma KeptReplicas(w: World, w': World, v: string)
    requires Kept(w, w', v)
    ensures ReplicasKept(w.content, w'.content, v)
  {
    forall r ensures ReplicaKept(w.content, w'.content, v, r) {
      assert ReplicaSlot(v, r) in w.content ==> RecordKept(w.content, w'.content, ReplicaSlot(v, r));
    }
  }

  lemma ReplicasKeptTransitive(c: Content, c1: Content, c2: Content, v: string)
    requires ReplicasKept(c, c1, v) && ReplicasKept(c1, c2, v)
    ensures ReplicasKept(c, c2, v)
  {
    forall r ensures ReplicaKept(c, c2, v, r) {
      assert ReplicaKept(c, c1, v, r) && ReplicaKept(c1, c2, v, r);
    }
  }

  lemma SameReplicasKept(c: Content, c1: Content, c2: Content, v: string)
    requires ReplicasKept(c, c1, v) && ReplicasSame(c1, c2, v)
    ensures ReplicasKept(c, c2, v)
  {
    forall r ensures ReplicaKept(c, c2, v, r) {
      assert ReplicaKept(c, c1, v, r) && SameAt(c1, c2, ReplicaSlot(v, r));
    }
  }

  // ---- one call ----

  /** The instance `i` of a snapshot is still what is recorded in slot `s`. */
  predicate Bound(c: Content, s: Slot, i: Instance) {
    && IsInstanceSlot(s) && s in c && Recorded(c, s).Some? && SameIdentity(Recorded(c, s).value, i)
    && i.typ != NoType && SlotOf(i) == s
  }

  /** One instance started or stopped. */
  ghost predicate Toggled(w: World, w': World, s: Slot, id: string) {
    && w'.content.Keys == w.content.Keys && w'.containers.Keys == w.containers.Keys
    && (forall t {:trigger SameAt(w.content, w'.content, t)} :: t != s ==> SameAt(w.content, w'.content, t))
    && RecordKept(w.content, w'.content, s)
    && (forall k {:trigger SameContainer(w.containers, w'.containers, k)} ::
          k in w.containers && k != id ==> SameContainer(w.containers, w'.containers, k))
    && BoxAt(w, w', id)
  }

  lemma ToggledKept(w: World, w': World, s: Slot, i: Instance)
    requires AllFit(w.content) && Bound(w.content, s, i) && Toggled(w, w', s, i.id)
    ensures Kept(w, w', s.volume)
  {
    var v, c, c' := s.volume, w.content, w'.content;
    assert Owned(c, v, i.id);
    forall t | t in c ensures RecordKept(c, c', t) {
      assert Fits(t, c[t]);
      assert t != s ==> SameAt(c, c', t);
    }
    forall k | k in w.containers && Owned(c', v, k) ensures Owned(c, v, k) {
      OwnedKept(c, c', v, k);
    }
    forall k ensures BoxAt(w, w', k) {
      assert k in w.containers && k != i.id ==> SameContainer(w.containers, w'.containers, k);
    }
  }

  lemma OwnedKept(c: Content, c': Content, v: string, k: string)
    requires forall t :: t in c' ==> RecordKept(c, c', t)
    requires Owned(c', v, k)
    ensures Owned(c, v, k)
  {
    var t :| t in c' && InstanceOf(t, v) && Recorded(c', t).Some? && Recorded(c', t).value.id == k;
    assert RecordKept(c, c', t);
    assert Recorded(c, t).Some? && Recorded(c, t).value.id == k;
  }

  lemma ControllerToggled(w: World, w': World, v: string, id: string)
    requires Toggled(w, w', ControllerSlot(v), id)
    ensures ReplicasSame(w.content, w'.content, v)
  {
  }

  /** A request to start or stop a bound instance, on its own host, toggles it or does nothing. */
  lemma RequestToggles(w: World, e: Event, s: Slot, i: Instance)
    requires Consistent(w.containers, w.content) && Bound(w.content, s, i)
    requires e.host == i.hostID && e.req.instance == Plain(i)
    requires e.req.action == StartInstance || e.req.action == StopInstance
    ensures Toggled(w, Step(w, e), s, i.id)
    ensures Works(w, e) ==>
      && Recorded(Step(w, e).content, s) == ReplyTo(w.containers, w.content, e.host, e.req, e.answers)
      && if e.req.action == StartInstance then Up(Step(w, e), s) else Halted(Step(w, e), s)
  {
    assert Fits(s, w.content[s]) && Tied(w.containers, w.content, s);
    if Works(w, e) {
      assert SlotOf(Reported(w.containers, e.host, e.req, e.answers)) == s;
      ReportAgrees(w, e);
    }
  }

  /** What the scheduler is told about an instance. */
  function Plain(i: Instance): Instance {
    i.(address := "", running := false)
  }

  /** Removing one instance of a volume leaves everything else alone. */
  lemma RemovedOthers(w: World, w': World, s: Slot, i: Instance)
    requires Bound(w.content, s, i) && (w'.content == w.content || w'.content == w.content - {s})
    requires forall k | k in w.containers && k != i.id :: k in w'.containers && w'.containers[k] == w.containers[k]
    ensures Others(w, w', s.volume)
  {
    assert Owned(w.content, s.volume, i.id);
    forall t | !InstanceOf(t, s.volume) ensures SameAt(w.content, w'.content, t) {
    }
  }

  // ---- when nothing fails ----

  /** An instance with a complete record, whose container is on its host and does not run unless
      that is recorded. */
  ghost predicate Sound(w: World, s: Slot) {
    var i := Recorded(w.content, s);
    && i.Some? && Complete(i.value) && i.value.id in w.containers
    && w.containers[i.value.id].hostID == i.value.hostID && (w.containers[i.value.id].running ==> i.value.running)
  }

  ghost predicate Shares(c: Content, s: Slot, t: Slot) {
    && s in c && t in c && Recorded(c, s).Some? && Recorded(c, t).Some?
    && Recorded(c, s).value.id == Recorded(c, t).value.id
  }

  /** All instances of the volume are sound, each with a container of its own. */
  ghost predicate SoundAll(w: World, v: string) {
    && (forall s {:trigger Sound(w, s)} :: s in w.content && InstanceOf(s, v) ==> Sound(w, s))
    && (forall s, t {:trigger Shares(w.content, s, t)} ::
          InstanceOf(s, v) && InstanceOf(t, v) && Shares(w.content, s, t) ==> s == t)
  }

  ghost predicate CompleteAll(replicas: map<string, Replica>) {
    forall r :: r in replicas ==> Complete(replicas[r].inst)
  }

  /** What the orchestrator sends about an instance. */
  function Ask(action: Action, i: Instance): Request {
    Request(ORC_NAME, action, Plain(i), Some(Data("", "", [])))
  }

  /** A start or a stop of a sound instance succeeds if nothing goes wrong, and it stays sound. */
  lemma FineToggle(w: World, e: Event, s: Slot, i: Instance)
    requires Consistent(w.containers, w.content) && Bound(w.content, s, i) && Sound(w, s) && Complete(i)
    requires e.host == i.hostID && FineAnswers(e.answers)
    requires e.req == Ask(StartInstance, i) || e.req == Ask(StopInstance, i)
    ensures Works(w, e) && Sound(Step(w, e), s)
  {
    assert Fits(s, w.content[s]) && Tied(w.containers, w.content, s);
    assert SlotOf(Reported(w.containers, e.host, e.req, e.answers)) == s;
    ReportAgrees(w, e);
  }

  /** So does the removal of one that does not run. */
  lemma FineRemoval(w: World, e: Event, s: Slot, i: Instance)
    requires Bound(w.content, s, i) && Sound(w, s) && Complete(i) && !Recorded(w.content, s).value.running
    requires e.host == i.hostID && FineAnswers(e.answers) && e.req == Ask(DeleteInstance, i)
    ensures Works(w, e)
  {
  }

  lemma SoundToggled(w: World, w': World, s: Slot, i: Instance)
    requires Bound(w.content, s, i) && SoundAll(w, s.volume) && Toggled(w, w', s, i.id) && Sound(w', s)
    ensures SoundAll(w', s.volume)
  {
    var v := s.volume;
    assert RecordKept(w.content, w'.content, s);
    forall t | t in w'.content && InstanceOf(t, v) ensures Sound(w', t) {
      if t != s {
        assert SameAt(w.content, w'.content, t) && Sound(w, t);
        assert !Shares(w.content, s, t);
        assert SameContainer(w.containers, w'.containers, Recorded(w.content, t).value.id);
      }
    }
    forall t, u | InstanceOf(t, v) && InstanceOf(u, v) && Shares(w'.content, t, u) ensures t == u {
      assert t != s ==> SameAt(w.content, w'.content, t);
      assert u != s ==> SameAt(w.content, w'.content, u);
      assert Shares(w.content, t, u);
    }
  }

  lemma SoundRemoved(w: World, w': World, s: Slot, i: Instance)
    requires Bound(w.content, s, i) && SoundAll(w, s.volume)
    requires w'.content == w.content - {s} && w'.containers == w.containers - {i.id}
    ensures SoundAll(w', s.volume)
  {
    var v := s.volume;
    forall t | t in w'.content && InstanceOf(t, v) ensures Sound(w', t) {
      assert Sound(w, t) && !Shares(w.content, s, t);
    }
    forall t, u | InstanceOf(t, v) && InstanceOf(u, v) && Shares(w'.content, t, u) ensures t == u {
      assert Shares(w.content, t, u);
    }
  }

  // ---- snapshots ----

  /** Those of `some` that a snapshot lists are still recorded as it has them. */
  ghost predicate SnapshotOf(c: Content, v: string, replicas: map<string, Replica>, some: set<string>) {
    forall r {:trigger Bound(c, ReplicaSlot(v, r), replicas[r].inst)} ::
      r in some && r in replicas ==> Bound(c, ReplicaSlot(v, r), replicas[r].inst)
  }

  ghost predicate Snapshot(c: Content, v: string, replicas: map<string, Replica>) {
    SnapshotOf(c, v, replicas, replicas.Keys)
  }

  lemma SnapshotShrinks(c: Content, v: string, replicas: map<string, Replica>, some: set<string>, r: string)
    requires SnapshotOf(c, v, replicas, some)
    ensures SnapshotOf(c - {ReplicaSlot(v, r)}, v, replicas, some - {r})
  {
    var c' := c - {ReplicaSlot(v, r)};
    forall q | q in some - {r} && q in replicas ensures Bound(c', ReplicaSlot(v, q), replicas[q].inst) {
      assert Bound(c, ReplicaSlot(v, q), replicas[q].inst);
    }
  }

  lemma BoundKept(w: World, w': World, v: string, s: Slot, i: Instance)
    requires Kept(w, w', v) && AllFit(w'.content) && Bound(w.content, s, i)
    ensures Bound(w'.content, s, i)
  {
    assert RecordKept(w.content, w'.content, s);
    assert Fits(s, w'.content[s]);
  }

  /** A snapshot of the replicas outlives whatever keeps their records. */
  lemma SnapshotBeside(c: Content, c': Content, v: string, replicas: map<string, Replica>)
    requires Snapshot(c, v, replicas) && ReplicasKept(c, c', v)
    ensures Snapshot(c', v, replicas)
  {
    forall r | r in replicas ensures Bound(c', ReplicaSlot(v, r), replicas[r].inst) {
      assert Bound(c, ReplicaSlot(v, r), replicas[r].inst);
      assert ReplicaKept(c, c', v, r);
    }
  }

  /** An instance that is recorded as stopped, and whose container does not run. */
  ghost predicate Halted(w: World, s: Slot) {
    var i := Recorded(w.content, s);
    i.Some? && !i.value.running && (i.value.id in w.containers ==> !w.containers[i.value.id].running)
  }

  /** An instance that is recorded as running, and whose container runs at the recorded address. */
  ghost predicate Up(w: World, s: Slot) {
    var i := Recorded(w.content, s);
    && i.Some? && i.value.running && i.value.address != "" && i.value.id in w.containers
    && w.containers[i.value.id].running && w.containers[i.value.id].address == i.value.address
  }

  ghost predicate Stopped(w: World, v: string, r: string) {
    Halted(w, ReplicaSlot(v, r))
  }

  ghost predicate Running(w: World, v: string, r: string) {
    Up(w, ReplicaSlot(v, r))
  }

  /** Two replicas of a volume do not share a container. */
  lemma OwnContainer(w: World, v: string, r: string, q: string)
    requires Consistent(w.containers, w.content) && r != q
    requires Recorded(w.content, ReplicaSlot(v, r)).Some? && Recorded(w.content, ReplicaSlot(v, q)).Some?
    ensures var id := Recorded(w.content, ReplicaSlot(v, q)).value.id;
      id in w.containers ==> id != Recorded(w.content, ReplicaSlot(v, r)).value.id
  {
    assert Tied(w.containers, w.content, ReplicaSlot(v, r)) && Tied(w.containers, w.content, ReplicaSlot(v, q));
  }

  /** Where neither the record nor its container changes, an instance stays as it is. */
  lemma StaysAsItIs(w: World, w': World, s: Slot)
    requires SameAt(w.content, w'.content, s) && w'.containers.Keys == w.containers.Keys
    requires Recorded(w.content, s).Some? ==>
      var id := Recorded(w.content, s).value.id; id in w.containers ==> w'.containers[id] == w.containers[id]
    ensures Halted(w, s) ==> Halted(w', s)
    ensures Up(w, s) ==> Up(w', s)
  {
  }

  /** One turn of a loop that starts or stops the replicas of a snapshot. */
  lemma LoopStep(w0: World, w: World, w': World, v: string, replicas: map<string, Replica>, r: string)
    requires Consistent(w.containers, w.content) && Snapshot(w.content, v, replicas) && Kept(w0, w, v)
    requires r in replicas && Toggled(w, w', ReplicaSlot(v, r), replicas[r].inst.id)
    ensures Snapshot(w'.content, v, replicas) && Kept(w0, w', v)
    ensures SameAt(w.content, w'.content, ControllerSlot(v))
    ensures forall q {:trigger Stopped(w', v, q)} :: q != r && Stopped(w, v, q) ==> Stopped(w', v, q)
    ensures forall q {:trigger Running(w', v, q)} :: q != r && Running(w, v, q) ==> Running(w', v, q)
  {
    var s := ReplicaSlot(v, r);
    assert Bound(w.content, s, replicas[r].inst);
    ToggledKept(w, w', s, replicas[r].inst);
    KeptReplicas(w, w', v);
    SnapshotBeside(w.content, w'.content, v, replicas);
    KeptTransitive(w0, w, w', v);
    forall q | q != r
      ensures (Stopped(w, v, q) ==> Stopped(w', v, q)) && (Running(w, v, q) ==> Running(w', v, q))
    {
      OtherReplicaStays(w, w', v, r, q, replicas[r].inst);
    }
  }

  lemma OtherReplicaStays(w: World, w': World, v: string, r: string, q: string, i: Instance)
    requires Consistent(w.containers, w.content) && Bound(w.content, ReplicaSlot(v, r), i) && q != r
    requires Toggled(w, w', ReplicaSlot(v, r), i.id)
    ensures (Stopped(w, v, q) ==> Stopped(w', v, q)) && (Running(w, v, q) ==> Running(w', v, q))
  {
    var s := ReplicaSlot(v, q);
    assert SameAt(w.content, w'.content, s);
    if Recorded(w.content, s).Some? {
      OwnContainer(w, v, r, q);
      var id := Recorded(w.content, s).value.id;
      assert id in w.containers ==> SameContainer(w.containers, w'.containers, id);
      StaysAsItIs(w, w', s);
    }
  }

  lemma ReadHasName(c: Content, v: string, volume: Volume)
    requires AllFit(c) && StoreView.VolumeOf(c, v) == Some(volume)
    ensures volume.name == v
  {
    assert Fits(BaseSlot(v), c[BaseSlot(v)]);
  }

  /** What is read of a sound volume is complete. */
  lemma SoundRead(w: World, v: string, volume: Volume)
    requires Consistent(w.containers, w.content) && StoreView.VolumeOf(w.content, v) == Some(volume) && SoundAll(w, v)
    ensures CompleteAll(Replicas(volume)) && (volume.controller.Some? ==> Complete(volume.controller.value))
  {
    ReadIsSnapshot(w, v, volume);
    forall r | r in Replicas(volume) ensures Complete(Replicas(volume)[r].inst) {
      assert Sound(w, ReplicaSlot(v, r));
    }
    assert volume.controller.Some? ==> Sound(w, ControllerSlot(v));
  }

  /** A volume as read is a snapshot: its instances are what is recorded. */
  lemma ReadIsSnapshot(w: World, v: string, volume: Volume)
    requires Consistent(w.containers, w.content) && StoreView.VolumeOf(w.content, v) == Some(volume)
    ensures volume.name == v && BaseSlot(v) in w.content
    ensures Snapshot(w.content, v, Replicas(volume))
    ensures forall r :: r in Replicas(volume) <==> ReplicaSlot(v, r) in w.content
    ensures volume.controller.Some? <==> ControllerSlot(v) in w.content
    ensures volume.controller.Some? ==> Bound(w.content, ControllerSlot(v), volume.controller.value)
  {
    var c := w.content;
    assert Fits(BaseSlot(v), c[BaseSlot(v)]);
    forall r ensures r in Replicas(volume) <==> ReplicaSlot(v, r) in c {
      assert r in ReplicaNames(c, v) <==> ReplicaSlot(v, r) in c;
    }
    forall r | r in Replicas(volume) ensures Bound(c, ReplicaSlot(v, r), Replicas(volume)[r].inst) {
      assert Fits(ReplicaSlot(v, r), c[ReplicaSlot(v, r)]);
      assert Tied(w.containers, c, ReplicaSlot(v, r));
    }
    if ControllerSlot(v) in c {
      assert Fits(ControllerSlot(v), c[ControllerSlot(v)]);
      assert Tied(w.containers, c, ControllerSlot(v));
    }
  }
}
