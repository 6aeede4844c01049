/** The flat map seen as slots, and the store's operations as functions on that view. */
module StoreView {
  import opened Collections
  import opened Strings
  import opened Paths
  import opened KeyListing
  import opened StoreTypes
  import opened StoreKeys

  function KeyFor(root: Path, s: Slot): string {
    Render(SlotPath(root, s))
  }

  lemma KeyForInjective(root: Path, s: Slot, t: Slot)
    requires Segments(root) && WellFormed(s) && WellFormed(t)
    ensures KeyFor(root, s) == KeyFor(root, t) <==> s == t
  {
    if KeyFor(root, s) == KeyFor(root, t) {
      SlotSegments(root, s);
      SlotSegments(root, t);
      RenderInjective(SlotPath(root, s), SlotPath(root, t));
      SlotPathInjective(root, s, t);
    }
  }

  /** A naming of the slots by keys that tells well-formed slots apart. */
  type Naming = Slot -> string

  ghost predicate Injective(key: Naming) {
    forall s, t :: WellFormed(s) && WellFormed(t) && key(s) == key(t) ==> s == t
  }

  /** The store's own naming, below the path `root`. */
  ghost predicate Names(key: Naming, root: Path) {
    Segments(root) && root != [] && forall s {:trigger KeyFor(root, s)} :: key(s) == KeyFor(root, s)
  }

  lemma NameOf(key: Naming, root: Path, s: Slot)
    requires Names(key, root)
    ensures key(s) == Render(SlotPath(root, s))
  {
    assert key(s) == KeyFor(root, s);
  }

  lemma NamesInjective(key: Naming, root: Path)
    requires Names(key, root)
    ensures Injective(key)
  {
    forall s, t | WellFormed(s) && WellFormed(t) && key(s) == key(t) ensures s == t {
      KeyForInjective(root, s, t);
    }
  }

  ghost predicate AllWellFormed(content: Content) {
    forall s :: s in content ==> WellFormed(s)
  }

  /** The flat map `c` holds exactly the slots of `content`, under their keys. */
  ghost predicate Represents(c: map<string, Value>, content: Content, key: Naming) {
    && AllWellFormed(content) && AllFit(content)
    && (forall s :: s in content ==> key(s) in c && c[key(s)] == content[s])
    && (forall k :: k in c ==> exists s :: s in content && k == key(s))
  }

  lemma Lookup(c: map<string, Value>, content: Content, key: Naming, s: Slot)
    requires Injective(key) && Represents(c, content, key) && WellFormed(s)
    ensures key(s) in c <==> s in content
    ensures s in content ==> c[key(s)] == content[s] && Fits(s, content[s])
  {
  }

  lemma RepresentsSet(c: map<string, Value>, content: Content, key: Naming, s: Slot, value: Value)
    requires Injective(key) && Represents(c, content, key) && WellFormed(s) && Fits(s, value)
    ensures Represents(c[key(s) := value], content[s := value], key)
  {
    var k0, c', content' := key(s), c[key(s) := value], content[s := value];
    forall t | t in content'
      ensures WellFormed(t) && Fits(t, content'[t]) && key(t) in c' && c'[key(t)] == content'[t]
    {
      assert t != s ==> t in content && key(t) != k0;
    }
    forall k | k in c' ensures exists t :: t in content' && k == key(t) {
      if k == key(s) {
        assert s in content';
      } else {
        var t :| t in content && k == key(t);
        assert t in content';
      }
    }
  }

  /** What is left of the content when some keys are deleted from the flat map. */
  ghost function Without(content: Content, key: Naming, keys: set<string>): Content {
    map s | s in content && key(s) !in keys :: content[s]
  }

  lemma RepresentsDelete(c: map<string, Value>, content: Content, key: Naming, keys: set<string>)
    requires Represents(c, content, key)
    ensures Represents(c - keys, Without(content, key, keys), key)
  {
    forall k | k in c - keys ensures exists s :: s in Without(content, key, keys) && k == key(s) {
      var s :| s in content && k == key(s);
      assert s in Without(content, key, keys);
    }
  }

  // ---- listings of the flat map ----

  function Parse(key: string): Path {
    Split(key)[1..]
  }

  lemma ParseKey(key: Naming, root: Path, s: Slot)
    requires Names(key, root) && WellFormed(s)
    ensures Parse(key(s)) == SlotPath(root, s) && Render(Parse(key(s))) == key(s)
    ensures Segments(Parse(key(s))) && Parse(key(s)) != []
  {
    var p := SlotPath(root, s);
    NameOf(key, root, s);
    SlotSegments(root, s);
    SplitRender(p);
    assert ([""] + p)[1..] == p;
  }

  lemma ParseAll(c: map<string, Value>, content: Content, key: Naming, root: Path, k: string)
    requires Names(key, root) && Represents(c, content, key) && k in c
    ensures Render(Parse(k)) == k && Segments(Parse(k)) && Parse(k) != [] && Parse(k) in StorePaths(content, root)
  {
    var s :| s in content && k == key(s);
    ParseKey(key, root, s);
  }

  lemma ParseOrder(c: map<string, Value>, content: Content, key: Naming, root: Path, order: seq<string>)
    returns (paths: seq<Path>)
    requires Names(key, root) && Represents(c, content, key)
    requires Distinct(order) && (forall k :: k in order <==> k in c)
    ensures RenderAll(paths) == order && AllSegments(paths) && Enumerates(paths, StorePaths(content, root))
  {
    paths := seq(|order|, i requires 0 <= i < |order| => Parse(order[i]));
    forall i | 0 <= i < |order|
      ensures Render(paths[i]) == order[i] && Segments(paths[i]) && paths[i] != []
      ensures paths[i] in StorePaths(content, root)
    {
      assert order[i] in order;
      ParseAll(c, content, key, root, order[i]);
    }
    RenderedDistinct(paths, order);
    AllParsed(c, content, key, root, order, paths);
  }

  lemma AllParsed(
      c: map<string, Value>, content: Content, key: Naming, root: Path, order: seq<string>, paths: seq<Path>)
    requires Names(key, root) && Represents(c, content, key) && forall k :: k in order <==> k in c
    requires |paths| == |order| && forall i :: 0 <= i < |order| ==> paths[i] == Parse(order[i])
    ensures forall p :: p in StorePaths(content, root) ==> p in paths
  {
    forall p | p in StorePaths(content, root) ensures p in paths {
      var i := IndexOfPath(c, content, key, root, order, p);
      assert paths[i] == p;
    }
  }

  lemma RenderedDistinct(paths: seq<Path>, order: seq<string>)
    requires |paths| == |order| && Distinct(order)
    requires forall i :: 0 <= i < |order| ==> Render(paths[i]) == order[i]
    ensures RenderAll(paths) == order && Distinct(paths)
  {
    forall i, j | 0 <= i < j < |paths| ensures paths[i] != paths[j] {
      assert order[i] != order[j];
    }
  }

  lemma IndexOfPath(c: map<string, Value>, content: Content, key: Naming, root: Path, order: seq<string>, p: Path)
    returns (i: nat)
    requires Names(key, root) && Represents(c, content, key) && p in StorePaths(content, root)
    requires forall k :: k in order <==> k in c
    ensures i < |order| && Parse(order[i]) == p
  {
    var s :| s in content && p == SlotPath(root, s);
    ParseKey(key, root, s);
    assert key(s) in order;
    i :| 0 <= i < |order| && order[i] == key(s);
  }

  /** A stable listing of the flat map reports the children of the prefix, each once. */
  lemma ListingOf(c: map<string, Value>, content: Content, key: Naming, root: Path, prefix: Path, order: seq<string>)
    returns (r: seq<Path>)
    requires Names(key, root) && Represents(c, content, key) && Segments(prefix) && prefix != []
    requires Distinct(order) && (forall k :: k in order <==> k in c)
    requires Stable(StorePaths(content, root), prefix)
    ensures KeysLoop(order, Render(prefix), []) == Some(RenderAll(r)) && AllSegments(r) && Distinct(r)
    ensures forall p :: p in r <==> p in Children(StorePaths(content, root), prefix)
  {
    var paths := ParseOrder(c, content, key, root, order);
    r := ListedExactly(paths, StorePaths(content, root), prefix);
  }

  lemma ListedExactly(paths: seq<Path>, store: set<Path>, prefix: Path) returns (r: seq<Path>)
    requires Enumerates(paths, store) && AllSegments(paths) && Segments(prefix) && prefix != []
    requires Stable(store, prefix)
    ensures KeysLoop(RenderAll(paths), Render(prefix), []) == Some(RenderAll(r)) && AllSegments(r) && Distinct(r)
    ensures forall p :: p in r <==> p in Children(store, prefix)
  {
    StableListsExactly(paths, store, prefix);
    r :| KeysLoop(RenderAll(paths), Render(prefix), []) == Some(RenderAll(r))
      && AllSegments(r) && Distinct(r) && (forall p :: p in r <==> p in Children(store, prefix));
  }

  lemma RenderedElems(r: seq<Path>, p: Path)
    requires AllSegments(r) && Segments(p)
    ensures Render(p) in Elems(RenderAll(r)) <==> p in r
  {
    if Render(p) in Elems(RenderAll(r)) {
      var i :| 0 <= i < |r| && RenderAll(r)[i] == Render(p);
      RenderInjective(r[i], p);
    }
    if p in r {
      var i :| 0 <= i < |r| && r[i] == p;
      assert RenderAll(r)[i] == Render(p);
    }
  }

  /** What is left when the slots at some paths go. */
  ghost function Survivors(content: Content, root: Path, gone: set<Path>): Content {
    map s | s in content && SlotPath(root, s) !in gone :: content[s]
  }

  /** Deleting listed keys deletes exactly the slots whose paths were listed. */
  lemma WithoutListed(content: Content, key: Naming, root: Path, r: seq<Path>)
    requires Names(key, root) && AllSegments(r) && AllWellFormed(content)
    ensures Without(content, key, Elems(RenderAll(r))) == Survivors(content, root, set p | p in r)
  {
    forall s | s in content ensures key(s) in Elems(RenderAll(r)) <==> SlotPath(root, s) in r {
      SlotSegments(root, s);
      NameOf(key, root, s);
      RenderedElems(r, SlotPath(root, s));
    }
  }

  /** Deleting what a stable listing reports removes the children of the prefix. */
  lemma DeletedBelow(c: map<string, Value>, content: Content, key: Naming, root: Path, prefix: Path, order: seq<string>)
    requires Names(key, root) && Represents(c, content, key) && Segments(prefix) && prefix != []
    requires Distinct(order) && (forall k :: k in order <==> k in c)
    requires Stable(StorePaths(content, root), prefix)
    ensures var keys := KeysLoop(order, Render(prefix), []);
      keys.Some? && Without(content, key, Elems(keys.value)) ==
        Survivors(content, root, Children(StorePaths(content, root), prefix))
  {
    var r := ListingOf(c, content, key, root, prefix, order);
    WithoutListed(content, key, root, r);
    assert (set p | p in r) == Children(StorePaths(content, root), prefix);
  }

  // ---- the volume operations on slots ----

  /** The volume record that the slots of `v` add up to. */
  function VolumeOf(content: Content, v: string): Option<Volume>
    requires AllFit(content)
  {
    if BaseSlot(v) !in content then None
    else
      assert Fits(BaseSlot(v), content[BaseSlot(v)]);
      assert ControllerSlot(v) in content ==> Fits(ControllerSlot(v), content[ControllerSlot(v)]);
      var names := ReplicaNames(content, v);
      Some(content[BaseSlot(v)].volume.(
        controller := if ControllerSlot(v) in content then Some(content[ControllerSlot(v)].controller) else None,
        replicas := if names == {} then None else Some(ReplicasOf(content, v))))
  }

  function ReplicasOf(content: Content, v: string): map<string, Replica>
    requires AllFit(content)
  {
    map r | r in ReplicaNames(content, v) ::
      assert Fits(ReplicaSlot(v, r), content[ReplicaSlot(v, r)]);
      content[ReplicaSlot(v, r)].replica
  }

  function BaseOf(volume: Volume): Volume {
    volume.(controller := None, replicas := None)
  }

  /** An empty replica map reads back as no map at all. */
  function Normal(volume: Volume): Volume {
    if volume.replicas == Some(map[]) then volume.(replicas := None) else volume
  }

  /** Well-formed names; every instance carries the volume's name, every replica its key. */
  predicate Storable(volume: Volume) {
    && Segment(volume.name)
    && (volume.controller.Some? ==> volume.controller.value.volumeName == volume.name)
    && (forall r :: r in Replicas(volume) ==>
          && Segment(r)
          && Replicas(volume)[r].inst.name == r
          && Replicas(volume)[r].inst.volumeName == volume.name)
  }

  ghost function ClearController(content: Content, v: string): Content {
    map s | s in content && s != ControllerSlot(v) :: content[s]
  }

  ghost function ClearReplicas(content: Content, v: string): Content {
    map s | s in content && !(s.ReplicaSlot? && s.volume == v) :: content[s]
  }

  ghost function PutController(content: Content, volume: Volume): Content {
    if volume.controller.Some? then content[ControllerSlot(volume.name) := ControllerValue(volume.controller.value)]
      else content
  }

  ghost function PutReplicas(content: Content, v: string, replicas: map<string, Replica>): Content {
    content + map s | s in (set r | r in replicas :: ReplicaSlot(v, r)) :: ReplicaValue(replicas[s.replica])
  }

  predicate Belongs(s: Slot, v: string) {
    OfVolume(s) && s.volume == v
  }

  /** The slots a volume record occupies, and what they hold. */
  function SlotsOf(volume: Volume): set<Slot> {
    {BaseSlot(volume.name)}
    + (if volume.controller.Some? then {ControllerSlot(volume.name)} else {})
    + set r | r in Replicas(volume) :: ReplicaSlot(volume.name, r)
  }

  function ValueAt(volume: Volume, s: Slot): Value
    requires s in SlotsOf(volume)
  {
    match s
    case ControllerSlot(_) => ControllerValue(volume.controller.value)
    case ReplicaSlot(_, r) => ReplicaValue(Replicas(volume)[r])
    case _ => VolumeValue(BaseOf(volume))
  }

  /** SetVolume on slots: the volume's slots are replaced, all others stay. */
  ghost function AfterSet(content: Content, volume: Volume): Content {
    map s | s in (set t | t in content && !Belongs(t, volume.name)) + SlotsOf(volume) ::
      if s in SlotsOf(volume) then ValueAt(volume, s) else content[s]
  }

  /** DeleteVolume on slots: it drops the base of every volume whose name starts with `v`. */
  ghost function AfterDelete(content: Content, v: string): Content {
    map s | s in content && !(s.BaseSlot? && HasPrefix(s.volume, v)) :: content[s]
  }

  lemma AfterSetFits(content: Content, volume: Volume)
    requires AllFit(content) && Storable(volume)
    ensures AllFit(AfterSet(content, volume))
  {
    forall s | s in SlotsOf(volume) ensures Fits(s, ValueAt(volume, s)) {
    }
  }

  lemma SetReplicaNames(content: Content, volume: Volume)
    ensures ReplicaNames(AfterSet(content, volume), volume.name) == Replicas(volume).Keys
  {
    var content', v := AfterSet(content, volume), volume.name;
    forall r ensures r in ReplicaNames(content', v) <==> r in Replicas(volume) {
      assert r in ReplicaNames(content', v) <==> ReplicaSlot(v, r) in content';
      assert ReplicaSlot(v, r) in content' <==> ReplicaSlot(v, r) in SlotsOf(volume);
    }
  }

  lemma SetReplicas(content: Content, volume: Volume)
    requires AllFit(AfterSet(content, volume))
    ensures ReplicasOf(AfterSet(content, volume), volume.name) == Replicas(volume)
  {
    SetReplicaNames(content, volume);
    var content', v := AfterSet(content, volume), volume.name;
    forall r | r in Replicas(volume) ensures ReplicasOf(content', v)[r] == Replicas(volume)[r] {
      assert ReplicaSlot(v, r) in SlotsOf(volume);
    }
  }

  /** SetVolume then GetVolume is the identity, from any earlier contents. */
  lemma SetThenGet(content: Content, volume: Volume)
    requires AllFit(content) && Storable(volume)
    ensures AllFit(AfterSet(content, volume))
    ensures VolumeOf(AfterSet(content, volume), volume.name) == Some(Normal(volume))
  {
    AfterSetFits(content, volume);
    SetReplicaNames(content, volume);
    SetReplicas(content, volume);
    var content', v := AfterSet(content, volume), volume.name;
    assert Replicas(volume).Keys == {} <==> Replicas(volume) == map[];
    assert BaseSlot(v) in SlotsOf(volume);
    assert ControllerSlot(v) in content' <==> ControllerSlot(v) in SlotsOf(volume);
  }

  /** ... and leaves every other volume, host and setting alone. */
  lemma SetLeavesOthers(content: Content, volume: Volume, u: string)
    requires AllFit(content) && Storable(volume) && u != volume.name
    ensures AllFit(AfterSet(content, volume))
    ensures VolumeOf(AfterSet(content, volume), u) == VolumeOf(content, u)
    ensures ReplicaNames(AfterSet(content, volume), u) == ReplicaNames(content, u)
  {
    AfterSetFits(content, volume);
    SameVolume(content, AfterSet(content, volume), u);
  }

  lemma SameVolume(content: Content, content': Content, u: string)
    requires AllFit(content) && AllFit(content')
    requires forall s :: OfVolume(s) && s.volume == u ==>
      (s in content' <==> s in content) && (s in content ==> content'[s] == content[s])
    ensures VolumeOf(content', u) == VolumeOf(content, u)
    ensures ReplicaNames(content', u) == ReplicaNames(content, u)
  {
    forall r ensures r in ReplicaNames(content', u) <==> r in ReplicaNames(content, u) {
      assert r in ReplicaNames(content', u) <==> ReplicaSlot(u, r) in content';
      assert r in ReplicaNames(content, u) <==> ReplicaSlot(u, r) in content;
    }
    assert ReplicasOf(content', u) == ReplicasOf(content, u);
  }

  /** Deleting a volume makes it unreadable. It leaves another volume readable as before
      exactly when that volume's name does not start with the deleted name. */
  lemma DeleteThenGet(content: Content, v: string, u: string)
    requires AllFit(content)
    ensures AllFit(AfterDelete(content, v))
    ensures VolumeOf(AfterDelete(content, v), v) == None
    ensures VolumeOf(content, u).Some? ==>
      (VolumeOf(AfterDelete(content, v), u) == VolumeOf(content, u) <==> !HasPrefix(u, v))
    ensures !HasPrefix(u, v) ==> VolumeOf(AfterDelete(content, v), u) == VolumeOf(content, u)
  {
    if !HasPrefix(u, v) {
      SameVolume(content, AfterDelete(content, v), u);
    }
  }

  /** On the flat map a deleted volume keeps its instance keys: writing the base again brings
      the old controller and replicas back. */
  lemma DeletedInstancesResurface(content: Content, volume: Volume)
    requires AllFit(content) && VolumeOf(content, volume.name).Some?
    ensures var again := AfterDelete(content, volume.name)[BaseSlot(volume.name) := VolumeValue(BaseOf(volume))];
      && AllFit(again)
      && VolumeOf(again, volume.name).Some?
      && VolumeOf(again, volume.name).value.controller == VolumeOf(content, volume.name).value.controller
      && VolumeOf(again, volume.name).value.replicas == VolumeOf(content, volume.name).value.replicas
  {
    var v := volume.name;
    var again := AfterDelete(content, v)[BaseSlot(v) := VolumeValue(BaseOf(volume))];
    forall r ensures r in ReplicaNames(again, v) <==> r in ReplicaNames(content, v) {
      assert r in ReplicaNames(again, v) <==> ReplicaSlot(v, r) in again;
      assert r in ReplicaNames(content, v) <==> ReplicaSlot(v, r) in content;
    }
    assert ReplicasOf(again, v) == ReplicasOf(content, v);
  }

  /** A volume record with one replica marked bad at `now`. */
  function Marked(volume: Volume, name: string, now: string): Volume {
    if volume.replicas.None? then volume
    else volume.(replicas := Some(map k | k in volume.replicas.value ::
      var r := volume.replicas.value[k];
      if r.inst.name == name then r.(badTimestamp := now) else r))
  }

  /** In that record exactly the replicas of that name are marked, and nothing else is changed. */
  lemma MarkedExactly(volume: Volume, name: string, now: string)
    ensures var marked := Marked(volume, name, now);
      && BaseOf(marked) == BaseOf(volume) && marked.controller == volume.controller
      && Replicas(marked).Keys == Replicas(volume).Keys
      && forall k :: k in Replicas(volume) ==>
           var before, after := Replicas(volume)[k], Replicas(marked)[k];
           && after.inst == before.inst && after.mode == before.mode
           && after.badTimestamp == if before.inst.name == name then now else before.badTimestamp
  {
  }

  /** Marking a replica bad stores only the volume's base, so the mark is lost: the store is
      exactly what it was. */
  lemma BadMarksAreLost(content: Content, v: string, name: string, now: string)
    requires AllFit(content) && VolumeOf(content, v).Some?
    ensures content[BaseSlot(v) := VolumeValue(BaseOf(Marked(VolumeOf(content, v).value, name, now)))] == content
  {
    assert Fits(BaseSlot(v), content[BaseSlot(v)]);
  }
}
