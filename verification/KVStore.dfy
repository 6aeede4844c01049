/** The in-memory backend and the store on top of it. */
module KVStore {
  import opened Collections
  import opened Strings
  import opened Paths
  import opened KeyListing
  import opened StoreTypes
  import opened StoreKeys
  import opened StoreView

  class MemoryBackend {
    var c: map<string, Value>

    constructor ()
      ensures c == map[]
    {
      c := map[];
    }

    method Set(key: string, value: Value)
      modifies this
      ensures c == old(c)[key := value]
    {
      c := c[key := value];
    }

    method Get(key: string) returns (value: Option<Value>)
      ensures value == if key in c then Some(c[key]) else None
    {
      value := if key in c then Some(c[key]) else None;
    }

    /** The children of a prefix, in some iteration order of the map; None is the panic on an
        index out of range. */
    method Keys(prefix: string) returns (keys: Option<seq<string>>, ghost order: seq<string>)
      ensures Distinct(order) && (forall k :: k in order <==> k in c)
      ensures keys == KeysLoop(order, prefix, [])
    {
      var todo := c.Keys;
      var listed: seq<string> := [];
      order := [];
      while todo != {}
        invariant todo <= c.Keys && Distinct(order)
        invariant forall k :: k in order <==> k in c && k !in todo
        invariant KeysLoop(order, prefix, []) == Some(listed)
        decreases |todo|
      {
        var key :| key in todo;
        todo := todo - {key};
        var next := KeysStep(key, prefix, listed);
        KeysLoopAppend(order, key, prefix, []);
        order := order + [key];
        if next.None? {
          ghost var rest := SeqOf(todo);
          assert forall i :: 0 <= i < |rest| ==> rest[i] in todo;
          assert forall i :: 0 <= i < |order| ==> order[i] in order;
          PanicSticks(order, rest, prefix);
          order := order + rest;
          return None, order;
        }
        listed := next.value;
      }
      keys := Some(listed);
    }

    /** Deletes the listed keys, which is one level deep. */
    method Delete(key: string) returns (ok: bool, ghost order: seq<string>)
      modifies this
      ensures Distinct(order) && (forall k :: k in order <==> k in old(c))
      ensures ok == KeysLoop(order, key, []).Some?
      ensures c == if ok then old(c) - Elems(KeysLoop(order, key, []).value) else old(c)
    {
      var keys;
      keys, order := Keys(key);
      ok := keys.Some?;
      if ok {
        for i := 0 to |keys.value|
          invariant c == old(c) - Elems(keys.value[..i])
        {
          c := c - {keys.value[i]};
          assert Elems(keys.value[..i + 1]) == Elems(keys.value[..i]) + {keys.value[i]};
        }
        assert keys.value[..|keys.value|] == keys.value;
      }
    }
  }

  lemma {:induction false} PanicSticks(items: seq<string>, rest: seq<string>, prefix: string)
    requires KeysLoop(items, prefix, []) == None
    ensures KeysLoop(items + rest, prefix, []) == None
    decreases |rest|
  {
    if rest == [] {
      assert items + rest == items;
    } else {
      KeysLoopAppend(items, rest[0], prefix, []);
      PanicSticks(items + [rest[0]], rest[1..], prefix);
      assert items + [rest[0]] + rest[1..] == items + rest;
    }
  }

  /** The replicas that a listing of replica keys yields, keyed by the names they carry. */
  function Collect(c: map<string, Value>, keys: seq<string>): map<string, Replica> {
    if keys == [] then map[]
    else
      var n := |keys| - 1;
      var m := Collect(c, keys[..n]);
      if keys[n] in c && c[keys[n]].ReplicaValue? then m[c[keys[n]].replica.inst.name := c[keys[n]].replica] else m
  }

  lemma {:induction false} CollectNamed(
      c: map<string, Value>, content: Content, key: Naming, v: string, names: seq<string>, keys: seq<string>)
    requires Represents(c, content, key) && |keys| == |names|
    requires forall i :: 0 <= i < |names| ==>
      ReplicaSlot(v, names[i]) in content && keys[i] == key(ReplicaSlot(v, names[i]))
    ensures Collect(c, keys).Keys == Elems(names)
    ensures forall x :: x in names ==>
      ReplicaSlot(v, x) in content && content[ReplicaSlot(v, x)] == ReplicaValue(Collect(c, keys)[x])
  {
    if names != [] {
      var n := |names| - 1;
      CollectNamed(c, content, key, v, names[..n], keys[..n]);
      var s := ReplicaSlot(v, names[n]);
      assert Fits(s, content[s]);
      assert names == names[..n] + [names[n]];
    }
  }

  lemma ReplicaPathsListed(
      c: map<string, Value>, content: Content, key: Naming, root: Path, v: string,
      order: seq<string>) returns (r: seq<Path>)
    requires Names(key, root) && Represents(c, content, key) && Segment(v)
    requires Distinct(order) && (forall k :: k in order <==> k in c)
    requires PrefixFree(ReplicaNames(content, v))
    ensures KeysLoop(order, Render(ReplicasPath(root, v)), []) == Some(RenderAll(r))
    ensures forall p :: p in r <==> p in set x | x in ReplicaNames(content, v) :: SlotPath(root, ReplicaSlot(v, x))
  {
    FixedSegments();
    ReplicasStable(content, root, v);
    r := ListingOf(c, content, key, root, ReplicasPath(root, v), order);
  }

  /** The replicas listing of the flat map names every replica of the volume. */
  lemma ReplicaKeysListed(
      c: map<string, Value>, content: Content, key: Naming, root: Path, v: string,
      order: seq<string>) returns (names: seq<string>)
    requires Names(key, root) && Represents(c, content, key) && Segment(v)
    requires Distinct(order) && (forall k :: k in order <==> k in c)
    requires PrefixFree(ReplicaNames(content, v))
    ensures var keys := KeysLoop(order, Render(ReplicasPath(root, v)), []);
      && keys.Some? && |keys.value| == |names| && Elems(names) == ReplicaNames(content, v)
      && forall i :: 0 <= i < |names| ==> keys.value[i] == key(ReplicaSlot(v, names[i]))
  {
    var r := ReplicaPathsListed(c, content, key, root, v, order);
    names := LastNames(r);
    NamedPaths(r, ReplicaNames(content, v), x => SlotPath(root, ReplicaSlot(v, x)));
    forall i | 0 <= i < |r| ensures RenderAll(r)[i] == key(ReplicaSlot(v, names[i])) {
      NameOf(key, root, ReplicaSlot(v, names[i]));
    }
  }

  /** Paths that end in the name they are made from, recovered from a listing. */
  lemma NamedPaths(r: seq<Path>, xs: set<string>, path: string -> Path)
    requires forall p :: p in r <==> p in set x | x in xs :: path(x)
    requires forall x :: path(x) != [] && path(x)[|path(x)| - 1] == x
    ensures Elems(LastNames(r)) == xs
    ensures forall i :: 0 <= i < |r| ==> r[i] == path(LastNames(r)[i])
  {
    forall i | 0 <= i < |r| ensures r[i] == path(LastNames(r)[i]) && LastNames(r)[i] in xs {
      assert r[i] in r;
    }
    forall x | x in xs ensures x in LastNames(r) {
      assert path(x) in r;
      var i :| 0 <= i < |r| && r[i] == path(x);
      assert LastNames(r)[i] == x;
    }
  }

  /** The last segment of each path. */
  function LastNames(r: seq<Path>): (names: seq<string>)
    ensures |names| == |r|
    ensures forall i :: 0 <= i < |r| && r[i] != [] ==> names[i] == r[i][|r[i]| - 1]
  {
    seq(|r|, i requires 0 <= i < |r| => if r[i] == [] then "" else r[i][|r[i]| - 1])
  }

  lemma ReplicasListed(c: map<string, Value>, content: Content, key: Naming, root: Path, v: string, order: seq<string>)
    requires Names(key, root) && Represents(c, content, key) && Segment(v)
    requires Distinct(order) && (forall k :: k in order <==> k in c)
    requires PrefixFree(ReplicaNames(content, v))
    ensures var keys := KeysLoop(order, Render(ReplicasPath(root, v)), []);
      keys.Some? && Collect(c, keys.value) == ReplicasOf(content, v)
  {
    var names := ReplicaKeysListed(c, content, key, root, v, order);
    var keys := KeysLoop(order, Render(ReplicasPath(root, v)), []).value;
    forall i | 0 <= i < |names| ensures ReplicaSlot(v, names[i]) in content {
      assert names[i] in ReplicaNames(content, v);
    }
    CollectNamed(c, content, key, v, names, keys);
    SameReplicas(content, v, Collect(c, keys));
  }

  lemma SameReplicas(content: Content, v: string, m: map<string, Replica>)
    requires AllFit(content) && m.Keys == ReplicaNames(content, v)
    requires forall x :: x in m ==> ReplicaSlot(v, x) in content && content[ReplicaSlot(v, x)] == ReplicaValue(m[x])
    ensures m == ReplicasOf(content, v)
  {
  }

  /** The first half of SetVolume: base and controller. */
  ghost function AfterBase(content: Content, volume: Volume): Content {
    PutController(ClearController(content[BaseSlot(volume.name) := VolumeValue(BaseOf(volume))], volume.name), volume)
  }

  /** The second half: the replicas. */
  ghost function AfterReplicas(content: Content, volume: Volume): Content {
    PutReplicas(ClearReplicas(content, volume.name), volume.name, Replicas(volume))
  }

  lemma AfterBaseAt(content: Content, volume: Volume, s: Slot)
    ensures var v, after := volume.name, AfterBase(content, volume);
      && (s in after <==>
            (|| (s in content && s != ControllerSlot(v))
             || s == BaseSlot(v)
             || (s == ControllerSlot(v) && volume.controller.Some?)))
      && (s == BaseSlot(v) ==> after[s] == VolumeValue(BaseOf(volume)))
      && (s == ControllerSlot(v) && s in after ==> after[s] == ControllerValue(volume.controller.value))
      && (s in after && s != BaseSlot(v) && s != ControllerSlot(v) ==> after[s] == content[s])
  {
  }

  lemma AfterReplicasAt(content: Content, volume: Volume, s: Slot)
    ensures var v, after := volume.name, AfterReplicas(content, volume);
      var replica := s.ReplicaSlot? && s.volume == v;
      && (s in after <==> if replica then s.replica in Replicas(volume) else s in content)
      && (s in after ==> after[s] == if replica then ReplicaValue(Replicas(volume)[s.replica]) else content[s])
  {
    PutReplicasAt(ClearReplicas(content, volume.name), volume.name, Replicas(volume), s);
  }

  lemma AfterSetAt(content: Content, volume: Volume, s: Slot)
    ensures var v, after := volume.name, AfterSet(content, volume);
      && (s in after <==>
            (|| (s in content && !Belongs(s, v))
             || s == BaseSlot(v)
             || (s == ControllerSlot(v) && volume.controller.Some?)
             || (s.ReplicaSlot? && s.volume == v && s.replica in Replicas(volume))))
      && (s == BaseSlot(v) ==> after[s] == VolumeValue(BaseOf(volume)))
      && (s == ControllerSlot(v) && s in after ==> after[s] == ControllerValue(volume.controller.value))
      && (s.ReplicaSlot? && s.volume == v && s in after ==> after[s] == ReplicaValue(Replicas(volume)[s.replica]))
      && (s in after && !Belongs(s, v) ==> after[s] == content[s])
  {
  }

  /** The two halves of SetVolume add up to replacing the volume's slots. */
  lemma StepwiseSet(content: Content, volume: Volume)
    ensures AfterReplicas(AfterBase(content, volume), volume) == AfterSet(content, volume)
    ensures ReplicaNames(AfterBase(content, volume), volume.name) == ReplicaNames(content, volume.name)
  {
    var a, b := AfterReplicas(AfterBase(content, volume), volume), AfterSet(content, volume);
    forall s ensures (s in a <==> s in b) && (s in a ==> a[s] == b[s]) {
      AfterBaseAt(content, volume, s);
      AfterReplicasAt(AfterBase(content, volume), volume, s);
      AfterSetAt(content, volume, s);
    }
    SameNames(AfterBase(content, volume), content, volume.name);
  }

  lemma PutReplicasAt(content: Content, v: string, replicas: map<string, Replica>, s: Slot)
    ensures var mine := s.ReplicaSlot? && s.volume == v && s.replica in replicas;
      && (s in PutReplicas(content, v, replicas) <==> s in content || mine)
      && (s in PutReplicas(content, v, replicas) ==>
            PutReplicas(content, v, replicas)[s] == if mine then ReplicaValue(replicas[s.replica]) else content[s])
  {
    var slots := set r | r in replicas :: ReplicaSlot(v, r);
    assert s in slots <==> s.ReplicaSlot? && s.volume == v && s.replica in replicas;
  }

  /** The volumes that a list of names stands for, skipping names without a base. */
  ghost function VolumesOf(content: Content, names: seq<string>): seq<Volume>
    requires AllFit(content)
  {
    if names == [] then []
    else
      var n := |names| - 1;
      VolumesOf(content, names[..n]) +
        (if VolumeOf(content, names[n]).Some? then [VolumeOf(content, names[n]).value] else [])
  }

  lemma NameCarried(content: Content, v: string)
    requires AllFit(content) && BaseSlot(v) in content
    ensures VolumeOf(content, v).Some? && VolumeOf(content, v).value.name == v
  {
    assert Fits(BaseSlot(v), content[BaseSlot(v)]);
  }

  lemma {:induction false} VolumesOfExact(content: Content, names: seq<string>)
    requires AllFit(content) && Distinct(names)
    ensures var volumes := VolumesOf(content, names);
      && (forall i, j :: 0 <= i < j < |volumes| ==> volumes[i].name != volumes[j].name)
      && (forall u :: u in volumes ==> u.name in names && VolumeOf(content, u.name) == Some(u))
      && (forall v :: v in names && BaseSlot(v) in content ==> VolumeOf(content, v).value in volumes)
  {
    if names != [] {
      var n := |names| - 1;
      var v := names[n];
      assert names == names[..n] + [v];
      VolumesOfExact(content, names[..n]);
      if BaseSlot(v) in content {
        NameCarried(content, v);
        var before := VolumesOf(content, names[..n]);
        forall i | 0 <= i < |before| ensures before[i].name != v {
          assert before[i] in before;
        }
      }
    }
  }

  /** The volumes listing of the flat map names every volume that has a key, once. */
  lemma VolumesListed(c: map<string, Value>, content: Content, key: Naming, root: Path, order: seq<string>)
    returns (names: seq<string>)
    requires Names(key, root) && Represents(c, content, key)
    requires Distinct(order) && (forall k :: k in order <==> k in c)
    requires PrefixFree(VolumeNames(content))
    ensures Distinct(names) && (forall v :: v in names <==> v in VolumeNames(content))
    ensures var keys := KeysLoop(order, Render(VolumesPath(root)), []);
      && keys.Some? && |keys.value| == |names|
      && forall i :: 0 <= i < |names| ==> keys.value[i] == Render(VolumePath(root, names[i]))
  {
    FixedSegments();
    VolumesStable(content, root);
    var r := ListingOf(c, content, key, root, VolumesPath(root), order);
    names := ListedNames(content, root, r);
  }

  /** The hosts that a listing of host keys yields. */
  function CollectHosts(c: map<string, Value>, keys: seq<string>): map<string, Host> {
    if keys == [] then map[]
    else
      var n := |keys| - 1;
      var m := CollectHosts(c, keys[..n]);
      if keys[n] in c && c[keys[n]].HostValue? then m[c[keys[n]].host.uuid := c[keys[n]].host] else m
  }

  ghost predicate HostsAre(hosts: map<string, Host>, content: Content, ids: set<string>) {
    && hosts.Keys == ids
    && (forall id :: id in ids ==> HostSlot(id) in content && content[HostSlot(id)] == HostValue(hosts[id]))
  }

  lemma {:induction false} CollectHostsNamed(
      c: map<string, Value>, content: Content, key: Naming, ids: seq<string>, keys: seq<string>)
    requires Represents(c, content, key) && |keys| == |ids|
    requires forall i :: 0 <= i < |ids| ==> HostSlot(ids[i]) in content && keys[i] == key(HostSlot(ids[i]))
    ensures HostsAre(CollectHosts(c, keys), content, Elems(ids))
  {
    if ids != [] {
      var n := |ids| - 1;
      CollectHostsNamed(c, content, key, ids[..n], keys[..n]);
      assert Fits(HostSlot(ids[n]), content[HostSlot(ids[n])]);
      OneMoreHost(CollectHosts(c, keys[..n]), content, ids, n);
    }
  }

  lemma OneMoreHost(hosts: map<string, Host>, content: Content, ids: seq<string>, n: nat)
    requires |ids| == n + 1 && HostsAre(hosts, content, Elems(ids[..n]))
    requires HostSlot(ids[n]) in content && Fits(HostSlot(ids[n]), content[HostSlot(ids[n])])
    ensures HostsAre(hosts[ids[n] := content[HostSlot(ids[n])].host], content, Elems(ids))
  {
    assert ids == ids[..n] + [ids[n]];
    assert Elems(ids) == Elems(ids[..n]) + {ids[n]};
  }

  lemma HostPathsListed(c: map<string, Value>, content: Content, key: Naming, root: Path, order: seq<string>)
    returns (r: seq<Path>)
    requires Names(key, root) && Represents(c, content, key)
    requires Distinct(order) && (forall k :: k in order <==> k in c)
    requires PrefixFree(HostNames(content))
    ensures KeysLoop(order, Render(HostsPath(root)), []) == Some(RenderAll(r))
    ensures forall p :: p in r <==> p in set x | x in HostNames(content) :: SlotPath(root, HostSlot(x))
  {
    FixedSegments();
    HostsStable(content, root);
    r := ListingOf(c, content, key, root, HostsPath(root), order);
  }

  lemma HostKeysListed(c: map<string, Value>, content: Content, key: Naming, root: Path, order: seq<string>)
    returns (ids: seq<string>)
    requires Names(key, root) && Represents(c, content, key)
    requires Distinct(order) && (forall k :: k in order <==> k in c)
    requires PrefixFree(HostNames(content))
    ensures var keys := KeysLoop(order, Render(HostsPath(root)), []);
      && keys.Some? && |keys.value| == |ids| && Elems(ids) == HostNames(content)
      && forall i :: 0 <= i < |ids| ==> keys.value[i] == key(HostSlot(ids[i]))
  {
    var r := HostPathsListed(c, content, key, root, order);
    ids := LastNames(r);
    NamedPaths(r, HostNames(content), x => SlotPath(root, HostSlot(x)));
    forall i | 0 <= i < |r| ensures RenderAll(r)[i] == key(HostSlot(ids[i])) {
      NameOf(key, root, HostSlot(ids[i]));
    }
  }

  lemma HostsListed(c: map<string, Value>, content: Content, key: Naming, root: Path, order: seq<string>)
    requires Names(key, root) && Represents(c, content, key)
    requires Distinct(order) && (forall k :: k in order <==> k in c)
    requires PrefixFree(HostNames(content))
    ensures var keys := KeysLoop(order, Render(HostsPath(root)), []);
      keys.Some? && HostsAre(CollectHosts(c, keys.value), content, HostNames(content))
  {
    var ids := HostKeysListed(c, content, key, root, order);
    forall i | 0 <= i < |ids| ensures HostSlot(ids[i]) in content {
      assert ids[i] in HostNames(content);
    }
    CollectHostsNamed(c, content, key, ids, KeysLoop(order, Render(HostsPath(root)), []).value);
  }

  class KVStore {
    const root: Path
    const prefix: string
    const b: MemoryBackend
    ghost const key: Naming
    ghost var content: Content

    constructor (root: Path, b: MemoryBackend)
      requires Segments(root) && root != [] && b.c == map[]
      ensures Valid() && content == map[] && this.root == root && this.b == b
    {
      this.root := root;
      this.prefix := Render(root);
      this.b := b;
      this.key := s => KeyFor(root, s);
      this.content := map[];
    }

    ghost predicate Valid()
      reads this, b
    {
      Names(key, root) && prefix == Render(root) && Represents(b.c, content, key)
    }

    /** Storing one record under its slot's key. */
    method Put(k: string, value: Value, ghost s: Slot)
      requires Valid() && WellFormed(s) && Fits(s, value) && k == key(s)
      modifies this`content, b
      ensures Valid() && content == old(content)[s := value]
    {
      NamesInjective(key, root);
      RepresentsSet(b.c, content, key, s, value);
      b.Set(k, value);
      content := content[s := value];
    }

    /** Deleting below a path: if its listing is stable, the listed slots go. */
    method DeleteBelow(k: string, ghost path: Path) returns (ok: bool)
      requires Valid() && Segments(path) && path != [] && k == Render(path)
      modifies this`content, b
      ensures Valid()
      ensures old(Stable(StorePaths(content, root), path)) ==>
        ok && content == Survivors(old(content), root, Children(StorePaths(old(content), root), path))
    {
      ghost var order;
      ghost var c := b.c;
      ok, order := b.Delete(k);
      if Stable(StorePaths(content, root), path) {
        DeletedBelow(c, content, key, root, path, order);
      }
      if ok {
        ghost var keys := Elems(KeysLoop(order, k, []).value);
        RepresentsDelete(c, content, key, keys);
        content := Without(content, key, keys);
      }
    }

    // ---- hosts and settings ----

    method SetHost(host: Host)
      requires Valid() && Segment(host.uuid)
      modifies this`content, b
      ensures Valid() && content == old(content)[HostSlot(host.uuid) := HostValue(host)]
    {
      TopKeys(root, host.uuid);
      NameOf(key, root, HostSlot(host.uuid));
      Put(HostKey(prefix, host.uuid), HostValue(host), HostSlot(host.uuid));
    }

    method SetSettings(settings: Settings)
      requires Valid()
      modifies this`content, b
      ensures Valid() && content == old(content)[SettingsSlot := SettingsValue(settings)]
    {
      SectionKeys(root);
      NameOf(key, root, SettingsSlot);
      Put(SettingsKey(prefix), SettingsValue(settings), SettingsSlot);
    }

    // ---- volumes ----

    method SetVolumeBase(volume: Volume)
      requires Valid() && Segment(volume.name)
      modifies this`content, b
      ensures Valid() && content == old(content)[BaseSlot(volume.name) := VolumeValue(BaseOf(volume))]
    {
      TopKeys(root, volume.name);
      VolumeKeys(root, volume.name);
      NameOf(key, root, BaseSlot(volume.name));
      Put(BaseKey(VolumeRootKey(prefix, volume.name)), VolumeValue(BaseOf(volume)), BaseSlot(volume.name));
    }

    method SetVolumeController(controller: Instance) returns (ok: bool)
      requires Valid() && (controller.volumeName != "" ==> Segment(controller.volumeName))
      modifies this`content, b
      ensures Valid() && ok == (controller.volumeName != "")
      ensures content ==
        if ok then old(content)[ControllerSlot(controller.volumeName) := ControllerValue(controller)] else old(content)
    {
      if controller.volumeName == "" {
        return false;
      }
      TopKeys(root, controller.volumeName);
      VolumeKeys(root, controller.volumeName);
      NameOf(key, root, ControllerSlot(controller.volumeName));
      var v := controller.volumeName;
      Put(ControllerKey(VolumeRootKey(prefix, v)), ControllerValue(controller), ControllerSlot(v));
      ok := true;
    }

    method SetVolumeReplica(replica: Replica) returns (ok: bool)
      requires Valid()
      requires (replica.inst.volumeName != "" ==> Segment(replica.inst.volumeName) && Segment(replica.inst.name))
      modifies this`content, b
      ensures Valid() && ok == (replica.inst.volumeName != "")
      ensures content ==
        if ok then old(content)[ReplicaSlot(replica.inst.volumeName, replica.inst.name) := ReplicaValue(replica)]
          else old(content)
    {
      var v, r := replica.inst.volumeName, replica.inst.name;
      if v == "" {
        return false;
      }
      TopKeys(root, v);
      ReplicaKeyIs(root, v, r);
      NameOf(key, root, ReplicaSlot(v, r));
      Put(ReplicaKey(VolumeRootKey(prefix, v), r), ReplicaValue(replica), ReplicaSlot(v, r));
      ok := true;
    }

    method SetVolumeReplicas(v: string, replicas: map<string, Replica>) returns (ok: bool)
      requires Valid() && Segment(v)
      requires forall r :: r in replicas ==>
        Segment(r) && replicas[r].inst.name == r && replicas[r].inst.volumeName == v
      modifies this`content, b
      ensures Valid() && ok && content == PutReplicas(old(content), v, replicas)
    {
      var todo := replicas.Keys;
      PutNone(content, v, replicas);
      while todo != {}
        invariant Valid() && todo <= replicas.Keys
        invariant content == PutReplicas(old(content), v, replicas - todo)
        decreases |todo|
      {
        var r :| r in todo;
        PutOneMore(old(content), v, replicas, todo, r);
        todo := todo - {r};
        ok := SetVolumeReplica(replicas[r]);
      }
      ok := true;
    }

    method DeleteVolumeController(v: string) returns (ok: bool)
      requires Valid() && Segment(v)
      modifies this`content, b
      ensures Valid() && ok && content == ClearController(old(content), v)
    {
      TopKeys(root, v);
      VolumeKeys(root, v);
      SlotSegments(root, ControllerSlot(v));
      ControllerStable(content, root, v);
      ghost var before := content;
      ok := DeleteBelow(ControllerKey(VolumeRootKey(prefix, v)), SlotPath(root, ControllerSlot(v)));
      ControllerCleared(before, root, v);
    }

    /** Also covers replicas that are stale, as long as no name is a prefix of another. */
    method DeleteVolumeReplicas(v: string) returns (ok: bool)
      requires Valid() && Segment(v)
      modifies this`content, b
      ensures Valid()
      ensures old(PrefixFree(ReplicaNames(content, v))) ==> ok && content == ClearReplicas(old(content), v)
    {
      ReplicasKeyIs(root, v);
      ReplicasSegments(root, v);
      ReplicasCleared(content, root, v);
      ok := DeleteBelow(ReplicasKey(VolumeRootKey(prefix, v)), ReplicasPath(root, v));
    }

    method DeleteVolumeReplica(v: string, r: string) returns (ok: bool)
      requires Valid() && Segment(v) && Segment(r)
      modifies this`content, b
      ensures Valid()
      ensures (forall x :: x in old(ReplicaNames(content, v)) && HasPrefix(x, r) ==> x == r) ==>
        ok && content == old(content) - {ReplicaSlot(v, r)}
    {
      TopKeys(root, v);
      ReplicaKeyIs(root, v, r);
      SlotSegments(root, ReplicaSlot(v, r));
      ReplicaStable(content, root, v, r);
      ghost var before := content;
      ok := DeleteBelow(ReplicaKey(VolumeRootKey(prefix, v), r), SlotPath(root, ReplicaSlot(v, r)));
      if forall x :: x in ReplicaNames(before, v) && HasPrefix(x, r) ==> x == r {
        OneCleared(before, root, ReplicaSlot(v, r));
      }
    }

    /** SetVolume, first half: write the base, drop the old controller, write the new one. */
    method SetBaseAndController(volume: Volume) returns (ok: bool)
      requires Valid() && Storable(volume)
      modifies this`content, b
      ensures Valid() && ok && content == AfterBase(old(content), volume)
    {
      SetVolumeBase(volume);
      ok := DeleteVolumeController(volume.name);
      if volume.controller.Some? {
        ok := SetVolumeController(volume.controller.value);
      }
    }

    /** SetVolume, second half: drop the old replicas, write the new ones. */
    method ReplaceReplicas(volume: Volume) returns (ok: bool)
      requires Valid() && Storable(volume)
      modifies this`content, b
      ensures Valid()
      ensures old(PrefixFree(ReplicaNames(content, volume.name))) ==>
        ok && content == AfterReplicas(old(content), volume)
    {
      ok := DeleteVolumeReplicas(volume.name);
      if !ok {
        return;
      }
      if volume.replicas.Some? {
        ok := SetVolumeReplicas(volume.name, volume.replicas.value);
      } else {
        PutNone(content, volume.name, map[]);
      }
    }

    /** From any earlier contents: what is set reads back, and every other volume reads as
        before. */
    method SetVolume(volume: Volume) returns (ok: bool)
      requires Valid() && Storable(volume)
      modifies this`content, b
      ensures Valid()
      ensures old(PrefixFree(ReplicaNames(content, volume.name))) ==>
        && ok && content == AfterSet(old(content), volume)
        && ReadsBack(old(content), content, volume)
    {
      ghost var before := content;
      StepwiseSet(content, volume);
      ok := SetBaseAndController(volume);
      ok := ReplaceReplicas(volume);
      SetReadsBack(before, volume);
    }

    /** Reads a volume through its root key. */
    method GetVolumeByKey(rootKey: string, ghost v: string) returns (volume: Option<Volume>)
      requires Valid()
      ensures Segment(v) && rootKey == Render(VolumePath(root, v)) ==>
        && (volume.Some? <==> BaseSlot(v) in content)
        && (PrefixFree(ReplicaNames(content, v)) ==> volume == VolumeOf(content, v))
    {
      ghost var known := Segment(v) && rootKey == Render(VolumePath(root, v));
      if known {
        VolumeSlotsRead(b.c, content, key, root, v);
      }
      var base := b.Get(BaseKey(rootKey));
      if base.None? || !base.value.VolumeValue? {
        return None;
      }
      var controller := b.Get(ControllerKey(rootKey));
      var replicas := GetVolumeReplicasByKey(ReplicasKey(rootKey), v);
      volume := Some(base.value.volume.(
        controller := if controller.Some? && controller.value.ControllerValue? then Some(controller.value.controller)
          else None,
        replicas := if replicas == map[] then None else Some(replicas)));
      if known && PrefixFree(ReplicaNames(content, v)) {
        NoReplicas(content, v);
      }
    }

    method GetVolumeReplicasByKey(k: string, ghost v: string) returns (replicas: map<string, Replica>)
      requires Valid()
      ensures Segment(v) && k == Render(ReplicasPath(root, v)) && PrefixFree(ReplicaNames(content, v)) ==>
        replicas == ReplicasOf(content, v)
    {
      var keys;
      ghost var order;
      keys, order := b.Keys(k);
      replicas := map[];
      if keys.Some? {
        for i := 0 to |keys.value|
          invariant replicas == Collect(b.c, keys.value[..i])
        {
          var value := b.Get(keys.value[i]);
          assert keys.value[..i + 1][..i] == keys.value[..i];
          if value.Some? && value.value.ReplicaValue? {
            replicas := replicas[value.value.replica.inst.name := value.value.replica];
          }
        }
        assert keys.value[..|keys.value|] == keys.value;
      }
      if Segment(v) && k == Render(ReplicasPath(root, v)) && PrefixFree(ReplicaNames(content, v)) {
        ReplicasListed(b.c, content, key, root, v, order);
      }
    }

    method GetVolume(v: string) returns (volume: Option<Volume>)
      requires Valid() && Segment(v)
      ensures PrefixFree(ReplicaNames(content, v)) ==> volume == VolumeOf(content, v)
      ensures volume.Some? <==> BaseSlot(v) in content
    {
      TopKeys(root, v);
      volume := GetVolumeByKey(VolumeRootKey(prefix, v), v);
    }

    /** One level deep: it removes base keys and leaves the instances behind. */
    method DeleteVolume(v: string) returns (ok: bool)
      requires Valid() && Segment(v)
      modifies this`content, b
      ensures Valid() && ok && content == AfterDelete(old(content), v)
      ensures IsDeleted(old(content), content, v)
    {
      TopKeys(root, v);
      VolumeCleared(content, root, v);
      DeleteIsRight(content, v);
      ok := DeleteBelow(VolumeRootKey(prefix, v), VolumePath(root, v));
    }

    /** With prefix-free names: every stored volume once, as GetVolume reads it. None stands
        for an index panic in the listing. */
    method ListVolumes() returns (volumes: Option<seq<Volume>>)
      requires Valid()
      ensures Listable(content) ==> volumes.Some? && ListsVolumes(content, volumes.value)
    {
      SectionKeys(root);
      var keys;
      ghost var order;
      keys, order := b.Keys(KeyOf(prefix, "volumes"));
      ghost var names: seq<string> := [];
      ghost var listable := Listable(content);
      if listable {
        names := VolumesListed(b.c, content, key, root, order);
      }
      if keys.None? {
        return None;
      }
      var found: seq<Volume> := [];
      for i := 0 to |keys.value|
        invariant listable ==> found == VolumesOf(content, names[..i])
      {
        ghost var v := "";
        if listable {
          v := names[i];
          NextVolume(content, names, i);
        }
        var volume := GetVolumeByKey(keys.value[i], v);
        if volume.Some? {
          found := found + [volume.value];
        }
      }
      if listable {
        AllVolumesListed(content, names);
      }
      volumes := Some(found);
    }

    method ListHosts() returns (hosts: Option<map<string, Host>>)
      requires Valid()
      ensures PrefixFree(HostNames(content)) ==> hosts.Some? && HostsAre(hosts.value, content, HostNames(content))
    {
      SectionKeys(root);
      var keys;
      ghost var order;
      keys, order := b.Keys(KeyOf(prefix, "hosts"));
      if PrefixFree(HostNames(content)) {
        HostsListed(b.c, content, key, root, order);
      }
      if keys.None? {
        return None;
      }
      var found := ReadHosts(keys.value);
      hosts := Some(found);
    }

    /** The hosts under the listed keys. */
    method ReadHosts(keys: seq<string>) returns (found: map<string, Host>)
      ensures found == CollectHosts(b.c, keys)
    {
      found := map[];
      for i := 0 to |keys|
        invariant found == CollectHosts(b.c, keys[..i])
      {
        var value := b.Get(keys[i]);
        assert keys[..i + 1][..i] == keys[..i];
        if value.Some? && value.value.HostValue? {
          found := found[value.value.host.uuid := value.value.host];
        }
      }
      assert keys[..|keys|] == keys;
    }
  }

  ghost predicate ReadsBack(before: Content, after: Content, volume: Volume)
    requires AllFit(before) && AllFit(after)
  {
    && VolumeOf(after, volume.name) == Some(Normal(volume))
    && (forall u {:trigger VolumeOf(after, u)} :: u != volume.name ==> VolumeOf(after, u) == VolumeOf(before, u))
  }

  lemma SetReadsBack(before: Content, volume: Volume)
    requires AllFit(before) && Storable(volume)
    ensures AllFit(AfterSet(before, volume)) && ReadsBack(before, AfterSet(before, volume), volume)
  {
    var after := AfterSet(before, volume);
    SetThenGet(before, volume);
    forall u | u != volume.name ensures VolumeOf(after, u) == VolumeOf(before, u) {
      SetLeavesOthers(before, volume, u);
    }
  }

  /** The volume is gone, and another one reads as before exactly when its name does not
      start with the deleted name. */
  ghost predicate IsDeleted(before: Content, after: Content, v: string)
    requires AllFit(before) && AllFit(after)
  {
    && VolumeOf(after, v) == None
    && (forall u {:trigger VolumeOf(after, u)} ::
          VolumeOf(before, u).Some? ==> (VolumeOf(after, u) == VolumeOf(before, u) <==> !HasPrefix(u, v)))
  }

  lemma DeleteIsRight(before: Content, v: string)
    requires AllFit(before)
    ensures AllFit(AfterDelete(before, v)) && IsDeleted(before, AfterDelete(before, v), v)
  {
    var after := AfterDelete(before, v);
    DeleteThenGet(before, v, v);
    forall u | VolumeOf(before, u).Some? ensures VolumeOf(after, u) == VolumeOf(before, u) <==> !HasPrefix(u, v) {
      DeleteThenGet(before, v, u);
    }
  }

  /** No volume's name starts with another's, nor a replica's with another's of its volume. */
  ghost predicate Listable(content: Content) {
    && PrefixFree(VolumeNames(content))
    && forall v :: v in VolumeNames(content) ==> PrefixFree(ReplicaNames(content, v))
  }

  ghost predicate ListsVolumes(content: Content, volumes: seq<Volume>)
    requires AllFit(content)
  {
    && (forall i, j :: 0 <= i < j < |volumes| ==> volumes[i].name != volumes[j].name)
    && (forall u :: u in volumes ==> VolumeOf(content, u.name) == Some(u))
    && (forall v :: BaseSlot(v) in content ==> VolumeOf(content, v).value in volumes)
  }

  lemma NextVolume(content: Content, names: seq<string>, i: nat)
    requires AllFit(content) && AllWellFormed(content) && Listable(content)
    requires i < |names| && forall v :: v in names ==> v in VolumeNames(content)
    ensures Segment(names[i]) && PrefixFree(ReplicaNames(content, names[i]))
    ensures VolumesOf(content, names[..i + 1]) ==
      VolumesOf(content, names[..i]) +
        (if VolumeOf(content, names[i]).Some? then [VolumeOf(content, names[i]).value] else [])
  {
    assert names[i] in names && names[..i + 1][..i] == names[..i];
    NamedSegments(content, names[i]);
  }

  lemma AllVolumesListed(content: Content, names: seq<string>)
    requires AllFit(content) && Distinct(names) && forall v :: v in VolumeNames(content) ==> v in names
    ensures ListsVolumes(content, VolumesOf(content, names[..|names|]))
  {
    assert names[..|names|] == names;
    VolumesOfExact(content, names);
    forall v | BaseSlot(v) in content ensures v in names {
      assert v in VolumeNames(content);
    }
  }

  /** Where a volume's base and controller are found. */
  lemma VolumeSlotsRead(c: map<string, Value>, content: Content, key: Naming, root: Path, v: string)
    requires Names(key, root) && Represents(c, content, key) && Segment(v)
    ensures var k := Render(VolumePath(root, v));
      && ReplicasKey(k) == Render(ReplicasPath(root, v))
      && (BaseKey(k) in c <==> BaseSlot(v) in content)
      && (BaseSlot(v) in content ==> c[BaseKey(k)] == content[BaseSlot(v)] && content[BaseSlot(v)].VolumeValue?)
      && (ControllerKey(k) in c <==> ControllerSlot(v) in content)
      && (ControllerSlot(v) in content ==>
        c[ControllerKey(k)] == content[ControllerSlot(v)] && content[ControllerSlot(v)].ControllerValue?)
  {
    NamesInjective(key, root);
    VolumeKeys(root, v);
    NameOf(key, root, BaseSlot(v));
    NameOf(key, root, ControllerSlot(v));
    Lookup(c, content, key, BaseSlot(v));
    Lookup(c, content, key, ControllerSlot(v));
  }

  // ---- bookkeeping for the class ----

  lemma PutOneMore(content: Content, v: string, replicas: map<string, Replica>, todo: set<string>, r: string)
    requires r in todo && r in replicas
    ensures PutReplicas(content, v, replicas - todo)[ReplicaSlot(v, r) := ReplicaValue(replicas[r])]
      == PutReplicas(content, v, replicas - (todo - {r}))
  {
    assert replicas - (todo - {r}) == (replicas - todo)[r := replicas[r]];
    PutAdded(content, v, replicas - todo, r, replicas[r]);
  }

  lemma PutNone(content: Content, v: string, replicas: map<string, Replica>)
    ensures PutReplicas(content, v, replicas - replicas.Keys) == content
    ensures PutReplicas(content, v, map[]) == content
    ensures PutReplicas(content, v, replicas - {}) == PutReplicas(content, v, replicas)
  {
    assert replicas - replicas.Keys == map[] && replicas - {} == replicas;
    assert PutReplicas(content, v, map[]) == content;
  }

  lemma PutAdded(content: Content, v: string, m: map<string, Replica>, r: string, x: Replica)
    ensures PutReplicas(content, v, m[r := x]) == PutReplicas(content, v, m)[ReplicaSlot(v, r) := ReplicaValue(x)]
  {
    var slots := set y | y in m[r := x] :: ReplicaSlot(v, y);
    assert slots == (set y | y in m :: ReplicaSlot(v, y)) + {ReplicaSlot(v, r)} by {
      assert ReplicaSlot(v, r) in slots by { assert r in m[r := x]; }
      forall y | y in m ensures ReplicaSlot(v, y) in slots { assert y in m[r := x]; }
    }
  }

  lemma SameNames(content: Content, content': Content, v: string)
    requires forall s: Slot :: s.ReplicaSlot? && s.volume == v ==> (s in content <==> s in content')
    ensures ReplicaNames(content, v) == ReplicaNames(content', v)
  {
    forall r ensures r in ReplicaNames(content, v) <==> r in ReplicaNames(content', v) {
      assert r in ReplicaNames(content, v) <==> ReplicaSlot(v, r) in content;
      assert r in ReplicaNames(content', v) <==> ReplicaSlot(v, r) in content';
    }
  }

  lemma OneCleared(content: Content, root: Path, t: Slot)
    ensures Survivors(content, root, if t in content then {SlotPath(root, t)} else {}) == content - {t}
  {
    forall s | s in content && SlotPath(root, s) == SlotPath(root, t) ensures s == t {
      SlotPathInjective(root, s, t);
    }
  }

  lemma ControllerCleared(content: Content, root: Path, v: string)
    ensures Survivors(content, root, if ControllerSlot(v) in content then {SlotPath(root, ControllerSlot(v))} else {})
      == ClearController(content, v)
  {
    OneCleared(content, root, ControllerSlot(v));
  }

  lemma ReplicasCleared(content: Content, root: Path, v: string)
    ensures PrefixFree(ReplicaNames(content, v)) ==>
      && Stable(StorePaths(content, root), ReplicasPath(root, v))
      && Survivors(content, root, Children(StorePaths(content, root), ReplicasPath(root, v))) ==
           ClearReplicas(content, v)
  {
    if PrefixFree(ReplicaNames(content, v)) {
      ReplicasStable(content, root, v);
      var gone := Children(StorePaths(content, root), ReplicasPath(root, v));
      forall s | s in content ensures SlotPath(root, s) in gone <==> s.ReplicaSlot? && s.volume == v {
        if SlotPath(root, s) in gone {
          var r :| r in ReplicaNames(content, v) && SlotPath(root, s) == SlotPath(root, ReplicaSlot(v, r));
          SlotPathInjective(root, s, ReplicaSlot(v, r));
        }
        if s.ReplicaSlot? && s.volume == v {
          assert s.replica in ReplicaNames(content, v);
        }
      }
    }
  }

  lemma VolumeCleared(content: Content, root: Path, v: string)
    requires Segments(root) && Segment(v)
    ensures Segments(VolumePath(root, v)) && Stable(StorePaths(content, root), VolumePath(root, v))
    ensures Survivors(content, root, Children(StorePaths(content, root), VolumePath(root, v))) ==
      AfterDelete(content, v)
  {
    FixedSegments();
    VolumeStable(content, root, v);
    var gone := Children(StorePaths(content, root), VolumePath(root, v));
    forall s | s in content ensures SlotPath(root, s) in gone <==> s.BaseSlot? && HasPrefix(s.volume, v) {
      if SlotPath(root, s) in gone {
        var t :| t in content && OfVolume(t) && HasPrefix(t.volume, v) && SlotPath(root, s) == HalfPath(root, t);
        OnlyBaseIsHalf(root, s, t);
      }
    }
  }

  /** Of the two halves of a volume's subtree only the base is itself a key. */
  lemma OnlyBaseIsHalf(root: Path, s: Slot, t: Slot)
    requires OfVolume(t) && SlotPath(root, s) == HalfPath(root, t)
    ensures s == BaseSlot(t.volume)
  {
    var n := |root|;
    assert |SlotPath(root, s)| == n + 3;
    assert SlotPath(root, s)[n + 1] == HalfPath(root, t)[n + 1];
  }

  lemma NoReplicas(content: Content, v: string)
    requires AllFit(content)
    ensures ReplicasOf(content, v) == map[] <==> ReplicaNames(content, v) == {}
  {
    assert ReplicasOf(content, v).Keys == ReplicaNames(content, v);
  }

  lemma NamedSegments(content: Content, v: string)
    requires AllWellFormed(content) && v in VolumeNames(content)
    ensures Segment(v)
  {
  }

  lemma ListedNames(content: Content, root: Path, r: seq<Path>) returns (names: seq<string>)
    requires Distinct(r)
    requires forall p :: p in r <==> p in set v | v in VolumeNames(content) :: VolumePath(root, v)
    ensures |names| == |r| && Distinct(names)
    ensures forall i :: 0 <= i < |r| ==> r[i] == VolumePath(root, names[i])
    ensures forall v :: v in VolumeNames(content) <==> v in names
  {
    names := LastNames(r);
    NamedPaths(r, VolumeNames(content), v => VolumePath(root, v));
    assert forall v :: v in names <==> v in Elems(names);
  }
}
