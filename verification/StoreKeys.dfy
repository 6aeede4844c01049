/** The key space: hosts, settings, and each volume split over a base key, a controller key
    and one key per replica. */
module StoreKeys {
  import opened Strings
  import opened Paths
  import opened KeyListing
  import opened StoreTypes

  /** What a key stands for. */
  datatype Slot =
    | SettingsSlot
    | HostSlot(id: string)
    | BaseSlot(volume: string)
    | ControllerSlot(volume: string)
    | ReplicaSlot(volume: string, replica: string)

  type Content = map<Slot, Value>

  predicate WellFormed(s: Slot) {
    match s
    case SettingsSlot => true
    case HostSlot(id) => Segment(id)
    case BaseSlot(v) => Segment(v)
    case ControllerSlot(v) => Segment(v)
    case ReplicaSlot(v, r) => Segment(v) && Segment(r)
  }

  predicate OfVolume(s: Slot) {
    s.BaseSlot? || s.ControllerSlot? || s.ReplicaSlot?
  }

  /** Records are stored under the names they carry. */
  predicate Fits(s: Slot, value: Value) {
    match s
    case SettingsSlot => value.SettingsValue?
    case HostSlot(id) => value.HostValue? && value.host.uuid == id
    case BaseSlot(v) =>
      value.VolumeValue? && value.volume.name == v && value.volume.controller == None && value.volume.replicas == None
    case ControllerSlot(v) => value.ControllerValue? && value.controller.volumeName == v
    case ReplicaSlot(v, r) =>
      value.ReplicaValue? && value.replica.inst.volumeName == v && value.replica.inst.name == r
  }

  ghost predicate AllFit(content: Content) {
    forall s :: s in content ==> Fits(s, content[s])
  }

  function VolumesPath(root: Path): Path { root + ["volumes"] }
  function HostsPath(root: Path): Path { root + ["hosts"] }
  function VolumePath(root: Path, v: string): Path { root + ["volumes", v] }
  function ReplicasPath(root: Path, v: string): Path { root + ["volumes", v, "instances", "replicas"] }

  function SlotPath(root: Path, s: Slot): Path {
    match s
    case SettingsSlot => root + ["settings"]
    case HostSlot(id) => root + ["hosts", id]
    case BaseSlot(v) => root + ["volumes", v, "base"]
    case ControllerSlot(v) => root + ["volumes", v, "instances", "controller"]
    case ReplicaSlot(v, r) => root + ["volumes", v, "instances", "replicas", r]
  }

  /** The half of a volume's subtree that a slot belongs to. */
  function HalfPath(root: Path, s: Slot): Path
    requires OfVolume(s)
  {
    root + ["volumes", s.volume, if s.BaseSlot? then "base" else "instances"]
  }

  // ---- the key constructors, as the source joins them ----

  function KeyOf(prefix: string, key: string): string { Join(prefix, key) }
  function HostKey(prefix: string, id: string): string { Join(KeyOf(prefix, "hosts"), id) }
  function SettingsKey(prefix: string): string { KeyOf(prefix, "settings") }
  function VolumeRootKey(prefix: string, id: string): string { Join(KeyOf(prefix, "volumes"), id) }
  function BaseKey(rootKey: string): string { Join(rootKey, "base") }
  function InstancesKey(rootKey: string): string { Join(rootKey, "instances") }
  function ControllerKey(rootKey: string): string { Join(InstancesKey(rootKey), "controller") }
  function ReplicasKey(rootKey: string): string { Join(InstancesKey(rootKey), "replicas") }
  function ReplicaKey(rootKey: string, r: string): string { Join(ReplicasKey(rootKey), r) }

  lemma FixedSegments()
    ensures Segment("volumes") && Segment("hosts") && Segment("settings") && Segment("base")
    ensures Segment("instances") && Segment("controller") && Segment("replicas")
  {
  }

  lemma TopKeys(root: Path, id: string)
    requires Segments(root) && root != [] && Segment(id)
    ensures KeyOf(Render(root), "volumes") == Render(VolumesPath(root))
    ensures KeyOf(Render(root), "hosts") == Render(HostsPath(root))
    ensures SettingsKey(Render(root)) == Render(SlotPath(root, SettingsSlot))
    ensures HostKey(Render(root), id) == Render(SlotPath(root, HostSlot(id)))
    ensures VolumeRootKey(Render(root), id) == Render(VolumePath(root, id))
  {
    SectionKeys(root);
    FixedSegments();
    JoinAppends(VolumesPath(root), id);
    JoinAppends(HostsPath(root), id);
    assert VolumesPath(root) + [id] == VolumePath(root, id);
    assert HostsPath(root) + [id] == SlotPath(root, HostSlot(id));
  }

  lemma SectionKeys(root: Path)
    requires Segments(root) && root != []
    ensures KeyOf(Render(root), "volumes") == Render(VolumesPath(root))
    ensures KeyOf(Render(root), "hosts") == Render(HostsPath(root))
    ensures SettingsKey(Render(root)) == Render(SlotPath(root, SettingsSlot))
  {
    FixedSegments();
    JoinAppends(root, "volumes");
    JoinAppends(root, "hosts");
    JoinAppends(root, "settings");
  }

  lemma VolumeKeys(root: Path, v: string)
    requires Segments(root) && Segment(v)
    ensures var k := Render(VolumePath(root, v));
      && BaseKey(k) == Render(SlotPath(root, BaseSlot(v)))
      && ControllerKey(k) == Render(SlotPath(root, ControllerSlot(v)))
      && ReplicasKey(k) == Render(ReplicasPath(root, v))
  {
    FixedSegments();
    var p := VolumePath(root, v);
    JoinAppends(p, "base");
    JoinAppends(p, "instances");
    var i := p + ["instances"];
    JoinAppends(i, "controller");
    JoinAppends(i, "replicas");
    assert p + ["base"] == SlotPath(root, BaseSlot(v));
    assert i + ["controller"] == SlotPath(root, ControllerSlot(v));
    assert i + ["replicas"] == ReplicasPath(root, v);
  }

  lemma ReplicaKeyIs(root: Path, v: string, r: string)
    requires Segments(root) && Segment(v) && Segment(r)
    ensures ReplicaKey(Render(VolumePath(root, v)), r) == Render(SlotPath(root, ReplicaSlot(v, r)))
  {
    FixedSegments();
    VolumeKeys(root, v);
    JoinAppends(ReplicasPath(root, v), r);
    assert ReplicasPath(root, v) + [r] == SlotPath(root, ReplicaSlot(v, r));
  }

  lemma ReplicasKeyIs(root: Path, v: string)
    requires Segments(root) && root != [] && Segment(v)
    ensures ReplicasKey(VolumeRootKey(Render(root), v)) == Render(ReplicasPath(root, v))
  {
    TopKeys(root, v);
    VolumeKeys(root, v);
  }

  lemma ReplicasSegments(root: Path, v: string)
    requires Segments(root) && Segment(v)
    ensures Segments(ReplicasPath(root, v)) && ReplicasPath(root, v) != []
  {
    FixedSegments();
  }

  lemma SlotSegments(root: Path, s: Slot)
    requires Segments(root) && WellFormed(s)
    ensures Segments(SlotPath(root, s)) && SlotPath(root, s) != []
  {
    FixedSegments();
  }

  /** Different slots have different keys. */
  lemma SlotPathInjective(root: Path, s: Slot, t: Slot)
    requires SlotPath(root, s) == SlotPath(root, t)
    ensures s == t
  {
    var n := |root|;
    var p, q := SlotPath(root, s), SlotPath(root, t);
    assert |p| == |q|;
    if OfVolume(s) && OfVolume(t) {
      assert p[n + 1] == s.volume && q[n + 1] == t.volume;
      if s.ReplicaSlot? { assert p[n + 4] == s.replica && q[n + 4] == t.replica; }
    } else if s.HostSlot? && t.HostSlot? {
      assert p[n + 1] == s.id && q[n + 1] == t.id;
    }
  }

  // ---- which slots a listing prefix touches ----

  lemma UnderRoot(root: Path, y: Path, x: Path)
    requires x != []
    ensures Under(root + y, root + x) <==> Under(y, x)
  {
    var n, m := |root|, |x|;
    assert (root + x)[..n + m - 1] == root + x[..m - 1];
    if |y| >= m {
      assert (root + y)[..n + m - 1] == root + y[..m - 1];
      if (root + y)[..n + m - 1] == (root + x)[..n + m - 1] {
        assert y[..m - 1] == (root + y[..m - 1])[n..] == (root + x[..m - 1])[n..] == x[..m - 1];
      }
    }
  }

  lemma UnderVolumes(root: Path, s: Slot)
    ensures Under(SlotPath(root, s), VolumesPath(root)) <==> OfVolume(s)
    ensures OfVolume(s) ==>
      && |SlotPath(root, s)| > |VolumesPath(root)|
      && Child(SlotPath(root, s), VolumesPath(root)) == VolumePath(root, s.volume)
  {
    var p := SlotPath(root, s);
    UnderRoot(root, p[|root|..], ["volumes"]);
    assert p == root + p[|root|..];
    assert "settings"[0] != "volumes"[0] && "hosts"[0] != "volumes"[0];
  }

  lemma UnderHosts(root: Path, s: Slot)
    ensures Under(SlotPath(root, s), HostsPath(root)) <==> s.HostSlot?
    ensures s.HostSlot? ==>
      |SlotPath(root, s)| > |HostsPath(root)| && Child(SlotPath(root, s), HostsPath(root)) == SlotPath(root, s)
  {
    var p := SlotPath(root, s);
    UnderRoot(root, p[|root|..], ["hosts"]);
    assert p == root + p[|root|..];
    assert "settings"[0] != "hosts"[0] && "volumes"[0] != "hosts"[0];
  }

  /** A volume's root also catches every volume whose name starts with its name. */
  lemma UnderVolume(root: Path, s: Slot, v: string)
    ensures Under(SlotPath(root, s), VolumePath(root, v)) <==> OfVolume(s) && HasPrefix(s.volume, v)
    ensures OfVolume(s) ==>
      && |SlotPath(root, s)| > |VolumePath(root, v)|
      && Child(SlotPath(root, s), VolumePath(root, v)) == HalfPath(root, s)
  {
    var p := SlotPath(root, s);
    var y := p[|root|..];
    assert p == root + y;
    UnderRoot(root, y, ["volumes", v]);
    assert ["volumes", v][..1] == ["volumes"];
    assert "settings"[0] != "volumes"[0] && "hosts"[0] != "volumes"[0];
    if |y| >= 2 { assert y[..1] == [y[0]]; }
  }

  lemma UnderController(root: Path, s: Slot, v: string)
    ensures Under(SlotPath(root, s), SlotPath(root, ControllerSlot(v))) <==> s == ControllerSlot(v)
  {
    var p := SlotPath(root, s);
    var y := p[|root|..];
    assert p == root + y;
    var x := ["volumes", v, "instances", "controller"];
    UnderRoot(root, y, x);
    assert x[..3] == ["volumes", v, "instances"];
    if |y| >= 4 { assert y[..3] == ["volumes", s.volume, "instances"] == [y[0], y[1], y[2]]; }
  }

  lemma UnderReplicas(root: Path, s: Slot, v: string)
    ensures Under(SlotPath(root, s), ReplicasPath(root, v)) <==> s.ReplicaSlot? && s.volume == v
    ensures s.ReplicaSlot? && s.volume == v ==>
      && |SlotPath(root, s)| > |ReplicasPath(root, v)|
      && Child(SlotPath(root, s), ReplicasPath(root, v)) == SlotPath(root, s)
  {
    var p := SlotPath(root, s);
    var y := p[|root|..];
    assert p == root + y;
    var x := ["volumes", v, "instances", "replicas"];
    UnderRoot(root, y, x);
    assert x[..3] == ["volumes", v, "instances"];
    assert "controller"[0] != "replicas"[0];
    if |y| >= 4 { assert y[..3] == ["volumes", s.volume, "instances"] == [y[0], y[1], y[2]]; }
  }

  /** A replica's key also catches every replica of the volume whose name starts with its name. */
  lemma UnderReplica(root: Path, s: Slot, v: string, r: string)
    ensures Under(SlotPath(root, s), SlotPath(root, ReplicaSlot(v, r))) <==>
      s.ReplicaSlot? && s.volume == v && HasPrefix(s.replica, r)
  {
    var p := SlotPath(root, s);
    var y := p[|root|..];
    assert p == root + y;
    var x := ["volumes", v, "instances", "replicas", r];
    UnderRoot(root, y, x);
    assert x[..4] == ["volumes", v, "instances", "replicas"];
    if |y| >= 5 { assert y[..4] == ["volumes", s.volume, "instances", "replicas"] == [y[0], y[1], y[2], y[3]]; }
  }

  // ---- stability of the listings the store makes ----

  ghost function StorePaths(content: Content, root: Path): set<Path> {
    set s | s in content :: SlotPath(root, s)
  }

  /** No name is a string prefix of another. */
  ghost predicate PrefixFree(names: set<string>) {
    forall a, b :: a in names && b in names && HasPrefix(b, a) ==> a == b
  }

  /** Names of one length are prefix-free; the manager's replica names of one volume are. */
  lemma SameLengthPrefixFree(names: set<string>, n: nat)
    requires forall a :: a in names ==> |a| == n
    ensures PrefixFree(names)
  {
    forall a, b | a in names && b in names && HasPrefix(b, a) ensures a == b {
      assert b[..n] == b;
    }
  }

  function ReplicaNames(content: Content, v: string): set<string> {
    set s | s in content && s.ReplicaSlot? && s.volume == v :: s.replica
  }

  ghost function VolumeNames(content: Content): set<string> {
    set s | s in content && OfVolume(s) :: s.volume
  }

  ghost function HostNames(content: Content): set<string> {
    set s | s in content && s.HostSlot? :: s.id
  }

  lemma ControllerStable(content: Content, root: Path, v: string)
    ensures Stable(StorePaths(content, root), SlotPath(root, ControllerSlot(v)))
    ensures Children(StorePaths(content, root), SlotPath(root, ControllerSlot(v))) ==
      if ControllerSlot(v) in content then {SlotPath(root, ControllerSlot(v))} else {}
  {
    forall s | s in content
      ensures Under(SlotPath(root, s), SlotPath(root, ControllerSlot(v))) <==> s == ControllerSlot(v)
    {
      UnderController(root, s, v);
    }
  }

  lemma ReplicasStable(content: Content, root: Path, v: string)
    requires PrefixFree(ReplicaNames(content, v))
    ensures Stable(StorePaths(content, root), ReplicasPath(root, v))
    ensures Children(StorePaths(content, root), ReplicasPath(root, v)) ==
      set r | r in ReplicaNames(content, v) :: SlotPath(root, ReplicaSlot(v, r))
  {
    var prefix := ReplicasPath(root, v);
    forall s | s in content
      ensures Under(SlotPath(root, s), prefix) <==> s.ReplicaSlot? && s.volume == v
      ensures s.ReplicaSlot? && s.volume == v ==>
        |SlotPath(root, s)| > |prefix| && Child(SlotPath(root, s), prefix) == SlotPath(root, s)
    {
      UnderReplicas(root, s, v);
    }
    forall b, c | b in content && c in content && b.ReplicaSlot? && b.volume == v && c.ReplicaSlot? && c.volume == v
      && Under(SlotPath(root, c), SlotPath(root, b)) ensures b == c
    {
      UnderReplica(root, c, v, b.replica);
      assert b.replica in ReplicaNames(content, v) && c.replica in ReplicaNames(content, v);
    }
    assert forall r :: r in ReplicaNames(content, v) ==> ReplicaSlot(v, r) in content;
  }

  /** Deleting one replica is safe exactly when no other replica's name starts with its name. */
  lemma ReplicaStable(content: Content, root: Path, v: string, r: string)
    ensures Stable(StorePaths(content, root), SlotPath(root, ReplicaSlot(v, r))) <==>
      forall x :: x in ReplicaNames(content, v) && HasPrefix(x, r) ==> x == r
    ensures Stable(StorePaths(content, root), SlotPath(root, ReplicaSlot(v, r))) ==>
      Children(StorePaths(content, root), SlotPath(root, ReplicaSlot(v, r))) ==
        (if ReplicaSlot(v, r) in content then {SlotPath(root, ReplicaSlot(v, r))} else {})
  {
    var prefix := SlotPath(root, ReplicaSlot(v, r));
    forall s | s in content
      ensures Under(SlotPath(root, s), prefix) <==> s.ReplicaSlot? && s.volume == v && HasPrefix(s.replica, r)
    {
      UnderReplica(root, s, v, r);
    }
    forall x | x in ReplicaNames(content, v)
      ensures ReplicaSlot(v, x) in content && |SlotPath(root, ReplicaSlot(v, x))| == |prefix|
    {
    }
    forall x | x in ReplicaNames(content, v) && SlotPath(root, ReplicaSlot(v, x)) == prefix ensures x == r {
      SlotPathInjective(root, ReplicaSlot(v, x), ReplicaSlot(v, r));
    }
    forall x | x in ReplicaNames(content, v) ensures SlotPath(root, ReplicaSlot(v, x)) in StorePaths(content, root) {
    }
  }

  lemma VolumeStable(content: Content, root: Path, v: string)
    ensures Stable(StorePaths(content, root), VolumePath(root, v))
    ensures forall s :: s in content && OfVolume(s) && HasPrefix(s.volume, v) ==>
      HalfPath(root, s) in Children(StorePaths(content, root), VolumePath(root, v))
    ensures forall c :: c in Children(StorePaths(content, root), VolumePath(root, v)) ==>
      exists s :: s in content && OfVolume(s) && HasPrefix(s.volume, v) && c == HalfPath(root, s)
  {
    var prefix := VolumePath(root, v);
    forall s | s in content
      ensures Under(SlotPath(root, s), prefix) <==> OfVolume(s) && HasPrefix(s.volume, v)
      ensures OfVolume(s) ==> |SlotPath(root, s)| > |prefix| && Child(SlotPath(root, s), prefix) == HalfPath(root, s)
    {
      UnderVolume(root, s, v);
    }
    forall b, c | b in content && c in content && OfVolume(b) && OfVolume(c)
      && Under(SlotPath(root, c), Child(SlotPath(root, b), prefix))
      ensures Child(SlotPath(root, b), prefix) == Child(SlotPath(root, c), prefix)
    {
      HalfSeparation(root, c, b);
    }
  }

  /** "base" and "instances" of one volume do not hide each other, nor another volume's. */
  lemma HalfSeparation(root: Path, c: Slot, b: Slot)
    requires OfVolume(b) && OfVolume(c)
    requires Under(SlotPath(root, c), HalfPath(root, b))
    ensures c.volume == b.volume && c.BaseSlot? == b.BaseSlot?
  {
    var p := SlotPath(root, c);
    var y := p[|root|..];
    assert p == root + y;
    var x := ["volumes", b.volume, if b.BaseSlot? then "base" else "instances"];
    UnderRoot(root, y, x);
    assert x[..2] == ["volumes", b.volume] && y[..2] == [y[0], y[1]];
    assert "base"[0] != "instances"[0];
  }

  lemma VolumesStable(content: Content, root: Path)
    requires PrefixFree(VolumeNames(content))
    ensures Stable(StorePaths(content, root), VolumesPath(root))
    ensures Children(StorePaths(content, root), VolumesPath(root)) ==
      set v | v in VolumeNames(content) :: VolumePath(root, v)
  {
    var prefix := VolumesPath(root);
    forall s | s in content
      ensures Under(SlotPath(root, s), prefix) <==> OfVolume(s)
      ensures OfVolume(s) ==>
        |SlotPath(root, s)| > |prefix| && Child(SlotPath(root, s), prefix) == VolumePath(root, s.volume)
    {
      UnderVolumes(root, s);
    }
    forall b, c | b in content && c in content && OfVolume(b) && OfVolume(c)
      && Under(SlotPath(root, c), VolumePath(root, b.volume))
      ensures b.volume == c.volume
    {
      UnderVolume(root, c, b.volume);
      assert b.volume in VolumeNames(content) && c.volume in VolumeNames(content);
    }
  }

  lemma HostsStable(content: Content, root: Path)
    requires PrefixFree(HostNames(content))
    ensures Stable(StorePaths(content, root), HostsPath(root))
    ensures Children(StorePaths(content, root), HostsPath(root)) ==
      set id | id in HostNames(content) :: SlotPath(root, HostSlot(id))
  {
    var prefix := HostsPath(root);
    forall s | s in content
      ensures Under(SlotPath(root, s), prefix) <==> s.HostSlot?
      ensures s.HostSlot? ==> |SlotPath(root, s)| > |prefix| && Child(SlotPath(root, s), prefix) == SlotPath(root, s)
    {
      UnderHosts(root, s);
    }
    forall b, c | b in content && c in content && b.HostSlot? && c.HostSlot?
      && Under(SlotPath(root, c), SlotPath(root, b))
      ensures b == c
    {
      var y := ["hosts", c.id];
      UnderRoot(root, y, ["hosts", b.id]);
      assert b.id in HostNames(content) && c.id in HostNames(content);
    }
    assert forall id :: id in HostNames(content) ==> HostSlot(id) in content;
  }
}
