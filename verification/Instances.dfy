/** Containers and their metadata. Every request to create, start, stop or delete an instance
    runs on one host: it works on a container there and then updates or removes the record
    in the shared store, refusing to touch a record bound to another container or host.
    Docker and the store may fail at any call. */
module Instances {
  import opened Strings
  import opened StoreTypes
  import opened StoreKeys

  /** A container; `urls` are the replicas that a controller was launched with. */
  datatype Container = Container(name: string, hostID: string, running: bool, address: string, urls: seq<string>)

  /** The same container, at most started or stopped. */
  predicate SameBox(a: Container, b: Container) {
    a.name == b.name && a.hostID == b.hostID && a.urls == b.urls
  }

  datatype Action = CreateController | CreateReplica | StartInstance | StopInstance | DeleteInstance | OtherAction

  datatype Data = Data(instanceName: string, volumeName: string, urls: seq<string>)

  /** A schedule item; `data` is None when it does not parse. */
  datatype Request = Request(orchestrator: string, action: Action, instance: Instance, data: Option<Data>)

  /** What docker and the store answer during one request: the ID of a new container, whether
      the calls to start, stop, inspect and remove a container go through, the address it is
      given, whether a new controller becomes ready, and whether the record can be read and
      written. */
  datatype Answers = Answers(
    created: Option<string>, started: bool, stopped: bool, address: string, inspected: bool, ready: bool,
    removed: bool, read: bool, written: bool)

  /** Nothing goes wrong during a request. */
  predicate FineAnswers(a: Answers) {
    && a.created.Some? && a.created.value != "" && a.started && a.stopped && a.address != "" && a.inspected
    && a.ready && a.removed && a.read && a.written
  }

  predicate IsCreate(action: Action) {
    action == CreateController || action == CreateReplica
  }

  const ORC_NAME := "docker"

  predicate Complete(i: Instance) {
    i.id != "" && i.name != "" && i.hostID != "" && i.typ != NoType && i.volumeName != ""
  }

  function SlotOf(i: Instance): Slot {
    if i.typ == ControllerType then ControllerSlot(i.volumeName) else ReplicaSlot(i.volumeName, i.name)
  }

  predicate IsInstanceSlot(s: Slot) {
    s.ControllerSlot? || s.ReplicaSlot?
  }

  /** The instance recorded in a slot. */
  function Recorded(content: Content, s: Slot): Option<Instance> {
    if s !in content then None
    else match content[s]
      case ControllerValue(c) => Some(c)
      case ReplicaValue(r) => Some(r.inst)
      case _ => None
  }

  predicate SameIdentity(a: Instance, b: Instance) {
    a.id == b.id && a.hostID == b.hostID
  }

  predicate Conflicts(content: Content, i: Instance) {
    Recorded(content, SlotOf(i)).Some? && !SameIdentity(Recorded(content, SlotOf(i)).value, i)
  }

  /** A slot that is not bound to another container or host. */
  predicate Free(content: Content, s: Slot, id: string, host: string) {
    s in content ==>
      match content[s]
      case ControllerValue(c) => c.id == id && c.hostID == host
      case ReplicaValue(r) => r.inst.id == id && r.inst.hostID == host
      case _ => true
  }

  /** The record an update writes: a replica keeps its mode and its bad mark. */
  function Merged(content: Content, i: Instance): Value {
    if i.typ == ControllerType then ControllerValue(i)
    else if SlotOf(i) in content && content[SlotOf(i)].ReplicaValue? then
      ReplicaValue(content[SlotOf(i)].replica.(inst := i))
    else ReplicaValue(Replica(i, "", ""))
  }

  /** The metadata effect of a successful create, start or stop, and of a successful delete. */
  predicate Stored(c: Content, c': Content, i: Instance) {
    Complete(i) && !Conflicts(c, i) && c' == c[SlotOf(i) := Merged(c, i)]
  }

  predicate Forgotten(c: Content, c': Content, i: Instance) {
    && Complete(i)
    && Recorded(c, SlotOf(i)).Some? && SameIdentity(Recorded(c, SlotOf(i)).value, i)
    && c' == c - {SlotOf(i)}
  }

  predicate HasRecord(c: Content, id: string) {
    exists s :: s in c && Recorded(c, s).Some? && Recorded(c, s).value.id == id
  }

  lemma StoredRecords(c: Content, c': Content, i: Instance)
    requires Stored(c, c', i)
    ensures forall id :: HasRecord(c', id) <==> HasRecord(c, id) || id == i.id
  {
    assert SlotOf(i) in c' && Recorded(c', SlotOf(i)) == Some(i);
    forall id | HasRecord(c, id) ensures HasRecord(c', id) {
      var s :| s in c && Recorded(c, s).Some? && Recorded(c, s).value.id == id;
      assert s in c';
    }
  }

  lemma ForgottenRecords(c: Content, c': Content, i: Instance)
    requires Forgotten(c, c', i)
    ensures forall id | HasRecord(c, id) && id != i.id :: HasRecord(c', id)
  {
    forall id | HasRecord(c, id) && id != i.id ensures HasRecord(c', id) {
      var s :| s in c && Recorded(c, s).Some? && Recorded(c, s).value.id == id;
      assert s in c';
    }
  }

  // ---- what a request does, given the answers ----

  type Containers = map<string, Container>

  predicate NameTaken(cs: Containers, host: string, name: string) {
    exists k :: k in cs && cs[k].name == name && cs[k].hostID == host
  }

  predicate On(cs: Containers, host: string, id: string) {
    id in cs && cs[id].hostID == host
  }

  /** A request that gets past the checks on its form. */
  predicate Accepted(req: Request) {
    req.orchestrator == ORC_NAME && req.data.Some? && req.instance.id != "" && req.action != OtherAction
  }

  /** Container names are unique on a host, and IDs are never given out twice. */
  predicate CanCreate(cs: Containers, c: Content, host: string, name: string, a: Answers) {
    && a.created.Some? && a.created.value != "" && a.created.value !in cs && !HasRecord(c, a.created.value)
    && !NameTaken(cs, host, name)
  }

  predicate CanStart(a: Answers) {
    a.started && a.inspected && a.address != ""
  }

  /** Docker does not remove a running container unless it is forced to, which it is not here. */
  predicate CanRemove(cs: Containers, host: string, id: string, a: Answers) {
    On(cs, host, id) && !cs[id].running && a.removed
  }

  predicate CanRecord(c: Content, i: Instance, a: Answers) {
    Complete(i) && a.read && a.written && !Conflicts(c, i)
  }

  predicate CanForget(c: Content, i: Instance, a: Answers) {
    && Complete(i) && a.read && a.written
    && Recorded(c, SlotOf(i)).Some? && SameIdentity(Recorded(c, SlotOf(i)).value, i)
  }

  /** A new container comes up: a controller is started and waited for, a replica inspected. */
  predicate ComesUp(action: Action, a: Answers) {
    if action == CreateController then CanStart(a) && a.ready else a.inspected
  }

  /** The instance a request is about, as it is reported and recorded. */
  function Reported(cs: Containers, host: string, req: Request, a: Answers): Instance {
    match req.action
    case CreateController =>
      if req.data.None? || a.created.None? then req.instance
      else New(a.created.value, ControllerType, req.data.value, host, a.address, true)
    case CreateReplica =>
      if req.data.None? || a.created.None? then req.instance
      else New(a.created.value, ReplicaType, req.data.value, host, "", false)
    case StartInstance => Seen(cs, host, req.instance, a.address, true)
    case StopInstance => Seen(cs, host, req.instance, a.address, false)
    case _ => req.instance
  }

  function New(id: string, typ: InstanceType, data: Data, host: string, address: string, running: bool): Instance {
    Instance(id, typ, data.instanceName, host, address, running, data.volumeName)
  }

  function Seen(cs: Containers, host: string, i: Instance, address: string, running: bool): Instance {
    Instance(i.id, i.typ, if i.id in cs then cs[i.id].name else "", host, address, running, i.volumeName)
  }

  /** Exactly when a request succeeds. */
  predicate Succeeds(cs: Containers, c: Content, host: string, req: Request, a: Answers) {
    && Accepted(req)
    && var i := Reported(cs, host, req, a);
      match req.action
      case StartInstance => On(cs, host, req.instance.id) && CanStart(a) && CanRecord(c, i, a)
      case StopInstance => On(cs, host, req.instance.id) && a.stopped && a.inspected && CanRecord(c, i, a)
      case DeleteInstance => CanRemove(cs, host, req.instance.id, a) && CanForget(c, i, a)
      case OtherAction => false
      case _ => CanCreate(cs, c, host, req.data.value.instanceName, a) && ComesUp(req.action, a) && CanRecord(c, i, a)
  }

  function ReplyTo(cs: Containers, c: Content, host: string, req: Request, a: Answers): Option<Instance> {
    if Succeeds(cs, c, host, req, a) then Some(Reported(cs, host, req, a)) else None
  }

  /** Exactly when a request leaves a new container behind without a record. A replica's container
      is cleaned up if docker lets it be removed. A controller's never is: a failed start
      overwrites the pointer that the clean-up looks at with nil, and after a start that worked
      the container is running, which docker does not remove unless it is forced to. */
  predicate LeavesContainer(cs: Containers, c: Content, host: string, req: Request, a: Answers) {
    && Accepted(req) && IsCreate(req.action) && CanCreate(cs, c, host, req.data.value.instanceName, a)
    && !Succeeds(cs, c, host, req, a)
    && (req.action == CreateController || !a.removed)
  }

  /** The records after a request: one store or delete if it succeeds, otherwise as before. */
  function ContentAfter(cs: Containers, c: Content, host: string, req: Request, a: Answers): Content {
    var i := Reported(cs, host, req, a);
    if !Succeeds(cs, c, host, req, a) then c
    else if req.action == DeleteInstance then c - {SlotOf(i)}
    else c[SlotOf(i) := Merged(c, i)]
  }

  /** The containers after a request, whether or not it succeeds. */
  function ContainersAfter(cs: Containers, c: Content, host: string, req: Request, a: Answers): Containers {
    var id := req.instance.id;
    if !Accepted(req) then cs
    else match req.action
      case StartInstance =>
        if On(cs, host, id) && a.started then cs[id := cs[id].(running := true, address := a.address)] else cs
      case StopInstance =>
        if On(cs, host, id) && a.stopped then cs[id := cs[id].(running := false, address := a.address)] else cs
      case DeleteInstance => if CanRemove(cs, host, id, a) then cs - {id} else cs
      case OtherAction => cs
      case _ =>
        if Succeeds(cs, c, host, req, a) || LeavesContainer(cs, c, host, req, a)
        then cs[a.created.value := NewContainer(host, req.action, req.data.value, a)] else cs
  }

  function NewContainer(host: string, action: Action, data: Data, a: Answers): Container {
    var runs := action == CreateController && a.started;
    Container(data.instanceName, host, runs, if runs then a.address else "", LaunchedWith(action, data))
  }

  /** Only a controller is launched with replicas. */
  function LaunchedWith(action: Action, data: Data): seq<string> {
    if action == CreateController then data.urls else []
  }

  /** The docker daemons of all hosts and the store they share. */
  class Cluster {
    var containers: Containers
    var content: Content

    constructor ()
      ensures Valid() && containers == map[] && content == map[]
    {
      containers, content := map[], map[];
    }

    ghost predicate Valid()
      reads this
    {
      Consistent(containers, content)
    }

    // ---- docker ----

    method ContainerCreate(host: string, name: string, urls: seq<string>, a: Answers) returns (id: Option<string>)
      modifies this
      ensures content == old(content)
      ensures id == if CanCreate(old(containers), content, host, name, a) then a.created else None
      ensures containers ==
        if id.Some? then old(containers)[id.value := Container(name, host, false, "", urls)] else old(containers)
    {
      if !CanCreate(containers, content, host, name, a) {
        return None;
      }
      containers := containers[a.created.value := Container(name, host, false, "", urls)];
      id := a.created;
    }

    method ContainerStart(host: string, id: string, a: Answers) returns (ok: bool)
      modifies this`containers
      ensures ok <==> a.started && On(old(containers), host, id)
      ensures containers == if ok
        then old(containers)[id := old(containers)[id].(running := true, address := a.address)] else old(containers)
    {
      ok := a.started && On(containers, host, id);
      if ok {
        containers := containers[id := containers[id].(running := true, address := a.address)];
      }
    }

    method ContainerStop(host: string, id: string, a: Answers) returns (ok: bool)
      modifies this`containers
      ensures ok <==> a.stopped && On(old(containers), host, id)
      ensures containers == if ok
        then old(containers)[id := old(containers)[id].(running := false, address := a.address)] else old(containers)
    {
      ok := a.stopped && On(containers, host, id);
      if ok {
        containers := containers[id := containers[id].(running := false, address := a.address)];
      }
    }

    method ContainerRemove(host: string, id: string, a: Answers) returns (ok: bool)
      modifies this`containers
      ensures ok <==> CanRemove(old(containers), host, id, a)
      ensures containers == if ok then old(containers) - {id} else old(containers)
    {
      ok := CanRemove(containers, host, id, a);
      if ok {
        containers := containers - {id};
      }
    }

    /** What a container looks like to the manager; running without an address is an error. */
    method RefreshInstanceInfo(host: string, i: Instance, a: Answers) returns (r: Option<Instance>)
      ensures r.Some? <==>
        a.inspected && On(containers, host, i.id) && (containers[i.id].running ==> containers[i.id].address != "")
      ensures r.Some? ==> r.value == Seen(containers, host, i, containers[i.id].address, containers[i.id].running)
    {
      if !a.inspected || !On(containers, host, i.id) {
        return None;
      }
      var c := containers[i.id];
      if c.running && c.address == "" {
        return None;
      }
      r := Some(Instance(i.id, i.typ, c.name, host, c.address, c.running, i.volumeName));
    }

    // ---- the actions ----

    method DoCreateReplica(host: string, data: Data, a: Answers) returns (r: Option<Instance>)
      modifies this
      ensures content == old(content)
      ensures r.Some? <==> CanCreate(old(containers), content, host, data.instanceName, a) && a.inspected
      ensures r.Some? ==>
        r.value == Instance(a.created.value, ReplicaType, data.instanceName, host, "", false, data.volumeName)
      ensures containers ==
        if r.Some? || (CanCreate(old(containers), content, host, data.instanceName, a) && !a.removed)
        then old(containers)[a.created.value := NewContainer(host, CreateReplica, data, a)] else old(containers)
    {
      var id := ContainerCreate(host, data.instanceName, [], a);
      if id.None? {
        return None;
      }
      var input := Instance(id.value, ReplicaType, data.instanceName, host, "", false, data.volumeName);
      r := RefreshInstanceInfo(host, input, a);
      if r.None? {
        var cleaned := ContainerRemove(host, id.value, a);
      }
    }

    /** A controller is started and waited for. When the start fails the pointer the clean-up
        looks at has been overwritten with nil, so the container stays. */
    method DoCreateController(host: string, data: Data, a: Answers) returns (r: Option<Instance>)
      modifies this
      ensures content == old(content)
      ensures r.Some? <==> CanCreate(old(containers), content, host, data.instanceName, a) && CanStart(a) && a.ready
      ensures r.Some? ==>
        r.value == Instance(a.created.value, ControllerType, data.instanceName, host, a.address, true, data.volumeName)
      ensures containers ==
        if CanCreate(old(containers), content, host, data.instanceName, a)
        then old(containers)[a.created.value := NewContainer(host, CreateController, data, a)] else old(containers)
    {
      var id := ContainerCreate(host, data.instanceName, data.urls, a);
      if id.None? {
        return None;
      }
      var instance := Some(Instance(id.value, ControllerType, data.instanceName, host, "", false, data.volumeName));
      instance := DoStart(host, instance.value, a);
      var failed := instance.None? || !a.ready;
      if failed && instance.Some? {
        var cleaned := ContainerRemove(host, instance.value.id, a);
      }
      r := if failed then None else instance;
    }

    method DoStart(host: string, i: Instance, a: Answers) returns (r: Option<Instance>)
      modifies this`containers
      ensures containers ==
        if On(old(containers), host, i.id) && a.started
        then old(containers)[i.id := old(containers)[i.id].(running := true, address := a.address)] else old(containers)
      ensures r == if On(old(containers), host, i.id) && CanStart(a)
        then Some(Seen(old(containers), host, i, a.address, true)) else None
    {
      var ok := ContainerStart(host, i.id, a);
      if !ok {
        return None;
      }
      r := RefreshInstanceInfo(host, i, a);
    }

    method DoStop(host: string, i: Instance, a: Answers) returns (r: Option<Instance>)
      modifies this`containers
      ensures containers ==
        if On(old(containers), host, i.id) && a.stopped
        then old(containers)[i.id := old(containers)[i.id].(running := false, address := a.address)]
        else old(containers)
      ensures r == if On(old(containers), host, i.id) && a.stopped && a.inspected
        then Some(Seen(old(containers), host, i, a.address, false)) else None
    {
      var ok := ContainerStop(host, i.id, a);
      if !ok {
        return None;
      }
      r := RefreshInstanceInfo(host, i, a);
    }

    // ---- metadata ----

    method UpdateInstanceMetadata(i: Instance, a: Answers) returns (ok: bool)
      requires AllFit(content)
      modifies this`content
      ensures AllFit(content)
      ensures ok <==> CanRecord(old(content), i, a)
      ensures ok <==>
        && i.id != "" && i.name != "" && i.hostID != "" && i.typ != NoType && i.volumeName != "" && a.read && a.written
        && Free(old(content), if i.typ == ControllerType then ControllerSlot(i.volumeName)
                              else ReplicaSlot(i.volumeName, i.name), i.id, i.hostID)
      ensures content == if ok then old(content)[SlotOf(i) := Merged(old(content), i)] else old(content)
    {
      if !Complete(i) || !a.read {
        return false;
      }
      if i.typ == ControllerType {
        var s := ControllerSlot(i.volumeName);
        if s in content && (content[s].controller.id != i.id || content[s].controller.hostID != i.hostID) {
          return false;
        }
        if a.written {
          content := content[s := ControllerValue(i)];
        }
      } else {
        var s := ReplicaSlot(i.volumeName, i.name);
        var replica := Replica(i, "", "");
        if s in content {
          replica := content[s].replica;
          if replica.inst.id != i.id || replica.inst.hostID != i.hostID {
            return false;
          }
          replica := replica.(inst := i);
        }
        if a.written {
          content := content[s := ReplicaValue(replica)];
        }
      }
      ok := a.written;
    }

    method RemoveInstanceMetadata(i: Instance, a: Answers) returns (ok: bool)
      requires AllFit(content)
      modifies this`content
      ensures AllFit(content)
      ensures ok <==> CanForget(old(content), i, a)
      ensures content == if ok then old(content) - {SlotOf(i)} else old(content)
    {
      if !Complete(i) || !a.read {
        return false;
      }
      var s := SlotOf(i);
      var found := Recorded(content, s);
      if found.None? || found.value.id != i.id || found.value.hostID != i.hostID {
        return false;
      }
      if a.written {
        content := content - {s};
      }
      ok := a.written;
    }

    // ---- requests ----

    /** What docker and the store answer decides everything: whether the request succeeds, what
        it reports, every container and every record afterwards. */
    method ProcessSchedule(host: string, req: Request, a: Answers) returns (r: Option<Instance>)
      requires Valid()
      modifies this
      ensures Valid()
      ensures r == ReplyTo(old(containers), old(content), host, req, a)
      ensures containers == ContainersAfter(old(containers), old(content), host, req, a)
      ensures content == ContentAfter(old(containers), old(content), host, req, a)
    {
      StepConsistent(containers, content, host, req, a);
      if req.orchestrator != ORC_NAME || req.data.None? || req.instance.id == "" {
        return None;
      }
      match req.action {
        case CreateController => r := CreateAndRecord(host, req, a);
        case CreateReplica => r := CreateAndRecord(host, req, a);
        case StartInstance => r := ToggleAndRecord(host, req, a);
        case StopInstance => r := ToggleAndRecord(host, req, a);
        case DeleteInstance => r := DeleteAndForget(host, req, a);
        case OtherAction => r := None;
      }
    }

    method CreateAndRecord(host: string, req: Request, a: Answers) returns (r: Option<Instance>)
      requires AllFit(content) && Accepted(req) && IsCreate(req.action)
      modifies this
      ensures r == ReplyTo(old(containers), old(content), host, req, a)
      ensures containers == ContainersAfter(old(containers), old(content), host, req, a)
      ensures content == ContentAfter(old(containers), old(content), host, req, a)
    {
      if req.action == CreateController {
        r := DoCreateController(host, req.data.value, a);
      } else {
        r := DoCreateReplica(host, req.data.value, a);
      }
      if r.Some? {
        var ok := UpdateInstanceMetadata(r.value, a);
        if !ok {
          var cleaned := ContainerRemove(host, r.value.id, a);
          r := None;
        }
      }
    }

    method ToggleAndRecord(host: string, req: Request, a: Answers) returns (r: Option<Instance>)
      requires AllFit(content) && Accepted(req) && (req.action == StartInstance || req.action == StopInstance)
      modifies this
      ensures r == ReplyTo(old(containers), old(content), host, req, a)
      ensures containers == ContainersAfter(old(containers), old(content), host, req, a)
      ensures content == ContentAfter(old(containers), old(content), host, req, a)
    {
      if req.action == StartInstance {
        r := DoStart(host, req.instance, a);
      } else {
        r := DoStop(host, req.instance, a);
      }
      if r.Some? {
        var ok := UpdateInstanceMetadata(r.value, a);
        r := if ok then r else None;
      }
    }

    method DeleteAndForget(host: string, req: Request, a: Answers) returns (r: Option<Instance>)
      requires AllFit(content) && Accepted(req) && req.action == DeleteInstance
      modifies this
      ensures r == ReplyTo(old(containers), old(content), host, req, a)
      ensures containers == ContainersAfter(old(containers), old(content), host, req, a)
      ensures content == ContentAfter(old(containers), old(content), host, req, a)
    {
      var removed := ContainerRemove(host, req.instance.id, a);
      if !removed {
        return None;
      }
      var ok := RemoveInstanceMetadata(req.instance, a);
      r := if ok then Some(req.instance) else None;
    }
  }

  predicate SameName(cs: Containers, j: string, k: string) {
    j in cs && k in cs && cs[j].name == cs[k].name && cs[j].hostID == cs[k].hostID
  }

  /** No two containers on a host share a name. */
  ghost predicate UniqueNames(cs: Containers) {
    forall j, k {:trigger SameName(cs, j, k)} :: SameName(cs, j, k) ==> j == k
  }

  /** Records fit their slots, by type and names, and agree with the container they are bound to;
      container names are unique. */
  ghost predicate Consistent(cs: Containers, c: Content) {
    && AllFit(c) && "" !in cs && UniqueNames(cs)
    && (forall s {:trigger Tied(cs, c, s)} :: s in c ==> Tied(cs, c, s))
  }

  ghost predicate Tied(cs: Containers, c: Content, s: Slot) {
    var i := Recorded(c, s);
    i.Some? ==>
      && i.value.typ != NoType && SlotOf(i.value) == s
      && (i.value.id in cs ==> cs[i.value.id].name == i.value.name && cs[i.value.id].hostID == i.value.hostID)
  }

  lemma ToggleConsistent(cs: Containers, c: Content, id: string, running: bool, address: string)
    requires Consistent(cs, c) && id in cs
    ensures Consistent(cs[id := cs[id].(running := running, address := address)], c)
  {
    var cs' := cs[id := cs[id].(running := running, address := address)];
    forall j, k | SameName(cs', j, k) ensures j == k {
      assert SameName(cs, j, k);
    }
    forall s | s in c ensures Tied(cs', c, s) {
      assert Tied(cs, c, s);
    }
  }

  lemma RemoveConsistent(cs: Containers, c: Content, id: string)
    requires Consistent(cs, c)
    ensures Consistent(cs - {id}, c)
  {
    var cs' := cs - {id};
    forall j, k | SameName(cs', j, k) ensures j == k {
      assert SameName(cs, j, k);
    }
    forall s | s in c ensures Tied(cs', c, s) {
      assert Tied(cs, c, s);
    }
  }

  lemma AddConsistent(cs: Containers, c: Content, id: string, new_: Container)
    requires Consistent(cs, c) && id !in cs && id != "" && !HasRecord(c, id) && !NameTaken(cs, new_.hostID, new_.name)
    ensures Consistent(cs[id := new_], c)
  {
    var cs' := cs[id := new_];
    forall j, k | SameName(cs', j, k) ensures j == k {
      assert j != id && k != id ==> SameName(cs, j, k);
    }
    forall s | s in c ensures Tied(cs', c, s) {
      assert Tied(cs, c, s);
    }
  }

  lemma StoreConsistent(cs: Containers, c: Content, i: Instance)
    requires Consistent(cs, c) && Complete(i) && !Conflicts(c, i)
    requires i.id in cs && cs[i.id].name == i.name && cs[i.id].hostID == i.hostID
    ensures Consistent(cs, c[SlotOf(i) := Merged(c, i)])
  {
    var c' := c[SlotOf(i) := Merged(c, i)];
    forall s | s in c' ensures Fits(s, c'[s]) && Tied(cs, c', s) {
      if s != SlotOf(i) {
        assert Fits(s, c[s]) && Tied(cs, c, s);
      }
    }
  }

  lemma ForgetConsistent(cs: Containers, c: Content, s: Slot)
    requires Consistent(cs, c)
    ensures Consistent(cs, c - {s})
  {
    var c' := c - {s};
    forall t | t in c' ensures Fits(t, c'[t]) && Tied(cs, c', t) {
      assert Fits(t, c[t]) && Tied(cs, c, t);
    }
  }

  lemma ContainersConsistent(cs: Containers, c: Content, host: string, req: Request, a: Answers)
    requires Consistent(cs, c)
    ensures Consistent(ContainersAfter(cs, c, host, req, a), c)
  {
    if ContainersAfter(cs, c, host, req, a) != cs {
      if req.action == StartInstance {
        ToggleConsistent(cs, c, req.instance.id, true, a.address);
      } else if req.action == StopInstance {
        ToggleConsistent(cs, c, req.instance.id, false, a.address);
      } else if req.action == DeleteInstance {
        RemoveConsistent(cs, c, req.instance.id);
      } else {
        AddConsistent(cs, c, a.created.value, NewContainer(host, req.action, req.data.value, a));
      }
    }
  }

  lemma StepConsistent(cs: Containers, c: Content, host: string, req: Request, a: Answers)
    requires Consistent(cs, c)
    ensures Consistent(ContainersAfter(cs, c, host, req, a), ContentAfter(cs, c, host, req, a))
  {
    var cs', i := ContainersAfter(cs, c, host, req, a), Reported(cs, host, req, a);
    ContainersConsistent(cs, c, host, req, a);
    if Succeeds(cs, c, host, req, a) {
      if req.action == DeleteInstance {
        ForgetConsistent(cs', c, SlotOf(i));
      } else {
        StoreConsistent(cs', c, i);
      }
    }
  }

  // ---- one attempt on the records ----

  /** What a request tries to do to the records, once its container part is done. */
  datatype Attempt = Store(i: Instance) | Forget(i: Instance)

  function Apply(c: Content, a: Attempt): Content {
    if !Complete(a.i) then c
    else if a.Store? then (if Conflicts(c, a.i) then c else c[SlotOf(a.i) := Merged(c, a.i)])
    else if Recorded(c, SlotOf(a.i)).Some? && SameIdentity(Recorded(c, SlotOf(a.i)).value, a.i) then c - {SlotOf(a.i)}
    else c
  }

  /** A request's effect on the records is nothing or one attempt, about the instance it reports
      and the volume it names. */
  lemma RequestIsAttempt(cs: Containers, c: Content, host: string, req: Request, a: Answers)
    ensures var i := Reported(cs, host, req, a); var c' := ContentAfter(cs, c, host, req, a);
      && (c' != c ==> c' == Apply(c, if req.action == DeleteInstance then Forget(i) else Store(i)))
      && (req.action == DeleteInstance ==> i == req.instance)
      && (req.action in {StartInstance, StopInstance} ==>
        i.id == req.instance.id && i.hostID == host && i.volumeName == req.instance.volumeName)
      && (c' != c && IsCreate(req.action) ==>
        i.name == req.data.value.instanceName && i.volumeName == req.data.value.volumeName)
  {
  }

  predicate Matches(a: Attempt, s: Slot, bound: Instance) {
    a.Forget? && Complete(a.i) && SlotOf(a.i) == s && SameIdentity(a.i, bound)
  }

  /** A bound slot loses its binding in one step if and only if that step is a matching delete. */
  lemma UnboundIffMatchingDelete(c: Content, a: Attempt, s: Slot)
    requires AllFit(c) && IsInstanceSlot(s) && s in c
    ensures Recorded(c, s).Some?
    ensures var bound := Recorded(c, s).value; var now := Recorded(Apply(c, a), s);
      && (now.None? <==> Matches(a, s, bound))
      && (now.Some? ==> SameIdentity(now.value, bound))
  {
  }

  /** What a replica's record keeps as long as it is bound. */
  predicate SameRecord(s: Slot, v: Value, w: Value) {
    match s
    case ControllerSlot(_) => v.ControllerValue? && w.ControllerValue? && SameIdentity(v.controller, w.controller)
    case ReplicaSlot(_, _) =>
      && v.ReplicaValue? && w.ReplicaValue? && SameIdentity(v.replica.inst, w.replica.inst)
      && v.replica.mode == w.replica.mode && v.replica.badTimestamp == w.replica.badTimestamp
    case _ => v == w
  }

  lemma StepKeepsRecord(c: Content, a: Attempt, s: Slot)
    requires AllFit(c) && s in c
    requires IsInstanceSlot(s) ==> !Matches(a, s, Recorded(c, s).value)
    ensures AllFit(Apply(c, a)) && s in Apply(c, a) && SameRecord(s, c[s], Apply(c, a)[s])
  {
  }

  // ---- runs of requests ----

  datatype World = World(containers: Containers, content: Content)

  /** One request on one host, with what docker and the store answer to it. */
  datatype Event = Event(host: string, req: Request, answers: Answers)

  function Step(w: World, e: Event): World {
    World(
      ContainersAfter(w.containers, w.content, e.host, e.req, e.answers),
      ContentAfter(w.containers, w.content, e.host, e.req, e.answers))
  }

  function Run(w: World, events: seq<Event>): World
    decreases |events|
  {
    if events == [] then w else Run(Step(w, events[0]), events[1..])
  }

  /** The volume a request is about. */
  function VolumeNamed(req: Request): string {
    if IsCreate(req.action) && req.data.Some? then req.data.value.volumeName else req.instance.volumeName
  }

  /** A request to delete exactly what is bound to slot `s`. */
  predicate Deletes(e: Event, s: Slot, bound: Instance) {
    e.req.action == DeleteInstance && Matches(Forget(e.req.instance), s, bound)
  }

  lemma StepKeepsBinding(w: World, e: Event, s: Slot)
    requires AllFit(w.content) && s in w.content
    requires IsInstanceSlot(s) ==> !Deletes(e, s, Recorded(w.content, s).value)
    ensures var c' := Step(w, e).content; AllFit(c') && s in c' && SameRecord(s, w.content[s], c'[s])
  {
    RequestIsAttempt(w.containers, w.content, e.host, e.req, e.answers);
    var i := Reported(w.containers, e.host, e.req, e.answers);
    assert Fits(s, w.content[s]);
    StepKeepsRecord(w.content, if e.req.action == DeleteInstance then Forget(i) else Store(i), s);
  }

  /** Over any run of requests, whatever they are answered: as long as none deletes exactly what
      is bound, a slot stays bound to the same container and host, and a replica keeps its mode
      and bad mark. */
  lemma {:induction false} IdentityOverRuns(w: World, events: seq<Event>, s: Slot)
    requires AllFit(w.content) && s in w.content
    requires IsInstanceSlot(s) ==>
      forall k :: 0 <= k < |events| ==> !Deletes(events[k], s, Recorded(w.content, s).value)
    ensures var c' := Run(w, events).content; AllFit(c') && s in c' && SameRecord(s, w.content[s], c'[s])
    decreases |events|
  {
    if events == [] {
      assert Fits(s, w.content[s]);
    } else {
      var next := Step(w, events[0]);
      StepKeepsBinding(w, events[0], s);
      forall k | 0 <= k < |events| - 1 && IsInstanceSlot(s)
        ensures !Deletes(events[1..][k], s, Recorded(next.content, s).value)
      {
        assert !Deletes(events[k + 1], s, Recorded(w.content, s).value);
      }
      IdentityOverRuns(next, events[1..], s);
    }
  }

  /** The same read backwards: whenever a slot that was bound ends up unbound or bound to
      something else, some request of the run was a delete of exactly what was bound. */
  lemma RebindingNeedsDelete(w: World, events: seq<Event>, s: Slot) returns (k: nat)
    requires AllFit(w.content) && s in w.content && IsInstanceSlot(s)
    requires s !in Run(w, events).content || !SameRecord(s, w.content[s], Run(w, events).content[s])
    ensures k < |events| && Deletes(events[k], s, Recorded(w.content, s).value)
  {
    assert Fits(s, w.content[s]);
    if forall j :: 0 <= j < |events| ==> !Deletes(events[j], s, Recorded(w.content, s).value) {
      IdentityOverRuns(w, events, s);
      assert false;
    }
    k :| 0 <= k < |events| && Deletes(events[k], s, Recorded(w.content, s).value);
  }

  lemma StepLeaves(w: World, e: Event, s: Slot)
    requires IsInstanceSlot(s) ==> VolumeNamed(e.req) != s.volume
    ensures var c' := Step(w, e).content;
      (s in c' <==> s in w.content) && (s in w.content ==> c'[s] == w.content[s])
  {
    if Works(w, e) {
      assert SlotOf(Reported(w.containers, e.host, e.req, e.answers)) != s;
    }
  }

  /** A run touches only records of the volumes its requests name: other volumes' records,
      volume bases, hosts and settings are left alone. */
  lemma {:induction false} OthersUntouched(w: World, events: seq<Event>, s: Slot)
    requires IsInstanceSlot(s) ==> forall k :: 0 <= k < |events| ==> VolumeNamed(events[k].req) != s.volume
    ensures var c' := Run(w, events).content;
      (s in c' <==> s in w.content) && (s in w.content ==> c'[s] == w.content[s])
    decreases |events|
  {
    if events != [] {
      StepLeaves(w, events[0], s);
      forall k | 0 <= k < |events| - 1 && IsInstanceSlot(s) ensures VolumeNamed(events[1..][k].req) != s.volume {
        assert VolumeNamed(events[k + 1].req) != s.volume;
      }
      OthersUntouched(Step(w, events[0]), events[1..], s);
    }
  }

  // ---- what a request does to containers ----

  /** A start or a stop that docker grants, on the host of the container. */
  predicate Reaches(w: World, e: Event, action: Action, granted: bool) {
    var id := e.req.instance.id;
    && e.req.orchestrator == "docker" && e.req.data.Some? && id != "" && e.req.action == action
    && id in w.containers && w.containers[id].hostID == e.host && granted
  }

  /** A stop that docker grants stops the container, a start makes it run at the address docker
      gives it, whether or not the request succeeds in the end. Every other request but a delete
      leaves each container as it is, and a delete removes it if and only if docker grants it on
      the container's host and it does not run. */
  lemma ContainerEffects(w: World, e: Event, k: string)
    requires k in w.containers
    ensures var cs', own := Step(w, e).containers, k == e.req.instance.id;
      && (own && Reaches(w, e, StopInstance, e.answers.stopped) ==>
            k in cs' && SameBox(w.containers[k], cs'[k]) && !cs'[k].running)
      && (own && Reaches(w, e, StartInstance, e.answers.started) ==>
            k in cs' && SameBox(w.containers[k], cs'[k]) && cs'[k].running && cs'[k].address == e.answers.address)
      && (k !in cs' <==> own && Reaches(w, e, DeleteInstance, e.answers.removed) && !w.containers[k].running)
      && (k in cs' && cs'[k] != w.containers[k] ==>
            own && (Reaches(w, e, StopInstance, e.answers.stopped) || Reaches(w, e, StartInstance, e.answers.started)))
  {
  }

  /** A request for another orchestrator, with data that cannot be read, without an ID or for an
      unknown action is refused and changes nothing. */
  lemma MalformedRefused(w: World, e: Event)
    requires e.req.orchestrator != "docker" || e.req.data.None? || e.req.instance.id == "" ||
      e.req.action == OtherAction
    ensures !Works(w, e) && Step(w, e) == w
  {
  }

  /** No field that an instance is found by is missing from its record. */
  ghost predicate RecordsComplete(c: Content) {
    forall s {:trigger Recorded(c, s)} :: Recorded(c, s).Some? ==>
      var i := Recorded(c, s).value;
      i.id != "" && i.name != "" && i.hostID != "" && i.typ != NoType && i.volumeName != ""
  }

  lemma StepRecordsComplete(w: World, e: Event)
    requires RecordsComplete(w.content)
    ensures RecordsComplete(Step(w, e).content)
  {
    var c' := Step(w, e).content;
    forall s | Recorded(c', s).Some?
      ensures var i := Recorded(c', s).value;
        i.id != "" && i.name != "" && i.hostID != "" && i.typ != NoType && i.volumeName != ""
    {
      assert Recorded(c', s) == Recorded(w.content, s) || Works(w, e);
    }
  }

  /** Over any run of requests, whatever they ask for and are answered, only complete instances are
      recorded. */
  lemma {:induction false} OnlyCompleteRecorded(w: World, events: seq<Event>)
    requires RecordsComplete(w.content)
    ensures RecordsComplete(Run(w, events).content)
    decreases |events|
  {
    if events != [] {
      StepRecordsComplete(w, events[0]);
      OnlyCompleteRecorded(Step(w, events[0]), events[1..]);
    }
  }

  /** A container that is new after a request was made by a create, on the host and under the name
      of the request: a controller runs if it was started and was launched with the given
      replicas, a replica does not run. */
  lemma ContainerCreated(w: World, e: Event, k: string)
    requires k !in w.containers && k in Step(w, e).containers
    ensures e.answers.created == Some(k) && Accepted(e.req) && IsCreate(e.req.action)
    ensures var new_, data := Step(w, e).containers[k], e.req.data.value;
      && new_.name == data.instanceName && new_.hostID == e.host
      && !NameTaken(w.containers, e.host, data.instanceName)
      && if e.req.action == CreateController then (new_.running <==> e.answers.started) && new_.urls == data.urls
         else !new_.running && new_.urls == []
  {
  }

  /** What a request that succeeds reports agrees with the container, and is what is recorded. */
  lemma ReportAgrees(w: World, e: Event)
    requires Works(w, e) && e.req.action != DeleteInstance
    ensures var i, w' := Reported(w.containers, e.host, e.req, e.answers), Step(w, e);
      && Recorded(w'.content, SlotOf(i)) == Some(i)
      && i.id in w'.containers && w'.containers[i.id].name == i.name && w'.containers[i.id].hostID == i.hostID
      && (w'.containers[i.id].running <==> i.running)
      && (i.running ==> i.address != "" && w'.containers[i.id].address == i.address)
      && (i.running <==> e.req.action == StartInstance || e.req.action == CreateController)
  {
  }

  predicate Leaves(w: World, e: Event) {
    LeavesContainer(w.containers, w.content, e.host, e.req, e.answers)
  }

  predicate Works(w: World, e: Event) {
    Succeeds(w.containers, w.content, e.host, e.req, e.answers)
  }

  /** A container that no record names. */
  predicate Orphan(w: World, id: string) {
    id in w.containers && !HasRecord(w.content, id)
  }

  ghost predicate NoOrphans(w: World) {
    forall id {:trigger Orphan(w, id)} :: !Orphan(w, id)
  }

  /** A request drops no ID from the records but the one it deletes, and records the one it
      reports. */
  lemma StepRecords(w: World, e: Event, id: string)
    requires HasRecord(w.content, id) && !(Works(w, e) && e.req.action == DeleteInstance && e.req.instance.id == id)
    ensures HasRecord(Step(w, e).content, id)
  {
    var i := Reported(w.containers, e.host, e.req, e.answers);
    if Works(w, e) {
      if e.req.action == DeleteInstance {
        ForgottenRecords(w.content, Step(w, e).content, i);
      } else {
        StoredRecords(w.content, Step(w, e).content, i);
      }
    }
  }

  /** Where there was no orphan, a request makes one if and only if it leaves its container. */
  lemma StepOrphans(w: World, e: Event)
    requires NoOrphans(w)
    ensures NoOrphans(Step(w, e)) <==> !Leaves(w, e)
    ensures Leaves(w, e) ==> Orphan(Step(w, e), e.answers.created.value)
  {
    var w' := Step(w, e);
    if Leaves(w, e) {
      assert Orphan(w', e.answers.created.value);
    } else {
      forall id ensures !Orphan(w', id) {
        assert !Orphan(w, id);
        if id in w.containers && id in w'.containers {
          StepRecords(w, e, id);
        } else if id in w'.containers {
          StoredRecords(w.content, w'.content, Reported(w.containers, e.host, e.req, e.answers));
        }
      }
    }
  }

  predicate NeverLeaves(w: World, events: seq<Event>)
    decreases |events|
  {
    events == [] || (!Leaves(w, events[0]) && NeverLeaves(Step(w, events[0]), events[1..]))
  }

  ghost predicate AlwaysNoOrphans(w: World, events: seq<Event>)
    decreases |events|
  {
    NoOrphans(w) && (events == [] || AlwaysNoOrphans(Step(w, events[0]), events[1..]))
  }

  /** Over any run: every container is recorded at all times if and only if no request of the run
      leaves one behind, which its answers decide. */
  lemma {:induction false} NoOrphansIff(w: World, events: seq<Event>)
    requires NoOrphans(w)
    ensures AlwaysNoOrphans(w, events) <==> NeverLeaves(w, events)
    decreases |events|
  {
    if events != [] {
      StepOrphans(w, events[0]);
      if !Leaves(w, events[0]) {
        NoOrphansIff(Step(w, events[0]), events[1..]);
      }
    }
  }

  /** Every failed creation of a controller, once docker has made the container, leaves it behind
      under its name, even if docker would have removed a stopped one. */
  lemma FailedControllerLeaves(w: World, e: Event)
    requires Accepted(e.req) && e.req.action == CreateController && !Works(w, e)
    requires CanCreate(w.containers, w.content, e.host, e.req.data.value.instanceName, e.answers)
    ensures Leaves(w, e) && Orphan(Step(w, e), e.answers.created.value)
    ensures Holds(Step(w, e), e.answers.created.value, e.host, e.req.data.value.instanceName)
  {
  }

  /** It happens: on an empty cluster, the first controller that docker does not start. */
  lemma FailedStartHappens() returns (e: Event)
    ensures Leaves(World(map[], map[]), e) && e.answers.removed && NoOrphans(World(map[], map[]))
  {
    var i := Instance("vol-controller", ControllerType, "", "host", "", false, "vol");
    var req := Request(ORC_NAME, CreateController, i, Some(Data("vol-controller", "vol", [])));
    e := Event("host", req, Answers(Some("c1"), false, true, "10.0.0.1", true, true, true, true, true));
  }

  /** Container `id` occupies `name` on `host`. */
  predicate Holds(w: World, id: string, host: string, name: string) {
    id in w.containers && w.containers[id].name == name && w.containers[id].hostID == host
  }

  /** A request that takes container `id` away: a delete of it on its own host that docker grants. */
  predicate TakesAway(e: Event, id: string, host: string) {
    Accepted(e.req) && e.req.action == DeleteInstance && e.req.instance.id == id && e.host == host && e.answers.removed
  }

  lemma StepHolds(w: World, e: Event, id: string, host: string, name: string)
    requires Holds(w, id, host, name)
    ensures Holds(Step(w, e), id, host, name) <==> !(TakesAway(e, id, host) && !w.containers[id].running)
  {
  }

  /** Over any run a container keeps its name until a delete takes it away. */
  lemma {:induction false} HoldsOverRuns(w: World, events: seq<Event>, id: string, host: string, name: string)
    requires Holds(w, id, host, name)
    requires forall k :: 0 <= k < |events| ==> !TakesAway(events[k], id, host)
    ensures Holds(Run(w, events), id, host, name)
    decreases |events|
  {
    if events != [] {
      StepHolds(w, events[0], id, host, name);
      HoldsOverRuns(Step(w, events[0]), events[1..], id, host, name);
    }
  }

  /** So a left-over controller blocks its name: after any run in which nobody takes it away,
      every request to create a container of that name on that host fails, whatever docker and
      the store answer. */
  lemma LeftoverBlocks(w: World, events: seq<Event>, e: Event, id: string, host: string, name: string)
    requires Holds(w, id, host, name)
    requires forall k :: 0 <= k < |events| ==> !TakesAway(events[k], id, host)
    requires Accepted(e.req) && IsCreate(e.req.action) && e.host == host && e.req.data.value.instanceName == name
    ensures !Works(Run(w, events), e) && Step(Run(w, events), e) == Run(w, events)
  {
    HoldsOverRuns(w, events, id, host, name);
    assert NameTaken(Run(w, events).containers, host, name);
  }
}
