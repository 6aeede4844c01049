/** Placement: soft anti-affinity with fallback, and the loop that creates a volume's
    replicas one by one, each placed by the hosts of the good replicas before it. */
module Scheduler {
  import opened Collections
  import opened Strings
  import opened StoreTypes

  const SOFT_ANTI_AFFINITY := "soft.anti-affinity"

  datatype Policy = Policy(binding: string, hosts: set<string>)

  datatype Item = Item(id: string, typ: InstanceType, hostID: string)

  /** Looking up a host can fail, and it finds nothing without an error when the host is gone. */
  datatype Lookup = LookupFailed | NoHost | HostFound

  /** Everything outside the scheduler during one call: which hosts the store lists (None
      when listing fails) and finds, and what each host answers. The local host's own
      processing may fail, or answer with nothing or with an incomplete instance. */
  datatype Ops = Ops(
    current: string, hosts: Option<set<string>>, lookup: string -> Lookup,
    local: Result<Option<Instance>>, remote: string -> Option<Instance>)

  /** What asking one host comes to. A host that is gone makes the client crash on nil. */
  datatype Answer = Accepted(instance: Instance) | Refused | Crash

  datatype Failure = MissingFields | CannotListHosts | UnsupportedBinding | NoSuitableHost | HostFailed

  datatype Outcome = Placed(host: string, instance: Instance) | Failed(failure: Failure) | Crashed(host: string)

  predicate Identified(i: Instance) {
    i.id != "" && i.typ != NoType
  }

  /** A host accepts: the current one if its own processing answers with an identified instance,
      another one if it is found and answers. */
  predicate Accepts(ops: Ops, host: string) {
    if ops.current == host then ops.local.Ok? && ops.local.value.Some? && Identified(ops.local.value.value)
    else ops.lookup(host) == HostFound && ops.remote(host).Some?
  }

  /** What it accepts with. */
  function Answering(ops: Ops, host: string): Instance
    requires Accepts(ops, host)
  {
    if ops.current == host then ops.local.value.value else ops.remote(host).value
  }

  /** Another host that is gone crashes the client. */
  predicate Crashes(ops: Ops, host: string) {
    ops.current != host && ops.lookup(host) == NoHost
  }

  predicate Refuses(ops: Ops, host: string) {
    !Accepts(ops, host) && !Crashes(ops, host)
  }

  /** The local host's answer, when the request is routed to it. */
  function Process(ops: Ops, host: string): (r: Option<Instance>)
    ensures forall i ::
      r == Some(i) <==> ops.current == host && ops.local == Ok(Some(i)) && i.id != "" && i.typ != NoType
  {
    if ops.current != host then None
    else match ops.local
      case Ok(Some(i)) => if i.id == "" || i.typ == NoType then None else Some(i)
      case _ => None
  }

  /** What scheduling on one host gives. */
  function ScheduleProcess(ops: Ops, host: string): (a: Answer)
    ensures a.Accepted? <==> Accepts(ops, host)
    ensures a.Accepted? ==> a.instance == Answering(ops, host)
    ensures a.Crash? <==> Crashes(ops, host)
  {
    if ops.current == host then
      var r := Process(ops, host);
      FromReply(r)
    else match ops.lookup(host)
      case LookupFailed => Refused
      case NoHost => Crash
      case HostFound => FromReply(ops.remote(host))
  }

  function FromReply(r: Option<Instance>): Answer {
    if r.Some? then Accepted(r.value) else Refused
  }

  predicate Occupied(policy: Option<Policy>, host: string) {
    policy.Some? && host in policy.value.hosts
  }

  /** When the scheduler gets as far as trying hosts. With no host listed the binding is
      never looked at. */
  predicate Searches(ops: Ops, item: Item, policy: Option<Policy>) {
    && item.id != "" && item.typ != NoType && item.hostID == ""
    && ops.hosts.Some?
    && (policy.None? || policy.value.binding == SOFT_ANTI_AFFINITY || ops.hosts.value == {})
  }

  /** Outside a search the outcome is decided by the item and the policy alone. */
  function WithoutSearch(ops: Ops, item: Item): Outcome {
    if item.id == "" || item.typ == NoType then Failed(MissingFields)
    else if item.hostID != "" then Direct(ops, item.hostID)
    else if ops.hosts.None? then Failed(CannotListHosts)
    else Failed(UnsupportedBinding)
  }

  /** A request bound to one host. */
  function Direct(ops: Ops, host: string): Outcome {
    if Refuses(ops, host) then Failed(HostFailed) else Decided(ops, host)
  }

  /** The hosts in the order they are tried: all free ones, then all occupied ones, and
      within each in whatever order the map yields them. */
  method PriorityList(hosts: set<string>, policy: Option<Policy>) returns (list: seq<string>, supported: bool)
    ensures supported <==> policy.None? || policy.value.binding == SOFT_ANTI_AFFINITY || hosts == {}
    ensures supported ==> PriorityOrder(list, hosts, policy)
  {
    var normal: seq<string>, low: seq<string> := [], [];
    var left := hosts;
    while left != {}
      invariant left <= hosts
      invariant left != hosts ==> policy.None? || policy.value.binding == SOFT_ANTI_AFFINITY
      invariant Covers(normal + low, hosts - left)
      invariant forall i :: 0 <= i < |normal| ==> !Occupied(policy, normal[i])
      invariant forall i :: 0 <= i < |low| ==> Occupied(policy, low[i])
    {
      var id :| id in left;
      ghost var done := hosts - left;
      if policy.Some? {
        if policy.value.binding != SOFT_ANTI_AFFINITY {
          return [], false;
        }
        if id in policy.value.hosts {
          CoversAppend(normal + low, done, id);
          assert normal + (low + [id]) == (normal + low) + [id];
          low := low + [id];
        } else {
          CoversInsert(normal, low, done, id);
          normal := normal + [id];
        }
      } else {
        CoversInsert(normal, low, done, id);
        normal := normal + [id];
      }
      left := left - {id};
      assert hosts - left == done + {id};
    }
    assert hosts - left == hosts;
    list, supported := normal + low, true;
    forall i, j | 0 <= i < j < |list| && Occupied(policy, list[i]) ensures Occupied(policy, list[j]) {
      assert i >= |normal|;
    }
  }

  lemma DistinctInsert(a: seq<string>, x: string, b: seq<string>)
    requires Distinct(a + b) && x !in a && x !in b
    ensures Distinct(a + [x] + b)
  {
    var s, t, n := a + b, a + [x] + b, |a|;
    forall i, j | 0 <= i < j < |t| ensures t[i] != t[j] {
      if i != n && j != n {
        assert s[if i < n then i else i - 1] != s[if j < n then j else j - 1];
      }
    }
  }

  lemma CoversInsert(normal: seq<string>, low: seq<string>, done: set<string>, id: string)
    requires Covers(normal + low, done) && id !in done
    ensures Covers(normal + [id] + low, done + {id})
  {
    var s, t := normal + low, normal + [id] + low;
    forall x ensures x in t <==> x in s || x == id {
    }
    forall x ensures x in s <==> x in done {
    }
    assert id !in s;
    DistinctInsert(normal, id, low);
    forall i | 0 <= i < |t| ensures t[i] in done + {id} {
      assert t[i] in t;
    }
  }

  /** An order in which the hosts may be tried. Any such order comes about: map iteration can
      yield the hosts in it. */
  predicate PriorityOrder(list: seq<string>, hosts: set<string>, policy: Option<Policy>) {
    && Covers(list, hosts)
    && forall i, j :: 0 <= i < j < |list| && Occupied(policy, list[i]) ==> Occupied(policy, list[j])
  }

  /** The outcome of trying hosts in order until one does not refuse. */
  function TryInOrder(ops: Ops, list: seq<string>): Outcome {
    if list == [] then Failed(NoSuitableHost)
    else if Refuses(ops, list[0]) then TryInOrder(ops, list[1..])
    else Decided(ops, list[0])
  }

  /** The outcome that a host which does not refuse decides. */
  function Decided(ops: Ops, host: string): Outcome {
    if Accepts(ops, host) then Placed(host, Answering(ops, host)) else Crashed(host)
  }

  /** The hosts a request can go to: its own if it is bound to one, otherwise all listed ones. */
  predicate MayAsk(ops: Ops, item: Item, host: string) {
    if item.hostID != "" then host == item.hostID else ops.hosts.Some? && host in ops.hosts.value
  }

  predicate Unsupported(ops: Ops, policy: Option<Policy>) {
    policy.Some? && policy.value.binding != SOFT_ANTI_AFFINITY && ops.hosts.Some? && ops.hosts.value != {}
  }

  /** A search tries the hosts in some priority order until one does not refuse. */
  method Schedule(ops: Ops, item: Item, policy: Option<Policy>) returns (r: Outcome, ghost order: seq<string>)
    ensures !Searches(ops, item, policy) ==> r == WithoutSearch(ops, item)
    ensures Searches(ops, item, policy) ==>
      PriorityOrder(order, ops.hosts.value, policy) && r == TryInOrder(ops, order)
    ensures r.Placed? ==> Accepts(ops, r.host) && r.instance == Answering(ops, r.host) && MayAsk(ops, item, r.host)
    ensures r.Crashed? ==> Crashes(ops, r.host) && MayAsk(ops, item, r.host)
    ensures r.Failed? <==>
      || item.id == "" || item.typ == NoType
      || (item.hostID == "" && (ops.hosts.None? || Unsupported(ops, policy)))
      || (forall h :: MayAsk(ops, item, h) ==> Refuses(ops, h))
  {
    order := [];
    if item.id == "" || item.typ == NoType {
      return Failed(MissingFields), order;
    }
    if item.hostID != "" {
      var answer := ScheduleProcess(ops, item.hostID);
      r := match answer
        case Accepted(i) => Placed(item.hostID, i)
        case Refused => Failed(HostFailed)
        case Crash => Crashed(item.hostID);
      return;
    }
    if ops.hosts.None? {
      return Failed(CannotListHosts), order;
    }
    var list, supported := PriorityList(ops.hosts.value, policy);
    if !supported {
      return Failed(UnsupportedBinding), order;
    }
    order := list;
    OrderOutcome(ops, policy, list);
    var i := 0;
    while i < |list|
      invariant 0 <= i <= |list| && TryInOrder(ops, list) == TryInOrder(ops, list[i..])
    {
      assert list[i..][0] == list[i] && list[i..][1..] == list[i + 1..];
      var answer := ScheduleProcess(ops, list[i]);
      if !answer.Refused? {
        return if answer.Accepted? then Placed(list[i], answer.instance) else Crashed(list[i]), order;
      }
      i := i + 1;
    }
    r := Failed(NoSuitableHost);
    assert list[i..] == [];
  }

  /** If the host is occupied, every free host refused. */
  predicate FreeRefused(ops: Ops, policy: Option<Policy>, host: string) {
    && ops.hosts.Some?
    && (Occupied(policy, host) ==> forall h :: h in ops.hosts.value && !Occupied(policy, h) ==> Refuses(ops, h))
  }

  /** Where the search stops: at a host that does not refuse, after hosts that all do. */
  lemma {:induction false} StopsAt(ops: Ops, list: seq<string>) returns (i: nat)
    ensures i <= |list| && forall k :: 0 <= k < i ==> Refuses(ops, list[k])
    ensures if i == |list| then TryInOrder(ops, list) == Failed(NoSuitableHost)
            else !Refuses(ops, list[i]) && TryInOrder(ops, list) == Decided(ops, list[i])
  {
    i := 0;
    if list != [] && Refuses(ops, list[0]) {
      i := StopsAt(ops, list[1..]);
      i := i + 1;
    }
  }

  lemma {:induction false} SkipsRefused(ops: Ops, a: seq<string>, b: seq<string>)
    requires forall k :: 0 <= k < |a| ==> Refuses(ops, a[k])
    ensures TryInOrder(ops, a + b) == TryInOrder(ops, b)
  {
    if a == [] {
      assert a + b == b;
    } else {
      assert (a + b)[1..] == a[1..] + b;
      SkipsRefused(ops, a[1..], b);
    }
  }

  lemma FreeComeFirst(ops: Ops, policy: Option<Policy>, list: seq<string>, i: nat)
    requires ops.hosts.Some? && PriorityOrder(list, ops.hosts.value, policy) && i < |list|
    requires forall k :: 0 <= k < i ==> Refuses(ops, list[k])
    ensures FreeRefused(ops, policy, list[i])
  {
    forall h | Occupied(policy, list[i]) && h in ops.hosts.value && !Occupied(policy, h) ensures Refuses(ops, h) {
      var k :| 0 <= k < |list| && list[k] == h;
    }
  }

  /** An order that tries `h` as early as the priorities allow. */
  ghost function Earliest(hosts: set<string>, policy: Option<Policy>, h: string): seq<string> {
    var free, occupied := (set x | x in hosts && !Occupied(policy, x)), (set x | x in hosts && Occupied(policy, x));
    if h in free then ([h] + SeqOf(free - {h})) + SeqOf(occupied)
    else SeqOf(free) + ([h] + SeqOf(occupied - {h}))
  }

  lemma EarliestOrder(hosts: set<string>, policy: Option<Policy>, h: string)
    requires h in hosts
    ensures PriorityOrder(Earliest(hosts, policy, h), hosts, policy)
  {
    var free, occupied := (set x | x in hosts && !Occupied(policy, x)), (set x | x in hosts && Occupied(policy, x));
    if h in free {
      FirstCovers(free, h);
      TwoPartOrder([h] + SeqOf(free - {h}), free, SeqOf(occupied), occupied, hosts, policy);
    } else {
      FirstCovers(occupied, h);
      TwoPartOrder(SeqOf(free), free, [h] + SeqOf(occupied - {h}), occupied, hosts, policy);
    }
  }

  lemma FirstCovers(all: set<string>, h: string)
    requires h in all
    ensures Covers([h] + SeqOf(all - {h}), all)
  {
    CoversConcat([h], {h}, SeqOf(all - {h}), all - {h});
    assert {h} + (all - {h}) == all;
  }

  lemma TwoPartOrder(
      front: seq<string>, free: set<string>, back: seq<string>, occupied: set<string>, hosts: set<string>,
      policy: Option<Policy>)
    requires Covers(front, free) && Covers(back, occupied) && hosts == free + occupied
    requires forall x :: x in free ==> !Occupied(policy, x)
    requires forall x :: x in occupied ==> Occupied(policy, x)
    ensures PriorityOrder(front + back, hosts, policy)
  {
    CoversConcat(front, free, back, occupied);
    FreeThenOccupied(front, back, policy);
  }

  lemma FreeThenOccupied(front: seq<string>, back: seq<string>, policy: Option<Policy>)
    requires forall i :: 0 <= i < |front| ==> !Occupied(policy, front[i])
    requires forall i :: 0 <= i < |back| ==> Occupied(policy, back[i])
    ensures var list := front + back;
      forall i, j :: 0 <= i < j < |list| && Occupied(policy, list[i]) ==> Occupied(policy, list[j])
  {
  }

  /** Exactly which hosts can decide a search: those that do not refuse and, if they are occupied,
      only when every free host does. */
  lemma DecidesIff(ops: Ops, policy: Option<Policy>, h: string)
    requires ops.hosts.Some? && h in ops.hosts.value && !Refuses(ops, h)
    ensures FreeRefused(ops, policy, h) <==>
      exists list :: PriorityOrder(list, ops.hosts.value, policy) && TryInOrder(ops, list) == Decided(ops, h)
  {
    if list :| PriorityOrder(list, ops.hosts.value, policy) && TryInOrder(ops, list) == Decided(ops, h) {
      var i := StopsAt(ops, list);
      assert list[i] == h;
      FreeComeFirst(ops, policy, list, i);
    }
    if FreeRefused(ops, policy, h) {
      var list := Earliest(ops.hosts.value, policy, h);
      EarliestOrder(ops.hosts.value, policy, h);
      if Occupied(policy, h) {
        var free := set x | x in ops.hosts.value && !Occupied(policy, x);
        var back := [h] + SeqOf((set x | x in ops.hosts.value && Occupied(policy, x)) - {h});
        SkipsRefused(ops, SeqOf(free), back);
        assert list == SeqOf(free) + back && back[0] == h;
      } else {
        assert list[0] == h;
      }
      assert TryInOrder(ops, list) == Decided(ops, h);
    }
  }

  /** A host that is gone and may be tried: then, and only then, some order crashes. */
  ghost predicate MayCrash(ops: Ops, policy: Option<Policy>) {
    ops.hosts.Some? && exists h :: h in ops.hosts.value && Crashes(ops, h) && FreeRefused(ops, policy, h)
  }

  lemma CrashIff(ops: Ops, policy: Option<Policy>)
    requires ops.hosts.Some?
    ensures MayCrash(ops, policy) <==>
      exists list :: PriorityOrder(list, ops.hosts.value, policy) && TryInOrder(ops, list).Crashed?
  {
    if h :| h in ops.hosts.value && Crashes(ops, h) && FreeRefused(ops, policy, h) {
      DecidesIff(ops, policy, h);
    }
    if list :| PriorityOrder(list, ops.hosts.value, policy) && TryInOrder(ops, list).Crashed? {
      OrderOutcome(ops, policy, list);
    }
  }

  /** What the outcome of a search in any one order says about the hosts. */
  lemma OrderOutcome(ops: Ops, policy: Option<Policy>, list: seq<string>)
    requires ops.hosts.Some? && PriorityOrder(list, ops.hosts.value, policy)
    ensures match TryInOrder(ops, list)
      case Failed(e) => e == NoSuitableHost && AllRefuse(ops)
      case Crashed(h) => h in ops.hosts.value && Crashes(ops, h) && FreeRefused(ops, policy, h)
      case Placed(h, i) =>
        h in ops.hosts.value && Accepts(ops, h) && i == Answering(ops, h) && FreeRefused(ops, policy, h)
    ensures TryInOrder(ops, list).Failed? <==> AllRefuse(ops)
  {
    var i := StopsAt(ops, list);
    if i < |list| {
      FreeComeFirst(ops, policy, list, i);
    }
  }

  // ---- creating replicas ----

  /** The hosts of the replicas that are not marked bad. */
  function GoodHosts(replicas: map<string, Replica>): set<string> {
    set n | n in replicas && replicas[n].badTimestamp == "" :: replicas[n].inst.hostID
  }

  method PrepareCreateReplicaPolicy(replicas: map<string, Replica>) returns (policy: Policy)
    ensures policy == Policy(SOFT_ANTI_AFFINITY, GoodHosts(replicas))
    ensures forall h :: h in policy.hosts <==>
      exists n :: n in replicas && replicas[n].badTimestamp == "" && replicas[n].inst.hostID == h
  {
    var hosts: set<string> := {};
    var left := replicas.Keys;
    while left != {}
      invariant left <= replicas.Keys
      invariant hosts == set n | n in replicas.Keys - left && replicas[n].badTimestamp == "" :: replicas[n].inst.hostID
    {
      var n :| n in left;
      if replicas[n].badTimestamp == "" {
        hosts := hosts + {replicas[n].inst.hostID};
      }
      left := left - {n};
    }
    policy := Policy(SOFT_ANTI_AFFINITY, hosts);
  }

  function SoftPolicy(replicas: map<string, Replica>): Option<Policy> {
    Some(Policy(SOFT_ANTI_AFFINITY, GoodHosts(replicas)))
  }

  /** A host that accepts a replica reports itself as its host. */
  ghost predicate Honest(ops: Ops) {
    forall h :: Accepts(ops, h) ==> Answering(ops, h).hostID == h
  }

  /** The hosts a search would find accepting. */
  ghost function Accepting(ops: Ops): set<string> {
    if ops.hosts.None? then {} else set h | h in ops.hosts.value && Accepts(ops, h)
  }

  /** One placement as the good hosts see it: a host of `accepting` becomes occupied, a new
      one unless all of `accepting` were occupied before. */
  ghost predicate Spreads(before: set<string>, after: set<string>, accepting: set<string>) {
    exists h :: h in accepting && after == before + {h} && (h in before ==> accepting <= before)
  }

  lemma SpreadCounts(before: set<string>, after: set<string>, accepting: set<string>)
    requires Spreads(before, after, accepting)
    ensures |after * accepting| == Min(|before * accepting| + 1, |accepting|)
  {
    var h :| h in accepting && after == before + {h} && (h in before ==> accepting <= before);
    if h in before {
      assert before * accepting == accepting;
      assert after == before;
    } else {
      OneMoreOccupied(before, accepting, h);
    }
  }

  lemma OneMoreOccupied(before: set<string>, accepting: set<string>, h: string)
    requires h in accepting && h !in before
    ensures |(before + {h}) * accepting| == |before * accepting| + 1 <= |accepting|
  {
    var occupied := before * accepting;
    assert (before + {h}) * accepting == occupied + {h};
    SubsetSize(occupied + {h}, accepting);
  }

  /** A volume's metadata while its replicas are being created. */
  class VolumeRecord {
    const size: int
    const present: bool
    var replicas: map<string, Replica>

    constructor (size: int, present: bool)
      ensures this.size == size && this.present == present && replicas == map[]
    {
      this.size, this.present, replicas := size, present, map[];
    }

    /** No replica can be placed: the volume cannot be read, its size is 0, or every host that can
        be listed refuses. */
    ghost predicate Fails(ops: Ops, read: bool) {
      !read || (present && (size == 0 || AllRefuse(ops)))
    }

    /** For a volume that does not exist the error that is wrapped is nil, so the call
        reports success without a replica. */
    method CreateReplica(ops: Ops, name: string, read: bool) returns (r: CreateOutcome)
      requires name != "" && name !in replicas && Honest(ops)
      modifies this
      ensures r == NoReplica <==> Fails(ops, read)
      ensures r == Nothing <==> read && !present
      ensures r == CrashedOnHost ==> MayCrash(ops, SoftPolicy(old(replicas)))
      ensures !r.Created? ==> replicas == old(replicas)
      ensures r.Created? ==> Added(ops, name, old(replicas), replicas) && r.replica == replicas[name]
    {
      if !read {
        return NoReplica;
      }
      if !present {
        return Nothing;
      }
      if size == 0 {
        return NoReplica;
      }
      var policy := PrepareCreateReplicaPolicy(replicas);
      var item := Item(name, ReplicaType, "");
      var placed;
      ghost var order;
      placed, order := Schedule(ops, item, Some(policy));
      if ops.hosts.Some? {
        OrderOutcome(ops, Some(policy), order);
      }
      if placed.Failed? {
        return NoReplica;
      }
      if placed.Crashed? {
        return CrashedOnHost;
      }
      assert placed.host in Accepting(ops);
      var replica := Replica(placed.instance, "", "");
      replicas := replicas[name := replica];
      assert GoodHosts(replicas) == GoodHosts(old(replicas)) + {placed.host} by {
        assert forall n :: n in old(replicas) ==> n in replicas && replicas[n] == old(replicas)[n];
        assert name in replicas;
      }
      r := Created(replica);
    }

    /** How far the creation loop has come. A volume that is gone gets no replica. */
    ghost predicate Stage(
        names: seq<string>, ops: seq<Ops>, start: map<string, Replica>, n: nat, accepting: set<string>)
      reads this
    {
      if present then Progress(names, ops, start, replicas, n, accepting) else replicas == start
    }

    /** The creation of a replica cannot succeed, or may not. */
    ghost predicate Stuck(ops: Ops, read: bool)
      reads this
    {
      Fails(ops, read) || MayCrash(ops, SoftPolicy(replicas))
    }

    /** One turn of the creation loop. */
    method CreateNext(
        names: seq<string>, ops: seq<Ops>, read: bool, k: nat, ghost start: map<string, Replica>,
        ghost accepting: set<string>)
      returns (ok: bool)
      requires Distinct(names) && k < |ops| == |names| && "" !in names
      requires AllFresh(names, start) && AllHonest(ops) && Stage(names, ops, start, k, accepting)
      modifies this
      ensures ok ==> Stage(names, ops, start, k + 1, accepting) && !Fails(ops[k], read)
      ensures !ok ==> replicas == old(replicas) && Stuck(ops[k], read)
    {
      ghost var before := replicas;
      assert FreshAt(names, start, k) && HonestAt(ops, k);
      NotTaken(names, k, k);
      var r := CreateReplica(ops[k], names[k], read);
      ok := r != NoReplica && r != CrashedOnHost;
      if ok && present {
        assert replicas.Keys == before.Keys + {names[k]};
        ProgressStep(names, ops, start, before, replicas, k, accepting);
      }
    }

    /** The creation loop. It stops at the first replica that cannot be placed, and replicas
        created before stay. If throughout the loop the hosts in `accepting` accept and no
        other, every creation takes a new one of them as long as there is one. */
    method DoCreate(names: seq<string>, ops: seq<Ops>, readable: seq<bool>, ghost accepting: set<string>)
      returns (created: nat)
      requires Distinct(names) && |ops| == |readable| == |names| && "" !in names
      requires AllFresh(names, replicas) && AllHonest(ops)
      modifies this
      ensures created <= |names| && Stage(names, ops, old(replicas), created, accepting)
      ensures forall k {:trigger ops[k]} :: 0 <= k < created ==> !Fails(ops[k], readable[k])
      ensures created < |names| ==> Stuck(ops[created], readable[created])
    {
      ghost var start := replicas;
      ProgressStart(names, ops, start, accepting);
      created := 0;
      while created < |names|
        invariant created <= |names| && Stage(names, ops, start, created, accepting)
        invariant forall k {:trigger ops[k]} :: 0 <= k < created ==> !Fails(ops[k], readable[k])
      {
        var ok := CreateNext(names, ops, readable[created], created, start, accepting);
        if !ok {
          break;
        }
        created := created + 1;
      }
    }
  }

  predicate FreshAt(names: seq<string>, replicas: map<string, Replica>, k: nat) {
    k < |names| && names[k] !in replicas
  }

  ghost predicate AllFresh(names: seq<string>, replicas: map<string, Replica>) {
    forall k: nat {:trigger FreshAt(names, replicas, k)} :: k < |names| ==> FreshAt(names, replicas, k)
  }

  ghost predicate HonestAt(ops: seq<Ops>, k: nat) {
    k < |ops| && Honest(ops[k])
  }

  ghost predicate AllHonest(ops: seq<Ops>) {
    forall k: nat {:trigger HonestAt(ops, k)} :: k < |ops| ==> HonestAt(ops, k)
  }

  datatype CreateOutcome = Created(replica: Replica) | Nothing | NoReplica | CrashedOnHost

  /** No host can be listed, or each one that is refuses. */
  ghost predicate AllRefuse(ops: Ops) {
    ops.hosts.None? || forall h :: h in ops.hosts.value ==> Refuses(ops, h)
  }

  /** One more replica, on a host that spreads them. */
  ghost predicate Added(ops: Ops, name: string, before: map<string, Replica>, after: map<string, Replica>) {
    && Spreads(GoodHosts(before), GoodHosts(after), Accepting(ops))
    && name in after && after == before[name := after[name]]
    && AnsweredBySome(ops, after[name])
  }

  /** A new replica is what one of the accepting hosts answered, with no mode and no mark. */
  ghost predicate AnsweredBySome(ops: Ops, replica: Replica) {
    exists h :: h in Accepting(ops) && replica == Replica(Answering(ops, h), "", "")
  }

  /** After `n` creations: exactly the first `n` replicas are there, each had a host to
      accept it, and if that was always one of `accepting` they are spread over those. */
  ghost predicate Progress(
      names: seq<string>, ops: seq<Ops>, before: map<string, Replica>, now: map<string, Replica>, n: nat,
      accepting: set<string>) {
    && n <= |names| && AllPlaceable(ops, n)
    && now.Keys == before.Keys + Taken(names, n)
    && (AcceptedBy(ops, accepting) ==> SpreadBy(GoodHosts(before), GoodHosts(now), n, accepting))
  }

  lemma ProgressStart(names: seq<string>, ops: seq<Ops>, start: map<string, Replica>, accepting: set<string>)
    ensures Progress(names, ops, start, start, 0, accepting)
  {
    SpreadStart(GoodHosts(start), accepting);
  }

  lemma ProgressStep(
      names: seq<string>, ops: seq<Ops>, start: map<string, Replica>, before: map<string, Replica>,
      after: map<string, Replica>, n: nat, accepting: set<string>)
    requires n < |names| == |ops|
    requires Progress(names, ops, start, before, n, accepting) && after.Keys == before.Keys + {names[n]}
    requires Spreads(GoodHosts(before), GoodHosts(after), Accepting(ops[n]))
    ensures Progress(names, ops, start, after, n + 1, accepting)
  {
    assert PlaceableAt(ops, n);
    if AcceptedBy(ops, accepting) {
      SpreadStep(GoodHosts(start), GoodHosts(before), GoodHosts(after), n, ops, n, accepting);
    }
  }

  /** For a new volume: `n` replicas are on exactly min(n, H) distinct hosts, H being the
      number of accepting hosts. */
  lemma NewVolumeSpread(names: seq<string>, ops: seq<Ops>, now: map<string, Replica>, n: nat, accepting: set<string>)
    requires Progress(names, ops, map[], now, n, accepting) && AcceptedBy(ops, accepting)
    ensures GoodHosts(now) <= accepting && |GoodHosts(now)| == Min(n, |accepting|)
  {
    assert GoodHosts(map[]) == {} && {} * accepting == {};
    assert GoodHosts(now) * accepting == GoodHosts(now);
  }

  /** `n` placements took as many new hosts of `accepting` as there were. */
  ghost predicate SpreadBy(before: set<string>, after: set<string>, n: nat, accepting: set<string>) {
    after <= before + accepting && |after * accepting| == Min(|before * accepting| + n, |accepting|)
  }

  lemma SpreadStart(hosts: set<string>, accepting: set<string>)
    ensures SpreadBy(hosts, hosts, 0, accepting)
  {
    assert accepting == hosts * accepting + (accepting - hosts);
  }

  lemma SpreadStep(
      start: set<string>, before: set<string>, after: set<string>, n: nat, ops: seq<Ops>, k: nat,
      accepting: set<string>)
    requires SpreadBy(start, before, n, accepting)
    requires k < |ops| && Spreads(before, after, Accepting(ops[k])) && AcceptedBy(ops, accepting)
    ensures SpreadBy(start, after, n + 1, accepting)
  {
    assert AcceptedAt(ops, k, accepting);
    SpreadCounts(before, after, accepting);
  }

  ghost predicate PlaceableAt(ops: seq<Ops>, k: nat) {
    k < |ops| && Accepting(ops[k]) != {}
  }

  ghost predicate AllPlaceable(ops: seq<Ops>, n: nat) {
    n <= |ops| && forall k: nat {:trigger PlaceableAt(ops, k)} :: k < n ==> PlaceableAt(ops, k)
  }

  /** The first `n` names. */
  ghost function Taken(names: seq<string>, n: nat): set<string>
    requires n <= |names|
  {
    if n == 0 then {} else Taken(names, n - 1) + {names[n - 1]}
  }

  lemma {:induction false} NotTaken(names: seq<string>, n: nat, k: nat)
    requires Distinct(names) && n <= k < |names|
    ensures names[k] !in Taken(names, n)
  {
    if n > 0 {
      NotTaken(names, n - 1, k);
    }
  }

  ghost predicate AcceptedAt(ops: seq<Ops>, k: nat, accepting: set<string>) {
    k < |ops| && Accepting(ops[k]) == accepting
  }

  /** The hosts in `accepting` accept throughout, and no other. */
  ghost predicate AcceptedBy(ops: seq<Ops>, accepting: set<string>) {
    forall k: nat {:trigger AcceptedAt(ops, k, accepting)} :: k < |ops| ==> AcceptedAt(ops, k, accepting)
  }
}
