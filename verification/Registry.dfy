/** The controller registry: one goroutine holds a map from volume name to controller and
    serves requests in order. A request for a running controller gets one back; any other
    request drops the held controller and closes its task queue. */
module Registry {
  import opened Strings

  /** `address` is None when the volume has no running controller: a cleanup request. */
  datatype Request = Request(name: string, address: Option<string>)

  /** A controller object; `id` is the position of the request that made it. */
  datatype Controller = Controller(id: nat, name: string, url: string)

  datatype State = State(cs: map<string, Controller>, closed: set<nat>, replies: seq<Option<Controller>>)

  function ControllerURL(address: string): string {
    "http://" + address + ":9501"
  }

  /** URLs tell addresses apart. */
  lemma URLInjective(a: string, b: string)
    ensures ControllerURL(a) == ControllerURL(b) <==> a == b
  {
    if ControllerURL(a) == ControllerURL(b) {
      assert |a| == |b|;
      assert a == ControllerURL(a)[7..7 + |a|] && b == ControllerURL(b)[7..7 + |b|];
    }
  }

  function Serve(s: State, r: Request): State {
    if r.address.None? then
      State(s.cs - {r.name}, if r.name in s.cs then s.closed + {s.cs[r.name].id} else s.closed, s.replies + [None])
    else
      var url := ControllerURL(r.address.value);
      var c := if r.name in s.cs && s.cs[r.name].url == url then s.cs[r.name] else Controller(|s.replies|, r.name, url);
      State(s.cs[r.name := c], s.closed, s.replies + [Some(c)])
  }

  function Run(reqs: seq<Request>): (s: State)
    ensures |s.replies| == |reqs|
  {
    if reqs == [] then State(map[], {}, [])
    else Serve(Run(reqs[..|reqs| - 1]), reqs[|reqs| - 1])
  }

  class Holder {
    var cs: map<string, Controller>
    var closed: set<nat>
    var replies: seq<Option<Controller>>

    constructor ()
      ensures cs == map[] && closed == {} && replies == []
    {
      cs, closed, replies := map[], {}, [];
    }

    method HoldControllers(reqs: seq<Request>)
      requires cs == map[] && closed == {} && replies == []
      modifies this
      ensures State(cs, closed, replies) == Run(reqs)
    {
      for n := 0 to |reqs|
        invariant State(cs, closed, replies) == Run(reqs[..n])
      {
        var r := reqs[n];
        assert reqs[..n + 1][..n] == reqs[..n];
        if r.address.None? {
          if r.name in cs {
            closed := closed + {cs[r.name].id};
          }
          cs := cs - {r.name};
          replies := replies + [None];
        } else {
          var url := ControllerURL(r.address.value);
          var c := if r.name in cs then cs[r.name] else Controller(|replies|, r.name, url);
          if r.name !in cs || c.url != url {
            c := Controller(|replies|, r.name, url);
            cs := cs[r.name := c];
          }
          replies := replies + [Some(c)];
          assert cs[r.name := c] == cs;
        }
      }
      assert reqs[..|reqs|] == reqs;
    }
  }

  // ---- what the history of requests determines ----

  /** The latest request for `name` among the first `n`. */
  function Previous(reqs: seq<Request>, name: string, n: nat): (r: Option<nat>)
    requires n <= |reqs|
    ensures r.Some? ==>
      r.value < n && reqs[r.value].name == name && forall k :: r.value < k < n ==> reqs[k].name != name
    ensures r.None? ==> forall k :: 0 <= k < n ==> reqs[k].name != name
  {
    if n == 0 then None else if reqs[n - 1].name == name then Some(n - 1) else Previous(reqs, name, n - 1)
  }

  /** The request that made the controller which request `j` gets. */
  function Origin(reqs: seq<Request>, j: nat): nat
    requires j < |reqs| && reqs[j].address.Some?
  {
    var p := Previous(reqs, reqs[j].name, j);
    if p.Some? && reqs[p.value].address == reqs[j].address then Origin(reqs, p.value) else j
  }

  function Made(reqs: seq<Request>, j: nat): Controller
    requires j < |reqs| && reqs[j].address.Some?
  {
    Controller(Origin(reqs, j), reqs[j].name, ControllerURL(reqs[j].address.value))
  }

  /** The controller held for `name` before request `n`. */
  function Held(reqs: seq<Request>, name: string, n: nat): Option<Controller>
    requires n <= |reqs|
  {
    var p := Previous(reqs, name, n);
    if p.Some? && reqs[p.value].address.Some? then Some(Made(reqs, p.value)) else None
  }

  /** The map holds, for each name, what the latest request for it left. */
  ghost predicate HeldRight(reqs: seq<Request>, n: nat, cs: map<string, Controller>)
    requires n <= |reqs|
  {
    forall name {:trigger HeldAt(reqs, n, cs, name)} :: HeldAt(reqs, n, cs, name)
  }

  predicate HeldAt(reqs: seq<Request>, n: nat, cs: map<string, Controller>, name: string)
    requires n <= |reqs|
  {
    (if name in cs then Some(cs[name]) else None) == Held(reqs, name, n)
  }

  predicate RepliesRight(reqs: seq<Request>, n: nat, replies: seq<Option<Controller>>)
    requires n <= |reqs|
  {
    |replies| == n && forall j :: 0 <= j < n ==>
      replies[j] == if reqs[j].address.Some? then Some(Made(reqs, j)) else None
  }

  /** Request `p` is a cleanup that finds the controller made by request `id`. */
  predicate Closes(reqs: seq<Request>, p: nat, id: nat)
    requires p < |reqs|
  {
    reqs[p].address.None? && Held(reqs, reqs[p].name, p).Some? && Held(reqs, reqs[p].name, p).value.id == id
  }

  ghost predicate ClosedRight(reqs: seq<Request>, n: nat, closed: set<nat>)
    requires n <= |reqs|
  {
    forall id :: id in closed <==> exists p: nat :: p < n && Closes(reqs, p, id)
  }

  ghost predicate ClosedForm(reqs: seq<Request>, n: nat, s: State)
    requires n <= |reqs|
  {
    HeldRight(reqs, n, s.cs) && RepliesRight(reqs, n, s.replies) && ClosedRight(reqs, n, s.closed)
  }

  lemma HeldNext(reqs: seq<Request>, n: nat, name: string)
    requires n < |reqs|
    ensures Held(reqs, name, n + 1) ==
      if reqs[n].name != name then Held(reqs, name, n)
      else if reqs[n].address.Some? then Some(Made(reqs, n)) else None
  {
  }

  /** A request gets the held controller if the URL is the same, and a new one otherwise. */
  lemma MadeNext(reqs: seq<Request>, n: nat)
    requires n < |reqs| && reqs[n].address.Some?
    ensures var url := ControllerURL(reqs[n].address.value);
      var held := Held(reqs, reqs[n].name, n);
      Made(reqs, n) == if held.Some? && held.value.url == url then held.value else Controller(n, reqs[n].name, url)
  {
    var p := Previous(reqs, reqs[n].name, n);
    if p.Some? && reqs[p.value].address.Some? {
      URLInjective(reqs[p.value].address.value, reqs[n].address.value);
    }
  }

  lemma ServeHeld(reqs: seq<Request>, n: nat, s: State)
    requires n < |reqs| && HeldRight(reqs, n, s.cs) && |s.replies| == n
    ensures HeldRight(reqs, n + 1, Serve(s, reqs[n]).cs)
    ensures Serve(s, reqs[n]).replies == s.replies + [if reqs[n].address.Some? then Some(Made(reqs, n)) else None]
  {
    var r, s' := reqs[n], Serve(s, reqs[n]);
    assert HeldAt(reqs, n, s.cs, r.name);
    if r.address.Some? {
      MadeNext(reqs, n);
    }
    var m, cs' := n + 1, s'.cs;
    forall name ensures HeldAt(reqs, m, cs', name) {
      assert HeldAt(reqs, n, s.cs, name);
      HeldNext(reqs, n, name);
    }
  }

  lemma ServeCloses(reqs: seq<Request>, n: nat, s: State)
    requires n < |reqs| && HeldRight(reqs, n, s.cs) && ClosedRight(reqs, n, s.closed)
    ensures ClosedRight(reqs, n + 1, Serve(s, reqs[n]).closed)
  {
    var r, s' := reqs[n], Serve(s, reqs[n]);
    assert HeldAt(reqs, n, s.cs, r.name);
    forall id ensures id in s'.closed <==> exists p: nat :: p < n + 1 && Closes(reqs, p, id) {
      ClosesNext(reqs, n, id, s.closed);
    }
  }

  lemma RepliesNext(reqs: seq<Request>, n: nat, replies: seq<Option<Controller>>)
    requires n < |reqs| && RepliesRight(reqs, n, replies)
    ensures RepliesRight(reqs, n + 1, replies + [if reqs[n].address.Some? then Some(Made(reqs, n)) else None])
  {
  }

  lemma ServeKeepsClosedForm(reqs: seq<Request>, n: nat, s: State)
    requires n < |reqs| && ClosedForm(reqs, n, s)
    ensures ClosedForm(reqs, n + 1, Serve(s, reqs[n]))
  {
    ServeHeld(reqs, n, s);
    ServeCloses(reqs, n, s);
    RepliesNext(reqs, n, s.replies);
  }

  lemma ClosesNext(reqs: seq<Request>, n: nat, id: nat, closed: set<nat>)
    requires n < |reqs| && ClosedRight(reqs, n, closed)
    ensures (exists p: nat :: p < n + 1 && Closes(reqs, p, id)) <==> id in closed || Closes(reqs, n, id)
  {
  }

  lemma RunNext(reqs: seq<Request>, n: nat)
    requires n < |reqs|
    ensures Run(reqs[..n + 1]) == Serve(Run(reqs[..n]), reqs[n])
  {
    assert reqs[..n + 1][..n] == reqs[..n];
  }

  /** Every trace of requests, in closed form. */
  lemma {:induction false} RegistryHistory(reqs: seq<Request>, n: nat)
    requires n <= |reqs|
    ensures ClosedForm(reqs, n, Run(reqs[..n]))
  {
    if n > 0 {
      RegistryHistory(reqs, n - 1);
      RunNext(reqs, n - 1);
      ServeKeepsClosedForm(reqs, n - 1, Run(reqs[..n - 1]));
    }
  }

  /** A reply carries the requested name and URL. */
  lemma {:induction false} ReplyMatchesRequest(reqs: seq<Request>, j: nat)
    requires j < |reqs| && reqs[j].address.Some?
    ensures var c := Run(reqs).replies[j];
      c.Some? && c.value.name == reqs[j].name && c.value.url == "http://" + reqs[j].address.value + ":9501"
  {
    RegistryHistory(reqs, |reqs|);
    assert reqs[..|reqs|] == reqs;
  }

  /** Between `i` and `j`, up to and including `j`, only requests for the same URL. */
  predicate Uninterrupted(reqs: seq<Request>, i: nat, j: nat)
    requires i < |reqs| && j < |reqs|
  {
    forall k :: i < k <= j && reqs[k].name == reqs[i].name ==> reqs[k].address == reqs[i].address
  }

  lemma {:induction false} OriginIsEarliest(reqs: seq<Request>, j: nat)
    requires j < |reqs| && reqs[j].address.Some?
    ensures var o := Origin(reqs, j);
      o <= j && reqs[o] == reqs[j] && Uninterrupted(reqs, o, j) && Origin(reqs, o) == o
  {
    var p := Previous(reqs, reqs[j].name, j);
    if p.Some? && reqs[p.value].address == reqs[j].address {
      OriginIsEarliest(reqs, p.value);
    }
  }

  lemma {:induction false} SharedOrigin(reqs: seq<Request>, i: nat, j: nat)
    requires i <= j < |reqs| && reqs[i].address.Some? && reqs[j].name == reqs[i].name && Uninterrupted(reqs, i, j)
    ensures reqs[j].address.Some? && Origin(reqs, i) == Origin(reqs, j)
    decreases j
  {
    if i < j {
      var p := Previous(reqs, reqs[j].name, j);
      SharedOrigin(reqs, i, p.value);
    }
  }

  /** Two requests for one volume share a controller if and only if no cleanup and no change of
      URL for that volume came in between. */
  lemma {:induction false} SharedIffUninterrupted(reqs: seq<Request>, i: nat, j: nat)
    requires i < j < |reqs| && reqs[i].name == reqs[j].name && reqs[i].address.Some? && reqs[j].address.Some?
    ensures Run(reqs).replies[i] == Run(reqs).replies[j] <==> Uninterrupted(reqs, i, j)
  {
    RegistryHistory(reqs, |reqs|);
    assert reqs[..|reqs|] == reqs;
    OriginIsEarliest(reqs, i);
    OriginIsEarliest(reqs, j);
    if Uninterrupted(reqs, i, j) {
      SharedOrigin(reqs, i, j);
    }
  }

  /** Request `k` is the first one to break with the controller made by request `i`. */
  predicate Breaks(reqs: seq<Request>, i: nat, k: nat)
    requires i < |reqs| && k < |reqs|
  {
    i < k && reqs[k].name == reqs[i].name && reqs[k].address != reqs[i].address && Uninterrupted(reqs, i, k - 1)
  }

  /** A controller's task queue is closed if and only if the request that broke with it was a
      cleanup: a controller that is replaced because its URL changed is never closed, and its
      worker is left waiting. */
  lemma {:induction false} ClosedIffCleanedUp(reqs: seq<Request>, i: nat)
    requires i < |reqs| && reqs[i].address.Some? && Origin(reqs, i) == i
    ensures i in Run(reqs).closed <==> exists k :: 0 <= k < |reqs| && Breaks(reqs, i, k) && reqs[k].address.None?
  {
    RegistryHistory(reqs, |reqs|);
    assert reqs[..|reqs|] == reqs;
    if i in Run(reqs).closed {
      var p: nat :| p < |reqs| && Closes(reqs, p, i);
      var q := Previous(reqs, reqs[p].name, p).value;
      OriginIsEarliest(reqs, q);
      assert Breaks(reqs, i, p);
    }
    if k :| 0 <= k < |reqs| && Breaks(reqs, i, k) && reqs[k].address.None? {
      var q := Previous(reqs, reqs[k].name, k).value;
      SharedOrigin(reqs, i, q);
      assert Closes(reqs, k, i);
    }
  }
}
