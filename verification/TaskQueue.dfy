/** The background task queue: an event loop that owns a queue of tasks, a list of waiting
    takers and a number counter, and answers requests one at a time until it is closed. */
module TaskQueue {
  import opened Collections

  datatype Task = Task(num: nat, payload: int)

  datatype Request = List(lister: nat) | Put(payload: int) | Take(taker: nat)

  /** What the loop sends: a task or nil to a taker, the queue to a lister. */
  datatype Reply = Deliver(taker: nat, task: Task) | Nil(taker: nat) | Listing(lister: nat, tasks: seq<Task>)

  datatype State = State(queue: seq<Task>, takers: seq<nat>, i: nat)

  const EMPTY := State([], [], 0)

  /** One request, as the loop handles it: the new state and the replies it sends. */
  function Handle(s: State, r: Request): (State, seq<Reply>) {
    match r
    case List(lister) => (s, [Listing(lister, s.queue)])
    case Put(payload) =>
      var task := Task(s.i + 1, payload);
      if s.takers != [] then (State(s.queue, s.takers[1..], s.i + 1), [Deliver(s.takers[0], task)])
      else (State(s.queue + [task], s.takers, s.i + 1), [])
    case Take(taker) =>
      if s.queue != [] then (State(s.queue[1..], s.takers, s.i), [Deliver(taker, s.queue[0])])
      else (State(s.queue, s.takers + [taker], s.i), [])
  }

  function Run(reqs: seq<Request>): (State, seq<Reply>) {
    if reqs == [] then (EMPTY, [])
    else
      var (s, out) := Run(reqs[..|reqs| - 1]);
      var (s', more) := Handle(s, reqs[|reqs| - 1]);
      (s', out + more)
  }

  /** Closing the queue answers every waiting taker with nil. */
  function Nils(takers: seq<nat>): seq<Reply> {
    if takers == [] then [] else Nils(takers[..|takers| - 1]) + [Nil(takers[|takers| - 1])]
  }

  function RunAndClose(reqs: seq<Request>): seq<Reply> {
    Run(reqs).1 + Nils(Run(reqs).0.takers)
  }

  class Queue {
    var queue: seq<Task>
    var takeReqs: seq<nat>
    var i: nat
    var sent: seq<Reply>

    constructor ()
      ensures queue == [] && takeReqs == [] && i == 0 && sent == []
    {
      queue, takeReqs, i, sent := [], [], 0, [];
    }

    /** The event loop: `reqs` is what arrives on the channel before it is closed. */
    method RunQueue(reqs: seq<Request>)
      requires queue == [] && takeReqs == [] && i == 0 && sent == []
      modifies this
      ensures sent == RunAndClose(reqs)
      ensures State(queue, takeReqs, i) == Run(reqs).0
      ensures TakersAnswered(reqs, Answers(sent)) && ListersAnswered(reqs, Listings(sent))
    {
      for n := 0 to |reqs|
        invariant (State(queue, takeReqs, i), sent) == Run(reqs[..n])
      {
        assert reqs[..n + 1][..n] == reqs[..n];
        match reqs[n]
        case List(lister) =>
          sent := sent + [Listing(lister, queue)];
        case Put(payload) =>
          i := i + 1;
          var r := Task(i, payload);
          if |takeReqs| > 0 {
            sent := sent + [Deliver(takeReqs[0], r)];
            takeReqs := takeReqs[1..];
          } else {
            queue := queue + [r];
            assert sent == sent + [];
          }
        case Take(taker) =>
          if |queue| > 0 {
            sent := sent + [Deliver(taker, queue[0])];
            queue := queue[1..];
          } else {
            takeReqs := takeReqs + [taker];
            assert sent == sent + [];
          }
      }
      assert reqs[..|reqs|] == reqs;
      ghost var before := sent;
      var waiting := takeReqs;
      for n := 0 to |waiting|
        invariant sent == before + Nils(waiting[..n])
        invariant State(queue, takeReqs, i) == Run(reqs).0
      {
        assert waiting[..n + 1][..n] == waiting[..n];
        sent := sent + [Nil(waiting[n])];
      }
      assert waiting[..|waiting|] == waiting;
      EveryTakerAnswered(reqs);
      EveryListerAnswered(reqs);
    }
  }

  // ---- what the history of requests determines ----

  /** All tasks put, in order: the k-th put gets number k. */
  function Puts(reqs: seq<Request>): seq<Task> {
    if reqs == [] then []
    else
      var ps := Puts(reqs[..|reqs| - 1]);
      match reqs[|reqs| - 1]
      case Put(payload) => ps + [Task(|ps| + 1, payload)]
      case _ => ps
  }

  /** All takers, in order of their requests. */
  function Takers(reqs: seq<Request>): seq<nat> {
    if reqs == [] then []
    else
      var ts := Takers(reqs[..|reqs| - 1]);
      match reqs[|reqs| - 1]
      case Take(taker) => ts + [taker]
      case _ => ts
  }

  /** The deliveries of the first `n` tasks to the first `n` takers. */
  function Matched(takers: seq<nat>, tasks: seq<Task>, n: nat): (r: seq<Reply>)
    requires n <= |takers| && n <= |tasks|
    ensures |r| == n && forall k :: 0 <= k < n ==> r[k] == Deliver(takers[k], tasks[k])
  {
    seq(n, k requires 0 <= k < n => Deliver(takers[k], tasks[k]))
  }

  /** The deliveries and nils among the replies, in order. */
  function Answers(out: seq<Reply>): seq<Reply> {
    if out == [] then []
    else
      var n := |out| - 1;
      Answers(out[..n]) + (if out[n].Listing? then [] else [out[n]])
  }

  lemma {:induction false} AnswersConcat(a: seq<Reply>, b: seq<Reply>)
    ensures Answers(a + b) == Answers(a) + Answers(b)
  {
    if b == [] {
      assert a + b == a;
    } else {
      var n := |b| - 1;
      assert (a + b)[..|a + b| - 1] == a + b[..n];
      AnswersConcat(a, b[..n]);
    }
  }

  /** With p puts and t takes: the first min(p, t) takers got the first min(p, t) tasks, in
      order; the queue is the tasks beyond those, the waiting list the takers beyond those. */
  predicate ClosedForm(puts: seq<Task>, takers: seq<nat>, s: State, answers: seq<Reply>) {
    var m := Min(|puts|, |takers|);
    s.queue == puts[m..] && s.takers == takers[m..] && s.i == |puts| && answers == Matched(takers, puts, m)
  }

  /** The whole history in closed form, for every sequence of requests. */
  lemma {:induction false} QueueHistory(reqs: seq<Request>)
    ensures ClosedForm(Puts(reqs), Takers(reqs), Run(reqs).0, Answers(Run(reqs).1))
  {
    if reqs != [] {
      var prefix, r := reqs[..|reqs| - 1], reqs[|reqs| - 1];
      QueueHistory(prefix);
      var (s, out) := Run(prefix);
      var (_, more) := Handle(s, r);
      AnswersConcat(out, more);
      AnswersOne(more);
      HandledOne(s, Puts(prefix), Takers(prefix), Answers(out), r);
    }
  }

  lemma AnswersOne(more: seq<Reply>)
    requires |more| <= 1
    ensures Answers(more) == if more != [] && more[0].Listing? then [] else more
  {
    if more != [] {
      assert more[..0] == [] && Answers(more[..0]) == [];
      assert more == [more[0]];
    }
  }

  /** One request keeps the closed form. */
  lemma HandledOne(s: State, puts: seq<Task>, takers: seq<nat>, answers: seq<Reply>, r: Request)
    requires ClosedForm(puts, takers, s, answers)
    ensures var puts' := if r.Put? then puts + [Task(|puts| + 1, r.payload)] else puts;
      var takers' := if r.Take? then takers + [r.taker] else takers;
      var (s', more) := Handle(s, r);
      ClosedForm(puts', takers', s', answers + if r.List? then [] else more)
  {
    assert answers + [] == answers;
    match r
    case List(_) =>
    case Put(payload) => PutOne(s, puts, takers, answers, payload);
    case Take(taker) => TakeOne(s, puts, takers, answers, taker);
  }

  lemma PutOne(s: State, puts: seq<Task>, takers: seq<nat>, answers: seq<Reply>, payload: int)
    requires ClosedForm(puts, takers, s, answers)
    ensures var (s', more) := Handle(s, Put(payload));
      ClosedForm(puts + [Task(|puts| + 1, payload)], takers, s', answers + more)
  {
    var puts' := puts + [Task(|puts| + 1, payload)];
    if |takers| > |puts| {
      assert s.takers[0] == takers[|puts|] && s.takers[1..] == takers[|puts| + 1..];
      assert s.queue == [] == puts'[|puts| + 1..];
    } else {
      assert answers + [] == answers;
      assert s.queue + [puts'[|puts|]] == puts'[|takers|..];
    }
  }

  lemma TakeOne(s: State, puts: seq<Task>, takers: seq<nat>, answers: seq<Reply>, taker: nat)
    requires ClosedForm(puts, takers, s, answers)
    ensures var (s', more) := Handle(s, Take(taker));
      ClosedForm(puts, takers + [taker], s', answers + more)
  {
    var takers' := takers + [taker];
    if |puts| > |takers| {
      assert s.queue[0] == puts[|takers|] && s.queue[1..] == puts[|takers| + 1..];
      assert s.takers == [] == takers'[|takers| + 1..];
    } else {
      assert answers + [] == answers;
      assert s.takers + [taker] == takers'[|puts|..];
    }
  }

  /** Waiting tasks and waiting takers never exist at the same time, and every put is either
      delivered or queued, in order. */
  lemma NeverBothWaiting(reqs: seq<Request>)
    ensures var (s, out) := Run(reqs);
      && (s.queue == [] || s.takers == [])
      && |Puts(reqs)| == |Answers(out)| + |s.queue|
      && |Takers(reqs)| == |Answers(out)| + |s.takers|
  {
    QueueHistory(reqs);
  }

  lemma {:induction false} PutsInOrder(reqs: seq<Request>)
    ensures forall k :: 0 <= k < |Puts(reqs)| ==> Puts(reqs)[k].num == k + 1
  {
    if reqs != [] {
      PutsInOrder(reqs[..|reqs| - 1]);
    }
  }

  /** The loop numbers the puts from 1 on: the k-th delivery carries number k, and the queue goes
      on from there without a gap. */
  lemma PutsNumbered(reqs: seq<Request>)
    ensures var (s, out) := Run(reqs); var answers := Answers(out);
      && (forall k :: 0 <= k < |answers| ==> answers[k].Deliver? && answers[k].task.num == k + 1)
      && (forall k :: 0 <= k < |s.queue| ==> s.queue[k].num == |answers| + k + 1)
      && s.i == |answers| + |s.queue|
  {
    QueueHistory(reqs);
    PutsInOrder(reqs);
  }

  lemma {:induction false} NilsAt(takers: seq<nat>)
    ensures |Nils(takers)| == |takers|
    ensures forall k :: 0 <= k < |takers| ==> Nils(takers)[k] == Nil(takers[k])
  {
    if takers != [] {
      NilsAt(takers[..|takers| - 1]);
    }
  }

  lemma {:induction false} AllAnswers(out: seq<Reply>)
    requires forall k :: 0 <= k < |out| ==> !out[k].Listing?
    ensures Answers(out) == out
  {
    if out != [] {
      var n := |out| - 1;
      AllAnswers(out[..n]);
      assert out[..n] + [out[n]] == out;
    }
  }

  /** After the queue is closed every taker has been answered exactly once, in the order of the
      requests: the k-th taker got the k-th task put, or nil if there was no k-th task. */
  lemma EveryTakerAnswered(reqs: seq<Request>)
    ensures TakersAnswered(reqs, Answers(RunAndClose(reqs)))
  {
    QueueHistory(reqs);
    ClosingAnswers(reqs);
    AnswersPut(Puts(reqs), Takers(reqs));
  }

  predicate TakersAnswered(reqs: seq<Request>, answers: seq<Reply>) {
    var puts, takers := Puts(reqs), Takers(reqs);
    && |answers| == |takers|
    && forall k :: 0 <= k < |takers| ==>
         answers[k] == if k < |puts| then Deliver(takers[k], puts[k]) else Nil(takers[k])
  }

  /** Closing answers the waiting takers after everyone else. */
  lemma ClosingAnswers(reqs: seq<Request>)
    ensures Answers(RunAndClose(reqs)) == Answers(Run(reqs).1) + Nils(Run(reqs).0.takers)
  {
    var waiting := Run(reqs).0.takers;
    AnswersConcat(Run(reqs).1, Nils(waiting));
    NilsAt(waiting);
    AllAnswers(Nils(waiting));
  }

  lemma AnswersPut(puts: seq<Task>, takers: seq<nat>)
    ensures var m := Min(|puts|, |takers|); var answers := Matched(takers, puts, m) + Nils(takers[m..]);
      && |answers| == |takers|
      && forall k :: 0 <= k < |takers| ==>
           answers[k] == if k < |puts| then Deliver(takers[k], puts[k]) else Nil(takers[k])
  {
    NilsAt(takers[Min(|puts|, |takers|)..]);
  }

  // ---- listings ----

  /** The listings among the replies, in order. */
  function Listings(out: seq<Reply>): seq<Reply> {
    if out == [] then []
    else
      var n := |out| - 1;
      Listings(out[..n]) + (if out[n].Listing? then [out[n]] else [])
  }

  /** When the queue was listed: the positions of the requests, in order. */
  function ListedAt(reqs: seq<Request>): (at: seq<nat>)
    ensures forall j :: 0 <= j < |at| ==> at[j] < |reqs| && reqs[at[j]].List?
  {
    if reqs == [] then []
    else
      var n := |reqs| - 1;
      ListedAt(reqs[..n]) + (if reqs[n].List? then [n] else [])
  }

  /** The tasks that were put and not yet taken, oldest first. */
  function Pending(reqs: seq<Request>): seq<Task> {
    Puts(reqs)[Min(|Puts(reqs)|, |Takers(reqs)|)..]
  }

  predicate ListersAnswered(reqs: seq<Request>, listings: seq<Reply>) {
    var at := ListedAt(reqs);
    && |listings| == |at|
    && forall j :: 0 <= j < |at| ==> listings[j] == Listing(reqs[at[j]].lister, Pending(reqs[..at[j]]))
  }

  lemma {:induction false} ListingsConcat(a: seq<Reply>, b: seq<Reply>)
    ensures Listings(a + b) == Listings(a) + Listings(b)
  {
    if b == [] {
      assert a + b == a;
    } else {
      var n := |b| - 1;
      assert (a + b)[..|a + b| - 1] == a + b[..n];
      ListingsConcat(a, b[..n]);
    }
  }

  lemma ListingsOne(more: seq<Reply>)
    requires |more| <= 1
    ensures Listings(more) == if more != [] && more[0].Listing? then more else []
  {
    if more != [] {
      assert more[..0] == [] && Listings(more[..0]) == [];
      assert more == [more[0]];
    }
  }

  /** For every sequence of requests: the listings are one per list request, in order, each sent to
      its lister and holding exactly the tasks put and not yet taken when it was asked for. */
  lemma {:induction false} ListingHistory(reqs: seq<Request>)
    ensures ListersAnswered(reqs, Listings(Run(reqs).1))
  {
    if reqs != [] {
      var prefix := reqs[..|reqs| - 1];
      ListingHistory(prefix);
      LastListing(reqs);
      ListedOne(reqs, Listings(Run(prefix).1));
    }
  }

  lemma QueueIsPending(reqs: seq<Request>)
    ensures Run(reqs).0.queue == Pending(reqs)
  {
    QueueHistory(reqs);
  }

  lemma LastListing(reqs: seq<Request>)
    requires reqs != []
    ensures var n := |reqs| - 1;
      Listings(Run(reqs).1) == Listings(Run(reqs[..n]).1) +
        if reqs[n].List? then [Listing(reqs[n].lister, Pending(reqs[..n]))] else []
  {
    var n := |reqs| - 1;
    var (s, out) := Run(reqs[..n]);
    assert Run(reqs).1 == out + Handle(s, reqs[n]).1;
    QueueIsPending(reqs[..n]);
    ListingsConcat(out, Handle(s, reqs[n]).1);
    ListingOf(s, reqs[n]);
  }

  lemma ListingOf(s: State, r: Request)
    ensures Listings(Handle(s, r).1) == if r.List? then [Listing(r.lister, s.queue)] else []
  {
    ListingsOne(Handle(s, r).1);
  }

  lemma ListedOne(reqs: seq<Request>, listings: seq<Reply>)
    requires reqs != [] && ListersAnswered(reqs[..|reqs| - 1], listings)
    ensures var n := |reqs| - 1;
      ListersAnswered(reqs, listings + if reqs[n].List? then [Listing(reqs[n].lister, Pending(reqs[..n]))] else [])
  {
    var n := |reqs| - 1;
    var at := ListedAt(reqs[..n]);
    forall j | 0 <= j < |at| ensures ListedAt(reqs)[j] == at[j] && reqs[..n][..at[j]] == reqs[..at[j]] {
    }
  }

  /** Closing sends no listing. */
  lemma EveryListerAnswered(reqs: seq<Request>)
    ensures ListersAnswered(reqs, Listings(RunAndClose(reqs)))
  {
    var waiting := Run(reqs).0.takers;
    ListingHistory(reqs);
    ListingsConcat(Run(reqs).1, Nils(waiting));
    NilsAt(waiting);
    NoListings(Nils(waiting));
  }

  lemma {:induction false} NoListings(out: seq<Reply>)
    requires forall k :: 0 <= k < |out| ==> !out[k].Listing?
    ensures Listings(out) == []
  {
    if out != [] {
      NoListings(out[..|out| - 1]);
    }
  }
}
