/** Where every accepted job is in every run of the pipeline, what the store answers, and what the metrics say. */
module JobPlaces {
  import opened Models
  import Analyzer
  import opened Pipeline
  import opened PipelineInvariants

  datatype Place = Queue | AtDispatcher | PoolChannel | AtWorker(w: nat) | ResultChannel | WithWaiter | InStore

  ghost predicate At(s: State, n: Item, p: Place) {
    match p
    case Queue => n in s.queue
    case AtDispatcher => n in Held(s.dispatcher)
    case PoolChannel => n in s.pool
    case AtWorker(w) => Busy(s, n, w)
    case ResultChannel => HasMail(s, n)
    case WithWaiter => Carries(s, n)
    case InStore => n in s.stored
  }

  /** A stretch of the identity sequence holds exactly its own positions. */
  lemma ZoneOf(before: seq<Item>, zone: seq<Item>, after: seq<Item>, total: nat, n: Item)
    requires before + zone + after == Range(total)
    ensures n in zone <==> |before| <= n < |before| + |zone|
  {
    var all := before + zone + after;
    assert forall i :: 0 <= i < |zone| ==> zone[i] == all[|before| + i] == |before| + i;
    if |before| <= n < |before| + |zone| {
      assert zone[n - |before|] == n;
    }
  }

  /** Positions in the front half, from the order alone. */
  lemma FrontPlaces(s: State, n: Item)
    requires Ordered(s) && n < |s.accepted|
    ensures n in s.pool <==> |s.picked| <= n < InPool(s)
    ensures n in Held(s.dispatcher) <==> InPool(s) <= n < InPool(s) + |Held(s.dispatcher)|
    ensures n in s.queue <==> InPool(s) + |Held(s.dispatcher)| <= n
  {
    var a, b, c, d := s.picked, s.pool, Held(s.dispatcher), s.queue;
    assert |a + b + c + d| == |s.accepted|;
    assert a + b + (c + d) == a + b + c + d && (a + b + c) + d + [] == a + b + c + d;
    ZoneOf(a, b, c + d, |s.accepted|, n);
    ZoneOf(a + b, c, d, |s.accepted|, n);
    ZoneOf(a + b + c, d, [], |s.accepted|, n);
  }

  lemma BackPlaces(s: State, n: Item)
    requires Inv(s) && n < |s.accepted|
    ensures Received(s, n) <==> Carries(s, n) || n in s.stored
    ensures !(Carries(s, n) && n in s.stored)
  {
  }

  /** The place of an accepted job. */
  ghost function PlaceOf(s: State, n: Item): (p: Place)
    requires Inv(s) && n < |s.accepted|
    ensures At(s, n, p)
  {
    FrontPlaces(s, n);
    BackPlaces(s, n);
    assert SlotOk(s, n);
    if n >= InPool(s) + |Held(s.dispatcher)| then Queue
    else if n >= InPool(s) then AtDispatcher
    else if n >= |s.picked| then PoolChannel
    else if AtSomeWorker(s, n) then
      var w :| Busy(s, n, w);
      AtWorker(w)
    else if HasMail(s, n) then ResultChannel
    else if Carries(s, n) then WithWaiter
    else InStore
  }

  /** In every reachable state each accepted job is in exactly one place. */
  lemma ExactlyOnePlace(w: nat, steps: seq<Step>, n: Item, p: Place)
    requires Feasible(w, steps) && n < |After(w, steps).accepted|
    ensures var s := After(w, steps); Inv(s) && (At(s, n, p) <==> p == PlaceOf(s, n))
  {
    InvAlways(w, steps);
    var s := After(w, steps);
    FrontPlaces(s, n);
    BackPlaces(s, n);
    assert SlotOk(s, n);
    var q := PlaceOf(s, n);
    if At(s, n, p) && p.AtWorker? {
      assert AtSomeWorker(s, n);
    }
  }

  /** Workers pick jobs up in the order of acceptance. */
  lemma PickedInOrderOfAcceptance(w: nat, steps: seq<Step>, i: nat)
    requires Feasible(w, steps) && i < |After(w, steps).picked|
    ensures After(w, steps).picked[i] == i
  {
    InvAlways(w, steps);
    var s := After(w, steps);
    var all := s.picked + s.pool + Held(s.dispatcher) + s.queue;
    assert all[i] == s.picked[i];
  }

  /** A worker's send of its result never blocks. */
  lemma SendNeverBlocks(w: nat, steps: seq<Step>, v: nat)
    requires Feasible(w, steps) && v < w
    ensures var s := After(w, steps);
            |s.workers| == w && (s.workers[v].Sending? ==> Enabled(s, Send(v)))
  {
    InvAlways(w, steps);
    var s := After(w, steps);
    if s.workers[v].Sending? {
      var n := s.workers[v].item;
      assert SlotOk(s, n) && Busy(s, n, v);
    }
  }

  /** A submission blocks exactly when 512 jobs are queued, and the dispatcher exactly when it holds a job while four
      jobs for every worker are in the pool. */
  lemma BlockedIff(w: nat, steps: seq<Step>, job: Job)
    requires Feasible(w, steps)
    ensures var s := After(w, steps);
            && (!Enabled(s, Enqueue(job)) <==> |s.queue| == 512)
            && (s.dispatcher.Holding? ==> (!Enabled(s, Submit) <==> |s.pool| == 4 * w))
  {
    InvAlways(w, steps);
  }

  /** Item `items[i]` is the last of these items whose job has this ID. */
  ghost predicate LastWithId(accepted: seq<Job>, items: seq<Item>, id: string, i: nat) {
    && i < |items| && items[i] < |accepted| && accepted[items[i]].id == id
    && forall j :: i < j < |items| && items[j] < |accepted| ==> accepted[items[j]].id != id
  }

  lemma {:induction false} FiledLast(accepted: seq<Job>, made: map<Item, AnalysisResult>, items: seq<Item>, id: string)
    returns (i: nat)
    requires Known(accepted, made, items) && id in Filed(accepted, made, items)
    ensures LastWithId(accepted, items, id, i) && Filed(accepted, made, items)[id] == made[items[i]]
  {
    var n := |items| - 1;
    if accepted[items[n]].id == id {
      i := n;
    } else {
      i := FiledLast(accepted, made, items[..n], id);
    }
  }

  lemma {:induction false} FiledAll(accepted: seq<Job>, made: map<Item, AnalysisResult>, items: seq<Item>, n: Item)
    requires Known(accepted, made, items) && n in items
    ensures n < |accepted| && accepted[n].id in Filed(accepted, made, items)
  {
    var last := |items| - 1;
    if n != items[last] {
      assert n in items[..last];
      FiledAll(accepted, made, items[..last], n);
    }
  }

  /** The store files every result under its own job ID, and holds for each ID what the last stored
      job of that ID produced: findings with their summary, or an error's empty result. */
  lemma StoreIsFaithful(w: nat, steps: seq<Step>, id: string) returns (i: nat)
    requires Feasible(w, steps) && id in After(w, steps).results
    ensures var s := After(w, steps);
            && s.results[id].jobId == id
            && LastWithId(s.accepted, s.stored, id, i)
            && s.stored[i] in s.made && s.results[id] == s.made[s.stored[i]]
            && Analyzer.MadeFor(s.accepted[s.stored[i]], s.results[id])
  {
    InvAlways(w, steps);
    var s := After(w, steps);
    i := FiledLast(s.accepted, s.made, s.stored, id);
  }

  ghost predicate DistinctIds(jobs: seq<Job>) {
    forall i, j :: 0 <= i < j < |jobs| ==> jobs[i].id != jobs[j].id
  }

  /** With distinct job IDs each stored job is answered with what its own worker produced. */
  lemma DistinctIdsAreAnsweredIndividually(w: nat, steps: seq<Step>, n: Item)
    requires Feasible(w, steps)
    requires DistinctIds(After(w, steps).accepted) && n in After(w, steps).stored
    ensures var s := After(w, steps);
            && n < |s.accepted| && s.accepted[n].id in s.results && n in s.made
            && s.results[s.accepted[n].id] == s.made[n]
  {
    InvAlways(w, steps);
    var s := After(w, steps);
    FiledAll(s.accepted, s.made, s.stored, n);
    var i := StoreIsFaithful(w, steps, s.accepted[n].id);
    assert s.stored[i] == n;
  }

  // ---------------------------------------------------------------- the metrics

  /** The gauge, corrected by the handlers and the dispatcher caught between two operations, is the
      queue length; so it is exact when none is. Every result received is counted as completed once
      its waiter gets to run, and nothing is ever counted as failed. */
  lemma MetricsAreExact(w: nat, steps: seq<Step>)
    requires Feasible(w, steps)
    ensures var s := After(w, steps);
            && s.depth + (s.uncounted + s.unraised) - (if s.dispatcher.Dequeued? then 1 else 0) == |s.queue|
            && (s.uncounted == 0 == s.unraised && !s.dispatcher.Dequeued? ==> s.depth == |s.queue|)
            && s.queued + s.uncounted == |s.accepted|
            && s.completed == CountedWaiters(s.waiters) && s.failed == 0
  {
    InvAlways(w, steps);
  }

  /** In between, the gauge can be negative. */
  lemma GaugeCanGoNegative(w: nat, job: Job) returns (steps: seq<Step>)
    ensures Feasible(w, steps) && After(w, steps).depth == -1
  {
    var s0 := Start(w);
    var s1 := Next(s0, Enqueue(job));
    var s2 := Next(s1, Dequeue);
    Longer(w, [], s0, Enqueue(job));
    Longer(w, [] + [Enqueue(job)], s1, Dequeue);
    Longer(w, [] + [Enqueue(job)] + [Dequeue], s2, LowerDepth);
    steps := [] + [Enqueue(job)] + [Dequeue] + [LowerDepth];
  }
}
