/** That the pipeline drains, however its goroutines are scheduled, and how many workers that takes. */
module Draining {
  import opened Models
  import Analyzer
  import opened Pipeline
  import opened PipelineInvariants

  function WorkLeft(v: Worker): nat {
    match v case Idle => 0 case Running(_) => 2 case Sending(_, _) => 1
  }

  function PhaseLeft(p: Phase): nat {
    match p case Blocked => 3 case Got(_) => 2 case Counted(_) => 1 case Done => 0
  }

  function WorkerLeft(ws: seq<Worker>): nat {
    if ws == [] then 0 else WorkerLeft(ws[..|ws| - 1]) + WorkLeft(ws[|ws| - 1])
  }

  function WaiterLeft(ws: seq<Waiter>): nat {
    if ws == [] then 0 else WaiterLeft(ws[..|ws| - 1]) + PhaseLeft(ws[|ws| - 1].phase)
  }

  /** Steps the goroutines still have to take before every accepted job is stored. */
  function Left(s: State): nat {
    2 * s.uncounted + s.unraised + 10 * |s.queue|
    + (match s.dispatcher case Waiting => 0 case Dequeued(_) => 9 case Holding(_) => 8 case Submitted(_) => 4)
    + 3 * |s.pool| + WorkerLeft(s.workers) + WaiterLeft(s.waiters)
  }

  lemma {:induction false} WorkerLeftUpdate(ws: seq<Worker>, w: nat, v: Worker)
    requires w < |ws|
    ensures WorkerLeft(ws[w := v]) == WorkerLeft(ws) - WorkLeft(ws[w]) + WorkLeft(v)
    ensures WorkLeft(ws[w]) <= WorkerLeft(ws)
    decreases |ws|
  {
    var n := |ws| - 1;
    if w < n {
      WorkerLeftUpdate(ws[..n], w, v);
      assert ws[w := v][..n] == ws[..n][w := v];
    } else {
      assert ws[w := v][..n] == ws[..n];
    }
  }

  lemma {:induction false} WaiterLeftUpdate(ws: seq<Waiter>, k: nat, p: Phase)
    requires k < |ws|
    ensures WaiterLeft(WithPhase(ws, k, p)) == WaiterLeft(ws) - PhaseLeft(ws[k].phase) + PhaseLeft(p)
    ensures PhaseLeft(ws[k].phase) <= WaiterLeft(ws)
    decreases |ws|
  {
    var n := |ws| - 1;
    if k < n {
      WaiterLeftUpdate(ws[..n], k, p);
      assert WithPhase(ws, k, p)[..n] == WithPhase(ws[..n], k, p);
    } else {
      assert WithPhase(ws, k, p)[..n] == ws[..n];
    }
  }

  lemma WorkerStepsCountDown(s: State, step: Step)
    requires Enabled(s, step) && (step.Pick? || step.Finish? || step.Send?)
    ensures Left(Next(s, step)) == Left(s) - 1
  {
    var v := Next(s, step).workers[step.w];
    WorkerLeftUpdate(s.workers, step.w, v);
  }

  lemma ReceiveCountsDown(s: State, k: nat)
    requires Enabled(s, Receive(k))
    ensures Left(Next(s, Receive(k))) == Left(s) - 1
  {
    WaiterLeftUpdate(s.waiters, k, Got(s.channels[s.waiters[k].item][0]));
  }

  lemma CountDoneCountsDown(s: State, k: nat)
    requires Enabled(s, CountDone(k))
    ensures Left(Next(s, CountDone(k))) == Left(s) - 1
  {
    WaiterLeftUpdate(s.waiters, k, Counted(s.waiters[k].phase.r));
  }

  lemma StoreCountsDown(s: State, k: nat)
    requires Enabled(s, Store(k))
    ensures Left(Next(s, Store(k))) == Left(s) - 1
  {
    WaiterLeftUpdate(s.waiters, k, Done);
  }

  /** Every step other than a new submission brings the pipeline exactly one step closer to rest. */
  lemma StepsCountDown(s: State, step: Step)
    requires Enabled(s, step) && !step.Enqueue?
    ensures Left(Next(s, step)) == Left(s) - 1
  {
    match step {
      case Spawn => assert Next(s, step).waiters[..|s.waiters|] == s.waiters;
      case Pick(_) => WorkerStepsCountDown(s, step);
      case Finish(_, _) => WorkerStepsCountDown(s, step);
      case Send(_) => WorkerStepsCountDown(s, step);
      case Receive(k) => ReceiveCountsDown(s, k);
      case CountDone(k) => CountDoneCountsDown(s, k);
      case Store(k) => StoreCountsDown(s, k);
      case _ =>
    }
  }

  lemma {:induction false} AllIdle(ws: seq<Worker>) returns (w: nat)
    ensures w <= |ws|
    ensures w < |ws| ==> !ws[w].Idle?
    ensures w == |ws| ==> WorkerLeft(ws) == 0 && forall v :: 0 <= v < |ws| ==> ws[v].Idle?
  {
    if ws == [] {
      w := 0;
    } else {
      var n := |ws| - 1;
      w := AllIdle(ws[..n]);
      if w == n && ws[n].Idle? {
        w := |ws|;
      }
    }
  }

  lemma {:induction false} AllDone(ws: seq<Waiter>) returns (k: nat)
    ensures k <= |ws|
    ensures k < |ws| ==> !ws[k].phase.Done?
    ensures k == |ws| ==> WaiterLeft(ws) == 0 && forall v :: 0 <= v < |ws| ==> ws[v].phase.Done?
  {
    if ws == [] {
      k := 0;
    } else {
      var n := |ws| - 1;
      k := AllDone(ws[..n]);
      if k == n && ws[n].phase.Done? {
        k := |ws|;
      }
    }
  }

  /** With at least one worker, as long as something is left to do some goroutine can do it. */
  lemma NeverStuck(s: State) returns (step: Step)
    requires Inv(s) && |s.workers| > 0 && Left(s) > 0
    ensures Enabled(s, step) && !step.Enqueue?
  {
    var w := AllIdle(s.workers);
    var k := AllDone(s.waiters);
    if s.uncounted > 0 {
      step := CountQueued;
    } else if s.unraised > 0 {
      step := RaiseDepth;
    } else if s.dispatcher.Dequeued? {
      step := LowerDepth;
    } else if s.dispatcher.Submitted? {
      step := Spawn;
    } else if w < |s.workers| {
      step := WorkerCanMove(s, w);
    } else if s.pool != [] {
      step := Pick(0);
    } else if s.dispatcher.Holding? {
      step := Submit;
    } else if s.queue != [] {
      step := Dequeue;
    } else {
      step := WaiterCanMove(s, k);
    }
  }

  lemma WorkerCanMove(s: State, w: nat) returns (step: Step)
    requires Inv(s) && w < |s.workers| && !s.workers[w].Idle?
    ensures Enabled(s, step) && !step.Enqueue?
  {
    var n := s.workers[w].item;
    assert SlotOk(s, n) && Busy(s, n, w);
    assert AtSomeWorker(s, n);
    if s.workers[w].Running? {
      PickedAreAccepted(s, n);
      step := Finish(w, Analyzer.RunResult.Err);
    } else {
      step := Send(w);
    }
  }

  lemma WaiterCanMove(s: State, k: nat) returns (step: Step)
    requires Inv(s) && k < |s.waiters| && !s.waiters[k].phase.Done?
    requires s.pool == [] && (forall v :: 0 <= v < |s.workers| ==> s.workers[v].Idle?)
    ensures Enabled(s, step) && !step.Enqueue?
  {
    assert s.waiters[k].item == k;
    assert SlotOk(s, k);
    match s.waiters[k].phase {
      case Blocked => step := Receive(k);
      case Got(_) => step := CountDone(k);
      case Counted(_) =>
        PickedAreAccepted(s, k);
        step := Store(k);
      case Done =>
    }
  }

  lemma NotDoneIsLeft(ws: seq<Waiter>, k: nat)
    requires k <= |ws|
    ensures k < |ws| && !ws[k].phase.Done? ==> WaiterLeft(ws) > 0
  {
  }

  /** At rest every accepted job is in the store. */
  lemma AtRestAllIsStored(s: State, n: Item)
    requires Inv(s) && Left(s) == 0 && n < |s.accepted|
    ensures n in s.stored
  {
    var k := AllDone(s.waiters);
    assert |s.picked + s.pool + Held(s.dispatcher) + s.queue| == |s.accepted|;
    assert k == |s.waiters| by {
      NotDoneIsLeft(s.waiters, k);
    }
    assert s.waiters[n].item == n;
  }

  /** No goroutine can move before another submission. */
  ghost predicate AtRest(s: State) {
    forall step :: Enabled(s, step) ==> step.Enqueue?
  }

  ghost predicate AllStored(s: State) {
    forall n :: 0 <= n < |s.accepted| ==> n in s.stored
  }

  lemma RestIff(t: State)
    requires Inv(t) && |t.workers| > 0
    ensures AtRest(t) <==> Left(t) == 0
    ensures AtRest(t) ==> AllStored(t)
  {
    if Left(t) > 0 {
      var step := NeverStuck(t);
    } else {
      forall step | Enabled(t, step)
        ensures step.Enqueue?
      {
        if !step.Enqueue? {
          StepsCountDown(t, step);
          assert false;
        }
      }
      forall n | 0 <= n < |t.accepted|
        ensures n in t.stored
      {
        AtRestAllIsStored(t, n);
      }
    }
  }

  /** Runs of the pipeline from a given state, without new submissions. */
  ghost predicate Drains(s: State, steps: seq<Step>, t: State)
    decreases |steps|
  {
    if steps == [] then t == s
    else !steps[0].Enqueue? && Enabled(s, steps[0]) && Drains(Next(s, steps[0]), steps[1..], t)
  }

  /** From any reachable state with at least one worker, however the goroutines are scheduled: if
      submissions stop, the pipeline takes at most Left(s) more steps, and it can stop only when
      every accepted job has been stored, after exactly that many. */
  lemma {:induction false} EveryScheduleDrains(s: State, steps: seq<Step>, t: State)
    requires Inv(s) && |s.workers| > 0 && Drains(s, steps, t)
    ensures Inv(t) && |t.workers| > 0 && t.accepted == s.accepted
    ensures |steps| + Left(t) == Left(s)
    ensures AtRest(t) <==> |steps| == Left(s)
    ensures AtRest(t) ==> AllStored(t)
    decreases |steps|
  {
    if steps == [] {
      RestIff(t);
    } else {
      DrainStep(s, steps[0]);
      EveryScheduleDrains(Next(s, steps[0]), steps[1..], t);
    }
  }

  lemma DrainStep(s: State, step: Step)
    requires Inv(s) && |s.workers| > 0 && Enabled(s, step) && !step.Enqueue?
    ensures var s' := Next(s, step);
            Inv(s') && |s'.workers| > 0 && s'.accepted == s.accepted && Left(s') == Left(s) - 1
  {
    InvKept(s, step);
    StepsCountDown(s, step);
    OnlyEnqueueAccepts(s, step);
  }

  lemma OnlyEnqueueAccepts(s: State, step: Step)
    requires Enabled(s, step) && !step.Enqueue?
    ensures Next(s, step).accepted == s.accepted
  {
  }

  // ---------------------------------------------------------------- how many workers

  /** The state of a pipeline that has no workers: nothing gets past the dispatcher. */
  predicate Stalled(s: State) {
    && s.workers == [] && s.pool == [] && s.picked == [] && s.waiters == [] && s.stored == [] && s.results == map[]
    && !s.dispatcher.Submitted?
  }

  lemma StalledStays(s: State, step: Step)
    requires Stalled(s) && Enabled(s, step)
    ensures Stalled(Next(s, step))
  {
  }

  /** Without workers no job is ever stored. */
  lemma {:induction false} WithoutWorkersNothingIsStored(steps: seq<Step>)
    requires Feasible(0, steps)
    ensures Stalled(After(0, steps))
  {
    if steps != [] {
      var n := |steps| - 1;
      FeasibleInit(0, steps);
      WithoutWorkersNothingIsStored(steps[..n]);
      StalledStays(After(0, steps[..n]), steps[n]);
    }
  }

  /** Everything is at rest but for the dispatcher and the queue. */
  predicate OnlyDispatcherMoves(s: State) {
    s.workers == [] && s.waiters == [] && s.uncounted == 0 == s.unraised && |s.accepted| == 1
  }

  lemma OneIsQueued(job: Job) returns (steps: seq<Step>)
    ensures Feasible(0, steps)
    ensures var s := After(0, steps); OnlyDispatcherMoves(s) && s.dispatcher.Waiting? && s.queue != []
  {
    var s0 := Start(0);
    var s1 := Next(s0, Enqueue(job));
    var s2 := Next(s1, CountQueued);
    Longer(0, [], s0, Enqueue(job));
    Longer(0, [] + [Enqueue(job)], s1, CountQueued);
    Longer(0, [] + [Enqueue(job)] + [CountQueued], s2, RaiseDepth);
    steps := [] + [Enqueue(job)] + [CountQueued] + [RaiseDepth];
  }

  /** A job that is accepted and then held by the dispatcher for ever. */
  lemma HeldForEver(job: Job) returns (steps: seq<Step>)
    ensures Feasible(0, steps) && AtRest(After(0, steps)) && |After(0, steps).accepted| == 1
  {
    var queued := OneIsQueued(job);
    var s := After(0, queued);
    var t := Next(s, Dequeue);
    Longer(0, queued, s, Dequeue);
    Longer(0, queued + [Dequeue], t, LowerDepth);
    steps := queued + [Dequeue] + [LowerDepth];
    HeldIsAtRest(Next(t, LowerDepth));
  }

  lemma HeldIsAtRest(s: State)
    requires s.dispatcher.Holding? && s.workers == [] && s.waiters == [] && s.uncounted == 0 == s.unraised
    ensures AtRest(s)
  {
  }

  /** A run that can stop has stored every job it accepted. */
  ghost predicate SettlesAll(w: nat, steps: seq<Step>) {
    AtRest(After(w, steps)) ==> AllStored(After(w, steps))
  }

  lemma SettledWithWorkers(w: nat, steps: seq<Step>)
    requires w > 0 && Feasible(w, steps)
    ensures SettlesAll(w, steps)
  {
    InvAlways(w, steps);
    RestIff(After(w, steps));
  }

  lemma UnsettledWithoutWorkers(job: Job) returns (steps: seq<Step>)
    ensures Feasible(0, steps) && !SettlesAll(0, steps)
  {
    steps := HeldForEver(job);
    WithoutWorkersNothingIsStored(steps);
    assert 0 !in After(0, steps).stored;
  }

  /** Every run that comes to rest has stored every accepted job exactly when there is at least one worker. */
  lemma AllIsStoredAtRestIff(w: nat)
    ensures (forall steps: seq<Step> :: Feasible(w, steps) ==> SettlesAll(w, steps)) <==> w > 0
  {
    if w > 0 {
      forall steps: seq<Step> | Feasible(w, steps)
        ensures SettlesAll(w, steps)
      {
        SettledWithWorkers(w, steps);
      }
    } else {
      var steps := UnsettledWithoutWorkers(Job("", "", "", "", "", ""));
    }
  }
}
