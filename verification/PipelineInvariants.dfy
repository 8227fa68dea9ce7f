/** The pipeline's invariants, one group of them at a time, and that they hold in every run. */
module PipelineInvariants {
  import opened Models
  import Analyzer
  import opened Pipeline

  // Slots.

  lemma SlotFrame(s: State, s': State, n: Item)
    requires SlotOk(s, n)
    requires |s'.picked| == |s.picked| || n != |s.picked| == |s'.picked| - 1
    requires forall w :: Busy(s', n, w) <==> Busy(s, n, w)
    requires HasMail(s', n) == HasMail(s, n) && Received(s', n) == Received(s, n)
    requires n in s'.channels ==> |s'.channels[n]| <= 1
    ensures SlotOk(s', n)
  {
  }

  lemma SlotsPick(s: State, w: nat)
    requires Ordered(s) && Slots(s) && Enabled(s, Pick(w))
    ensures Slots(Next(s, Pick(w)))
  {
    var s' := Next(s, Pick(w));
    PoolHeadIsNext(s);
    forall n: Item
      ensures SlotOk(s', n)
    {
      assert SlotOk(s, n);
      if n == |s.picked| {
        assert Busy(s', n, w);
        assert forall v :: Busy(s', n, v) ==> v == w by {
          forall v | Busy(s', n, v)
            ensures v == w
          {
            if v != w {
              assert Busy(s, n, v);
            }
          }
        }
      } else {
        assert forall v :: Busy(s', n, v) <==> Busy(s, n, v);
        SlotFrame(s, s', n);
      }
    }
  }

  lemma SlotsSend(s: State, w: nat)
    requires Slots(s) && Enabled(s, Send(w))
    ensures Slots(Next(s, Send(w)))
  {
    var s', m := Next(s, Send(w)), s.workers[w].item;
    forall n: Item
      ensures SlotOk(s', n)
    {
      assert SlotOk(s, n);
      if n == m {
        assert Busy(s, n, w);
        assert forall v :: Busy(s', n, v) ==> Busy(s, n, v) && v != w;
        assert !AtSomeWorker(s', n);
      } else {
        assert forall v :: Busy(s', n, v) <==> Busy(s, n, v);
        SlotFrame(s, s', n);
      }
    }
  }

  lemma SlotsReceive(s: State, k: nat)
    requires Ordered(s) && Slots(s) && Enabled(s, Receive(k))
    ensures Slots(Next(s, Receive(k)))
  {
    var s' := Next(s, Receive(k));
    assert s.waiters[k].item == k;
    forall n: Item
      ensures SlotOk(s', n)
    {
      assert SlotOk(s, n);
      assert forall v :: Busy(s', n, v) <==> Busy(s, n, v);
      assert AtSomeWorker(s', n) == AtSomeWorker(s, n);
      if n != k {
        SlotFrame(s, s', n);
      }
    }
  }

  lemma SlotsOther(s: State, step: Step)
    requires Ordered(s) && Slots(s) && Enabled(s, step)
    requires !step.Pick? && !step.Send? && !step.Receive?
    ensures Slots(Next(s, step))
  {
    var s' := Next(s, step);
    if step.LowerDepth? {
      HeldIsNext(s);
    }
    forall n: Item
      ensures SlotOk(s', n)
    {
      assert SlotOk(s, n);
      assert forall v :: Busy(s', n, v) <==> Busy(s, n, v);
      SlotFrame(s, s', n);
    }
  }

  lemma SlotsKept(s: State, step: Step)
    requires Ordered(s) && Slots(s) && Enabled(s, step)
    ensures Slots(Next(s, step))
  {
    match step {
      case Pick(w) => SlotsPick(s, w);
      case Send(w) => SlotsSend(s, w);
      case Receive(k) => SlotsReceive(s, k);
      case _ => SlotsOther(s, step);
    }
  }

  // Values.

  lemma DeliversFinish(s: State, w: nat, o: Analyzer.RunResult)
    requires Slots(s) && Delivers(s) && Ordered(s) && Enabled(s, Finish(w, o))
    ensures Delivers(Next(s, Finish(w, o)))
  {
    var s', n := Next(s, Finish(w, o)), s.workers[w].item;
    OnlyOneCopy(s, w);
    MadeElsewhere(s, s', n);
    assert MailDelivers(s') by {
      assert forall m :: HasMail(s', m) ==> HasMail(s, m) && m != n;
    }
    assert WaitersDeliver(s') by {
      assert forall k :: Carries(s', k) ==> Carries(s, k);
    }
  }

  lemma MadeElsewhere(s: State, s': State, n: Item)
    requires s'.accepted == s.accepted && n in s'.made && s'.made == s.made[n := s'.made[n]]
    ensures forall m, r :: m != n && Faithful(s, m, r) ==> Faithful(s', m, r)
  {
  }

  lemma OneMoreMade(s: State, n: Item, o: Analyzer.RunResult, made: map<Item, AnalysisResult>)
    requires Made(s.accepted, s.made) && n < |s.accepted| && Analyzer.Possible(s.accepted[n], o)
    requires made == s.made[n := Analyzer.WorkerResult(s.accepted[n], o)]
    ensures Made(s.accepted, made)
  {
    Analyzer.WorkersMakeResults(s.accepted[n], o);
  }

  /** While a worker runs a job, no result of that job exists anywhere. */
  lemma OnlyOneCopy(s: State, w: nat)
    requires Ordered(s) && Slots(s) && w < |s.workers| && !s.workers[w].Idle?
    ensures var n := s.workers[w].item;
            && !HasMail(s, n)
            && (forall v :: 0 <= v < |s.workers| && v != w && !s.workers[v].Idle? ==> s.workers[v].item != n)
            && (forall k :: Carries(s, k) ==> s.waiters[k].item != n)
            && (forall k :: 0 <= k < |s.waiters| && s.waiters[k].phase.Done? ==> s.waiters[k].item != n)
  {
    var n := s.workers[w].item;
    assert SlotOk(s, n) && Busy(s, n, w);
    assert forall v :: 0 <= v < |s.workers| && Busy(s, n, v) ==> v == w;
    assert forall v :: 0 <= v < |s.workers| && !s.workers[v].Idle? && s.workers[v].item == n ==> Busy(s, n, v);
  }

  lemma DeliversSend(s: State, w: nat)
    requires Delivers(s) && Enabled(s, Send(w))
    ensures Delivers(Next(s, Send(w)))
  {
  }

  lemma DeliversReceive(s: State, k: nat)
    requires Ordered(s) && Slots(s) && Delivers(s) && Enabled(s, Receive(k))
    ensures Delivers(Next(s, Receive(k)))
  {
    var s', n := Next(s, Receive(k)), s.waiters[k].item;
    assert SlotOk(s, n) && HasMail(s, n);
    assert s'.channels[n] == [];
    assert forall m :: HasMail(s', m) ==> HasMail(s, m) && s'.channels[m] == s.channels[m];
  }

  lemma DeliversFrame(s: State, s': State)
    requires Delivers(s) && s'.made == s.made && s.accepted <= s'.accepted
    requires forall w :: 0 <= w < |s'.workers| && s'.workers[w].Sending? ==> w < |s.workers| && s'.workers[w] == s.workers[w]
    requires forall n :: HasMail(s', n) ==> HasMail(s, n) && s'.channels[n] == s.channels[n]
    requires forall k :: Carries(s', k) ==>
        Carries(s, k) && s'.waiters[k].item == s.waiters[k].item && s'.waiters[k].phase.r == s.waiters[k].phase.r
    ensures Delivers(s')
  {
  }

  lemma DeliversOther(s: State, step: Step)
    requires Ordered(s) && Delivers(s) && Enabled(s, step)
    requires !step.Finish? && !step.Send? && !step.Receive? && !step.LowerDepth?
    ensures Delivers(Next(s, step))
  {
    DeliversFrame(s, Next(s, step));
  }

  lemma DeliversLowerDepth(s: State)
    requires Ordered(s) && Delivers(s) && Enabled(s, LowerDepth)
    ensures Delivers(Next(s, LowerDepth))
  {
    HeldIsNext(s);
    DeliversFrame(s, Next(s, LowerDepth));
  }

  lemma DeliversKept(s: State, step: Step)
    requires Ordered(s) && Slots(s) && Delivers(s) && Enabled(s, step)
    ensures Delivers(Next(s, step))
  {
    match step {
      case Finish(w, o) => DeliversFinish(s, w, o);
      case Send(w) => DeliversSend(s, w);
      case Receive(k) => DeliversReceive(s, k);
      case LowerDepth => DeliversLowerDepth(s);
      case _ => DeliversOther(s, step);
    }
  }

  lemma MadeKept(s: State, step: Step)
    requires Made(s.accepted, s.made) && Enabled(s, step)
    ensures Made(Next(s, step).accepted, Next(s, step).made)
  {
    match step {
      case Enqueue(job) => MadeStays(s.accepted, s.accepted + [job], s.made);
      case Finish(w, o) => OneMoreMade(s, s.workers[w].item, o, Next(s, step).made);
      case _ =>
    }
  }

  lemma MadeStays(accepted: seq<Job>, accepted': seq<Job>, made: map<Item, AnalysisResult>)
    requires Made(accepted, made) && accepted <= accepted'
    ensures Made(accepted', made)
  {
  }

  lemma ValuesKept(s: State, step: Step)
    requires Ordered(s) && Slots(s) && Values(s) && Enabled(s, step)
    ensures Values(Next(s, step))
  {
    MadeKept(s, step);
    DeliversKept(s, step);
  }

  // The store.

  lemma {:induction false} FiledFrame(accepted: seq<Job>, made: map<Item, AnalysisResult>,
                                      accepted': seq<Job>, made': map<Item, AnalysisResult>, items: seq<Item>)
    requires Known(accepted, made, items) && accepted <= accepted'
    requires forall n :: n in items ==> n in made' && made'[n] == made[n]
    ensures Known(accepted', made', items)
    ensures Filed(accepted', made', items) == Filed(accepted, made, items)
  {
    if items != [] {
      FiledFrame(accepted, made, accepted', made', items[..|items| - 1]);
    }
  }

  lemma StoredFrame(s: State, s': State)
    requires Stored(s)
    requires s.accepted <= s'.accepted && s'.stored == s.stored && s'.results == s.results
    requires forall n :: n in s.stored ==> n in s'.made && s'.made[n] == s.made[n]
    requires |s.waiters| <= |s'.waiters|
    requires forall k :: 0 <= k < |s.waiters| ==> (s'.waiters[k].phase.Done? <==> s.waiters[k].phase.Done?)
    requires forall k :: |s.waiters| <= k < |s'.waiters| ==> s'.waiters[k].phase.Blocked?
    ensures Stored(s')
  {
    FiledFrame(s.accepted, s.made, s'.accepted, s'.made, s.stored);
  }

  lemma StoredFinish(s: State, w: nat, o: Analyzer.RunResult)
    requires Ordered(s) && Slots(s) && Stored(s) && Enabled(s, Finish(w, o))
    ensures Stored(Next(s, Finish(w, o)))
  {
    OnlyOneCopy(s, w);
    assert forall m :: m in s.stored ==> s.waiters[m].item == m && s.waiters[m].phase.Done?;
    StoredFrame(s, Next(s, Finish(w, o)));
  }

  lemma StoredStore(s: State, k: nat)
    requires Ordered(s) && Values(s) && Stored(s) && Enabled(s, Store(k))
    ensures Stored(Next(s, Store(k)))
  {
    var s' := Next(s, Store(k));
    assert Carries(s, k) && s.waiters[k].item == k && Faithful(s, k, s.waiters[k].phase.r);
    StoredSnoc(s, s', k);
  }

  lemma StoredSnoc(s: State, s': State, k: Item)
    requires Stored(s) && k < |s.waiters| == |s'.waiters| && k < |s.accepted| && k in s.made
    requires s'.accepted == s.accepted && s'.made == s.made && s'.stored == s.stored + [k]
    requires s'.results == s.results[s.accepted[k].id := s.made[k]]
    requires s'.waiters[k].phase.Done?
    requires forall v :: 0 <= v < |s.waiters| && v != k ==> s'.waiters[v] == s.waiters[v]
    ensures Stored(s')
  {
  }

  lemma StoredWaiter(s: State, step: Step)
    requires Stored(s) && Enabled(s, step) && (step.Receive? || step.CountDone?)
    ensures Stored(Next(s, step))
  {
    StoredFrame(s, Next(s, step));
  }

  lemma StoredOther(s: State, step: Step)
    requires Stored(s) && Enabled(s, step)
    requires !step.Receive? && !step.CountDone? && !step.Finish? && !step.Store?
    ensures Stored(Next(s, step))
  {
    StoredFrame(s, Next(s, step));
  }

  lemma StoredKept(s: State, step: Step)
    requires Ordered(s) && Slots(s) && Values(s) && Stored(s) && Enabled(s, step)
    ensures Stored(Next(s, step))
  {
    match step {
      case Finish(w, o) => StoredFinish(s, w, o);
      case Store(k) => StoredStore(s, k);
      case Receive(k) => StoredWaiter(s, step);
      case CountDone(k) => StoredWaiter(s, step);
      case _ => StoredOther(s, step);
    }
  }

  // The metrics.

  lemma {:induction false} CountedUpdate(ws: seq<Waiter>, k: nat, p: Phase)
    requires k < |ws|
    ensures CountedWaiters(WithPhase(ws, k, p)) == CountedWaiters(ws)
        - (if ws[k].phase.Counted? || ws[k].phase.Done? then 1 else 0)
        + (if p.Counted? || p.Done? then 1 else 0)
    decreases |ws|
  {
    var n, ws' := |ws| - 1, WithPhase(ws, k, p);
    if k < n {
      CountedUpdate(ws[..n], k, p);
      assert ws'[..n] == WithPhase(ws[..n], k, p);
    } else {
      assert ws'[..n] == ws[..n];
    }
  }

  lemma GaugesKept(s: State, step: Step)
    requires Gauges(s) && Enabled(s, step)
    ensures Gauges(Next(s, step))
  {
    match step
    case Dequeue =>
      assert |Next(s, step).queue| == |s.queue| - 1;
    case Pick(w) =>
      assert |Next(s, step).pool| == |s.pool| - 1;
    case _ =>
  }

  lemma TotalsKept(s: State, step: Step)
    requires Values(s) && Totals(s) && Enabled(s, step)
    ensures Totals(Next(s, step))
  {
    match step {
      case Spawn => assert Next(s, step).waiters[..|s.waiters|] == s.waiters;
      case Receive(k) => CountedUpdate(s.waiters, k, Got(s.channels[s.waiters[k].item][0]));
      case CountDone(k) =>
        assert Carries(s, k);
        Analyzer.TotalsAreNatural(s.accepted[s.waiters[k].item], s.waiters[k].phase.r);
        CountedUpdate(s.waiters, k, Counted(s.waiters[k].phase.r));
      case Store(k) => CountedUpdate(s.waiters, k, Done);
      case _ =>
    }
  }

  // ---------------------------------------------------------------- every run

  /** The state after some steps; a step that is not possible is not taken. */
  function After(w: nat, steps: seq<Step>): State {
    if steps == [] then Start(w)
    else
      var n := |steps| - 1;
      var s := After(w, steps[..n]);
      if Enabled(s, steps[n]) then Next(s, steps[n]) else s
  }

  predicate EnabledAt(w: nat, steps: seq<Step>, i: nat)
    requires i < |steps|
  {
    Enabled(After(w, steps[..i]), steps[i])
  }

  /** A run of the pipeline: every step was possible when it was taken. */
  ghost predicate Feasible(w: nat, steps: seq<Step>) {
    forall i :: 0 <= i < |steps| ==> EnabledAt(w, steps, i)
  }

  lemma FeasibleInit(w: nat, steps: seq<Step>)
    requires Feasible(w, steps) && steps != []
    ensures var n := |steps| - 1;
            && Feasible(w, steps[..n]) && Enabled(After(w, steps[..n]), steps[n])
            && After(w, steps) == Next(After(w, steps[..n]), steps[n])
  {
    var n := |steps| - 1;
    assert EnabledAt(w, steps, n);
    forall i | 0 <= i < n
      ensures EnabledAt(w, steps[..n], i)
    {
      assert EnabledAt(w, steps, i) && steps[..n][..i] == steps[..i];
    }
  }

  lemma Longer(w: nat, steps: seq<Step>, s: State, step: Step)
    requires Feasible(w, steps) && After(w, steps) == s && Enabled(s, step)
    ensures Feasible(w, steps + [step]) && After(w, steps + [step]) == Next(s, step)
  {
    var more := steps + [step];
    assert more[..|steps|] == steps && more[|steps|] == step;
    forall i | 0 <= i < |more|
      ensures EnabledAt(w, more, i)
    {
      assert i < |steps| ==> EnabledAt(w, steps, i) && more[..i] == steps[..i];
    }
  }

  lemma StartOk(w: nat)
    ensures Inv(Start(w))
  {
    var s := Start(w);
    assert s.picked + s.pool + Held(s.dispatcher) + s.queue == Range(0);
    forall n: Item
      ensures SlotOk(s, n)
    {
      forall v: nat
        ensures !Busy(s, n, v)
      {
        if v < w {
          assert s.workers[v] == Idle;
        }
      }
    }
    assert Slots(s);
    assert Ordered(s);
    assert Values(s);
    assert Stored(s);
  }

  lemma InvKept(s: State, step: Step)
    requires Inv(s) && Enabled(s, step)
    ensures Inv(Next(s, step)) && |Next(s, step).workers| == |s.workers|
  {
    OrderedKept(s, step);
    SlotsKept(s, step);
    ValuesKept(s, step);
    StoredKept(s, step);
    GaugesKept(s, step);
    TotalsKept(s, step);
  }

  /** The invariants hold in every reachable state. */
  lemma {:induction false} InvAlways(w: nat, steps: seq<Step>)
    requires Feasible(w, steps)
    ensures Inv(After(w, steps)) && |After(w, steps).workers| == w
  {
    if steps == [] {
      StartOk(w);
    } else {
      var n := |steps| - 1;
      FeasibleInit(w, steps);
      InvAlways(w, steps[..n]);
      InvKept(After(w, steps[..n]), steps[n]);
    }
  }
}
