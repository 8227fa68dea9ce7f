/** The analysis service before shutdown: submit handlers, a bounded queue, one dispatcher, a bounded
    pool channel, W workers, one result channel and one waiter per job. Each step is one channel
    operation, counter update or map update of one goroutine. */
module Pipeline {
  import opened Models
  import opened Analyzer

  const QUEUE_CAP := 512

  // A job is identified by its position in the order of acceptance.
  type Item = nat

  datatype Dispatcher =
    | Waiting
    | Dequeued(item: Item)   // before queueDepth.Dec
    | Holding(item: Item)    // before pool.Submit
    | Submitted(item: Item)  // before the waiter is started

  datatype Worker = Idle | Running(item: Item) | Sending(item: Item, r: AnalysisResult)

  datatype Phase =
    | Blocked
    | Got(r: AnalysisResult)      // before the counter update
    | Counted(r: AnalysisResult)  // before the store
    | Done

  datatype Waiter = Waiter(item: Item, phase: Phase)

  /** `accepted`, `picked` and `made` record what happened: jobs in order of acceptance, items in
      order of pick-up, and what each worker produced. */
  datatype State = State(
    accepted: seq<Job>,
    uncounted: nat,               // handlers between Enqueue and jobsQueued.Inc
    unraised: nat,                // handlers between jobsQueued.Inc and queueDepth.Inc
    queue: seq<Item>,
    dispatcher: Dispatcher,
    pool: seq<Item>,
    workers: seq<Worker>,
    channels: map<Item, seq<AnalysisResult>>,
    waiters: seq<Waiter>,
    results: map<string, AnalysisResult>,
    queued: nat,
    completed: nat,
    failed: nat,
    depth: int,
    picked: seq<Item>,
    made: map<Item, AnalysisResult>,
    stored: seq<Item>)

  function Start(w: nat): State {
    State([], 0, 0, [], Waiting, [], seq(w, _ => Idle), map[], [], map[], 0, 0, 0, 0, [], map[], [])
  }

  datatype Step =
    | Enqueue(job: Job)
    | CountQueued
    | RaiseDepth
    | Dequeue
    | LowerDepth
    | Submit
    | Spawn
    | Pick(w: nat)
    | Finish(w: nat, outcome: RunResult)
    | Send(w: nat)
    | Receive(k: nat)
    | CountDone(k: nat)
    | Store(k: nat)

  predicate Enabled(s: State, step: Step) {
    match step
    case Enqueue(_) => |s.queue| < QUEUE_CAP
    case CountQueued => s.uncounted > 0
    case RaiseDepth => s.unraised > 0
    case Dequeue => s.dispatcher.Waiting? && s.queue != []
    case LowerDepth => s.dispatcher.Dequeued?
    case Submit => s.dispatcher.Holding? && |s.pool| < 4 * |s.workers|
    case Spawn => s.dispatcher.Submitted?
    case Pick(w) => w < |s.workers| && s.workers[w].Idle? && s.pool != []
    case Finish(w, o) =>
      w < |s.workers| && s.workers[w].Running? && s.workers[w].item < |s.accepted|
      && Possible(s.accepted[s.workers[w].item], o)
    case Send(w) =>
      w < |s.workers| && s.workers[w].Sending? && s.workers[w].item in s.channels
      && |s.channels[s.workers[w].item]| < 1
    case Receive(k) =>
      k < |s.waiters| && s.waiters[k].phase.Blocked? && s.waiters[k].item in s.channels
      && s.channels[s.waiters[k].item] != []
    case CountDone(k) => k < |s.waiters| && s.waiters[k].phase.Got?
    case Store(k) => k < |s.waiters| && s.waiters[k].phase.Counted? && s.waiters[k].item < |s.accepted|
  }

  function WithPhase(ws: seq<Waiter>, k: nat, p: Phase): seq<Waiter>
    requires k < |ws|
  {
    ws[k := ws[k].(phase := p)]
  }

  function Next(s: State, step: Step): State
    requires Enabled(s, step)
  {
    match step
    case Enqueue(job) =>
      s.(accepted := s.accepted + [job], queue := s.queue + [|s.accepted|], uncounted := s.uncounted + 1)
    case CountQueued => s.(uncounted := s.uncounted - 1, unraised := s.unraised + 1, queued := s.queued + 1)
    case RaiseDepth => s.(unraised := s.unraised - 1, depth := s.depth + 1)
    case Dequeue => s.(dispatcher := Dequeued(s.queue[0]), queue := s.queue[1..])
    case LowerDepth =>
      var n := s.dispatcher.item;
      s.(dispatcher := Holding(n), depth := s.depth - 1, channels := s.channels[n := []])
    case Submit =>
      var n := s.dispatcher.item;
      s.(dispatcher := Submitted(n), pool := s.pool + [n])
    case Spawn =>
      s.(dispatcher := Waiting, waiters := s.waiters + [Waiter(s.dispatcher.item, Blocked)])
    case Pick(w) =>
      s.(workers := s.workers[w := Running(s.pool[0])], pool := s.pool[1..], picked := s.picked + [s.pool[0]])
    case Finish(w, o) =>
      var n := s.workers[w].item;
      var r := WorkerResult(s.accepted[n], o);
      s.(workers := s.workers[w := Sending(n, r)], made := s.made[n := r])
    case Send(w) =>
      var n, r := s.workers[w].item, s.workers[w].r;
      s.(workers := s.workers[w := Idle], channels := s.channels[n := s.channels[n] + [r]])
    case Receive(k) =>
      var n := s.waiters[k].item;
      s.(waiters := WithPhase(s.waiters, k, Got(s.channels[n][0])), channels := s.channels[n := s.channels[n][1..]])
    case CountDone(k) =>
      var r := s.waiters[k].phase.r;
      var s' := s.(waiters := WithPhase(s.waiters, k, Counted(r)));
      if r.summary.total >= 0 then s'.(completed := s.completed + 1) else s'.(failed := s.failed + 1)
    case Store(k) =>
      var n, r := s.waiters[k].item, s.waiters[k].phase.r;
      s.(waiters := WithPhase(s.waiters, k, Done), results := s.results[s.accepted[n].id := r],
         stored := s.stored + [n])
  }

  // ---------------------------------------------------------------- invariants

  function Range(n: nat): seq<Item> {
    seq(n, i => i)
  }

  /** The job the dispatcher took from the queue and has not yet put in the pool. */
  function Held(d: Dispatcher): seq<Item> {
    if d.Dequeued? || d.Holding? then [d.item] else []
  }

  function InPool(s: State): nat {
    |s.picked| + |s.pool|
  }

  /** Jobs move through the front half in acceptance order. */
  ghost predicate Ordered(s: State) {
    && s.picked + s.pool + Held(s.dispatcher) + s.queue == Range(|s.accepted|)
    && |s.waiters| + (if s.dispatcher.Submitted? then 1 else 0) == InPool(s)
    && (s.dispatcher.Submitted? ==> s.dispatcher.item == |s.waiters|)
    && (forall k :: 0 <= k < |s.waiters| ==> s.waiters[k].item == k)
    && (forall n: Item :: n in s.channels <==> n < InPool(s) + if s.dispatcher.Holding? then 1 else 0)
  }

  predicate Busy(s: State, n: Item, w: nat) {
    w < |s.workers| && !s.workers[w].Idle? && s.workers[w].item == n
  }

  ghost predicate AtSomeWorker(s: State, n: Item) {
    exists w :: Busy(s, n, w)
  }

  predicate HasMail(s: State, n: Item) {
    n in s.channels && s.channels[n] != []
  }

  predicate Received(s: State, n: Item) {
    n < |s.waiters| && !s.waiters[n].phase.Blocked?
  }

  /** A picked-up job is with one worker, or its result waits in its channel, or was received. */
  ghost predicate SlotOk(s: State, n: Item) {
    && (n < |s.picked| <==> AtSomeWorker(s, n) || HasMail(s, n) || Received(s, n))
    && !(AtSomeWorker(s, n) && HasMail(s, n))
    && !(AtSomeWorker(s, n) && Received(s, n))
    && !(HasMail(s, n) && Received(s, n))
    && (n in s.channels ==> |s.channels[n]| <= 1)
    && (forall w, w' :: Busy(s, n, w) && Busy(s, n, w') ==> w == w')
  }

  ghost predicate Slots(s: State) {
    forall n: Item :: SlotOk(s, n)
  }

  /** The result is the one a worker made for this job. */
  predicate Faithful(s: State, n: Item, r: AnalysisResult) {
    n < |s.accepted| && n in s.made && r == s.made[n]
  }

  predicate Carries(s: State, k: int) {
    0 <= k < |s.waiters| && (s.waiters[k].phase.Got? || s.waiters[k].phase.Counted?)
  }

  /** What workers made for the accepted jobs. */
  ghost predicate Made(accepted: seq<Job>, made: map<Item, AnalysisResult>) {
    forall n :: n in made ==> n < |accepted| && MadeFor(accepted[n], made[n])
  }

  // Every result on its way is the one that was made: at a worker, in a channel, and with a waiter.

  ghost predicate WorkersDeliver(s: State) {
    forall w :: 0 <= w < |s.workers| && s.workers[w].Sending? ==> Faithful(s, s.workers[w].item, s.workers[w].r)
  }

  ghost predicate MailDelivers(s: State) {
    forall n :: HasMail(s, n) ==> Faithful(s, n, s.channels[n][0])
  }

  ghost predicate WaitersDeliver(s: State) {
    forall k :: Carries(s, k) ==> Faithful(s, s.waiters[k].item, s.waiters[k].phase.r)
  }

  ghost predicate Delivers(s: State) {
    WorkersDeliver(s) && MailDelivers(s) && WaitersDeliver(s)
  }

  ghost predicate Values(s: State) {
    Made(s.accepted, s.made) && Delivers(s)
  }

  ghost predicate Known(accepted: seq<Job>, made: map<Item, AnalysisResult>, items: seq<Item>) {
    forall i :: 0 <= i < |items| ==> items[i] < |accepted| && items[i] in made
  }

  /** The store after filing the results of these items in turn. */
  function Filed(accepted: seq<Job>, made: map<Item, AnalysisResult>, items: seq<Item>): map<string, AnalysisResult>
    requires Known(accepted, made, items)
  {
    if items == [] then map[]
    else
      var n := |items| - 1;
      Filed(accepted, made, items[..n])[accepted[items[n]].id := made[items[n]]]
  }

  ghost predicate Stored(s: State) {
    && (forall k :: 0 <= k < |s.waiters| ==> (s.waiters[k].phase.Done? <==> k in s.stored))
    && (forall n :: n in s.stored ==> n < |s.waiters|)
    && Known(s.accepted, s.made, s.stored)
    && s.results == Filed(s.accepted, s.made, s.stored)
  }

  function CountedWaiters(ws: seq<Waiter>): nat {
    if ws == [] then 0
    else CountedWaiters(ws[..|ws| - 1])
         + if ws[|ws| - 1].phase.Counted? || ws[|ws| - 1].phase.Done? then 1 else 0
  }

  /** The gauge and the submission counter, and the channels' bounds. */
  ghost predicate Gauges(s: State) {
    && s.queued + s.uncounted == |s.accepted|
    && s.depth + s.uncounted + s.unraised - (if s.dispatcher.Dequeued? then 1 else 0) == |s.queue|
    && |s.queue| <= 512 && |s.pool| <= 4 * |s.workers|
  }

  /** The completion counters. */
  ghost predicate Totals(s: State) {
    s.completed == CountedWaiters(s.waiters) && s.failed == 0
  }

  ghost predicate Inv(s: State) {
    Ordered(s) && Slots(s) && Values(s) && Stored(s) && Gauges(s) && Totals(s)
  }

  // ---------------------------------------------------------------- each invariant is kept

  // Order.

  /** The job at the dispatcher is the next one in line. */
  lemma HeldIsNext(s: State)
    requires Ordered(s) && Held(s.dispatcher) != []
    ensures s.dispatcher.item == InPool(s) < |s.accepted|
  {
    var all := s.picked + s.pool + Held(s.dispatcher) + s.queue;
    assert all[InPool(s)] == s.dispatcher.item;
  }

  /** The pool's head is the next one to be picked up. */
  lemma PoolHeadIsNext(s: State)
    requires Ordered(s) && s.pool != []
    ensures s.pool[0] == |s.picked| < |s.accepted|
  {
    var all := s.picked + s.pool + Held(s.dispatcher) + s.queue;
    assert all[|s.picked|] == s.pool[0];
  }

  lemma PickedAreAccepted(s: State, n: Item)
    requires Ordered(s) && n < InPool(s)
    ensures n < |s.accepted|
  {
  }

  ghost predicate SameOrder(s: State, s': State) {
    && s'.picked == s.picked && s'.pool == s.pool && s'.dispatcher == s.dispatcher && s'.queue == s.queue
    && |s'.accepted| == |s.accepted| && s'.channels.Keys == s.channels.Keys
    && |s'.waiters| == |s.waiters|
    && forall k :: 0 <= k < |s.waiters| ==> s'.waiters[k].item == s.waiters[k].item
  }

  lemma OrderedFrame(s: State, s': State)
    requires Ordered(s) && SameOrder(s, s')
    ensures Ordered(s')
  {
  }

  lemma OrderedEnqueue(s: State, job: Job)
    requires Ordered(s) && Enabled(s, Enqueue(job))
    ensures Ordered(Next(s, Enqueue(job)))
  {
    var s' := Next(s, Enqueue(job));
    var front := s.picked + s.pool + Held(s.dispatcher);
    assert front + s'.queue == (front + s.queue) + [|s.accepted|];
    assert Range(|s'.accepted|) == Range(|s.accepted|) + [|s.accepted|];
  }

  lemma OrderedDequeue(s: State)
    requires Ordered(s) && Enabled(s, Dequeue)
    ensures Ordered(Next(s, Dequeue))
  {
  }

  lemma OrderedSubmit(s: State)
    requires Ordered(s) && Enabled(s, Submit)
    ensures Ordered(Next(s, Submit))
  {
    var s' := Next(s, Submit);
    HeldIsNext(s);
    assert s'.picked + s'.pool + Held(s'.dispatcher) == s.picked + s.pool + Held(s.dispatcher);
  }

  lemma OrderedPick(s: State, w: nat)
    requires Ordered(s) && Enabled(s, Pick(w))
    ensures Ordered(Next(s, Pick(w)))
  {
    var s' := Next(s, Pick(w));
    assert s.pool == [s.pool[0]] + s.pool[1..];
    assert s'.picked + s'.pool == s.picked + s.pool;
    assert InPool(s') == InPool(s);
  }

  lemma OrderedLowerDepth(s: State)
    requires Ordered(s) && Enabled(s, LowerDepth)
    ensures Ordered(Next(s, LowerDepth))
  {
    HeldIsNext(s);
  }

  lemma OrderedSpawn(s: State)
    requires Ordered(s) && Enabled(s, Spawn)
    ensures Ordered(Next(s, Spawn))
  {
  }

  lemma OrderedOther(s: State, step: Step)
    requires Ordered(s) && Enabled(s, step)
    requires step.CountQueued? || step.RaiseDepth? || step.Finish? || step.Send?
             || step.Receive? || step.CountDone? || step.Store?
    ensures Ordered(Next(s, step))
  {
    OrderedFrame(s, Next(s, step));
  }

  lemma OrderedKept(s: State, step: Step)
    requires Ordered(s) && Enabled(s, step)
    ensures Ordered(Next(s, step))
  {
    match step {
      case Enqueue(job) => OrderedEnqueue(s, job);
      case Dequeue => OrderedDequeue(s);
      case LowerDepth => OrderedLowerDepth(s);
      case Submit => OrderedSubmit(s);
      case Spawn => OrderedSpawn(s);
      case Pick(w) => OrderedPick(s, w);
      case _ => OrderedOther(s, step);
    }
  }
}
