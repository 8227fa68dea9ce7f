/** The gateway's server-sent-events broker: per-job subscriber lists kept in Go slices, and
    publishers that drop an event rather than wait for a slow subscriber. */
module SseBroker {
  import opened Models

  type ChanId = nat

  const CHAN_CAP := 64

  // ---------------------------------------------------------------- atomic steps

  /** Subscriber lists, the pending events of every channel ever made, and what was received from it. */
  datatype State = State(lists: map<string, seq<ChanId>>, pend: map<ChanId, seq<JobEvent>>, taken: map<ChanId, seq<JobEvent>>)

  const Start := State(map[], map[], map[])

  datatype Step =
    | Subscribe(job: string, c: ChanId)
    | Unsubscribe(job: string, c: ChanId)
    | Publish(job: string, e: JobEvent)
    | PublishAll(e: JobEvent)
    | Take(c: ChanId)

  /** A non-blocking send that drops the event when the buffer is full. */
  function Offered(buffer: seq<JobEvent>, e: JobEvent): seq<JobEvent> {
    if |buffer| < CHAN_CAP then buffer + [e] else buffer
  }

  function OfferTo(pend: map<ChanId, seq<JobEvent>>, targets: set<ChanId>, e: JobEvent): map<ChanId, seq<JobEvent>> {
    map c | c in pend :: if c in targets then Offered(pend[c], e) else pend[c]
  }

  function ListOf(lists: map<string, seq<ChanId>>, job: string): seq<ChanId> {
    if job in lists then lists[job] else []
  }

  function Members(list: seq<ChanId>): set<ChanId> {
    set c | c in list
  }

  function Everyone(lists: map<string, seq<ChanId>>): set<ChanId> {
    set job, c | job in lists && c in lists[job] :: c
  }

  /** The list without the first occurrence of c. */
  function Without(list: seq<ChanId>, c: ChanId): seq<ChanId> {
    if list == [] then [] else if list[0] == c then list[1..] else [list[0]] + Without(list[1..], c)
  }

  function Dropped(lists: map<string, seq<ChanId>>, job: string, c: ChanId): map<string, seq<ChanId>> {
    var rest := Without(ListOf(lists, job), c);
    if rest == [] then lists - {job} else lists[job := rest]
  }

  predicate Enabled(s: State, step: Step) {
    match step
    case Subscribe(_, c) => c !in s.pend
    case Take(c) => c in s.pend && c in s.taken && s.pend[c] != []
    case _ => true
  }

  function Next(s: State, step: Step): State {
    match step
    case Subscribe(job, c) =>
      s.(lists := s.lists[job := ListOf(s.lists, job) + [c]], pend := s.pend[c := []], taken := s.taken[c := []])
    case Unsubscribe(job, c) => s.(lists := Dropped(s.lists, job, c))
    case Publish(job, e) => s.(pend := OfferTo(s.pend, Members(ListOf(s.lists, job)), e))
    case PublishAll(e) => s.(pend := OfferTo(s.pend, Everyone(s.lists), e))
    case Take(c) =>
      if Enabled(s, step) then
        s.(pend := s.pend[c := s.pend[c][1..]], taken := s.taken[c := s.taken[c] + [s.pend[c][0]]])
      else s
  }

  predicate NoDup(list: seq<ChanId>) {
    forall i, j :: 0 <= i < j < |list| ==> list[i] != list[j]
  }

  /** Each channel sits at most once in at most one list, and no job keeps an empty list. */
  ghost predicate Tidy(lists: map<string, seq<ChanId>>) {
    && (forall job :: job in lists ==> lists[job] != [] && NoDup(lists[job]))
    && (forall job, job', c :: job in lists && job' in lists && c in lists[job] && c in lists[job'] ==> job == job')
  }

  ghost predicate Inv(s: State) {
    && Tidy(s.lists)
    && (forall job, c :: job in s.lists && c in s.lists[job] ==> c in s.pend)
    && s.pend.Keys == s.taken.Keys
  }

  lemma {:induction false} WithoutProps(list: seq<ChanId>, c: ChanId)
    ensures forall d :: d in Without(list, c) ==> d in list
    ensures forall d :: d in list && d != c ==> d in Without(list, c)
    ensures NoDup(list) ==> NoDup(Without(list, c)) && c !in Without(list, c)
    ensures c !in list ==> Without(list, c) == list
  {
    if list != [] {
      WithoutProps(list[1..], c);
      if list[0] != c {
        var rest := Without(list[1..], c);
        assert Without(list, c) == [list[0]] + rest;
        if NoDup(list) {
          assert list[0] !in list[1..];
        }
        assert list == [list[0]] + list[1..];
      } else if NoDup(list) {
        assert c !in list[1..];
      }
    }
  }

  lemma TidyKept(s: State, step: Step)
    requires Inv(s) && Enabled(s, step)
    ensures Inv(Next(s, step))
  {
    match step {
      case Subscribe(job, c) =>
        assert forall j :: j in s.lists ==> c !in s.lists[j];
        assert NoDup(ListOf(s.lists, job) + [c]);
      case Unsubscribe(job, c) =>
        WithoutProps(ListOf(s.lists, job), c);
      case _ =>
    }
  }

  // ---------------------------------------------------------------- runs

  function After(steps: seq<Step>): State {
    if steps == [] then Start else Next(After(steps[..|steps| - 1]), steps[|steps| - 1])
  }

  predicate EnabledAt(steps: seq<Step>, i: nat)
    requires i < |steps|
  {
    Enabled(After(steps[..i]), steps[i])
  }

  ghost predicate Feasible(steps: seq<Step>) {
    forall i :: 0 <= i < |steps| ==> EnabledAt(steps, i)
  }

  lemma FeasibleInit(steps: seq<Step>)
    requires Feasible(steps) && steps != []
    ensures var n := |steps| - 1; Feasible(steps[..n]) && Enabled(After(steps[..n]), steps[n])
  {
    var n := |steps| - 1;
    forall i | 0 <= i < n
      ensures EnabledAt(steps[..n], i)
    {
      assert steps[..n][..i] == steps[..i];
      assert EnabledAt(steps, i);
    }
    assert EnabledAt(steps, n);
  }

  /** In every run each channel sits at most once under one job and no job maps to an empty list. */
  lemma {:induction false} ListsStayTidy(steps: seq<Step>)
    requires Feasible(steps)
    ensures Inv(After(steps))
  {
    if steps != [] {
      FeasibleInit(steps);
      ListsStayTidy(steps[..|steps| - 1]);
      TidyKept(After(steps[..|steps| - 1]), steps[|steps| - 1]);
    }
  }

  // ---------------------------------------------------------------- one subscriber's view

  datatype Op = Offer(e: JobEvent) | Pull

  /** The job channel c is subscribed to after a run, read off the run alone. */
  function SubscribedTo(steps: seq<Step>, c: ChanId): Option<string> {
    if steps == [] then None
    else
      var before := SubscribedTo(steps[..|steps| - 1], c);
      match steps[|steps| - 1]
      case Subscribe(job, d) => if d == c then Some(job) else before
      case Unsubscribe(job, d) => if d == c && before == Some(job) then None else before
      case _ => before
  }

  /** What one step means to a channel subscribed to `sub`. */
  function OwnOp(sub: Option<string>, step: Step, c: ChanId): seq<Op> {
    match step
    case Publish(job, e) => if sub == Some(job) then [Offer(e)] else []
    case PublishAll(e) => if sub.Some? then [Offer(e)] else []
    case Take(d) => if d == c then [Pull] else []
    case _ => []
  }

  /** The events addressed to c while subscribed, interleaved with its own receives. */
  function Own(steps: seq<Step>, c: ChanId): seq<Op> {
    if steps == [] then []
    else
      var init := steps[..|steps| - 1];
      Own(init, c) + OwnOp(SubscribedTo(init, c), steps[|steps| - 1], c)
  }

  datatype Box = Box(pend: seq<JobEvent>, taken: seq<JobEvent>)

  function BoxStep(b: Box, op: Op): Box {
    match op
    case Offer(e) => b.(pend := Offered(b.pend, e))
    case Pull => if b.pend == [] then b else Box(b.pend[1..], b.taken + [b.pend[0]])
  }

  /** A lone bounded mailbox. */
  function Mailbox(ops: seq<Op>): Box {
    if ops == [] then Box([], []) else BoxStep(Mailbox(ops[..|ops| - 1]), ops[|ops| - 1])
  }

  /** SubscribedTo agrees with the lists. */
  ghost predicate Agrees(s: State, c: ChanId, sub: Option<string>) {
    forall job :: (job in s.lists && c in s.lists[job]) <==> sub == Some(job)
  }

  lemma AgreesKept(s: State, step: Step, c: ChanId, sub: Option<string>)
    requires Inv(s) && Enabled(s, step) && Agrees(s, c, sub)
    ensures var sub' := match step {
              case Subscribe(job, d) => if d == c then Some(job) else sub
              case Unsubscribe(job, d) => if d == c && sub == Some(job) then None else sub
              case _ => sub };
            Agrees(Next(s, step), c, sub')
  {
    match step {
      case Subscribe(job, d) =>
        assert ListOf(s.lists, job) + [d] != [];
        assert c in ListOf(s.lists, job) + [d] <==> c == d || c in ListOf(s.lists, job);
      case Unsubscribe(job, d) =>
        WithoutProps(ListOf(s.lists, job), d);
      case _ =>
    }
  }

  /** One step moves channel c as its own mailbox operation does. */
  lemma StepIsOwnOp(s: State, step: Step, c: ChanId, sub: Option<string>)
    requires Inv(s) && Enabled(s, step) && Agrees(s, c, sub) && c in s.pend
    ensures var s', ops := Next(s, step), OwnOp(sub, step, c);
            && c in s'.pend && c in s'.taken
            && Box(s'.pend[c], s'.taken[c]) ==
               if ops == [] then Box(s.pend[c], s.taken[c]) else BoxStep(Box(s.pend[c], s.taken[c]), ops[0])
  {
  }

  /** Every channel behaves as a mailbox of its own: what it holds and what was received from it
      depend only on the events addressed to it while subscribed and on its own receives. */
  lemma {:induction false} SubscriberIsAMailbox(steps: seq<Step>, c: ChanId)
    requires Feasible(steps)
    ensures var s := After(steps);
            && Agrees(s, c, SubscribedTo(steps, c))
            && (if c in s.pend then c in s.taken && Box(s.pend[c], s.taken[c]) == Mailbox(Own(steps, c))
                else Own(steps, c) == [] && SubscribedTo(steps, c) == None)
  {
    if steps != [] {
      var n := |steps| - 1;
      var init, step := steps[..n], steps[n];
      FeasibleInit(steps);
      ListsStayTidy(init);
      SubscriberIsAMailbox(init, c);
      var s, sub := After(init), SubscribedTo(init, c);
      AgreesKept(s, step, c, sub);
      var ops := OwnOp(sub, step, c);
      if c in s.pend {
        StepIsOwnOp(s, step, c, sub);
        if ops != [] {
          assert (Own(init, c) + ops)[..|Own(init, c)|] == Own(init, c);
        } else {
          assert Own(init, c) + ops == Own(init, c);
        }
      }
    }
  }

  /** Indices of the offers that were accepted. */
  function Kept(ops: seq<Op>): seq<nat> {
    if ops == [] then []
    else
      var n := |ops| - 1;
      Kept(ops[..n]) + if ops[n].Offer? && |Mailbox(ops[..n]).pend| < CHAN_CAP then [n] else []
  }

  lemma {:induction false} KeptOffers(ops: seq<Op>)
    ensures var kept, got := Kept(ops), Mailbox(ops).taken + Mailbox(ops).pend;
            && |kept| == |got| && |Mailbox(ops).pend| <= CHAN_CAP
            && (forall k :: 0 <= k < |kept| ==> kept[k] < |ops| && ops[kept[k]] == Offer(got[k]))
            && (forall k, l :: 0 <= k < l < |kept| ==> kept[k] < kept[l])
  {
    if ops != [] {
      var n := |ops| - 1;
      var init, op := ops[..n], ops[n];
      KeptOffers(init);
      var b, b' := Mailbox(init), Mailbox(ops);
      if op.Offer? && |b.pend| < CHAN_CAP {
        assert b'.taken + b'.pend == (b.taken + b.pend) + [op.e];
        assert Kept(ops) == Kept(init) + [n];
      } else {
        assert Kept(ops) == Kept(init);
        if op.Pull? && b.pend != [] {
          assert b.pend == [b.pend[0]] + b.pend[1..];
        }
        assert b'.taken + b'.pend == b.taken + b.pend;
      }
    }
  }

  lemma {:induction false} LostIffFull(ops: seq<Op>, i: nat)
    requires i < |ops| && ops[i].Offer?
    ensures i !in Kept(ops) <==> |Mailbox(ops[..i]).pend| == 64
    decreases |ops|
  {
    var n := |ops| - 1;
    KeptOffers(ops[..n]);
    if i < n {
      assert ops[..n][..i] == ops[..i];
      LostIffFull(ops[..n], i);
    }
  }

  /** In every run, what a channel took in is an in-order subsequence, one copy of each at most, of
      the events addressed to it while subscribed, and an event is lost exactly when 64 were
      already pending. */
  lemma SubscriberReceives(steps: seq<Step>, c: ChanId)
    requires Feasible(steps) && c in After(steps).pend
    ensures var s, ops := After(steps), Own(steps, c);
            && c in s.taken
            && (var kept, got := Kept(ops), s.taken[c] + s.pend[c];
                && |kept| == |got|
                && (forall k :: 0 <= k < |kept| ==> kept[k] < |ops| && ops[kept[k]] == Offer(got[k]))
                && (forall k, l :: 0 <= k < l < |kept| ==> kept[k] < kept[l])
                && (forall i :: 0 <= i < |ops| && ops[i].Offer? ==>
                      (i !in kept <==> |Mailbox(ops[..i]).pend| == 64)))
  {
    SubscriberIsAMailbox(steps, c);
    var ops := Own(steps, c);
    KeptOffers(ops);
    forall i | 0 <= i < |ops| && ops[i].Offer?
      ensures i !in Kept(ops) <==> |Mailbox(ops[..i]).pend| == CHAN_CAP
    {
      LostIffFull(ops, i);
    }
  }

  /** What a publish does to every channel: the subscribers of the job, or all subscribers, get the event behind what
      is pending, unless 64 events are; nobody else notices. */
  lemma PublishReaches(s: State, job: string, e: JobEvent, c: ChanId)
    requires Inv(s) && c in s.pend
    ensures var one, all := Next(s, Publish(job, e)), Next(s, PublishAll(e));
            && one.lists == s.lists == all.lists && one.taken == s.taken == all.taken
            && c in one.pend && c in all.pend
            && one.pend[c] == (if job in s.lists && c in s.lists[job] && |s.pend[c]| < 64 then s.pend[c] + [e] else s.pend[c])
            && all.pend[c] == (if (exists j :: j in s.lists && c in s.lists[j]) && |s.pend[c]| < 64 then s.pend[c] + [e] else s.pend[c])
  {
  }

  /** Subscribing makes an empty channel and puts it last; unsubscribing takes it out and leaves the order of the others. */
  lemma SubscriptionMoves(s: State, job: string, c: ChanId)
    requires Inv(s)
    ensures c !in s.pend ==>
        var s' := Next(s, Subscribe(job, c));
        && s'.lists == s.lists[job := (if job in s.lists then s.lists[job] else []) + [c]]
        && s'.pend == s.pend[c := []] && s'.taken == s.taken[c := []]
    ensures job in s.lists && c in s.lists[job] ==>
        var s' := Next(s, Unsubscribe(job, c));
        exists i :: 0 <= i < |s.lists[job]| && s.lists[job][i] == c
          && s'.lists == (if |s.lists[job]| == 1 then s.lists - {job}
                          else s.lists[job := s.lists[job][..i] + s.lists[job][i + 1..]])
  {
    if job in s.lists && c in s.lists[job] {
      var i := PlaceOf(s.lists[job], c);
    }
  }

  lemma {:induction false} PlaceOf(list: seq<ChanId>, c: ChanId) returns (i: nat)
    requires c in list
    ensures i < |list| && list[i] == c && Without(list, c) == list[..i] + list[i + 1..]
    decreases |list|
  {
    if list[0] == c {
      i := 0;
    } else {
      var k := PlaceOf(list[1..], c);
      i := k + 1;
      CutLater(list, k);
    }
  }

  lemma CutLater(list: seq<ChanId>, k: nat)
    requires k + 1 < |list|
    ensures [list[0]] + (list[1..][..k] + list[1..][k + 1..]) == list[..k + 1] + list[k + 2..]
  {
  }
}
