/** The race on the broker itself: a publish with one unsubscribe, and a publish amid any schedule. */
module SseRaceRuns {
  import opened Models
  import opened SseBroker
  import opened SseSlices
  import opened SseRaces

  // ---------------------------------------------------------------- one unsubscribe

  function Visits(k: nat): seq<Move> {
    seq(k, _ => Visit)
  }

  /** The race after k undisturbed visits. */
  function Advanced(r: Race, k: nat): Race
    requires r.idx + k <= r.head <= |r.slots|
  {
    r.(idx := r.idx + k, sent := r.sent + r.slots[r.idx..r.idx + k])
  }

  lemma AdvancedNext(r: Race, k: nat)
    requires Sound(r) && 0 < k && r.idx + k <= r.head
    ensures Advanced(Moved(r, Visit), k - 1) == Advanced(r, k)
  {
    assert r.sent + [r.slots[r.idx]] + r.slots[r.idx + 1..r.idx + k] == r.sent + r.slots[r.idx..r.idx + k];
  }

  lemma VisitsCons(k: nat, ms: seq<Move>)
    requires k > 0
    ensures Visits(k) + ms == [Visit] + (Visits(k - 1) + ms)
  {
  }

  lemma {:induction false} Undisturbed(r: Race, k: nat, ms: seq<Move>, all: seq<Move>)
    requires Sound(r) && r.idx + k <= r.head && Plays(Advanced(r, k), ms) && all == Visits(k) + ms
    ensures Plays(r, all) && Final(r, all) == Final(Advanced(r, k), ms)
    decreases k
  {
    if k == 0 {
      assert all == ms && Advanced(r, 0) == r;
    } else {
      var rest := Visits(k - 1) + ms;
      AdvancedNext(r, k);
      Undisturbed(Moved(r, Visit), k - 1, ms, rest);
      VisitsCons(k, ms);
      FinalCons(r, Visit, Moved(r, Visit), rest, all);
    }
  }

  lemma VisitsOnly(r: Race, k: nat)
    requires Sound(r) && r.idx + k <= r.head
    ensures Plays(r, Visits(k)) && Final(r, Visits(k)) == Advanced(r, k)
  {
    assert Visits(k) + [] == Visits(k);
    Undisturbed(r, k, [], Visits(k));
  }

  /** With a single unsubscribe after idx visits, the machine sends to what PublishAroundUnsubscribe returns. */
  lemma OneUnsubscribe(list: seq<ChanId>, spare: seq<ChanId>, c: ChanId, i: nat, idx: nat, ms: seq<Move>)
    requires i == FirstIndex(list, c) < |list| && idx <= |list|
    requires ms == Visits(idx) + ([Remove(c)] + Visits(|list| - idx))
    ensures Completes(list, spare, ms) && Sent(list, spare, ms) == Raced(list, i, idx)
  {
    var half, cut := AfterTheCut(list, spare, c, i, idx);
    AroundOneMove(Begin(list, spare), idx, Remove(c), half, cut, |list| - idx, ms);
  }

  lemma AfterTheCut(list: seq<ChanId>, spare: seq<ChanId>, c: ChanId, i: nat, idx: nat) returns (half: Race, cut: Race)
    requires i == FirstIndex(list, c) < |list| && idx <= |list|
    ensures half == Advanced(Begin(list, spare), idx) && Sound(half)
    ensures cut == Moved(half, Remove(c)) && Sound(cut) && cut.idx == idx && cut.head == |list|
    ensures cut.sent + cut.slots[idx..|list|] == Raced(list, i, idx)
  {
    half := Halfway(list, spare, idx);
    cut := CutHalfway(list, spare, c, i, idx, half);
    RacedFromSlots(list, spare, i, idx);
  }

  lemma Halfway(list: seq<ChanId>, spare: seq<ChanId>, idx: nat) returns (half: Race)
    requires idx <= |list| && list != []
    ensures half == Advanced(Begin(list, spare), idx) && Sound(half)
    ensures half == Race(list + spare, |list|, list, true, idx, list[..idx])
  {
    half := Advanced(Begin(list, spare), idx);
    assert half.sent == list[..idx];
  }

  lemma CutHalfway(list: seq<ChanId>, spare: seq<ChanId>, c: ChanId, i: nat, idx: nat, half: Race) returns (cut: Race)
    requires i == FirstIndex(list, c) < |list| && idx <= |list|
    requires half == Race(list + spare, |list|, list, true, idx, list[..idx]) && Sound(half)
    ensures cut == Moved(half, Remove(c)) && Sound(cut)
    ensures cut == Race(ShiftOut(list + spare, i, |list|), |list|, Cut(list, i), |list| > 1, idx, list[..idx])
  {
    cut := Moved(half, Remove(c));
    SoundKept(half, Remove(c));
  }

  lemma RacedFromSlots(list: seq<ChanId>, spare: seq<ChanId>, i: nat, idx: nat)
    requires i < |list| && idx <= |list|
    ensures list[..idx] + ShiftOut(list + spare, i, |list|)[idx..|list|] == Raced(list, i, idx)
  {
    assert (list + spare)[..|list|] == list && (list + spare)[..idx] == list[..idx];
    RacedFromArray(list + spare, i, idx, |list|);
  }

  /** A publish with one move of others in between. */
  lemma AroundOneMove(r: Race, k: nat, m: Move, half: Race, r': Race, k': nat, ms: seq<Move>)
    requires Sound(r) && r.idx + k <= r.head && half == Advanced(r, k) && Sound(half) && Can(half, m)
    requires r' == Moved(half, m) && Sound(r') && r'.idx + k' <= r'.head
    requires ms == Visits(k) + ([m] + Visits(k'))
    ensures Plays(r, ms) && Final(r, ms).idx == r'.idx + k' && Final(r, ms).sent == r'.sent + r'.slots[r'.idx..r'.idx + k']
  {
    VisitsOnly(r', k');
    var later := [m] + Visits(k');
    FinalCons(half, m, r', Visits(k'), later);
    Undisturbed(r, k, later, ms);
  }

  // ---------------------------------------------------------------- the broker runs the race

  /** The broker's arrays, and the header h that a publisher of this job read, are in the state r. */
  ghost predicate Mirrors(b: Broker, job: string, h: Slice, r: Race)
    reads b, b.Arrays(), h.data
  {
    && b.Valid() && Sound(r)
    && r.slots == h.data[..] && r.head == h.len && r.list == ListOf(b.Lists(), job)
    && (r.shared <==> job in b.subscribers && b.subscribers[job].data == h.data)
    && (!r.shared ==> h.data as object !in b.Arrays())
  }

  method UnsubscribeDuring(b: Broker, job: string, h: Slice, c: ChanId, ghost r: Race)
    requires Mirrors(b, job, h, r)
    modifies b, b.Arrays()
    ensures Mirrors(b, job, h, Moved(r, Remove(c)))
    ensures b.Arrays() <= old(b.Arrays())
  {
    ghost var subs, lists, r' := b.subscribers, b.Lists(), Moved(r, Remove(c));
    OnlyHere(b, job, h, r);
    SoundKept(r, Remove(c));
    RemovedList(r, c);
    b.Unsubscribe(job, c);
    assert h.data[..] == r'.slots;
    MirrorsAfterRemove(b, job, h, c, r, r', subs, lists);
  }

  /** No job but this one uses the publisher's array, and this one only while it shares it. */
  ghost predicate UsedOnlyBy(subs: map<string, Slice>, job: string, data: array<ChanId>, shared: bool) {
    && (shared <==> job in subs && subs[job].data == data)
    && (forall j :: j in subs && j != job ==> subs[j].data != data)
  }

  lemma OnlyHere(b: Broker, job: string, h: Slice, r: Race)
    requires Mirrors(b, job, h, r)
    ensures UsedOnlyBy(b.subscribers, job, h.data, r.shared)
  {
    forall j | j in b.subscribers && j != job
      ensures b.subscribers[j].data != h.data
    {
      assert b.subscribers[j].data as object in b.Arrays();
    }
  }

  lemma MirrorsAfterRemove(b: Broker, job: string, h: Slice, c: ChanId, r: Race, r': Race,
                           subs: map<string, Slice>, lists: map<string, seq<ChanId>>)
    requires b.Valid() && Sound(r) && r' == Moved(r, Remove(c)) && Sound(r')
    requires r.list == ListOf(lists, job) && r'.list == Without(r.list, c) && r.head == h.len && r'.slots == h.data[..]
    requires UsedOnlyBy(subs, job, h.data, r.shared) && b.Lists() == Dropped(lists, job, c)
    requires b.subscribers - {job} == subs - {job}
    requires job in b.subscribers ==> job in subs && b.subscribers[job].data == subs[job].data
    ensures Mirrors(b, job, h, r')
  {
    DroppedList(lists, job, c);
    assert job in b.subscribers <==> r'.list != [];
    assert r'.shared <==> job in b.subscribers && b.subscribers[job].data == h.data;
    OthersElsewhere(b.subscribers, subs, job, h.data, r.shared);
    assert !r'.shared ==> forall j :: j in b.subscribers ==> b.subscribers[j].data != h.data;
  }

  lemma OthersElsewhere(now: map<string, Slice>, was: map<string, Slice>, job: string, data: array<ChanId>, shared: bool)
    requires UsedOnlyBy(was, job, data, shared) && now - {job} == was - {job}
    ensures forall j :: j in now && j != job ==> now[j].data != data
  {
    forall j | j in now && j != job
      ensures now[j].data != data
    {
      assert j in now - {job} && j in was - {job} && (now - {job})[j] == (was - {job})[j];
    }
  }

  lemma RemovedList(r: Race, c: ChanId)
    requires Sound(r)
    ensures Moved(r, Remove(c)).list == Without(r.list, c)
  {
    if FirstIndex(r.list, c) < |r.list| {
      WithoutAt(r.list, c, FirstIndex(r.list, c));
    } else {
      assert r.list[..|r.list|] == r.list;
      WithoutProps(r.list, c);
    }
  }

  lemma DroppedList(lists: map<string, seq<ChanId>>, job: string, c: ChanId)
    ensures ListOf(Dropped(lists, job, c), job) == Without(ListOf(lists, job), c)
    ensures job in Dropped(lists, job, c) <==> Without(ListOf(lists, job), c) != []
  {
  }

  method SubscribeDuring(b: Broker, job: string, h: Slice, c: ChanId, spare: nat, ghost r: Race)
    requires Mirrors(b, job, h, r)
    modifies b, b.Arrays()
    ensures Mirrors(b, job, h, Moved(r, Join(c)))
    ensures forall o :: o in b.Arrays() ==> o in old(b.Arrays()) || fresh(o)
  {
    b.Subscribe(job, c, spare);
    SoundKept(r, Join(c));
  }

  lemma FinalStep(r: Race, ms: seq<Move>, k: nat)
    requires Sound(r) && k < |ms| && Plays(r, ms[k..])
    ensures Can(r, ms[k]) && Sound(Moved(r, ms[k])) && Plays(Moved(r, ms[k]), ms[k + 1..])
    ensures Final(r, ms[k..]) == Final(Moved(r, ms[k]), ms[k + 1..])
  {
    assert ms[k..][0] == ms[k] && ms[k..][1..] == ms[k + 1..];
  }

  /** One move of the schedule, carried out on the broker. */
  method Play(b: Broker, job: string, h: Slice, m: Move, spare: nat, idx0: nat, sent0: seq<ChanId>, ghost r: Race)
    returns (idx: nat, sent: seq<ChanId>)
    requires Mirrors(b, job, h, r) && Can(r, m) && r.idx == idx0 && r.sent == sent0
    modifies b, b.Arrays()
    ensures Mirrors(b, job, h, Moved(r, m)) && Moved(r, m).idx == idx && Moved(r, m).sent == sent
    ensures forall o :: o in b.Arrays() ==> o in old(b.Arrays()) || fresh(o)
  {
    idx, sent := idx0, sent0;
    match m
    case Visit =>
      sent, idx := sent + [h.data[idx]], idx + 1;
      SoundKept(r, m);
    case Remove(c) =>
      UnsubscribeDuring(b, job, h, c, r);
    case Join(c) =>
      SubscribeDuring(b, job, h, c, spare, r);
  }

  /** Publish as it can interleave: the header is read once, and between its visits the schedule's subscribes and
      unsubscribes run. The channels it sends to are those of the machine. */
  method PublishAmid(b: Broker, job: string, ms: seq<Move>, spare: nat, ghost r0: Race) returns (sent: seq<ChanId>)
    requires b.Valid() && job in b.subscribers && Mirrors(b, job, b.subscribers[job], r0)
    requires r0.idx == 0 && r0.sent == [] && Plays(r0, ms)
    modifies b, b.Arrays()
    ensures sent == Final(r0, ms).sent
  {
    var h, idx := b.subscribers[job], 0;
    ghost var r := r0;
    sent := [];
    for k := 0 to |ms|
      invariant Mirrors(b, job, h, r) && r.idx == idx && r.sent == sent
      invariant Plays(r, ms[k..]) && Final(r, ms[k..]) == Final(r0, ms)
      invariant forall o :: o in b.Arrays() ==> o in old(b.Arrays()) || fresh(o)
    {
      FinalStep(r, ms, k);
      idx, sent := Play(b, job, h, ms[k], spare, idx, sent, r);
      r := Moved(r, ms[k]);
    }
  }

  /** What a publisher finds when it reads its header. */
  lemma HeaderIsBegin(b: Broker, job: string)
    requires b.Valid() && job in b.subscribers && b.subscribers[job].len > 0
    ensures var h := b.subscribers[job]; Mirrors(b, job, h, Begin(b.Lists()[job], h.data[h.len..]))
  {
    var h := b.subscribers[job];
    assert h.data[..] == h.data[..h.len] + h.data[h.len..];
  }
}
