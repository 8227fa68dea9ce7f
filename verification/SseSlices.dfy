/** The broker as the code keeps it: each list is a slice, a length over a shared backing array that
    `append` extends in place and `unsubscribe` shifts in place. */
module SseSlices {
  import opened Models
  import opened SseBroker

  datatype Slice = Slice(data: array<ChanId>, len: nat)

  /** An array whose first n slots lost slot i; the vacated slot keeps its old value. */
  function ShiftOut(s: seq<ChanId>, i: nat, n: nat): (r: seq<ChanId>)
    requires i < n <= |s|
    ensures |r| == |s|
  {
    s[..i] + s[i + 1..n] + s[n - 1..]
  }

  /** The position from which slot k is filled when slots m, .., n - 1 close up by one. */
  function Slid(k: nat, m: nat, n: nat): nat {
    if m <= k < n - 1 then k + 1 else k
  }

  lemma ShiftedSlots(s: seq<ChanId>, i: nat, n: nat)
    requires i < n <= |s|
    ensures forall k :: 0 <= k < |s| ==> ShiftOut(s, i, n)[k] == s[Slid(k, i, n)]
  {
  }

  /** A list without its position i. */
  function Cut(list: seq<ChanId>, i: nat): seq<ChanId>
    requires i < |list|
  {
    list[..i] + list[i + 1..]
  }

  lemma ShiftOutPrefix(s: seq<ChanId>, i: nat, n: nat)
    requires i < n <= |s|
    ensures ShiftOut(s, i, n)[..n - 1] == Cut(s[..n], i)
  {
  }

  method CloseGap(a: array<ChanId>, i: nat, n: nat)
    requires i < n <= a.Length
    modifies a
    ensures a[..] == ShiftOut(old(a[..]), i, n)
  {
    for k := i to n - 1
      invariant forall j :: 0 <= j < a.Length ==> a[j] == if i <= j < k then old(a[j + 1]) else old(a[j])
    {
      a[k] := a[k + 1];
    }
  }

  method Grown(list: seq<ChanId>, c: ChanId, spare: nat) returns (a: array<ChanId>)
    ensures fresh(a) && a.Length == |list| + 1 + spare && a[..|list| + 1] == list + [c]
  {
    a := new ChanId[|list| + 1 + spare](k requires 0 <= k => if k < |list| then list[k] else c);
  }

  /** Position of the first c in the list, or its length. */
  function FirstIndex(list: seq<ChanId>, c: ChanId): (i: nat)
    ensures i <= |list| && c !in list[..i] && (i < |list| ==> list[i] == c)
  {
    if list == [] || list[0] == c then 0
    else
      var i := 1 + FirstIndex(list[1..], c);
      assert list[..i] == [list[0]] + list[1..][..i - 1];
      i
  }

  lemma FirstIndexIs(list: seq<ChanId>, c: ChanId, i: nat)
    requires i <= |list| && c !in list[..i] && (i < |list| ==> list[i] == c)
    ensures FirstIndex(list, c) == i
  {
  }

  lemma {:induction false} WithoutAt(list: seq<ChanId>, c: ChanId, i: nat)
    requires i < |list| && list[i] == c && c !in list[..i]
    ensures Without(list, c) == Cut(list, i)
  {
    if i > 0 {
      assert list[0] in list[..i];
      assert list[1..][..i - 1] == list[..i][1..];
      WithoutAt(list[1..], c, i - 1);
      assert list[..i] == [list[0]] + list[1..][..i - 1];
    }
  }

  lemma DroppedIs(lists: map<string, seq<ChanId>>, job: string, c: ChanId)
    ensures Dropped(lists, job, c) ==
        var cut := if job in lists then lists[job := Without(lists[job], c)] else lists;
        if ListOf(cut, job) == [] then cut - {job} else cut
  {
  }

  ghost function ArraysOf(subs: map<string, Slice>): set<object> {
    set job | job in subs :: subs[job].data as object
  }

  lemma SameArrays(subs: map<string, Slice>, subs': map<string, Slice>, job: string)
    requires job in subs && job in subs' && subs'[job].data == subs[job].data
    requires subs' == subs[job := subs'[job]]
    ensures ArraysOf(subs') == ArraysOf(subs)
  {
    assert forall o :: o in ArraysOf(subs) ==> exists j :: j in subs' && subs'[j].data as object == o by {
      forall o | o in ArraysOf(subs)
        ensures exists j :: j in subs' && subs'[j].data as object == o
      {
        var j :| j in subs && subs[j].data as object == o;
        assert subs'[j].data as object == o;
      }
    }
  }

  /** What removing c from the list does to the array under it. */
  predicate ArrayCut(data: seq<ChanId>, was: seq<ChanId>, list: seq<ChanId>, c: ChanId) {
    |list| <= |was| && data == if FirstIndex(list, c) < |list| then ShiftOut(was, FirstIndex(list, c), |list|) else was
  }

  lemma OthersUntouched<T>(a: map<string, T>, b: map<string, T>, c: map<string, T>, job: string)
    requires job in b && b == a[job := b[job]] && (c == b || c == b - {job})
    ensures c - {job} == a - {job} && (job in c ==> c[job] == b[job])
  {
  }

  class Broker {
    var subscribers: map<string, Slice>
    var pend: map<ChanId, seq<JobEvent>>
    ghost var taken: map<ChanId, seq<JobEvent>>

    ghost function Arrays(): set<object>
      reads this`subscribers
    {
      ArraysOf(subscribers)
    }

    /** Slices in bounds, and no backing array shared between jobs. */
    ghost predicate Valid()
      reads this`subscribers, Arrays()
    {
      && (forall job :: job in subscribers ==> subscribers[job].len <= subscribers[job].data.Length)
      && (forall job, job' :: job in subscribers && job' in subscribers && job != job' ==>
            subscribers[job].data != subscribers[job'].data)
    }

    ghost function Lists(): map<string, seq<ChanId>>
      requires Valid()
      reads this`subscribers, Arrays()
    {
      map job | job in subscribers :: subscribers[job].data[..subscribers[job].len]
    }

    ghost function View(): State
      requires Valid()
      reads this, Arrays()
    {
      State(Lists(), pend, taken)
    }

    constructor ()
      ensures Valid() && View() == Start
    {
      subscribers, pend, taken := map[], map[], map[];
    }

    /** What a job's slice reads. */
    ghost function ListAt(job: string): seq<ChanId>
      requires Valid() && job in subscribers
      reads this`subscribers, Arrays()
    {
      subscribers[job].data[..subscribers[job].len]
    }

    /** `append` finds a slot left in the job's array. */
    predicate HasSlot(job: string)
      reads this`subscribers
    {
      job in subscribers && subscribers[job].len < subscribers[job].data.Length
    }

    /** The lists, when only one job's slice changed. */
    lemma OneListChanged(lists: map<string, seq<ChanId>>, job: string, list: seq<ChanId>)
      requires Valid() && job in subscribers && lists.Keys + {job} == subscribers.Keys
      requires ListAt(job) == list
      requires forall j :: j in subscribers && j != job ==> ListAt(j) == lists[j]
      ensures Lists() == lists[job := list]
    {
    }

    /** `append` with spare capacity: writes the slot after the slice. */
    method AppendInPlace(job: string, c: ChanId)
      requires Valid() && job in subscribers && subscribers[job].len < subscribers[job].data.Length
      modifies this`subscribers, subscribers[job].data
      ensures Valid() && Lists() == old(Lists())[job := old(Lists())[job] + [c]]
      ensures Arrays() == old(Arrays())
      ensures var h := old(subscribers)[job];
              h.data[..] == old(h.data[..])[h.len := c] && subscribers == old(subscribers)[job := Slice(h.data, h.len + 1)]
    {
      var h := subscribers[job];
      ghost var lists, was := Lists(), h.data[..];
      h.data[h.len] := c;
      subscribers := subscribers[job := Slice(h.data, h.len + 1)];
      SameArrays(old(subscribers), subscribers, job);
      assert h.data[..] == was[h.len := c];
      assert h.data[..h.len + 1] == h.data[..][..h.len + 1] == was[..h.len] + [c];
      OneListChanged(lists, job, was[..h.len] + [c]);
    }

    /** `append` without: copies into a larger array. */
    method AppendGrown(job: string, c: ChanId, spare: nat)
      requires Valid()
      modifies this`subscribers
      ensures Valid() && Lists() == old(Lists())[job := ListOf(old(Lists()), job) + [c]]
      ensures forall o :: o in Arrays() ==> o in old(Arrays()) || fresh(o)
      ensures job in subscribers && fresh(subscribers[job].data) && subscribers == old(subscribers)[job := subscribers[job]]
    {
      var list := if job in subscribers then subscribers[job].data[..subscribers[job].len] else [];
      var grown := Grown(list, c, spare);
      Install(job, grown, |list| + 1);
    }

    /** Stores a slice over an array that no job uses. */
    method Install(job: string, a: array<ChanId>, n: nat)
      requires Valid() && n <= a.Length && a as object !in Arrays()
      modifies this`subscribers
      ensures Valid() && Lists() == old(Lists())[job := a[..n]]
      ensures Arrays() <= old(Arrays()) + {a} && subscribers == old(subscribers)[job := Slice(a, n)]
    {
      assert forall j :: j in subscribers ==> subscribers[j].data as object in Arrays();
      ghost var lists := Lists();
      subscribers := subscribers[job := Slice(a, n)];
      OneListChanged(lists, job, a[..n]);
    }

    /** In place when the array has a slot left, and otherwise in an array of its own. */
    method Append(job: string, c: ChanId, spare: nat)
      requires Valid()
      modifies this`subscribers, Arrays()
      ensures Valid() && Lists() == old(Lists())[job := ListOf(old(Lists()), job) + [c]]
      ensures forall o :: o in Arrays() ==> o in old(Arrays()) || fresh(o)
      ensures job in subscribers && subscribers == old(subscribers)[job := subscribers[job]]
      ensures old(HasSlot(job)) ==>
          var h := old(subscribers)[job]; subscribers[job].data == h.data && h.data[..] == old(h.data[..])[h.len := c]
      ensures !old(HasSlot(job)) ==> fresh(subscribers[job].data)
      ensures !old(HasSlot(job)) && job in old(subscribers) ==> unchanged(old(subscribers)[job].data)
    {
      if HasSlot(job) {
        AppendInPlace(job, c);
      } else {
        AppendGrown(job, c, spare);
      }
    }

    method Subscribe(job: string, c: ChanId, spare: nat)
      requires Valid()
      modifies this, Arrays()
      ensures Valid() && View() == Next(old(View()), Step.Subscribe(job, c))
      ensures forall o :: o in Arrays() ==> o in old(Arrays()) || fresh(o)
      ensures job in subscribers && subscribers == old(subscribers)[job := subscribers[job]]
      ensures old(HasSlot(job)) ==>
          var h := old(subscribers)[job]; subscribers[job].data == h.data && h.data[..] == old(h.data[..])[h.len := c]
      ensures !old(HasSlot(job)) ==> fresh(subscribers[job].data)
      ensures !old(HasSlot(job)) && job in old(subscribers) ==> unchanged(old(subscribers)[job].data)
    {
      ghost var lists := Lists();
      pend, taken := pend[c := []], taken[c := []];
      Append(job, c, spare);
      assert Lists() == lists[job := ListOf(lists, job) + [c]];
    }

    /** Removes position i by shifting the rest of the slice down in place. */
    method RemoveAt(job: string, i: nat)
      requires Valid() && job in subscribers && i < subscribers[job].len
      modifies this`subscribers, subscribers[job].data
      ensures Valid() && Arrays() == old(Arrays())
      ensures var h := old(subscribers)[job];
              h.data[..] == ShiftOut(old(h.data[..]), i, h.len) && subscribers == old(subscribers)[job := Slice(h.data, h.len - 1)]
    {
      var h := subscribers[job];
      CloseGap(h.data, i, h.len);
      subscribers := subscribers[job := Slice(h.data, h.len - 1)];
      SameArrays(old(subscribers), subscribers, job);
    }

    method Find(job: string, c: ChanId) returns (i: nat)
      requires Valid() && job in subscribers
      ensures i == FirstIndex(ListAt(job), c)
    {
      var h := subscribers[job];
      i := 0;
      while i < h.len && h.data[i] != c
        invariant i <= h.len && c !in h.data[..i]
      {
        i := i + 1;
      }
      assert h.data[..i] == h.data[..h.len][..i];
      FirstIndexIs(h.data[..h.len], c, i);
    }

    method DropIfEmpty(job: string)
      requires Valid()
      modifies this`subscribers
      ensures Valid() && Arrays() <= old(Arrays())
      ensures Lists() == if ListOf(old(Lists()), job) == [] then old(Lists()) - {job} else old(Lists())
      ensures subscribers == old(subscribers) || subscribers == old(subscribers) - {job}
    {
      if job !in subscribers || subscribers[job].len == 0 {
        subscribers := subscribers - {job};
      }
    }

    /** The search and the shift, before the emptiness test. */
    method CutOut(job: string, c: ChanId)
      requires Valid() && job in subscribers
      modifies this`subscribers, subscribers[job].data
      ensures Valid() && Arrays() == old(Arrays()) && job in subscribers
      ensures ListAt(job) == Without(old(ListAt(job)), c)
      ensures ArrayCut(old(subscribers)[job].data[..], old(subscribers[job].data[..]), old(ListAt(job)), c)
      ensures subscribers[job].data == old(subscribers)[job].data && subscribers == old(subscribers)[job := subscribers[job]]
    {
      ghost var list, was := ListAt(job), subscribers[job].data[..];
      var i := Find(job, c);
      if i < subscribers[job].len {
        RemoveAt(job, i);
        WithoutAt(list, c, i);
        ShiftOutPrefix(was, i, |list|);
        assert ListAt(job) == subscribers[job].data[..][..|list| - 1];
      } else {
        assert list[..i] == list;
        WithoutProps(list, c);
      }
    }

    method CutList(job: string, c: ChanId)
      requires Valid() && job in subscribers
      modifies this`subscribers, subscribers[job].data
      ensures Valid() && Arrays() == old(Arrays()) && job in subscribers
      ensures Lists() == old(Lists())[job := Without(old(Lists())[job], c)]
      ensures ArrayCut(old(subscribers)[job].data[..], old(subscribers[job].data[..]), old(Lists())[job], c)
      ensures subscribers[job].data == old(subscribers)[job].data && subscribers == old(subscribers)[job := subscribers[job]]
    {
      ghost var lists := Lists();
      CutOut(job, c);
      OneListChanged(lists, job, Without(lists[job], c));
    }

    method Leave(job: string, c: ChanId)
      requires Valid() && job in subscribers
      modifies this`subscribers, subscribers[job].data
      ensures Valid() && Arrays() <= old(Arrays()) && Lists() == Dropped(old(Lists()), job, c)
      ensures ArrayCut(old(subscribers)[job].data[..], old(subscribers[job].data[..]), old(Lists())[job], c)
      ensures subscribers - {job} == old(subscribers) - {job}
      ensures job in subscribers ==> subscribers[job].data == old(subscribers)[job].data
    {
      ghost var lists, was := Lists(), subscribers;
      DroppedIs(lists, job, c);
      CutList(job, c);
      ghost var cut := subscribers;
      DropIfEmpty(job);
      OthersUntouched(was, cut, subscribers, job);
    }

    /** Removal by an in-place shift of the backing array. */
    method Unsubscribe(job: string, c: ChanId)
      requires Valid()
      modifies this, Arrays()
      ensures Valid() && View() == Next(old(View()), Step.Unsubscribe(job, c))
      ensures Arrays() <= old(Arrays()) && subscribers - {job} == old(subscribers) - {job}
      ensures job in old(subscribers) ==>
          && ArrayCut(old(subscribers)[job].data[..], old(subscribers[job].data[..]), old(Lists())[job], c)
          && (job in subscribers ==> subscribers[job].data == old(subscribers)[job].data)
    {
      if job in subscribers {
        Leave(job, c);
      } else {
        assert Lists() == Dropped(Lists(), job, c);
      }
    }

    /** Offers an event to the channels of a list, one after the other. */
    method OfferList(list: seq<ChanId>, e: JobEvent)
      requires NoDup(list) && forall c :: c in list ==> c in pend
      modifies this`pend
      ensures pend == OfferTo(old(pend), Members(list), e)
    {
      for i := 0 to |list|
        invariant pend == OfferTo(old(pend), Members(list[..i]), e)
      {
        var c := list[i];
        assert c !in list[..i];
        assert Members(list[..i + 1]) == Members(list[..i]) + {c};
        if |pend[c]| < CHAN_CAP {
          pend := pend[c := pend[c] + [e]];
        }
      }
      assert list[..|list|] == list;
    }

    /** Publish with no other operation in between. */
    method Publish(job: string, e: JobEvent)
      requires Valid() && Inv(View())
      modifies this`pend
      ensures Valid() && View() == Next(old(View()), Step.Publish(job, e))
    {
      if job in subscribers {
        var h := subscribers[job];
        assert h.data[..h.len] == Lists()[job];
        OfferList(h.data[..h.len], e);
      } else {
        assert OfferTo(pend, Members([]), e) == pend;
      }
    }

    /** Offers an event to the channels of every list; jobs are visited in an arbitrary order. */
    method OfferEveryone(lists: map<string, seq<ChanId>>, e: JobEvent)
      requires Inv(State(lists, pend, taken))
      modifies this`pend
      ensures pend == OfferTo(old(pend), Everyone(lists), e)
    {
      ghost var pend0 := pend;
      var todo := lists.Keys;
      ServedNone(lists, pend, e);
      while todo != {}
        invariant todo <= lists.Keys
        invariant pend == OfferTo(pend0, Served(lists, todo), e)
        decreases |todo|
      {
        var job :| job in todo;
        ListFacts(lists, pend0, taken, todo, job);
        OfferList(lists[job], e);
        OfferToUnion(pend0, Served(lists, todo), Members(lists[job]), e);
        todo := todo - {job};
      }
      assert Served(lists, {}) == Everyone(lists);
    }

    /** PublishAll holds the lock throughout. */
    method PublishAll(e: JobEvent)
      requires Valid() && Inv(View())
      modifies this`pend
      ensures Valid() && View() == Next(old(View()), Step.PublishAll(e))
    {
      var lists := map job | job in subscribers :: subscribers[job].data[..subscribers[job].len];
      assert lists == Lists();
      OfferEveryone(lists, e);
    }

    /** Publish as it can interleave: the header is read under the lock, the first idx slots are
        visited, then another goroutine unsubscribes c, then the remaining slots are visited.
        Returns the channels the publisher sends to. */
    method PublishAroundUnsubscribe(job: string, c: ChanId, idx: nat) returns (served: seq<ChanId>)
      requires Valid() && job in subscribers && idx <= subscribers[job].len
      requires FirstIndex(Lists()[job], c) < |Lists()[job]|
      modifies this, Arrays()
      ensures Valid() && View() == Next(old(View()), Step.Unsubscribe(job, c))
      ensures served == Raced(old(Lists())[job], FirstIndex(old(Lists())[job], c), idx)
    {
      ghost var i := FirstIndex(Lists()[job], c);
      var h := subscribers[job];
      var head := h.data[..idx];
      ghost var was := h.data[..];
      Unsubscribe(job, c);
      assert h.data[..] == ShiftOut(was, i, h.len);
      served := head + h.data[idx..h.len];
      assert h.data[idx..h.len] == h.data[..][idx..h.len];
      RacedFromArray(was, i, idx, h.len);
    }
  }

  lemma RacedFromArray(was: seq<ChanId>, i: nat, idx: nat, n: nat)
    requires i < n <= |was| && idx <= n
    ensures was[..idx] + ShiftOut(was, i, n)[idx..n] == Raced(was[..n], i, idx)
  {
    assert ShiftOut(was, i, n)[..n] == ShiftOut(was[..n], i, n);
    assert ShiftOut(was, i, n)[idx..n] == ShiftOut(was, i, n)[..n][idx..];
  }

  lemma ServedNone(lists: map<string, seq<ChanId>>, pend: map<ChanId, seq<JobEvent>>, e: JobEvent)
    ensures OfferTo(pend, Served(lists, lists.Keys), e) == pend
  {
  }

  lemma ListFacts(lists: map<string, seq<ChanId>>, pend: map<ChanId, seq<JobEvent>>, taken: map<ChanId, seq<JobEvent>>,
                  todo: set<string>, job: string)
    requires Inv(State(lists, pend, taken)) && job in todo && todo <= lists.Keys
    ensures NoDup(lists[job]) && Served(lists, todo) !! Members(lists[job])
    ensures forall c :: c in lists[job] ==> c in pend
    ensures Served(lists, todo - {job}) == Served(lists, todo) + Members(lists[job])
  {
  }

  /** Channels of the jobs already visited. */
  function Served(lists: map<string, seq<ChanId>>, todo: set<string>): set<ChanId> {
    set job, c | job in lists && job !in todo && c in lists[job] :: c
  }

  lemma OfferToUnion(pend: map<ChanId, seq<JobEvent>>, a: set<ChanId>, b: set<ChanId>, e: JobEvent)
    requires a !! b
    ensures OfferTo(OfferTo(pend, a, e), b, e) == OfferTo(pend, a + b, e)
  {
  }

  // ---------------------------------------------------------------- the race, exactly

  /** What a publisher reads when position i leaves after it has visited idx slots. */
  function Raced(list: seq<ChanId>, i: nat, idx: nat): seq<ChanId>
    requires i < |list| && idx <= |list|
  {
    list[..idx] + ShiftOut(list, i, |list|)[idx..]
  }

  function Max(a: nat, b: nat): nat {
    if a < b then b else a
  }

  /** The publisher still serves its snapshot exactly when the one leaving is last in the list, or at
      most the last slot was left to visit. */
  lemma RaceIsHarmlessIff(list: seq<ChanId>, i: nat, idx: nat)
    requires NoDup(list) && i < |list| && idx <= |list|
    ensures Raced(list, i, idx) == list <==> i == |list| - 1 || idx >= |list| - 1
  {
    var n, m, r := |list|, Max(i, idx), Raced(list, i, idx);
    RacedSlots(list, i, idx);
    if m < n - 1 {
      assert r[m] == list[m + 1] != list[m];
    } else {
      assert forall k :: 0 <= k < n ==> r[k] == list[k];
    }
  }

  lemma RacedSlots(list: seq<ChanId>, i: nat, idx: nat)
    requires i < |list| && idx <= |list|
    ensures var n, r := |list|, Raced(list, i, idx);
            |r| == n && forall k :: 0 <= k < n ==> r[k] == list[Slid(k, Max(i, idx), n)]
  {
    ShiftedSlots(list, i, |list|);
  }

  lemma RacedShape(list: seq<ChanId>, i: nat, idx: nat)
    requires i < |list| - 1 && idx < |list| - 1
    ensures var m := Max(i, idx); Raced(list, i, idx) == list[..m] + list[m + 1..] + [list[|list| - 1]]
  {
  }

  /** Otherwise the subscriber at the larger of the two positions is skipped, although it is still
      subscribed whenever the publisher was past the one leaving, and the last one is served twice. */
  lemma RaceSkipsOneAndRepeatsTheLast(list: seq<ChanId>, i: nat, idx: nat)
    requires NoDup(list) && i < |list| - 1 && idx < |list| - 1
    ensures var n, m, r := |list|, Max(i, idx), Raced(list, i, idx);
            && r == list[..m] + list[m + 1..] + [list[n - 1]]
            && list[m] !in r
            && r[n - 2] == r[n - 1] == list[n - 1]
            && (idx > i ==> list[m] in Without(list, list[i]))
  {
    RacedShape(list, i, idx);
    RacedSkips(list, i, idx);
    if idx > i {
      StillSubscribed(list, i, idx);
    }
  }

  lemma RacedSkips(list: seq<ChanId>, i: nat, idx: nat)
    requires NoDup(list) && i < |list| - 1 && idx < |list| - 1
    ensures var n, r := |list|, Raced(list, i, idx); list[Max(i, idx)] !in r && r[n - 2] == r[n - 1] == list[n - 1]
  {
    RacedSlots(list, i, idx);
    SkippedOnce(list, Raced(list, i, idx), Max(i, idx));
  }

  /** Shifting the slots from m on skips the channel at m and repeats the last. */
  lemma SkippedOnce(list: seq<ChanId>, r: seq<ChanId>, m: nat)
    requires NoDup(list) && |r| == |list| && m < |list| - 1
    requires forall k :: 0 <= k < |list| ==> r[k] == list[Slid(k, m, |list|)]
    ensures list[m] !in r && r[|list| - 2] == r[|list| - 1] == list[|list| - 1]
  {
    forall k | 0 <= k < |r|
      ensures r[k] != list[m]
    {
      assert r[k] == list[Slid(k, m, |list|)] && Slid(k, m, |list|) != m;
    }
  }

  lemma StillSubscribed(list: seq<ChanId>, i: nat, m: nat)
    requires NoDup(list) && i < m < |list|
    ensures list[m] in Without(list, list[i])
  {
    WithoutProps(list, list[i]);
  }
}
