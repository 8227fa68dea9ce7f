/** One publish against any subscribes and unsubscribes: the publisher walks the slots of the header it read
    under the lock, while others shift the same array, write into it, or leave it for a larger one. */
module SseRaces {
  import opened Models
  import opened SseBroker
  import opened SseSlices

  /** The array behind the publisher's header and the header's length, the job's current list and whether it still
      lives in that array, the next slot to visit, and the channels sent to so far. */
  datatype Race = Race(slots: seq<ChanId>, head: nat, list: seq<ChanId>, shared: bool, idx: nat, sent: seq<ChanId>)

  datatype Move = Visit | Remove(c: ChanId) | Join(c: ChanId)

  /** The publisher has just read its header; `spare` is what the array holds beyond the list. */
  function Begin(list: seq<ChanId>, spare: seq<ChanId>): Race {
    Race(list + spare, |list|, list, list != [], 0, [])
  }

  ghost predicate Sound(r: Race) {
    && r.idx <= r.head <= |r.slots|
    && (r.shared ==> 0 < |r.list| <= |r.slots| && r.slots[..|r.list|] == r.list)
  }

  predicate Can(r: Race, m: Move) {
    m.Visit? ==> r.idx < r.head
  }

  /** A removal shifts the array in place; the last one out takes the job's entry with it. A subscription takes the
      next slot if the array has one, and otherwise moves the list to another array. */
  function Moved(r: Race, m: Move): Race
    requires Sound(r) && Can(r, m)
  {
    match m
    case Visit => r.(idx := r.idx + 1, sent := r.sent + [r.slots[r.idx]])
    case Remove(c) =>
      var i, n := FirstIndex(r.list, c), |r.list|;
      if i == n then r
      else r.(slots := if r.shared then ShiftOut(r.slots, i, n) else r.slots,
              list := Cut(r.list, i), shared := r.shared && n > 1)
    case Join(c) =>
      if InPlace(r) then r.(slots := r.slots[|r.list| := c], list := r.list + [c])
      else r.(list := r.list + [c], shared := false)
  }

  predicate InPlace(r: Race) {
    r.shared && |r.list| < |r.slots|
  }

  lemma SoundKept(r: Race, m: Move)
    requires Sound(r) && Can(r, m)
    ensures Sound(Moved(r, m)) && Moved(r, m).head == r.head && |Moved(r, m).slots| == |r.slots|
  {
    if m.Remove? && r.shared && FirstIndex(r.list, m.c) < |r.list| {
      ShiftOutPrefix(r.slots, FirstIndex(r.list, m.c), |r.list|);
    }
  }

  /** A schedule whose every move is possible. */
  ghost predicate Plays(r: Race, ms: seq<Move>)
    requires Sound(r)
    decreases |ms|
  {
    ms != [] ==> Can(r, ms[0]) && (SoundKept(r, ms[0]); Plays(Moved(r, ms[0]), ms[1..]))
  }

  function Final(r: Race, ms: seq<Move>): (f: Race)
    requires Sound(r) && Plays(r, ms)
    ensures Sound(f) && f.head == r.head
    decreases |ms|
  {
    if ms == [] then r
    else
      SoundKept(r, ms[0]);
      Final(Moved(r, ms[0]), ms[1..])
  }

  // ---------------------------------------------------------------- what a move does to the slots ahead

  /** The slots ahead that a removal at position i shifts: from Low, which is lost, up to High, which is repeated. */
  function Low(r: Race, i: nat): nat {
    if i < r.idx then r.idx else i
  }

  function High(r: Race): int {
    if |r.list| - 1 < r.head then |r.list| - 1 else r.head
  }

  predicate Shifts(r: Race, c: ChanId) {
    r.shared && FirstIndex(r.list, c) < |r.list| && Low(r, FirstIndex(r.list, c)) < High(r)
  }

  predicate Overwrites(r: Race) {
    InPlace(r) && r.idx <= |r.list| < r.head
  }

  /** The channel of which a move takes a copy out of the publisher's way, if any. */
  function Leaves(r: Race, m: Move): Option<ChanId>
    requires Sound(r)
  {
    match m
    case Visit => None
    case Remove(c) => if Shifts(r, c) then Some(r.slots[Low(r, FirstIndex(r.list, c))]) else None
    case Join(_) => if Overwrites(r) then Some(r.slots[|r.list|]) else None
  }

  /** The channel of which a move puts a copy in the publisher's way, if any. */
  function Enters(r: Race, m: Move): Option<ChanId>
    requires Sound(r)
  {
    match m
    case Visit => None
    case Remove(c) => if Shifts(r, c) then Some(r.slots[High(r)]) else None
    case Join(c) => if Overwrites(r) then Some(c) else None
  }

  function One(x: Option<ChanId>, c: ChanId): nat {
    if x == Some(c) then 1 else 0
  }

  /** How many of the slots lo, .., hi - 1 hold c. */
  function Copies(s: seq<ChanId>, lo: nat, hi: nat, c: ChanId): nat
    requires hi <= |s|
    decreases hi
  {
    if hi <= lo then 0 else Copies(s, lo, hi - 1, c) + One(Some(s[hi - 1]), c)
  }

  /** The copies of c still to be visited. */
  function Ahead(r: Race, c: ChanId): nat
    requires Sound(r)
  {
    Copies(r.slots, r.idx, r.head, c)
  }

  /** How often c is sent to, as things stand. */
  function Due(r: Race, c: ChanId): nat
    requires Sound(r)
  {
    multiset(r.sent)[c] + Ahead(r, c)
  }

  lemma {:induction false} CopiesSplit(s: seq<ChanId>, lo: nat, mid: nat, hi: nat, c: ChanId)
    requires lo <= mid <= hi <= |s|
    ensures Copies(s, lo, hi, c) == Copies(s, lo, mid, c) + Copies(s, mid, hi, c)
    decreases hi
  {
    if mid < hi {
      CopiesSplit(s, lo, mid, hi - 1, c);
    }
  }

  lemma {:induction false} CopiesSame(s: seq<ChanId>, t: seq<ChanId>, lo: nat, hi: nat, c: ChanId)
    requires hi <= |s| && hi <= |t| && forall k :: lo <= k < hi ==> s[k] == t[k]
    ensures Copies(s, lo, hi, c) == Copies(t, lo, hi, c)
    decreases hi
  {
    if lo < hi {
      CopiesSame(s, t, lo, hi - 1, c);
    }
  }

  /** Shifting a stretch down by one trades its first slot for the one after its end. */
  lemma {:induction false} CopiesShifted(s: seq<ChanId>, t: seq<ChanId>, lo: nat, hi: nat, c: ChanId)
    requires lo <= hi < |s| && hi <= |t| && forall k :: lo <= k < hi ==> t[k] == s[Slid(k, lo, hi + 1)]
    ensures Copies(t, lo, hi, c) + One(Some(s[lo]), c) == Copies(s, lo, hi, c) + One(Some(s[hi]), c)
    decreases hi
  {
    if lo < hi {
      CopiesShifted(s, t, lo, hi - 1, c);
    }
  }

  lemma {:induction false} CopiesAre(s: seq<ChanId>, n: nat, c: ChanId)
    requires n <= |s|
    ensures Copies(s, 0, n, c) == multiset(s[..n])[c]
  {
    if n > 0 {
      CopiesAre(s, n - 1, c);
      assert s[..n] == s[..n - 1] + [s[n - 1]];
    }
  }

  lemma ShiftedAhead(s: seq<ChanId>, idx: nat, head: nat, i: nat, n: nat, lo: nat, hi: nat, c: ChanId)
    requires i < n <= |s| && idx <= head <= |s|
    requires lo == (if i < idx then idx else i) && hi == (if n - 1 < head then n - 1 else head) && lo < hi
    ensures Copies(ShiftOut(s, i, n), idx, head, c) + One(Some(s[lo]), c) == Copies(s, idx, head, c) + One(Some(s[hi]), c)
  {
    var t := ShiftOut(s, i, n);
    ShiftedSlots(s, i, n);
    CopiesSame(s, t, idx, lo, c);
    CopiesShifted(s, t, lo, hi, c);
    CopiesSame(s, t, hi, head, c);
    CopiesInThree(s, idx, lo, hi, head, c);
    CopiesInThree(t, idx, lo, hi, head, c);
  }

  lemma CopiesInThree(s: seq<ChanId>, a: nat, b: nat, d: nat, e: nat, c: ChanId)
    requires a <= b <= d <= e <= |s|
    ensures Copies(s, a, e, c) == Copies(s, a, b, c) + Copies(s, b, d, c) + Copies(s, d, e, c)
  {
    CopiesSplit(s, a, b, e, c);
    CopiesSplit(s, b, d, e, c);
  }

  lemma UnshiftedAhead(s: seq<ChanId>, idx: nat, head: nat, i: nat, n: nat, c: ChanId)
    requires i < n <= |s| && idx <= head <= |s|
    requires (if i < idx then idx else i) >= (if n - 1 < head then n - 1 else head)
    ensures Copies(ShiftOut(s, i, n), idx, head, c) == Copies(s, idx, head, c)
  {
    ShiftedSlots(s, i, n);
    CopiesSame(s, ShiftOut(s, i, n), idx, head, c);
  }

  lemma OverwrittenAhead(s: seq<ChanId>, idx: nat, head: nat, k: nat, d: ChanId, c: ChanId)
    requires idx <= head <= |s| && k < |s|
    ensures if idx <= k < head then
              Copies(s[k := d], idx, head, c) + One(Some(s[k]), c) == Copies(s, idx, head, c) + One(Some(d), c)
            else Copies(s[k := d], idx, head, c) == Copies(s, idx, head, c)
  {
    var t := s[k := d];
    if idx <= k < head {
      CopiesSame(s, t, idx, k, c);
      CopiesSame(s, t, k + 1, head, c);
      CopiesInThree(s, idx, k, k + 1, head, c);
      CopiesInThree(t, idx, k, k + 1, head, c);
    } else {
      CopiesSame(s, t, idx, head, c);
    }
  }

  lemma VisitedAhead(s: seq<ChanId>, idx: nat, head: nat, c: ChanId)
    requires idx < head <= |s|
    ensures Copies(s, idx, head, c) == Copies(s, idx + 1, head, c) + One(Some(s[idx]), c)
  {
    CopiesSplit(s, idx, idx + 1, head, c);
  }

  lemma DueAfterRemove(r: Race, d: ChanId, c: ChanId)
    requires Sound(r)
    ensures Sound(Moved(r, Remove(d)))
    ensures Due(Moved(r, Remove(d)), c) + One(Leaves(r, Remove(d)), c) == Due(r, c) + One(Enters(r, Remove(d)), c)
  {
    SoundKept(r, Remove(d));
    var i, n := FirstIndex(r.list, d), |r.list|;
    if r.shared && i < n {
      if Shifts(r, d) {
        ShiftedAhead(r.slots, r.idx, r.head, i, n, Low(r, i), High(r), c);
      } else {
        UnshiftedAhead(r.slots, r.idx, r.head, i, n, c);
      }
    }
  }

  /** One move keeps the account. */
  lemma DueAfter(r: Race, m: Move, c: ChanId)
    requires Sound(r) && Can(r, m)
    ensures Sound(Moved(r, m))
    ensures Due(Moved(r, m), c) + One(Leaves(r, m), c) == Due(r, c) + One(Enters(r, m), c)
  {
    SoundKept(r, m);
    match m
    case Visit =>
      VisitedAhead(r.slots, r.idx, r.head, c);
    case Remove(d) =>
      DueAfterRemove(r, d, c);
    case Join(d) =>
      if InPlace(r) {
        OverwrittenAhead(r.slots, r.idx, r.head, |r.list|, d, c);
      }
  }

  // ---------------------------------------------------------------- the account of a whole publish

  /** Moves of the schedule that take a copy of c out of the publisher's way. */
  ghost function Losses(r: Race, ms: seq<Move>, c: ChanId): nat
    requires Sound(r) && Plays(r, ms)
    decreases |ms|
  {
    if ms == [] then 0
    else
      SoundKept(r, ms[0]);
      One(Leaves(r, ms[0]), c) + Losses(Moved(r, ms[0]), ms[1..], c)
  }

  /** Moves of the schedule that put one there. */
  ghost function Gains(r: Race, ms: seq<Move>, c: ChanId): nat
    requires Sound(r) && Plays(r, ms)
    decreases |ms|
  {
    if ms == [] then 0
    else
      SoundKept(r, ms[0]);
      One(Enters(r, ms[0]), c) + Gains(Moved(r, ms[0]), ms[1..], c)
  }

  lemma {:induction false} DueIsConserved(r: Race, ms: seq<Move>, c: ChanId)
    requires Sound(r) && Plays(r, ms)
    ensures Due(Final(r, ms), c) + Losses(r, ms, c) == Due(r, c) + Gains(r, ms, c)
    decreases |ms|
  {
    if ms != [] {
      DueAfter(r, ms[0], c);
      DueIsConserved(Moved(r, ms[0]), ms[1..], c);
    }
  }

  /** A publish is complete when every slot of its header was visited. */
  ghost predicate Completes(list: seq<ChanId>, spare: seq<ChanId>, ms: seq<Move>) {
    Plays(Begin(list, spare), ms) && Final(Begin(list, spare), ms).idx == |list|
  }

  ghost function Sent(list: seq<ChanId>, spare: seq<ChanId>, ms: seq<Move>): seq<ChanId>
    requires Completes(list, spare, ms)
  {
    Final(Begin(list, spare), ms).sent
  }

  /** Under every schedule of subscribes and unsubscribes, a completed publish sends to a channel once for its place
      in the list, once more for every move that puts a copy of it ahead, and once less for every move that takes
      one away. */
  lemma SendsAreConserved(list: seq<ChanId>, spare: seq<ChanId>, ms: seq<Move>, c: ChanId)
    requires Completes(list, spare, ms)
    ensures var r := Begin(list, spare);
            multiset(Sent(list, spare, ms))[c] + Losses(r, ms, c) == multiset(list)[c] + Gains(r, ms, c)
  {
    var r := Begin(list, spare);
    DueIsConserved(r, ms, c);
    CopiesAre(r.slots, |list|, c);
    assert r.slots[..|list|] == list;
  }

  /** Who is served, and how often: the account read as conditions. */
  lemma ServedIff(list: seq<ChanId>, spare: seq<ChanId>, ms: seq<Move>, c: ChanId)
    requires Completes(list, spare, ms)
    ensures var r, sent := Begin(list, spare), Sent(list, spare, ms);
            && (c in sent <==> Losses(r, ms, c) < multiset(list)[c] + Gains(r, ms, c))
            && (multiset(sent)[c] >= 2 <==> Losses(r, ms, c) + 2 <= multiset(list)[c] + Gains(r, ms, c))
  {
    SendsAreConserved(list, spare, ms, c);
    assert c in Sent(list, spare, ms) <==> multiset(Sent(list, spare, ms))[c] > 0;
  }

  // ---------------------------------------------------------------- the subscribers of the list

  /** Where c is in the list, it is in one of the publisher's slots. */
  ghost predicate WithinHead(r: Race, c: ChanId) {
    r.shared ==> forall k :: 0 <= k < |r.list| && r.list[k] == c ==> k < r.head
  }

  lemma WithinHeadKept(r: Race, m: Move, c: ChanId)
    requires Sound(r) && Can(r, m) && WithinHead(r, c) && m != Join(c)
    ensures WithinHead(Moved(r, m), c)
  {
    if m.Remove? && FirstIndex(r.list, m.c) < |r.list| {
      CutWithin(r.list, FirstIndex(r.list, m.c), r.head, c);
    }
  }

  lemma CutWithin(list: seq<ChanId>, i: nat, head: nat, c: ChanId)
    requires i < |list|
    ensures (forall k :: 0 <= k < |list| && list[k] == c ==> k < head) ==>
            forall k :: 0 <= k < |list| - 1 && Cut(list, i)[k] == c ==> k < head
  {
    forall k | 0 <= k < |list| - 1
      ensures Cut(list, i)[k] == list[Slid(k, i, |list|)]
    {
    }
  }

  lemma {:induction false} HasCopy(s: seq<ChanId>, lo: nat, hi: nat, k: nat)
    requires lo <= k < hi <= |s|
    ensures Copies(s, lo, hi, s[k]) > 0
    decreases hi
  {
    if k < hi - 1 {
      HasCopy(s, lo, hi - 1, k);
    }
  }

  /** A channel without a copy ahead gets none, unless it sits beyond the publisher's slots or has just joined. */
  lemma NothingFromNothing(r: Race, m: Move, c: ChanId)
    requires Sound(r) && Can(r, m) && WithinHead(r, c) && m != Join(c) && Enters(r, m) == Some(c)
    ensures Ahead(r, c) > 0
  {
    var hi := High(r);
    assert r.slots[..|r.list|][hi] == r.slots[hi] == c;
    HasCopy(r.slots, r.idx, r.head, hi);
  }

  /** The move takes away the last copy ahead of a channel that was not sent to yet. */
  predicate LosesLast(r: Race, m: Move, c: ChanId)
    requires Sound(r)
  {
    Leaves(r, m) == Some(c) != Enters(r, m) && Ahead(r, c) == 1 && c !in r.sent
  }

  ghost predicate EverLost(r: Race, ms: seq<Move>, c: ChanId)
    requires Sound(r) && Plays(r, ms)
    decreases |ms|
  {
    ms != [] && (LosesLast(r, ms[0], c) || (SoundKept(r, ms[0]); EverLost(Moved(r, ms[0]), ms[1..], c)))
  }

  /** What one move does to a channel's prospects. */
  lemma ProspectsAfter(r: Race, m: Move, c: ChanId)
    requires Sound(r) && Can(r, m) && WithinHead(r, c) && m != Join(c)
    ensures Sound(Moved(r, m)) && WithinHead(Moved(r, m), c) && (c in r.sent ==> c in Moved(r, m).sent)
    ensures c !in r.sent ==> (Due(Moved(r, m), c) > 0 <==> Ahead(r, c) > 0 && !LosesLast(r, m, c))
  {
    DueAfter(r, m, c);
    WithinHeadKept(r, m, c);
    if Enters(r, m) == Some(c) {
      NothingFromNothing(r, m, c);
    }
  }

  lemma {:induction false} FromProspects(r: Race, ms: seq<Move>, c: ChanId)
    requires Sound(r) && Plays(r, ms) && WithinHead(r, c) && Join(c) !in ms && Final(r, ms).idx == r.head
    ensures c in Final(r, ms).sent <==> c in r.sent || (Ahead(r, c) > 0 && !EverLost(r, ms, c))
    ensures c in r.sent || Ahead(r, c) == 0 ==> !EverLost(r, ms, c)
    decreases |ms|
  {
    if ms != [] {
      ProspectsAfter(r, ms[0], c);
      FromProspects(Moved(r, ms[0]), ms[1..], c);
    }
  }

  /** Under every schedule of subscribes and unsubscribes, a completed publish serves a subscriber of its list exactly
      when no move takes the last copy of it out of the publisher's way. */
  lemma SubscriberIsServedIff(list: seq<ChanId>, spare: seq<ChanId>, ms: seq<Move>, c: ChanId)
    requires Completes(list, spare, ms) && c in list && Join(c) !in ms
    ensures c in Sent(list, spare, ms) <==> !EverLost(Begin(list, spare), ms, c)
  {
    var r := Begin(list, spare);
    var k :| 0 <= k < |list| && list[k] == c;
    assert r.slots[k] == c;
    HasCopy(r.slots, 0, r.head, k);
    FromProspects(r, ms, c);
  }

  /** A channel that stays subscribed loses a copy in two ways only: one before the publisher leaves while the channel
      is next to be visited and not the last, or a new subscriber is written over the copy it left behind. */
  lemma WaysToLose(r: Race, m: Move, c: ChanId)
    requires Sound(r) && Can(r, m) && m != Remove(c)
    ensures Leaves(r, m) == Some(c) <==>
        || (m.Remove? && Shifts(r, m.c) && FirstIndex(r.list, m.c) < r.idx && r.slots[r.idx] == c)
        || (m.Join? && Overwrites(r) && r.slots[|r.list|] == c)
  {
    if m.Remove? && Shifts(r, m.c) {
      var i := FirstIndex(r.list, m.c);
      assert r.slots[..|r.list|][i] == m.c;
    }
  }

  /** And it gains one in one way: it is the last of the list, or the one after the publisher's slots, and one before
      it leaves. */
  lemma WayToGain(r: Race, m: Move, c: ChanId)
    requires Sound(r) && Can(r, m) && m != Join(c)
    ensures Enters(r, m) == Some(c) <==> m.Remove? && Shifts(r, m.c) && r.list[High(r)] == c
  {
    assert r.shared ==> forall k :: 0 <= k < |r.list| ==> r.slots[..|r.list|][k] == r.slots[k];
  }

  // ---------------------------------------------------------------- everyone else

  lemma StrangerStaysOut(r: Race, m: Move, c: ChanId)
    requires Sound(r) && Can(r, m) && c !in r.list && m != Join(c)
    ensures c !in Moved(r, m).list && Enters(r, m) != Some(c)
  {
    WayToGain(r, m, c);
  }

  lemma {:induction false} StrangersNeverEnter(r: Race, ms: seq<Move>, c: ChanId)
    requires Sound(r) && Plays(r, ms) && c !in r.list && Join(c) !in ms
    ensures Gains(r, ms, c) == 0
    decreases |ms|
  {
    if ms != [] {
      SoundKept(r, ms[0]);
      StrangerStaysOut(r, ms[0], c);
      StrangersNeverEnter(Moved(r, ms[0]), ms[1..], c);
    }
  }

  /** Only channels of the list, and channels that joined while the publish was under way, are ever sent to. */
  lemma OnlySubscribersAreServed(list: seq<ChanId>, spare: seq<ChanId>, ms: seq<Move>, c: ChanId)
    requires Completes(list, spare, ms) && c in Sent(list, spare, ms)
    ensures c in list || Join(c) in ms
  {
    ServedIff(list, spare, ms, c);
    if c !in list && Join(c) !in ms {
      StrangersNeverEnter(Begin(list, spare), ms, c);
      assert false;
    }
  }

  /** A newcomer can take the place of a subscriber that stays: the subscriber misses the event, and the newcomer is
      sent one that was published before it subscribed. */
  lemma NewcomerCanTakeAPlace(a: ChanId, c: ChanId, d: ChanId)
    requires a != c && c != d && a != d
    ensures var ms := [Visit, Remove(a), Join(d), Visit]; Completes([a, c], [], ms) && Sent([a, c], [], ms) == [a, d]
  {
    var r0, r1, r2 := Race([a, c], 2, [a, c], true, 0, []), Race([a, c], 2, [a, c], true, 1, [a]), Race([c, c], 2, [c], true, 1, [a]);
    var r3, r4 := Race([c, d], 2, [c, d], true, 1, [a]), Race([c, d], 2, [c, d], true, 2, [a, d]);
    assert Begin([a, c], []) == r0 && Moved(r0, Visit) == r1 && Moved(r3, Visit) == r4;
    assert Moved(r1, Remove(a)) == r2 by {
      assert FirstIndex([a, c], a) == 0 && ShiftOut([a, c], 0, 2) == [c, c] && Cut([a, c], 0) == [c];
    }
    assert Moved(r2, Join(d)) == r3;
    FinalCons(r3, Visit, r4, [], [Visit]);
    FinalCons(r2, Join(d), r3, [Visit], [Join(d), Visit]);
    FinalCons(r1, Remove(a), r2, [Join(d), Visit], [Remove(a), Join(d), Visit]);
    FinalCons(r0, Visit, r1, [Remove(a), Join(d), Visit], [Visit, Remove(a), Join(d), Visit]);
  }

  lemma FinalCons(r: Race, m: Move, r': Race, ms: seq<Move>, all: seq<Move>)
    requires Sound(r) && Can(r, m) && r' == Moved(r, m) && Sound(r') && Plays(r', ms) && all == [m] + ms
    ensures Plays(r, all) && Final(r, all) == Final(r', ms)
  {
    assert all[1..] == ms;
  }
}
