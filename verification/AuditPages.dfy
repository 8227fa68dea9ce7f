/** When the two audit stores serve the same page of any log: one counts from the first inserted, the other from the
    newest, and the database may order entries of one time as it likes. */
module AuditPages {
  import opened Models
  import opened AuditStore

  function After(t: int): Entry -> bool {
    (e: Entry) => e.createdAt > t
  }

  function Since(t: int): Entry -> bool {
    (e: Entry) => e.createdAt >= t
  }

  /** How many entries are newer than time t. */
  function Newer(s: seq<Entry>, t: int): nat {
    |Filter(s, After(t))|
  }

  /** How many entries are of time t or newer. */
  function NotOlder(s: seq<Entry>, t: int): nat {
    |Filter(s, Since(t))|
  }

  /** The entry's place, newest first, lies in the window wherever the entries of its time are put. */
  predicate Inside(out: seq<Entry>, o: nat, l: nat, e: Entry) {
    o <= Newer(out, e.createdAt) && NotOlder(out, e.createdAt) <= o + l
  }

  /** Likewise, its place lies before or after the window. */
  predicate Outside(out: seq<Entry>, o: nat, l: nat, e: Entry) {
    NotOlder(out, e.createdAt) <= o || o + l <= Newer(out, e.createdAt)
  }

  /** Every entry of the stretch o, .., o + l - 1 belongs there newest first as well, and no other entry does. */
  predicate Placed(out: seq<Entry>, o: nat, l: nat) {
    forall k :: 0 <= k < |out| ==> if o <= k < o + l then Inside(out, o, l, out[k]) else Outside(out, o, l, out[k])
  }

  ghost predicate Distinct(out: seq<Entry>) {
    forall i, j :: 0 <= i < j < |out| ==> out[i] != out[j]
  }

  // ---------------------------------------------------------------- filters

  lemma {:induction false} FilterConcat(a: seq<Entry>, b: seq<Entry>, p: Entry -> bool)
    ensures Filter(a + b, p) == Filter(a, p) + Filter(b, p)
    decreases |b|
  {
    if b == [] {
      assert a + b == a;
    } else {
      var n := |b| - 1;
      FilterConcat(a, b[..n], p);
      assert (a + b)[..|a + b| - 1] == a + b[..n];
    }
  }

  lemma {:induction false} FilterAll(s: seq<Entry>, p: Entry -> bool)
    requires Accepts(p, s)
    ensures Filter(s, p) == s
  {
    if s != [] {
      var n := |s| - 1;
      FilterAll(s[..n], p);
      assert p(s[n]) && s == s[..n] + [s[n]];
    }
  }

  lemma {:induction false} FilterNone(s: seq<Entry>, p: Entry -> bool)
    requires Rejects(p, s)
    ensures Filter(s, p) == []
  {
    if s != [] {
      FilterNone(s[..|s| - 1], p);
    }
  }

  lemma {:induction false} FilterLength(s: seq<Entry>, p: Entry -> bool, q: Entry -> bool)
    requires forall i :: 0 <= i < |s| && p(s[i]) ==> q(s[i])
    ensures |Filter(s, p)| <= |Filter(s, q)| <= |s|
  {
    if s != [] {
      FilterLength(s[..|s| - 1], p, q);
    }
  }

  lemma {:induction false} FilterCounts(s: seq<Entry>, p: Entry -> bool, e: Entry)
    ensures multiset(Filter(s, p))[e] == if p(e) then multiset(s)[e] else 0
  {
    if s != [] {
      var n := |s| - 1;
      FilterCounts(s[..n], p, e);
      assert s == s[..n] + [s[n]];
    }
  }

  /** A filter keeps the same entries of two orders of one list. */
  lemma FilterPermutation(s: seq<Entry>, t: seq<Entry>, p: Entry -> bool)
    requires multiset(s) == multiset(t)
    ensures multiset(Filter(s, p)) == multiset(Filter(t, p)) && |Filter(s, p)| == |Filter(t, p)|
  {
    forall e
      ensures multiset(Filter(s, p))[e] == multiset(Filter(t, p))[e]
    {
      FilterCounts(s, p, e);
      FilterCounts(t, p, e);
    }
    SameSize(Filter(s, p), Filter(t, p));
  }

  lemma SameSize(a: seq<Entry>, b: seq<Entry>)
    requires multiset(a) == multiset(b)
    ensures |a| == |b|
  {
    assert |multiset(a)| == |a| && |multiset(b)| == |b|;
  }

  // ---------------------------------------------------------------- places in a sorted list

  /** Newest first, an entry stands behind the newer ones and before the older ones. */
  lemma PlaceInOrder(s: seq<Entry>, j: nat)
    requires NewestFirst(s) && j < |s|
    ensures Newer(s, s[j].createdAt) <= j < NotOlder(s, s[j].createdAt)
  {
    var t := s[j].createdAt;
    assert s == s[..j] + s[j..] && s == s[..j + 1] + s[j + 1..];
    FilterConcat(s[..j], s[j..], After(t));
    FilterNone(s[j..], After(t));
    FilterLength(s[..j], After(t), After(t));
    FilterConcat(s[..j + 1], s[j + 1..], Since(t));
    FilterAll(s[..j + 1], Since(t));
  }

  /** And the places of its time are all taken by entries of its time. */
  lemma TimeAtPlace(s: seq<Entry>, t: int, j: nat)
    requires NewestFirst(s) && j < |s| && Newer(s, t) <= j < NotOlder(s, t)
    ensures s[j].createdAt == t
  {
    var u := s[j].createdAt;
    PlaceInOrder(s, j);
    if u > t {
      FilterLength(s, Since(u), After(t));
    } else if u < t {
      FilterLength(s, Since(t), After(u));
    }
  }

  lemma CountsOfPermutation(s: seq<Entry>, t: seq<Entry>, at: int)
    requires multiset(s) == multiset(t)
    ensures Newer(s, at) == Newer(t, at) && NotOlder(s, at) == NotOlder(t, at)
  {
    FilterPermutation(s, t, After(at));
    FilterPermutation(s, t, Since(at));
  }

  // ---------------------------------------------------------------- placed pages agree

  ghost predicate Accepts(p: Entry -> bool, s: seq<Entry>) {
    forall i :: 0 <= i < |s| ==> p(s[i])
  }

  ghost predicate Rejects(p: Entry -> bool, s: seq<Entry>) {
    forall i :: 0 <= i < |s| ==> !p(s[i])
  }

  lemma PartsOfStretch(s: seq<Entry>, o: nat, l: nat, p: Entry -> bool)
    requires o + l <= |s| && forall j :: 0 <= j < |s| ==> (p(s[j]) <==> o <= j < o + l)
    ensures Rejects(p, s[..o]) && Accepts(p, s[o..o + l]) && Rejects(p, s[o + l..])
  {
  }

  lemma ThreeParts(s: seq<Entry>, o: nat, l: nat)
    requires o + l <= |s|
    ensures s == s[..o] + s[o..o + l] + s[o + l..]
  {
  }

  /** A stretch that holds exactly what p accepts is what the filter keeps. */
  lemma StretchIsFilter(s: seq<Entry>, o: nat, l: nat, p: Entry -> bool)
    requires o + l <= |s| && forall j :: 0 <= j < |s| ==> (p(s[j]) <==> o <= j < o + l)
    ensures Filter(s, p) == s[o..o + l]
  {
    PartsOfStretch(s, o, l, p);
    ThreeParts(s, o, l);
    FilterMiddle(s, s[..o], s[o..o + l], s[o + l..], p);
  }

  lemma FilterMiddle(s: seq<Entry>, a: seq<Entry>, b: seq<Entry>, c: seq<Entry>, p: Entry -> bool)
    requires Rejects(p, a) && Accepts(p, b) && Rejects(p, c) && s == a + b + c
    ensures Filter(s, p) == b
  {
    FilterConcat(a + b, c, p);
    FilterConcat(a, b, p);
    FilterNone(a, p);
    FilterAll(b, p);
    FilterNone(c, p);
  }

  lemma PlacedByFilter(out: seq<Entry>, o: nat, l: nat, k: nat)
    requires Placed(out, o, l) && k < |out|
    ensures Inside(out, o, l, out[k]) <==> o <= k < o + l
  {
    var t := out[k].createdAt;
    OwnPlace(out, k);
  }

  /** An entry's own time has at least one place. */
  lemma OwnPlace(out: seq<Entry>, k: nat)
    requires k < |out|
    ensures Newer(out, out[k].createdAt) < NotOlder(out, out[k].createdAt)
  {
    var t, e := out[k].createdAt, out[k];
    assert out == out[..k] + ([e] + out[k + 1..]);
    CountsConcat(out[..k], [e] + out[k + 1..], t);
    CountsConcat([e], out[k + 1..], t);
    FilterLength(out[..k], After(t), Since(t));
    FilterLength(out[k + 1..], After(t), Since(t));
    FilterAll([e], Since(t));
    FilterNone([e], After(t));
  }

  lemma CountsConcat(a: seq<Entry>, b: seq<Entry>, t: int)
    ensures Newer(a + b, t) == Newer(a, t) + Newer(b, t) && NotOlder(a + b, t) == NotOlder(a, t) + NotOlder(b, t)
  {
    FilterConcat(a, b, After(t));
    FilterConcat(a, b, Since(t));
  }

  lemma PlacedInOrder(out: seq<Entry>, s: seq<Entry>, o: nat, l: nat, j: nat)
    requires Placed(out, o, l) && NewestFirst(s) && multiset(s) == multiset(out) && j < |s|
    ensures Inside(out, o, l, s[j]) <==> o <= j < o + l
  {
    var t := s[j].createdAt;
    PlaceInOrder(s, j);
    CountsOfPermutation(s, out, t);
    var k := PlaceIn(s[j], s, out);
    PlacedByFilter(out, o, l, k);
  }

  lemma PlacedPagesAgree(out: seq<Entry>, s: seq<Entry>, o: nat, l: nat)
    requires Placed(out, o, l) && o + l <= |out| && NewestFirst(s) && multiset(s) == multiset(out)
    ensures |s| == |out| && multiset(s[o..o + l]) == multiset(out[o..o + l])
  {
    var p := e => Inside(out, o, l, e);
    SameSize(s, out);
    forall j | 0 <= j < |s|
      ensures p(s[j]) <==> o <= j < o + l
    {
      PlacedInOrder(out, s, o, l, j);
    }
    forall k | 0 <= k < |out|
      ensures p(out[k]) <==> o <= k < o + l
    {
      PlacedByFilter(out, o, l, k);
    }
    StretchIsFilter(s, o, l, p);
    StretchIsFilter(out, o, l, p);
    FilterPermutation(s, out, p);
  }

  // ---------------------------------------------------------------- misplaced pages can differ

  /** Inserts an entry into a list that is sorted newest first. */
  function Inserted(s: seq<Entry>, e: Entry): seq<Entry> {
    if s == [] || s[0].createdAt <= e.createdAt then [e] + s else [s[0]] + Inserted(s[1..], e)
  }

  lemma {:induction false} InsertedKeepsEntries(s: seq<Entry>, e: Entry)
    ensures multiset(Inserted(s, e)) == multiset(s) + multiset{e}
    decreases |s|
  {
    if s != [] && s[0].createdAt > e.createdAt {
      InsertedKeepsEntries(s[1..], e);
      assert s == [s[0]] + s[1..];
    }
  }

  ghost predicate NoneAfter(s: seq<Entry>, t: int) {
    forall i :: 0 <= i < |s| ==> s[i].createdAt <= t
  }

  lemma {:induction false} InsertedNoneAfter(s: seq<Entry>, e: Entry, t: int)
    requires NoneAfter(s, t) && e.createdAt <= t
    ensures NoneAfter(Inserted(s, e), t)
    decreases |s|
  {
    if s != [] && s[0].createdAt > e.createdAt {
      InsertedNoneAfter(s[1..], e, t);
    }
  }

  lemma SortedCons(e: Entry, s: seq<Entry>)
    requires NewestFirst(s) && NoneAfter(s, e.createdAt)
    ensures NewestFirst([e] + s)
  {
  }

  lemma {:induction false} InsertedIsSorted(s: seq<Entry>, e: Entry)
    requires NewestFirst(s)
    ensures NewestFirst(Inserted(s, e))
    decreases |s|
  {
    if s == [] || s[0].createdAt <= e.createdAt {
      SortedCons(e, s);
    } else {
      InsertedIsSorted(s[1..], e);
      InsertedNoneAfter(s[1..], e, s[0].createdAt);
      SortedCons(s[0], Inserted(s[1..], e));
    }
  }

  /** Some order of the entries is newest first. */
  lemma {:induction false} SomeOrder(out: seq<Entry>) returns (s: seq<Entry>)
    ensures NewestFirst(s) && multiset(s) == multiset(out)
  {
    if out == [] {
      s := [];
    } else {
      var n := |out| - 1;
      var t := SomeOrder(out[..n]);
      InsertedIsSorted(t, out[n]);
      InsertedKeepsEntries(t, out[n]);
      s := Inserted(t, out[n]);
      assert out == out[..n] + [out[n]];
    }
  }

  lemma SwapEqualTimes(s: seq<Entry>, i: nat, j: nat) returns (t: seq<Entry>)
    requires NewestFirst(s) && i < |s| && j < |s| && s[i].createdAt == s[j].createdAt
    ensures NewestFirst(t) && multiset(t) == multiset(s) && |t| == |s| && t[j] == s[i]
  {
    t := s[i := s[j]][j := s[i]];
    assert forall k :: 0 <= k < |s| ==> t[k].createdAt == s[k].createdAt;
  }

  /** An entry can stand at any place of its time. */
  lemma CanStandAt(out: seq<Entry>, e: Entry, j: nat) returns (s: seq<Entry>)
    requires e in out && Newer(out, e.createdAt) <= j < NotOlder(out, e.createdAt)
    ensures NewestFirst(s) && multiset(s) == multiset(out) && j < |s| == |out| && s[j] == e
  {
    var t := e.createdAt;
    var s0 := SomeOrder(out);
    SameSize(s0, out);
    CountsOfPermutation(s0, out, t);
    FilterLength(out, Since(t), Since(t));
    TimeAtPlace(s0, t, j);
    var i := PlaceIn(e, out, s0);
    s := SwapEqualTimes(s0, i, j);
  }

  lemma {:induction false} CountOfDistinct(out: seq<Entry>, e: Entry)
    requires Distinct(out)
    ensures multiset(out)[e] <= 1
  {
    if out != [] {
      var n := |out| - 1;
      CountOfDistinct(out[..n], e);
      assert out == out[..n] + [out[n]] && (out[n] == e ==> e !in out[..n]);
    }
  }

  /** Where an entry that occurs once stands decides whether a stretch holds it. */
  lemma InStretchIff(s: seq<Entry>, o: nat, l: nat, j: nat)
    requires o + l <= |s| && j < |s| && multiset(s)[s[j]] <= 1
    ensures s[j] in multiset(s[o..o + l]) <==> o <= j < o + l
  {
    var e := s[j];
    if o <= j < o + l {
      assert s[o..o + l][j - o] == e;
    } else {
      assert s == s[..o] + s[o..o + l] + s[o + l..];
      assert e in s[..o] || e in s[o + l..] by {
        assert j < o ==> s[..o][j] == e;
        assert j >= o + l ==> s[o + l..][j - o - l] == e;
      }
    }
  }

  /** A place at which the entry makes the page differ. */
  lemma TellingPlace(out: seq<Entry>, o: nat, l: nat, k: nat) returns (j: nat)
    requires k < |out| && 0 < l && o + l <= |out|
    requires !(if o <= k < o + l then Inside(out, o, l, out[k]) else Outside(out, o, l, out[k]))
    ensures Newer(out, out[k].createdAt) <= j < NotOlder(out, out[k].createdAt)
    ensures !(o <= j < o + l <==> o <= k < o + l)
  {
    var a, b := Newer(out, out[k].createdAt), NotOlder(out, out[k].createdAt);
    OwnPlace(out, k);
    if o <= k < o + l {
      j := if a < o then a else b - 1;
    } else {
      j := if a < o then o else a;
    }
  }

  lemma MisplacedPagesDiffer(out: seq<Entry>, o: nat, l: nat) returns (s: seq<Entry>)
    requires Distinct(out) && 0 < l && o + l <= |out| && !Placed(out, o, l)
    ensures NewestFirst(s) && multiset(s) == multiset(out) && |s| == |out|
    ensures multiset(s[o..o + l]) != multiset(out[o..o + l])
  {
    var k :| 0 <= k < |out| && !(if o <= k < o + l then Inside(out, o, l, out[k]) else Outside(out, o, l, out[k]));
    var e := out[k];
    var j := TellingPlace(out, o, l, k);
    s := CanStandAt(out, e, j);
    CountOfDistinct(out, e);
    InStretchIff(s, o, l, j);
    InStretchIff(out, o, l, k);
    assert (e in multiset(s[o..o + l])) != (e in multiset(out[o..o + l]));
  }

  // ---------------------------------------------------------------- the stores

  ghost predicate AgreesOn(rows: seq<Entry>, a: Answer) {
    a.Rows? && multiset(rows) == multiset(a.rows)
  }

  /** For any log, every answer the database may give to a built statement holds the entries that the memory store
      serves, exactly when the page is past the end, or is full and consists of the entries that belong there newest
      first, however entries of one time are ordered. */
  lemma EveryAnswerAgreesIff(q: AuditQuery, sql: seq<Clause>, args: seq<Value>, log: seq<Entry>, out: seq<Entry>, spare: nat)
    requires Built(q, sql, args) && out == Filter(log, e => Matches(q, e)) && Distinct(out)
    ensures (forall rows :: Answers(sql, args, log, rows) ==> AgreesOn(rows, Sliced(out, q, spare))) <==>
        q.offset >= |out| || PageIsPlaced(out, q)
  {
    if q.offset >= |out| || PageIsPlaced(out, q) {
      forall rows | Answers(sql, args, log, rows)
        ensures AgreesOn(rows, Sliced(out, q, spare))
      {
        var s := OrderOfAnswer(q, sql, args, log, out, rows);
        SortedPageAgrees(out, s, q, spare);
      }
    } else {
      var s := DifferingOrder(out, q, spare);
      AnswerOfOrder(q, sql, args, log, out, s);
    }
  }

  lemma OrderOfAnswer(q: AuditQuery, sql: seq<Clause>, args: seq<Value>, log: seq<Entry>, out: seq<Entry>, rows: seq<Entry>)
    returns (s: seq<Entry>)
    requires Built(q, sql, args) && out == Filter(log, e => Matches(q, e)) && Answers(sql, args, log, rows)
    ensures NewestFirst(s) && multiset(s) == multiset(out) && rows == SqlPage(s, q.limit, q.offset)
  {
    FilterSame(log, e => Keeps(sql, args, e), e => Matches(q, e));
    s :| multiset(s) == multiset(Filter(log, e => Keeps(sql, args, e))) && NewestFirst(s)
      && rows == SqlPage(s, PageNumber(LimitOf(sql, args)), PageNumber(OffsetOf(sql, args)));
  }

  lemma AnswerOfOrder(q: AuditQuery, sql: seq<Clause>, args: seq<Value>, log: seq<Entry>, out: seq<Entry>, s: seq<Entry>)
    requires Built(q, sql, args) && out == Filter(log, e => Matches(q, e)) && NewestFirst(s) && multiset(s) == multiset(out)
    ensures Answers(sql, args, log, SqlPage(s, q.limit, q.offset))
  {
    FilterSame(log, e => Keeps(sql, args, e), e => Matches(q, e));
  }

  /** A full page of entries that belong there newest first. */
  predicate PageIsPlaced(out: seq<Entry>, q: AuditQuery) {
    var page := if 0 < q.limit <= |out| then q.limit else |out|;
    0 <= q.offset && q.offset + page <= |out| && Placed(out, q.offset, page)
  }

  lemma SortedPageAgrees(out: seq<Entry>, s: seq<Entry>, q: AuditQuery, spare: nat)
    requires NewestFirst(s) && multiset(s) == multiset(out) && (q.offset >= |out| || PageIsPlaced(out, q))
    ensures AgreesOn(SqlPage(s, q.limit, q.offset), Sliced(out, q, spare))
  {
    SameSize(s, out);
    if q.offset < |out| {
      var o, l := q.offset, EffectiveLimit(q, |out|);
      FullPage(s, q, spare, o, l);
      FullPage(out, q, spare, o, l);
      PlacedPagesAgree(out, s, o, l);
    }
  }

  lemma DifferingOrder(out: seq<Entry>, q: AuditQuery, spare: nat) returns (s: seq<Entry>)
    requires Distinct(out) && q.offset < |out| && !PageIsPlaced(out, q)
    ensures NewestFirst(s) && multiset(s) == multiset(out)
    ensures !AgreesOn(SqlPage(s, q.limit, q.offset), Sliced(out, q, spare))
  {
    var o, l := q.offset, EffectiveLimit(q, |out|);
    if 0 <= o && o + l <= |out| {
      s := MisplacedPagesDiffer(out, o, l);
      FullPage(s, q, spare, o, l);
      FullPage(out, q, spare, o, l);
    } else {
      s := SomeOrder(out);
      SameSize(s, out);
      if 0 <= o {
        PageIsShort(out, s, q, spare);
      }
    }
  }
}
