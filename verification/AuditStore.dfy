/** The audit log's two stores: a SQL query builder over Postgres and a filter over a slice. Time
    stamps are integers with 0 for the zero time. */
module AuditStore {
  import opened Models

  datatype Entry = Entry(id: string, jobId: string, eventType: string, actor: string, payload: string, signature: string, createdAt: int)

  datatype AuditQuery = AuditQuery(jobId: string, eventType: string, actor: string, since: int, until: int, limit: int, offset: int)

  const ZeroEntry := Entry("", "", "", "", "", "", 0)

  // ---------------------------------------------------------------- SQL

  datatype Column = JobId | EventType | Actor | CreatedAt

  datatype Compare = Eq | Ge | Le

  /** The clauses after SELECT .. WHERE 1=1; a placeholder $n names the n-th argument. */
  datatype Clause =
    | And(col: Column, cmp: Compare, ph: nat)
    | OrderByCreatedAtDesc
    | Limit(ph: nat)
    | Offset(ph: nat)

  datatype Value = Text(s: string) | Time(t: int) | Number(n: int)

  function Cell(e: Entry, col: Column): Value {
    match col
    case JobId => Text(e.jobId)
    case EventType => Text(e.eventType)
    case Actor => Text(e.actor)
    case CreatedAt => Time(e.createdAt)
  }

  predicate Holds(a: Value, cmp: Compare, b: Value) {
    match cmp
    case Eq => a == b
    case Ge => a.Time? && b.Time? && a.t >= b.t
    case Le => a.Time? && b.Time? && a.t <= b.t
  }

  /** Whether a row satisfies one clause; an unbound placeholder satisfies nothing. */
  predicate Satisfies(c: Clause, args: seq<Value>, e: Entry) {
    c.And? ==> 1 <= c.ph <= |args| && Holds(Cell(e, c.col), c.cmp, args[c.ph - 1])
  }

  /** The WHERE clause. */
  predicate Keeps(sql: seq<Clause>, args: seq<Value>, e: Entry) {
    forall i :: 0 <= i < |sql| ==> Satisfies(sql[i], args, e)
  }

  function Placeholders(sql: seq<Clause>): seq<nat> {
    if sql == [] then []
    else Placeholders(sql[..|sql| - 1])
         + if sql[|sql| - 1].OrderByCreatedAtDesc? then [] else [sql[|sql| - 1].ph]
  }

  function Numbered(n: nat): seq<nat> {
    seq(n, i => i + 1)
  }

  /** The in-memory filter. */
  predicate Matches(q: AuditQuery, e: Entry) {
    && (q.jobId != "" ==> e.jobId == q.jobId)
    && (q.eventType != "" ==> e.eventType == q.eventType)
    && (q.actor != "" ==> e.actor == q.actor)
    && (q.since != 0 ==> e.createdAt >= q.since)
    && (q.until != 0 ==> e.createdAt <= q.until)
  }

  /** Every filter works by itself: text must be equal, times may be the bounds themselves, and an absent filter, the
      limit and the offset exclude nothing. */
  lemma FilterByFilter(q: AuditQuery, e: Entry, limit: int, offset: int)
    ensures Matches(q, e) <==>
      && Matches(AuditQuery(q.jobId, "", "", 0, 0, limit, offset), e)
      && Matches(AuditQuery("", q.eventType, "", 0, 0, limit, offset), e)
      && Matches(AuditQuery("", "", q.actor, 0, 0, limit, offset), e)
      && Matches(AuditQuery("", "", "", q.since, 0, limit, offset), e)
      && Matches(AuditQuery("", "", "", 0, q.until, limit, offset), e)
    ensures Matches(AuditQuery(q.jobId, "", "", 0, 0, limit, offset), e) <==> q.jobId in {"", e.jobId}
    ensures Matches(AuditQuery("", q.eventType, "", 0, 0, limit, offset), e) <==> q.eventType in {"", e.eventType}
    ensures Matches(AuditQuery("", "", q.actor, 0, 0, limit, offset), e) <==> q.actor in {"", e.actor}
    ensures Matches(AuditQuery("", "", "", q.since, 0, limit, offset), e) <==> q.since == 0 || !(e.createdAt < q.since)
    ensures Matches(AuditQuery("", "", "", 0, q.until, limit, offset), e) <==> q.until == 0 || !(e.createdAt > q.until)
  {
  }

  /** The bound value of the LIMIT (or OFFSET) clause, if there is one. */
  function LimitOf(sql: seq<Clause>, args: seq<Value>): Option<Value> {
    if sql == [] then None
    else match sql[|sql| - 1]
      case Limit(ph) => if 1 <= ph <= |args| then Some(args[ph - 1]) else None
      case _ => LimitOf(sql[..|sql| - 1], args)
  }

  function OffsetOf(sql: seq<Clause>, args: seq<Value>): Option<Value> {
    if sql == [] then None
    else match sql[|sql| - 1]
      case Offset(ph) => if 1 <= ph <= |args| then Some(args[ph - 1]) else None
      case _ => OffsetOf(sql[..|sql| - 1], args)
  }

  /** A partly built statement: placeholders numbered 1..|args| in order and every one bound. */
  ghost predicate WellNumbered(sql: seq<Clause>, args: seq<Value>) {
    && Placeholders(sql) == Numbered(|args|)
    && forall i :: 0 <= i < |sql| && !sql[i].OrderByCreatedAtDesc? ==> 1 <= sql[i].ph <= |args|
  }

  lemma AddClause(sql: seq<Clause>, args: seq<Value>, c: Clause, v: Value)
    requires WellNumbered(sql, args) && !c.OrderByCreatedAtDesc? && c.ph == |args| + 1
    ensures WellNumbered(sql + [c], args + [v])
    ensures forall e :: Keeps(sql + [c], args + [v], e) <==>
        Keeps(sql, args, e) && (c.And? ==> Holds(Cell(e, c.col), c.cmp, v))
  {
  }

  lemma AddOrder(sql: seq<Clause>, args: seq<Value>)
    requires WellNumbered(sql, args)
    ensures WellNumbered(sql + [OrderByCreatedAtDesc], args)
    ensures forall e :: Keeps(sql + [OrderByCreatedAtDesc], args, e) <==> Keeps(sql, args, e)
  {
  }

  /** Appends one comparison when its filter is present; n is the next placeholder. */
  method AddFilter(present: bool, col: Column, cmp: Compare, v: Value, sql0: seq<Clause>, args0: seq<Value>, n0: nat)
    returns (sql: seq<Clause>, args: seq<Value>, n: nat)
    requires WellNumbered(sql0, args0) && n0 == |args0| + 1
    ensures WellNumbered(sql, args) && n == |args| + 1
    ensures forall e :: Keeps(sql, args, e) <==> Keeps(sql0, args0, e) && (present ==> Holds(Cell(e, col), cmp, v))
    ensures (forall i :: 0 <= i < |sql0| ==> sql0[i].And?) ==> forall i :: 0 <= i < |sql| ==> sql[i].And?
  {
    sql, args, n := sql0, args0, n0;
    if present {
      AddClause(sql, args, And(col, cmp, n), v);
      sql := sql + [And(col, cmp, n)];
      args := args + [v];
      n := n + 1;
    }
  }

  /** The WHERE part of the builder, filter by filter. */
  method BuildWhere(q: AuditQuery) returns (sql: seq<Clause>, args: seq<Value>, n: nat)
    ensures WellNumbered(sql, args) && n == |args| + 1
    ensures forall e :: Keeps(sql, args, e) <==> Matches(q, e)
    ensures forall i :: 0 <= i < |sql| ==> sql[i].And?
  {
    sql, args, n := [], [], 1;
    sql, args, n := AddFilter(q.jobId != "", JobId, Eq, Text(q.jobId), sql, args, n);
    sql, args, n := AddFilter(q.eventType != "", EventType, Eq, Text(q.eventType), sql, args, n);
    sql, args, n := AddFilter(q.actor != "", Actor, Eq, Text(q.actor), sql, args, n);
    sql, args, n := AddFilter(q.since != 0, CreatedAt, Ge, Time(q.since), sql, args, n);
    sql, args, n := AddFilter(q.until != 0, CreatedAt, Le, Time(q.until), sql, args, n);
  }

  lemma {:induction false} NoPagingYet(sql: seq<Clause>, args: seq<Value>)
    requires forall i :: 0 <= i < |sql| ==> sql[i].And?
    ensures LimitOf(sql, args) == None && OffsetOf(sql, args) == None
  {
    if sql != [] {
      NoPagingYet(sql[..|sql| - 1], args);
    }
  }

  /** The order of the clauses in a statement: comparisons, ORDER BY, LIMIT, OFFSET. */
  function Rank(c: Clause): nat {
    match c
    case And(_, _, _) => 0
    case OrderByCreatedAtDesc => 1
    case Limit(_) => 2
    case Offset(_) => 3
  }

  /** Clauses in order, with at most one of each kind after the comparisons. */
  ghost predicate WellOrdered(sql: seq<Clause>) {
    forall i, j :: 0 <= i < j < |sql| ==> Rank(sql[i]) < Rank(sql[j]) || (sql[i].And? && sql[j].And?)
  }

  function PagingClause(present: bool, c: Clause): seq<Clause> {
    if present then [c] else []
  }

  function PagingArgument(n: int): seq<Value> {
    if n > 0 then [Number(n)] else []
  }

  /** The statement says what the query asks for: its own rows, newest first, its own page. */
  ghost predicate Built(q: AuditQuery, sql: seq<Clause>, args: seq<Value>) {
    && (forall e :: Keeps(sql, args, e) <==> Matches(q, e))
    && OrderByCreatedAtDesc in sql
    && LimitOf(sql, args) == (if q.limit > 0 then Some(Number(q.limit)) else None)
    && OffsetOf(sql, args) == (if q.offset > 0 then Some(Number(q.offset)) else None)
  }

  /** The whole builder. For every combination of present and absent filters the clauses come in SQL's order, the
      placeholders are numbered 1, 2, .. in order and all bound, the WHERE clause keeps exactly the entries the
      in-memory filter keeps, and LIMIT and OFFSET carry the query's own numbers. */
  method BuildQuery(q: AuditQuery) returns (sql: seq<Clause>, args: seq<Value>)
    ensures WellNumbered(sql, args) && WellOrdered(sql) && Built(q, sql, args)
  {
    var n;
    sql, args, n := BuildWhere(q);
    AddOrder(sql, args);
    ghost var filters := sql;
    sql := sql + [OrderByCreatedAtDesc];
    ghost var sql0, l := sql, n;
    sql, args, n := AddPaging(q.limit, Limit(n), sql, args, n);
    ghost var sql1, o := sql, n;
    sql, args, n := AddPaging(q.offset, Offset(n), sql, args, n);
    StatementIsOrdered(filters, sql0, sql1, sql, q.limit > 0, l, q.offset > 0, o);
    StatementBinds(filters, sql0, sql1, sql, args, q.limit > 0, l, q.offset > 0, o);
  }

  /** Appends LIMIT or OFFSET when its number is positive; n is the next placeholder. */
  method AddPaging(number: int, clause: Clause, sql0: seq<Clause>, args0: seq<Value>, n0: nat)
    returns (sql: seq<Clause>, args: seq<Value>, n: nat)
    requires WellNumbered(sql0, args0) && n0 == |args0| + 1 && clause in {Limit(n0), Offset(n0)}
    ensures WellNumbered(sql, args) && n == |args| + 1
    ensures sql == sql0 + PagingClause(number > 0, clause) && args == args0 + PagingArgument(number)
    ensures forall e :: Keeps(sql, args, e) <==> Keeps(sql0, args0, e)
  {
    sql, args, n := sql0, args0, n0;
    if number > 0 {
      AddClause(sql, args, clause, Number(number));
      sql, args, n := sql + [clause], args + [Number(number)], n + 1;
    }
  }

  ghost predicate RankedBelow(sql: seq<Clause>, n: nat) {
    forall i :: 0 <= i < |sql| ==> Rank(sql[i]) < n
  }

  /** Appending a clause of higher rank keeps the order. */
  lemma AppendInOrder(sql: seq<Clause>, c: Clause, present: bool)
    requires WellOrdered(sql) && RankedBelow(sql, Rank(c))
    ensures var sql' := sql + PagingClause(present, c); WellOrdered(sql') && RankedBelow(sql', Rank(c) + 1)
  {
  }

  /** A clause binds LIMIT or OFFSET if it is one, and nothing else. */
  lemma AppendBinds(sql: seq<Clause>, c: Clause, args: seq<Value>, present: bool)
    requires present && !c.And? && !c.OrderByCreatedAtDesc? ==> 1 <= c.ph <= |args|
    ensures var sql' := sql + PagingClause(present, c);
            && LimitOf(sql', args) == (if present && c.Limit? then Some(args[c.ph - 1]) else LimitOf(sql, args))
            && OffsetOf(sql', args) == (if present && c.Offset? then Some(args[c.ph - 1]) else OffsetOf(sql, args))
  {
    var sql' := sql + PagingClause(present, c);
    assert sql'[..|sql|] == sql && (present ==> sql'[|sql|] == c) && (!present ==> sql' == sql);
  }

  lemma StatementIsOrdered(filters: seq<Clause>, sql0: seq<Clause>, sql1: seq<Clause>, sql: seq<Clause>,
                           limited: bool, l: nat, skipping: bool, o: nat)
    requires forall i :: 0 <= i < |filters| ==> filters[i].And?
    requires sql0 == filters + [OrderByCreatedAtDesc]
    requires sql1 == sql0 + PagingClause(limited, Limit(l)) && sql == sql1 + PagingClause(skipping, Offset(o))
    ensures WellOrdered(sql) && OrderByCreatedAtDesc in sql
  {
    AppendInOrder(filters, OrderByCreatedAtDesc, true);
    AppendInOrder(sql0, Limit(l), limited);
    AppendInOrder(sql1, Offset(o), skipping);
    assert sql[|filters|] == OrderByCreatedAtDesc;
  }

  lemma StatementBinds(filters: seq<Clause>, sql0: seq<Clause>, sql1: seq<Clause>, sql: seq<Clause>, args: seq<Value>,
                       limited: bool, l: nat, skipping: bool, o: nat)
    requires forall i :: 0 <= i < |filters| ==> filters[i].And?
    requires sql0 == filters + [OrderByCreatedAtDesc]
    requires sql1 == sql0 + PagingClause(limited, Limit(l)) && sql == sql1 + PagingClause(skipping, Offset(o))
    requires (limited ==> 1 <= l <= |args|) && (skipping ==> 1 <= o <= |args|)
    ensures LimitOf(sql, args) == if limited then Some(args[l - 1]) else None
    ensures OffsetOf(sql, args) == if skipping then Some(args[o - 1]) else None
  {
    NoPagingYet(filters, args);
    AppendBinds(filters, OrderByCreatedAtDesc, args, true);
    AppendBinds(sql0, Limit(l), args, limited);
    AppendBinds(sql1, Offset(o), args, skipping);
  }

  // ---------------------------------------------------------------- the two stores' answers

  function Filter(log: seq<Entry>, keep: Entry -> bool): seq<Entry> {
    if log == [] then []
    else Filter(log[..|log| - 1], keep) + if keep(log[|log| - 1]) then [log[|log| - 1]] else []
  }

  /** LIMIT and OFFSET as SQL means them, with non-positive numbers standing for absent clauses. */
  function SqlPage(rows: seq<Entry>, limit: int, offset: int): seq<Entry> {
    var rest := if offset <= 0 then rows else if offset >= |rows| then [] else rows[offset..];
    if 0 < limit < |rest| then rest[..limit] else rest
  }

  /** A page starts where the offset says and has as many rows as there are, up to the limit. */
  lemma PageIs(rows: seq<Entry>, limit: int, offset: int)
    ensures var page, from := SqlPage(rows, limit, offset), if offset <= 0 then 0 else offset;
            && (from >= |rows| ==> page == [])
            && (from < |rows| ==> |page| == if 0 < limit < |rows| - from then limit else |rows| - from)
            && forall i :: 0 <= i < |page| ==> page[i] == rows[from + i]
  {
  }

  ghost predicate NewestFirst(rows: seq<Entry>) {
    forall i, j :: 0 <= i < j < |rows| ==> rows[i].createdAt >= rows[j].createdAt
  }

  function PageNumber(v: Option<Value>): int {
    if v.Some? && v.value.Number? then v.value.n else 0
  }

  /** A possible answer of the database to a built statement: rows of equal time come in any order. */
  ghost predicate Answers(sql: seq<Clause>, args: seq<Value>, log: seq<Entry>, rows: seq<Entry>) {
    exists sorted ::
      && multiset(sorted) == multiset(Filter(log, e => Keeps(sql, args, e)))
      && (OrderByCreatedAtDesc in sql ==> NewestFirst(sorted))
      && rows == SqlPage(sorted, PageNumber(LimitOf(sql, args)), PageNumber(OffsetOf(sql, args)))
  }

  lemma {:induction false} FilterSame(log: seq<Entry>, f: Entry -> bool, g: Entry -> bool)
    requires forall e :: f(e) == g(e)
    ensures Filter(log, f) == Filter(log, g)
  {
    if log != [] {
      FilterSame(log[..|log| - 1], f, g);
    }
  }

  datatype Answer = Rows(rows: seq<Entry>) | Panic

  function EffectiveLimit(q: AuditQuery, n: nat): nat {
    if q.limit <= 0 || q.limit > n then n else q.limit
  }

  function Zeros(n: nat): seq<Entry> {
    seq(n, _ => ZeroEntry)
  }

  /** The slice expression out[offset : offset+limit] as Go evaluates it: bounds are checked against
      the capacity, so spare slots are served as zero entries and only then does it panic. */
  function Sliced(out: seq<Entry>, q: AuditQuery, spare: nat): Answer {
    var limit := EffectiveLimit(q, |out|);
    if q.offset >= |out| then Rows([])
    else if q.offset < 0 || q.offset + limit > |out| + spare then Panic
    else Rows((out + Zeros(spare))[q.offset..q.offset + limit])
  }

  class Memory {
    var entries: seq<Entry>
    const secret: string
    const sign: (string, string) -> string

    constructor (secret: string, sign: (string, string) -> string)
      ensures entries == [] && this.secret == secret && this.sign == sign
    {
      entries := [];
      this.secret := secret;
      this.sign := sign;
    }

    method Insert(e: Entry)
      modifies this`entries
      ensures entries == old(entries) + [Signed(secret, sign, e)]
      ensures entries[|old(entries)|].(signature := "") == e.(signature := "")
    {
      var stored := e;
      if stored.signature == "" {
        stored := stored.(signature := sign(secret, stored.payload));
      }
      entries := entries + [stored];
    }

    /** `spare` is the unused capacity that growing `out` happens to leave. */
    method Query(q: AuditQuery, spare: nat) returns (a: Answer)
      ensures a == Sliced(Filter(entries, e => Matches(q, e)), q, spare)
    {
      ghost var keep := e => Matches(q, e);
      var out: seq<Entry> := [];
      for i := 0 to |entries|
        invariant out == Filter(entries[..i], keep)
      {
        assert entries[..i + 1][..i] == entries[..i];
        var e := entries[i];
        if q.jobId != "" && e.jobId != q.jobId {
          continue;
        }
        if q.eventType != "" && e.eventType != q.eventType {
          continue;
        }
        if q.actor != "" && e.actor != q.actor {
          continue;
        }
        if q.since != 0 && e.createdAt < q.since {
          continue;
        }
        if q.until != 0 && e.createdAt > q.until {
          continue;
        }
        out := out + [e];
      }
      assert entries[..|entries|] == entries;
      var limit := q.limit;
      if limit <= 0 || limit > |out| {
        limit := |out|;
      }
      var offset := q.offset;
      if offset >= |out| {
        return Rows([]);
      }
      if offset < 0 || offset + limit > |out| + spare {
        return Panic;
      }
      return Rows((out + Zeros(spare))[offset..offset + limit]);
    }

    method Verify(id: string) returns (ok: bool)
      ensures ok <==> Verified(secret, sign, entries, id)
    {
      for i := 0 to |entries|
        invariant forall k :: 0 <= k < i ==> entries[k].id != id
      {
        if entries[i].id == id {
          assert IsFirst(entries, id, i);
          assert forall k :: IsFirst(entries, id, k) ==> k == i;
          return entries[i].signature == sign(secret, entries[i].payload);
        }
      }
      return false;
    }
  }

  function Signed(secret: string, sign: (string, string) -> string, e: Entry): Entry {
    if e.signature == "" then e.(signature := sign(secret, e.payload)) else e
  }

  ghost predicate IsFirst(entries: seq<Entry>, id: string, i: int) {
    0 <= i < |entries| && entries[i].id == id && forall k :: 0 <= k < i ==> entries[k].id != id
  }

  /** The first entry with this ID carries the signature of its own payload. */
  ghost predicate Verified(secret: string, sign: (string, string) -> string, entries: seq<Entry>, id: string) {
    exists i :: IsFirst(entries, id, i) && entries[i].signature == sign(secret, entries[i].payload)
  }

  /** An entry stored unsigned under a new ID verifies, later insertions change no earlier verdict,
      and an ID never inserted does not verify. */
  lemma InsertedEntriesVerify(secret: string, sign: (string, string) -> string, entries: seq<Entry>, e: Entry, id: string)
    requires forall k :: 0 <= k < |entries| ==> entries[k].id != e.id
    ensures var entries' := entries + [Signed(secret, sign, e)];
            && (Verified(secret, sign, entries', e.id) <==> e.signature in {"", sign(secret, e.payload)})
            && (id != e.id ==> (Verified(secret, sign, entries', id) <==> Verified(secret, sign, entries, id)))
  {
    var n, entries' := |entries|, entries + [Signed(secret, sign, e)];
    assert entries'[n] == Signed(secret, sign, e);
    assert IsFirst(entries', e.id, n);
    assert forall i :: IsFirst(entries', e.id, i) ==> i == n;
    assert forall k :: 0 <= k < n ==> entries'[k] == entries[k];
    if id != e.id {
      assert forall i :: IsFirst(entries', id, i) <==> IsFirst(entries, id, i);
    }
  }

  /** Without paging, whatever the database answers is the memory store's answer reordered newest first. */
  lemma StoresAgreeUnpaged(q: AuditQuery, sql: seq<Clause>, args: seq<Value>, log: seq<Entry>, spare: nat, rows: seq<Entry>)
    requires q.limit <= 0 && q.offset == 0 && Built(q, sql, args) && Answers(sql, args, log, rows)
    ensures var a := Sliced(Filter(log, e => Matches(q, e)), q, spare);
            a.Rows? && multiset(rows) == multiset(a.rows) && NewestFirst(rows)
  {
    var keep, matches := e => Keeps(sql, args, e), e => Matches(q, e);
    FilterSame(log, keep, matches);
    var out := Filter(log, matches);
    assert (out + Zeros(spare))[0..|out|] == out;
  }

  /** The memory store pages as SQL does exactly when there is no offset, or it reaches past the matches, or it leaves
      a full page of the limit asked for. */
  lemma MemoryPagesLikeSqlIff(out: seq<Entry>, q: AuditQuery, spare: nat)
    ensures Sliced(out, q, spare) == Rows(SqlPage(out, q.limit, q.offset)) <==>
        q.offset == 0 || (q.offset > 0 && (q.offset >= |out| || (q.limit > 0 && q.offset + q.limit <= |out|)))
  {
    if q.offset == 0 {
      assert (out + Zeros(spare))[..EffectiveLimit(q, |out|)] == out[..EffectiveLimit(q, |out|)];
    }
  }

  /** What it does otherwise: it panics exactly when the offset is negative or the page ends beyond the capacity,
      and it serves the remaining matches followed by blank entries exactly when the page ends within it. */
  lemma PanicsOrServesBlanksIff(out: seq<Entry>, q: AuditQuery, spare: nat)
    ensures var end := q.offset + if 0 < q.limit <= |out| then q.limit else |out|;
            && (Sliced(out, q, spare) == Panic <==> q.offset < |out| && (q.offset < 0 || end > |out| + spare))
            && ((exists blanks: nat :: blanks > 0 && ServesBlanks(out, q, spare, blanks)) <==>
                  0 <= q.offset < |out| < end <= |out| + spare)
            && (0 <= q.offset < |out| < end <= |out| + spare ==> ServesBlanks(out, q, spare, end - |out|))
  {
    var end := q.offset + EffectiveLimit(q, |out|);
    if 0 <= q.offset < |out| < end <= |out| + spare {
      assert (out + Zeros(spare))[q.offset..end] == out[q.offset..] + Zeros(end - |out|);
      assert ServesBlanks(out, q, spare, end - |out|);
    }
    forall blanks: nat | blanks > 0 && ServesBlanks(out, q, spare, blanks)
      ensures 0 <= q.offset < |out| < end <= |out| + spare
    {
      BlanksLiePastTheEnd(out, q, spare, blanks);
    }
  }

  lemma BlanksLiePastTheEnd(out: seq<Entry>, q: AuditQuery, spare: nat, blanks: nat)
    requires blanks > 0 && ServesBlanks(out, q, spare, blanks)
    ensures 0 <= q.offset < |out| < q.offset + EffectiveLimit(q, |out|) <= |out| + spare
  {
    assert |Sliced(out, q, spare).rows| == |out| - q.offset + blanks;
  }

  /** The answer is what is left of the matches, and then that many blank entries. */
  predicate ServesBlanks(out: seq<Entry>, q: AuditQuery, spare: nat, blanks: nat) {
    0 <= q.offset < |out| && Sliced(out, q, spare) == Rows(out[q.offset..] + Zeros(blanks))
  }

  /** An offset of 1 without a limit does either, depending on the capacity that appending left. */
  lemma OffsetOneGoesWrong(a: Entry, b: Entry, c: Entry, q: AuditQuery)
    requires q.offset == 1 && q.limit <= 0
    ensures Sliced([a, b], q, 0) == Panic
    ensures Sliced([a, b, c], q, 1) == Rows([b, c, ZeroEntry])
  {
    assert ([a, b, c] + Zeros(1))[1..4] == [b, c, ZeroEntry];
  }

  // ---------------------------------------------------------------- the two stores' pages

  /** Inserted in the order of their time stamps. */
  ghost predicate Chronological(out: seq<Entry>) {
    forall i, j :: 0 <= i < j < |out| ==> out[i].createdAt < out[j].createdAt
  }

  function Reversed(out: seq<Entry>): seq<Entry> {
    seq(|out|, i requires 0 <= i < |out| => out[|out| - 1 - i])
  }

  /** Sorting a chronological list newest first can only reverse it. */
  lemma {:induction false} NewestFirstIsReversed(out: seq<Entry>, sorted: seq<Entry>)
    requires Chronological(out) && NewestFirst(sorted) && multiset(sorted) == multiset(out)
    ensures sorted == Reversed(out)
    decreases |out|
  {
    assert |sorted| == |multiset(sorted)| == |multiset(out)| == |out|;
    if out != [] {
      var n := |out| - 1;
      NewestIsLast(out, sorted);
      NewestFirstIsReversed(out[..n], sorted[1..]);
      ReversedSnoc(out);
      assert sorted == [sorted[0]] + sorted[1..];
    }
  }

  lemma NewestIsLast(out: seq<Entry>, sorted: seq<Entry>)
    requires Chronological(out) && NewestFirst(sorted) && multiset(sorted) == multiset(out) && |sorted| == |out| > 0
    ensures sorted[0] == out[|out| - 1] && multiset(sorted[1..]) == multiset(out[..|out| - 1])
  {
    var n := |out| - 1;
    var k := PlaceIn(out[n], out, sorted);
    var l := PlaceIn(sorted[0], sorted, out);
    assert l == n by {
      assert sorted[0].createdAt >= sorted[k].createdAt == out[n].createdAt;
    }
    WithoutEnds(sorted, out);
  }

  lemma PlaceIn<T>(x: T, from: seq<T>, to: seq<T>) returns (k: nat)
    requires multiset(from) == multiset(to) && x in from
    ensures k < |to| && to[k] == x
  {
    assert x in multiset(to);
    k :| 0 <= k < |to| && to[k] == x;
  }

  lemma WithoutEnds<T>(a: seq<T>, b: seq<T>)
    requires multiset(a) == multiset(b) && a != [] && b != [] && a[0] == b[|b| - 1]
    ensures multiset(a[1..]) == multiset(b[..|b| - 1])
  {
    var n := |b| - 1;
    assert a == [a[0]] + a[1..] && b == b[..n] + [b[n]];
    assert multiset(a[1..]) == multiset(a) - multiset{a[0]} == multiset(b[..n]);
  }

  lemma ReversedSnoc(out: seq<Entry>)
    requires out != []
    ensures Reversed(out) == [out[|out| - 1]] + Reversed(out[..|out| - 1])
  {
    var n, init := |out| - 1, out[..|out| - 1];
    forall i | 0 <= i < |out|
      ensures Reversed(out)[i] == ([out[n]] + Reversed(init))[i]
    {
      assert i > 0 ==> Reversed(init)[i - 1] == init[n - i] == out[n - i];
    }
  }

  /** Two stretches of a chronological list hold the same entries only if they are the same stretch. */
  lemma SameStretch(out: seq<Entry>, i: nat, j: nat, n: nat)
    requires Chronological(out) && 0 < n && i + n <= |out| && j + n <= |out|
    ensures multiset(out[i..i + n]) == multiset(out[j..j + n]) <==> i == j
  {
    if i < j {
      FirstIsMissing(out, i, j, n);
    } else if j < i {
      FirstIsMissing(out, j, i, n);
    }
  }

  lemma FirstIsMissing(out: seq<Entry>, i: nat, j: nat, n: nat)
    requires Chronological(out) && 0 < n && i < j && j + n <= |out|
    ensures multiset(out[i..i + n]) != multiset(out[j..j + n])
  {
    assert out[i..i + n][0] == out[i];
    assert out[i] in multiset(out[i..i + n]);
    assert out[i] !in out[j..j + n];
  }

  /** With paging, the two stores serve the same entries of a chronological log exactly when the page is past the
      end or sits in the middle: one counts from the oldest, the other from the newest. */
  lemma PagedStoresAgreeIff(q: AuditQuery, sql: seq<Clause>, args: seq<Value>, log: seq<Entry>, spare: nat, rows: seq<Entry>)
    requires Built(q, sql, args) && Answers(sql, args, log, rows) && Chronological(Filter(log, e => Matches(q, e)))
    ensures var out := Filter(log, e => Matches(q, e));
            var a := Sliced(out, q, spare);
            a.Rows? && multiset(rows) == multiset(a.rows) <==>
              || q.offset >= |out|
              || (q.offset >= 0 && 2 * q.offset + (if 0 < q.limit <= |out| then q.limit else |out|) == |out|)
  {
    var out := Filter(log, e => Matches(q, e));
    AnswerIsReversed(q, sql, args, log, rows, out);
    PagesAgreeIff(out, q, spare);
  }

  lemma AnswerIsReversed(q: AuditQuery, sql: seq<Clause>, args: seq<Value>, log: seq<Entry>, rows: seq<Entry>, out: seq<Entry>)
    requires Built(q, sql, args) && Answers(sql, args, log, rows)
    requires out == Filter(log, e => Matches(q, e)) && Chronological(out)
    ensures rows == SqlPage(Reversed(out), q.limit, q.offset)
  {
    FilterSame(log, e => Keeps(sql, args, e), e => Matches(q, e));
    var sorted :| multiset(sorted) == multiset(out) && NewestFirst(sorted) && rows == SqlPage(sorted, q.limit, q.offset);
    NewestFirstIsReversed(out, sorted);
  }

  lemma PagesAgreeIff(out: seq<Entry>, q: AuditQuery, spare: nat)
    requires Chronological(out)
    ensures var a := Sliced(out, q, spare);
            a.Rows? && multiset(SqlPage(Reversed(out), q.limit, q.offset)) == multiset(a.rows) <==>
              || q.offset >= |out|
              || (q.offset >= 0 && 2 * q.offset + (if 0 < q.limit <= |out| then q.limit else |out|) == |out|)
  {
    var o, l := q.offset, EffectiveLimit(q, |out|);
    if 0 <= o < |out| && o + l <= |out| {
      FullPagesAgreeIff(out, q, spare, o, l);
    } else if 0 <= o < |out| {
      PageIsShort(out, Reversed(out), q, spare);
    }
  }

  lemma FullPagesAgreeIff(out: seq<Entry>, q: AuditQuery, spare: nat, o: nat, l: nat)
    requires Chronological(out) && o == q.offset < |out| && l == EffectiveLimit(q, |out|) && o + l <= |out|
    ensures var a := Sliced(out, q, spare);
            a.Rows? && (multiset(SqlPage(Reversed(out), q.limit, q.offset)) == multiset(a.rows) <==> 2 * o + l == |out|)
  {
    FullPage(Reversed(out), q, spare, o, l);
    FullPage(out, q, spare, o, l);
    StretchesAgreeIff(out, o, l);
  }

  lemma StretchesAgreeIff(out: seq<Entry>, o: nat, l: nat)
    requires Chronological(out) && 0 < l && o + l <= |out|
    ensures multiset(Reversed(out)[o..o + l]) == multiset(out[o..o + l]) <==> 2 * o + l == |out|
  {
    ReversedStretch(out, o, l);
    SameStretch(out, |out| - o - l, o, l);
  }

  /** A full page is a stretch of the rows, in both stores. */
  lemma FullPage(rows: seq<Entry>, q: AuditQuery, spare: nat, o: nat, l: nat)
    requires o == q.offset < |rows| && l == EffectiveLimit(q, |rows|) && o + l <= |rows|
    ensures SqlPage(rows, q.limit, q.offset) == rows[o..o + l] && Sliced(rows, q, spare) == Rows(rows[o..o + l])
  {
    assert (rows + Zeros(spare))[o..o + l] == rows[o..o + l];
  }

  lemma PageIsShort(out: seq<Entry>, sorted: seq<Entry>, q: AuditQuery, spare: nat)
    requires |sorted| == |out| && 0 <= q.offset < |out| < q.offset + EffectiveLimit(q, |out|)
    ensures var a := Sliced(out, q, spare); a.Rows? ==> multiset(SqlPage(sorted, q.limit, q.offset)) != multiset(a.rows)
  {
    var page, a := SqlPage(sorted, q.limit, q.offset), Sliced(out, q, spare);
    assert |multiset(page)| == |page| < EffectiveLimit(q, |out|);
    assert a.Rows? ==> |multiset(a.rows)| == |a.rows| == EffectiveLimit(q, |out|);
  }

  lemma ReversedStretch(out: seq<Entry>, o: nat, l: nat)
    requires o + l <= |out|
    ensures multiset(Reversed(out)[o..o + l]) == multiset(out[|out| - o - l..|out| - o])
  {
    var s := out[|out| - o - l..|out| - o];
    forall i | 0 <= i < l
      ensures Reversed(out)[o..o + l][i] == Reversed(s)[i]
    {
      assert Reversed(s)[i] == s[l - 1 - i] == out[|out| - 1 - o - i];
    }
    assert Reversed(out)[o..o + l] == Reversed(s);
    ReversedKeepsEntries(s);
  }

  lemma {:induction false} ReversedKeepsEntries(out: seq<Entry>)
    ensures multiset(Reversed(out)) == multiset(out)
  {
    if out != [] {
      var n := |out| - 1;
      ReversedKeepsEntries(out[..n]);
      ReversedSnoc(out);
      assert out == out[..n] + [out[n]];
    }
  }
}
