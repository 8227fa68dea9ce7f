/** The generic cache with per-entry expiry and a background sweep. Time is a real number. */
module TtlCache {
  import opened Models

  datatype Entry<V> = Entry(value: V, expiresAt: real)

  function Live<K, V>(items: map<K, Entry<V>>, now: real): map<K, Entry<V>> {
    map k | k in items && now <= items[k].expiresAt :: items[k]
  }

  function Lookup<K, V>(items: map<K, Entry<V>>, k: K, now: real): Option<V> {
    if k !in items || now > items[k].expiresAt then None else Some(items[k].value)
  }

  class TTL<K(==), V> {
    var items: map<K, Entry<V>>
    const ttl: real

    constructor (ttl: real)
      ensures items == map[] && this.ttl == ttl
    {
      items := map[];
      this.ttl := ttl;
    }

    method Set(key: K, value: V, now: real)
      modifies this
      ensures items == old(items)[key := Entry(value, now + ttl)]
    {
      items := items[key := Entry(value, now + ttl)];
    }

    method Get(key: K, now: real) returns (r: Option<V>)
      ensures r == Lookup(items, key, now)
      ensures r == if key in items && now <= items[key].expiresAt then Some(items[key].value) else None
    {
      if key !in items || now > items[key].expiresAt {
        return None;
      }
      return Some(items[key].value);
    }

    method Delete(key: K)
      modifies this
      ensures items == old(items) - {key}
    {
      items := items - {key};
    }

    method Evict(now: real)
      modifies this
      ensures items == Live(old(items), now)
      ensures forall k :: k in items <==> k in old(items) && now <= old(items)[k].expiresAt
      ensures forall k :: k in items ==> items[k] == old(items)[k]
    {
      var todo := items.Keys;
      while todo != {}
        invariant todo <= old(items).Keys
        invariant items.Keys <= old(items).Keys
        invariant forall k :: k in old(items) ==> (k in items <==> k in todo || now <= old(items)[k].expiresAt)
        invariant forall k :: k in items ==> items[k] == old(items)[k]
        decreases |todo|
      {
        var k :| k in todo;
        if now > items[k].expiresAt {
          items := items - {k};
        }
        todo := todo - {k};
      }
    }
  }

  // ---------------------------------------------------------------- runs

  datatype Op<K, V> = Set(k: K, v: V, at: real) | Delete(k: K) | Evict(at: real)

  function Apply<K, V>(ttl: real, items: map<K, Entry<V>>, op: Op<K, V>): map<K, Entry<V>> {
    match op
    case Set(k, v, at) => items[k := Entry(v, at + ttl)]
    case Delete(k) => items - {k}
    case Evict(at) => Live(items, at)
  }

  function After<K, V>(ttl: real, ops: seq<Op<K, V>>): map<K, Entry<V>> {
    if ops == [] then map[] else Apply(ttl, After(ttl, ops[..|ops| - 1]), ops[|ops| - 1])
  }

  /** The last write to k still in force: the value and time of a Set not followed by a Delete. */
  function LastWrite<K(==), V>(ops: seq<Op<K, V>>, k: K): Option<(V, real)> {
    if ops == [] then None
    else match ops[|ops| - 1]
      case Set(k', v, at) => if k' == k then Some((v, at)) else LastWrite(ops[..|ops| - 1], k)
      case Delete(k') => if k' == k then None else LastWrite(ops[..|ops| - 1], k)
      case Evict(_) => LastWrite(ops[..|ops| - 1], k)
  }

  /** What the clock guarantees a reader at `now`: no sweep so far used a later time. */
  ghost predicate SweptBy<K, V>(ops: seq<Op<K, V>>, now: real) {
    forall i :: 0 <= i < |ops| && ops[i].Evict? ==> ops[i].at <= now
  }

  /** A read hits with v exactly when the last write to the key set v, at a time t with now <= t + ttl. */
  lemma {:induction false} GetReturnsLastFreshWrite<K, V>(ttl: real, ops: seq<Op<K, V>>, k: K, now: real)
    requires SweptBy(ops, now)
    ensures Lookup(After(ttl, ops), k, now) ==
        match LastWrite(ops, k)
        case None => None
        case Some((v, at)) => if now <= at + ttl then Some(v) else None
  {
    if ops != [] {
      var init := ops[..|ops| - 1];
      assert forall i :: 0 <= i < |init| ==> init[i] == ops[i];
      GetReturnsLastFreshWrite(ttl, init, k, now);
    }
  }

  function WithoutSweeps<K, V>(ops: seq<Op<K, V>>): seq<Op<K, V>> {
    if ops == [] then []
    else WithoutSweeps(ops[..|ops| - 1]) + if ops[|ops| - 1].Evict? then [] else [ops[|ops| - 1]]
  }

  lemma {:induction false} SweepsAreNotWrites<K, V>(ops: seq<Op<K, V>>, k: K)
    ensures LastWrite(WithoutSweeps(ops), k) == LastWrite(ops, k)
    ensures forall i :: 0 <= i < |WithoutSweeps(ops)| ==> !WithoutSweeps(ops)[i].Evict?
  {
    if ops != [] {
      var init, last := ops[..|ops| - 1], ops[|ops| - 1];
      SweepsAreNotWrites(init, k);
      if last.Evict? {
        assert WithoutSweeps(ops) == WithoutSweeps(init);
      } else {
        assert (WithoutSweeps(init) + [last])[..|WithoutSweeps(init)|] == WithoutSweeps(init);
      }
    }
  }

  /** Right after a sweep the cache holds exactly the last writes that have not expired, and no others. */
  lemma SweepLeavesTheFresh<K, V>(ttl: real, ops: seq<Op<K, V>>, k: K, now: real)
    requires SweptBy(ops, now)
    ensures var items := After(ttl, ops + [Evict(now)]);
            match LastWrite(ops, k)
            case None => k !in items
            case Some((v, at)) => if now <= at + ttl then k in items && items[k] == Entry(v, at + ttl) else k !in items
  {
    assert (ops + [Op<K, V>.Evict(now)])[..|ops|] == ops;
    HoldsLastWrite(ttl, ops, k, now);
  }

  /** What the cache holds under a key is its last write; only what has expired may be missing. */
  lemma {:induction false} HoldsLastWrite<K, V>(ttl: real, ops: seq<Op<K, V>>, k: K, now: real)
    requires SweptBy(ops, now)
    ensures match LastWrite(ops, k)
            case None => k !in After(ttl, ops)
            case Some((v, at)) =>
              if k in After(ttl, ops) then After(ttl, ops)[k] == Entry(v, at + ttl) else now > at + ttl
  {
    if ops != [] {
      var init := ops[..|ops| - 1];
      assert forall i :: 0 <= i < |init| ==> init[i] == ops[i];
      HoldsLastWrite(ttl, init, k, now);
    }
  }

  /** Sweeps inserted anywhere change no read. */
  lemma SweepsAreInvisible<K, V>(ttl: real, ops: seq<Op<K, V>>, k: K, now: real)
    requires SweptBy(ops, now)
    ensures Lookup(After(ttl, ops), k, now) == Lookup(After(ttl, WithoutSweeps(ops)), k, now)
  {
    SweepsAreNotWrites(ops, k);
    GetReturnsLastFreshWrite(ttl, ops, k, now);
    GetReturnsLastFreshWrite(ttl, WithoutSweeps(ops), k, now);
  }
}
