/** The gateway's token-bucket limiter: lazy refill, a cap, and a purge that forgets idle clients.
    Time is a real number of seconds; token counts are reals. */
module RateLimiter {

  datatype Config = Config(rate: real, capacity: real)

  datatype Bucket = Bucket(tokens: real, lastSeen: real)

  type Buckets = map<string, Bucket>

  // A purge drops buckets not seen for ten minutes.
  const PURGE_AGE := 600.0

  function Min(a: real, b: real): real {
    if a < b then a else b
  }

  /** Tokens earned between time zero and t. */
  function Earned(cfg: Config, t: real): real {
    cfg.rate * t
  }

  function Refilled(cfg: Config, b: Bucket, now: real): real {
    Min(cfg.capacity, b.tokens + (Earned(cfg, now) - Earned(cfg, b.lastSeen)))
  }

  function Charge(cfg: Config, bs: Buckets, ip: string, now: real): (Buckets, bool) {
    if ip !in bs then (bs[ip := Bucket(cfg.capacity - 1.0, now)], true)
    else
      var tokens := Refilled(cfg, bs[ip], now);
      if tokens < 1.0 then (bs[ip := Bucket(tokens, now)], false)
      else (bs[ip := Bucket(tokens - 1.0, now)], true)
  }

  predicate Stale(b: Bucket, now: real) {
    b.lastSeen < now - PURGE_AGE
  }

  function Purged(bs: Buckets, now: real): Buckets {
    map ip | ip in bs && !Stale(bs[ip], now) :: bs[ip]
  }

  /** The limiter object. Each bucket is reachable only through the map, so it is a value here. */
  class Limiter {
    var buckets: Buckets
    const cfg: Config

    constructor (rps: real, burst: real)
      ensures buckets == map[] && cfg == Config(rps, burst)
    {
      buckets := map[];
      cfg := Config(rps, burst);
    }

    method Allow(ip: string, now: real) returns (ok: bool)
      modifies this
      ensures (buckets, ok) == Charge(cfg, old(buckets), ip, now)
    {
      if ip !in buckets {
        buckets := buckets[ip := Bucket(cfg.capacity - 1.0, now)];
        return true;
      }
      var b := buckets[ip];
      var elapsed := now - b.lastSeen;
      assert elapsed * cfg.rate == Earned(cfg, now) - Earned(cfg, b.lastSeen);
      b := Bucket(Min(cfg.capacity, b.tokens + elapsed * cfg.rate), now);
      if b.tokens < 1.0 {
        buckets := buckets[ip := b];
        return false;
      }
      buckets := buckets[ip := b.(tokens := b.tokens - 1.0)];
      return true;
    }

    method Purge(now: real)
      modifies this
      ensures buckets == Purged(old(buckets), now)
      ensures forall ip :: ip in buckets <==> ip in old(buckets) && now - 600.0 <= old(buckets)[ip].lastSeen
    {
      var cutoff := now - PURGE_AGE;
      var todo := buckets.Keys;
      while todo != {}
        invariant todo <= old(buckets).Keys
        invariant forall ip :: ip in buckets <==>
            ip in old(buckets) && (ip in todo || !Stale(old(buckets)[ip], now))
        invariant forall ip :: ip in buckets ==> buckets[ip] == old(buckets)[ip]
        decreases |todo|
      {
        var ip :| ip in todo;
        if buckets[ip].lastSeen < cutoff {
          buckets := buckets - {ip};
        }
        todo := todo - {ip};
      }
    }
  }

  // ---------------------------------------------------------------- runs

  datatype Event = Call(ip: string, at: real) | Purge(at: real)

  /** One event. With `purging` off a purge is a no-op: the limiter that never forgets. */
  function Step(cfg: Config, purging: bool, bs: Buckets, e: Event): (Buckets, bool) {
    match e
    case Call(ip, at) => Charge(cfg, bs, ip, at)
    case Purge(at) => (if purging then Purged(bs, at) else bs, false)
  }

  function After(cfg: Config, purging: bool, es: seq<Event>): Buckets {
    if es == [] then map[]
    else Step(cfg, purging, After(cfg, purging, es[..|es| - 1]), es[|es| - 1]).0
  }

  predicate Admitted(cfg: Config, purging: bool, es: seq<Event>, j: nat)
    requires j < |es|
  {
    Step(cfg, purging, After(cfg, purging, es[..j]), es[j]).1
  }

  predicate CallOf(es: seq<Event>, ip: string, i: int) {
    0 <= i < |es| && es[i].Call? && es[i].ip == ip
  }

  /** Calls of `ip` admitted among the events i, .., j - 1. */
  function Granted(cfg: Config, purging: bool, es: seq<Event>, ip: string, i: nat, j: nat): nat
    requires j <= |es|
    decreases j
  {
    if j <= i then 0
    else Granted(cfg, purging, es, ip, i, j - 1)
         + if CallOf(es, ip, j - 1) && Admitted(cfg, purging, es, j - 1) then 1 else 0
  }

  /** Calls of `ip` admitted among the first n events with a time stamp in [s, t]. */
  function GrantedWithin(cfg: Config, purging: bool, es: seq<Event>, ip: string, s: real, t: real, n: nat): nat
    requires n <= |es|
    decreases n
  {
    if n == 0 then 0
    else GrantedWithin(cfg, purging, es, ip, s, t, n - 1)
         + if CallOf(es, ip, n - 1) && Admitted(cfg, purging, es, n - 1) && s <= es[n - 1].at <= t then 1 else 0
  }

  ghost predicate Monotone(es: seq<Event>) {
    forall i, j :: 0 <= i < j < |es| ==> es[i].at <= es[j].at
  }

  /** The declarative rule: every window ending at call n still has room for one more call. */
  ghost predicate EveryWindowHasRoom(cfg: Config, purging: bool, es: seq<Event>, n: nat)
    requires n < |es| && es[n].Call?
  {
    forall i :: 0 <= i <= n && CallOf(es, es[n].ip, i) ==>
      Granted(cfg, purging, es, es[n].ip, i, n) as real + 1.0
      <= cfg.capacity + (Earned(cfg, es[n].at) - Earned(cfg, es[i].at))
  }

  // ---------------------------------------------------------------- the window theorem

  /** Room left in the window that opened at call i, as of time `now` and after n events. */
  function Room(cfg: Config, es: seq<Event>, ip: string, i: nat, n: nat, now: real): real
    requires i < n <= |es|
  {
    cfg.capacity + (Earned(cfg, now) - Earned(cfg, es[i].at)) - Granted(cfg, false, es, ip, i, n) as real
  }

  /** After n events the bucket of `ip` holds exactly the tightest room over all windows. */
  ghost predicate Tight(cfg: Config, es: seq<Event>, ip: string, n: nat)
    requires n <= |es|
  {
    var bs := After(cfg, false, es[..n]);
    && (ip in bs <==> exists i :: 0 <= i < n && CallOf(es, ip, i))
    && (ip in bs ==>
          && (forall i :: 0 <= i < n && CallOf(es, ip, i) ==>
                bs[ip].tokens <= Room(cfg, es, ip, i, n, bs[ip].lastSeen))
          && (exists i :: 0 <= i < n && CallOf(es, ip, i) &&
                bs[ip].tokens == Room(cfg, es, ip, i, n, bs[ip].lastSeen)))
  }

  lemma AfterSnoc(cfg: Config, purging: bool, es: seq<Event>, n: nat)
    requires n < |es|
    ensures After(cfg, purging, es[..n + 1]) == Step(cfg, purging, After(cfg, purging, es[..n]), es[n]).0
  {
    assert es[..n + 1][..n] == es[..n];
  }

  lemma RoomShifts(cfg: Config, es: seq<Event>, ip: string, i: nat, n: nat, t0: real, t1: real)
    requires i < n <= |es|
    ensures Room(cfg, es, ip, i, n, t1) == Room(cfg, es, ip, i, n, t0) + (Earned(cfg, t1) - Earned(cfg, t0))
  {
  }

  lemma TightStepOther(cfg: Config, es: seq<Event>, ip: string, n: nat)
    requires n < |es| && !CallOf(es, ip, n) && Tight(cfg, es, ip, n)
    ensures Tight(cfg, es, ip, n + 1)
  {
    AfterSnoc(cfg, false, es, n);
    var bs, bs' := After(cfg, false, es[..n]), After(cfg, false, es[..n + 1]);
    assert ip in bs' <==> ip in bs;
    if ip in bs {
      assert bs'[ip] == bs[ip];
      var t := bs[ip].lastSeen;
      assert forall i :: 0 <= i < n && CallOf(es, ip, i) ==>
          Room(cfg, es, ip, i, n + 1, t) == Room(cfg, es, ip, i, n, t);
    }
  }

  lemma TightStepFirst(cfg: Config, es: seq<Event>, ip: string, n: nat)
    requires n < |es| && CallOf(es, ip, n) && Tight(cfg, es, ip, n)
    requires ip !in After(cfg, false, es[..n])
    ensures Tight(cfg, es, ip, n + 1)
  {
    AfterSnoc(cfg, false, es, n);
    var b := After(cfg, false, es[..n + 1])[ip];
    assert Granted(cfg, false, es, ip, n, n) == 0;
    assert b.tokens == Room(cfg, es, ip, n, n + 1, b.lastSeen);
    forall i | 0 <= i < n + 1 && CallOf(es, ip, i)
      ensures i == n
    {
    }
  }

  /** Refilling a known bucket keeps it the tightest room over all windows, or fills it up. */
  lemma RefilledIsTight(cfg: Config, es: seq<Event>, ip: string, n: nat)
    requires n < |es| && CallOf(es, ip, n) && Tight(cfg, es, ip, n)
    requires ip in After(cfg, false, es[..n])
    ensures var b := After(cfg, false, es[..n])[ip];
            && (forall i :: 0 <= i < n && CallOf(es, ip, i) ==>
                  Refilled(cfg, b, es[n].at) <= Room(cfg, es, ip, i, n, es[n].at))
            && (Refilled(cfg, b, es[n].at) == cfg.capacity ||
                exists i :: 0 <= i < n && CallOf(es, ip, i) &&
                  Refilled(cfg, b, es[n].at) == Room(cfg, es, ip, i, n, es[n].at))
  {
    var b, t := After(cfg, false, es[..n])[ip], es[n].at;
    forall i | 0 <= i < n && CallOf(es, ip, i)
      ensures Refilled(cfg, b, t) <= Room(cfg, es, ip, i, n, t)
    {
      RoomShifts(cfg, es, ip, i, n, b.lastSeen, t);
    }
    if Refilled(cfg, b, t) != cfg.capacity {
      var i :| 0 <= i < n && CallOf(es, ip, i) && b.tokens == Room(cfg, es, ip, i, n, b.lastSeen);
      RoomShifts(cfg, es, ip, i, n, b.lastSeen, t);
    }
  }

  /** What a call does to the room in the windows it closes. */
  lemma RoomAfterCall(cfg: Config, es: seq<Event>, ip: string, i: nat, n: nat, paid: real)
    requires i <= n < |es| && CallOf(es, ip, n) && paid == if Admitted(cfg, false, es, n) then 1.0 else 0.0
    ensures Room(cfg, es, ip, i, n + 1, es[n].at) ==
        (if i < n then Room(cfg, es, ip, i, n, es[n].at) else cfg.capacity) - paid
  {
    assert Granted(cfg, false, es, ip, i, n + 1) as real == Granted(cfg, false, es, ip, i, n) as real + paid;
    assert i == n ==> Granted(cfg, false, es, ip, i, n) == 0;
  }

  lemma TightStepAgain(cfg: Config, es: seq<Event>, ip: string, n: nat)
    requires n < |es| && CallOf(es, ip, n) && Tight(cfg, es, ip, n)
    requires ip in After(cfg, false, es[..n])
    ensures Tight(cfg, es, ip, n + 1)
  {
    AfterSnoc(cfg, false, es, n);
    RefilledIsTight(cfg, es, ip, n);
    var b, t := After(cfg, false, es[..n])[ip], es[n].at;
    var b' := After(cfg, false, es[..n + 1])[ip];
    var paid := if Admitted(cfg, false, es, n) then 1.0 else 0.0;
    assert b'.tokens == Refilled(cfg, b, t) - paid && b'.lastSeen == t;
    forall i | 0 <= i < n + 1 && CallOf(es, ip, i)
      ensures b'.tokens <= Room(cfg, es, ip, i, n + 1, t)
    {
      RoomAfterCall(cfg, es, ip, i, n, paid);
    }
    if Refilled(cfg, b, t) == cfg.capacity {
      RoomAfterCall(cfg, es, ip, n, n, paid);
    } else {
      var i :| 0 <= i < n && CallOf(es, ip, i) && Refilled(cfg, b, t) == Room(cfg, es, ip, i, n, t);
      RoomAfterCall(cfg, es, ip, i, n, paid);
    }
  }

  lemma {:induction false} AlwaysTight(cfg: Config, es: seq<Event>, ip: string, n: nat)
    requires n <= |es|
    ensures Tight(cfg, es, ip, n)
    decreases n
  {
    if n > 0 {
      AlwaysTight(cfg, es, ip, n - 1);
      if !CallOf(es, ip, n - 1) {
        TightStepOther(cfg, es, ip, n - 1);
      } else if ip in After(cfg, false, es[..n - 1]) {
        TightStepAgain(cfg, es, ip, n - 1);
      } else {
        TightStepFirst(cfg, es, ip, n - 1);
      }
    }
  }

  /** With room for at least one call, a call is admitted exactly when every window ending at it
      has room. Nothing is assumed of the clock, of the rate, or of other clients' traffic. */
  lemma AdmittedIffEveryWindowHasRoom(cfg: Config, es: seq<Event>, n: nat)
    requires cfg.capacity >= 1.0
    requires n < |es| && es[n].Call?
    ensures Admitted(cfg, false, es, n) <==> EveryWindowHasRoom(cfg, false, es, n)
  {
    var ip := es[n].ip;
    AlwaysTight(cfg, es, ip, n);
    assert Granted(cfg, false, es, ip, n, n) == 0;
    if ip in After(cfg, false, es[..n]) {
      RefilledIsTight(cfg, es, ip, n);
    }
  }

  /** Below one token of capacity a limiter that never purges admits a client's first call, and only that one. */
  lemma TinyCapacityAdmitsOnlyTheFirstCall(cfg: Config, es: seq<Event>, n: nat)
    requires cfg.capacity < 1.0
    requires n < |es| && es[n].Call?
    ensures Admitted(cfg, false, es, n) <==> forall i :: 0 <= i < n ==> !CallOf(es, es[n].ip, i)
  {
    AlwaysTight(cfg, es, es[n].ip, n);
  }

  // ---------------------------------------------------------------- consequences

  /** Locates the admitted call that opens the window, if any call in it was admitted. */
  lemma {:induction false} WindowOpener(cfg: Config, purging: bool, es: seq<Event>, ip: string, s: real, t: real, n: nat)
    returns (i: nat)
    requires n <= |es| && GrantedWithin(cfg, purging, es, ip, s, t, n) > 0
    ensures i < n && CallOf(es, ip, i) && s <= es[i].at <= t
    ensures GrantedWithin(cfg, purging, es, ip, s, t, n) <= Granted(cfg, purging, es, ip, i, n)
    decreases n
  {
    if GrantedWithin(cfg, purging, es, ip, s, t, n - 1) > 0 {
      i := WindowOpener(cfg, purging, es, ip, s, t, n - 1);
    } else {
      i := n - 1;
      assert Granted(cfg, purging, es, ip, i, i) == 0;
    }
  }

  lemma EarnsMore(cfg: Config, s: real, t: real)
    requires cfg.rate >= 0.0 && s <= t
    ensures Earned(cfg, s) <= Earned(cfg, t)
  {
  }

  /** A wider window earns at least as much. */
  lemma EarnsOutside(cfg: Config, s: real, u: real, v: real, t: real)
    requires cfg.rate >= 0.0 && s <= u && v <= t
    ensures Earned(cfg, v) - Earned(cfg, u) <= Earned(cfg, t) - Earned(cfg, s)
  {
    EarnsMore(cfg, s, u);
    EarnsMore(cfg, v, t);
  }

  ghost predicate AllHaveRoom(cfg: Config, purging: bool, es: seq<Event>, ip: string) {
    forall k :: 0 <= k < |es| && CallOf(es, ip, k) && Admitted(cfg, purging, es, k) ==>
      EveryWindowHasRoom(cfg, purging, es, k)
  }

  /** The bound when the last event counted is an admitted call in the window. */
  lemma ClosingCallIsBounded(cfg: Config, purging: bool, es: seq<Event>, ip: string, s: real, t: real, j: nat)
    requires cfg.rate >= 0.0 && j < |es| && AllHaveRoom(cfg, purging, es, ip)
    requires CallOf(es, ip, j) && Admitted(cfg, purging, es, j) && s <= es[j].at <= t
    ensures GrantedWithin(cfg, purging, es, ip, s, t, j + 1) as real <= cfg.capacity + (Earned(cfg, t) - Earned(cfg, s))
  {
    var i := WindowOpener(cfg, purging, es, ip, s, t, j + 1);
    assert Granted(cfg, purging, es, ip, i, j + 1) == Granted(cfg, purging, es, ip, i, j) + 1;
    assert Granted(cfg, purging, es, ip, i, j) as real + 1.0
        <= cfg.capacity + (Earned(cfg, es[j].at) - Earned(cfg, es[i].at)) by {
      assert EveryWindowHasRoom(cfg, purging, es, j);
    }
    EarnsOutside(cfg, s, es[i].at, es[j].at, t);
  }

  lemma {:induction false} WindowBoundFromRoom(cfg: Config, purging: bool, es: seq<Event>, ip: string, s: real, t: real, n: nat)
    requires cfg.capacity >= 1.0 && cfg.rate >= 0.0 && s <= t && n <= |es| && AllHaveRoom(cfg, purging, es, ip)
    ensures GrantedWithin(cfg, purging, es, ip, s, t, n) as real <= cfg.capacity + (Earned(cfg, t) - Earned(cfg, s))
    decreases n
  {
    if n == 0 {
      EarnsMore(cfg, s, t);
    } else if CallOf(es, ip, n - 1) && Admitted(cfg, purging, es, n - 1) && s <= es[n - 1].at <= t {
      ClosingCallIsBounded(cfg, purging, es, ip, s, t, n - 1);
    } else {
      WindowBoundFromRoom(cfg, purging, es, ip, s, t, n - 1);
    }
  }

  /** Each call of `ip` comes at least 1/rate seconds after any earlier one. */
  ghost predicate WellSpaced(cfg: Config, es: seq<Event>, ip: string) {
    forall i, j :: 0 <= i < j < |es| && CallOf(es, ip, i) && CallOf(es, ip, j) ==>
      Earned(cfg, es[j].at) - Earned(cfg, es[i].at) >= 1.0
  }

  ghost predicate SeenAt(es: seq<Event>, ip: string, n: nat, t: real) {
    exists i :: 0 <= i < n && CallOf(es, ip, i) && es[i].at == t
  }

  /** The client's bucket is not overdrawn and was last touched by one of its first n events. */
  ghost predicate Charged(es: seq<Event>, ip: string, n: nat, bs: Buckets) {
    ip in bs ==> bs[ip].tokens >= 0.0 && SeenAt(es, ip, n, bs[ip].lastSeen)
  }

  lemma SpacedStepOther(cfg: Config, purging: bool, es: seq<Event>, ip: string, n: nat, bs: Buckets)
    requires n < |es| && !CallOf(es, ip, n) && Charged(es, ip, n, bs)
    ensures Charged(es, ip, n + 1, Step(cfg, purging, bs, es[n]).0)
  {
    var bs' := Step(cfg, purging, bs, es[n]).0;
    assert ip in bs' ==> ip in bs && bs'[ip] == bs[ip];
  }

  lemma SpacedStepOwn(cfg: Config, purging: bool, es: seq<Event>, ip: string, n: nat, bs: Buckets)
    requires cfg.capacity >= 1.0 && WellSpaced(cfg, es, ip) && CallOf(es, ip, n) && Charged(es, ip, n, bs)
    ensures Charged(es, ip, n + 1, Step(cfg, purging, bs, es[n]).0) && Step(cfg, purging, bs, es[n]).1
  {
    assert SeenAt(es, ip, n + 1, es[n].at);
    if ip in bs {
      SpacedCallIsAdmitted(cfg, bs, ip, es[n].at);
    }
  }

  lemma {:induction false} SpacedBucketsStayCharged(cfg: Config, purging: bool, es: seq<Event>, ip: string, n: nat)
    requires cfg.capacity >= 1.0 && n <= |es| && WellSpaced(cfg, es, ip)
    ensures Charged(es, ip, n, After(cfg, purging, es[..n]))
    ensures forall k :: 0 <= k < n && CallOf(es, ip, k) ==> Admitted(cfg, purging, es, k)
    decreases n
  {
    if n > 0 {
      SpacedBucketsStayCharged(cfg, purging, es, ip, n - 1);
      AfterSnoc(cfg, purging, es, n - 1);
      if CallOf(es, ip, n - 1) {
        SpacedStepOwn(cfg, purging, es, ip, n - 1, After(cfg, purging, es[..n - 1]));
      } else {
        SpacedStepOther(cfg, purging, es, ip, n - 1, After(cfg, purging, es[..n - 1]));
      }
    }
  }

  lemma SpacedCallIsAdmitted(cfg: Config, bs: Buckets, ip: string, at: real)
    requires cfg.capacity >= 1.0 && ip in bs && bs[ip].tokens >= 0.0
    requires Earned(cfg, at) - Earned(cfg, bs[ip].lastSeen) >= 1.0
    ensures var (bs', ok) := Charge(cfg, bs, ip, at); ok && ip in bs' && bs'[ip].tokens >= 0.0 && bs'[ip].lastSeen == at
  {
  }

  /** A client that spaces its calls by at least 1/rate is never refused, whatever the purges. */
  lemma SpacedClientIsNeverRefused(cfg: Config, purging: bool, es: seq<Event>, ip: string, n: nat)
    requires cfg.capacity >= 1.0 && WellSpaced(cfg, es, ip)
    requires CallOf(es, ip, n)
    ensures Admitted(cfg, purging, es, n)
  {
    SpacedBucketsStayCharged(cfg, purging, es, ip, |es|);
  }

  // ---------------------------------------------------------------- purging

  /** On every run, purging changes no decision. */
  ghost predicate PurgeInvisible(cfg: Config) {
    forall es, j: nat :: Monotone(es) && j < |es| ==>
      Admitted(cfg, true, es, j) == Admitted(cfg, false, es, j)
  }

  predicate SafeToPurge(cfg: Config) {
    cfg.capacity >= 1.0 && 600.0 * cfg.rate >= cfg.capacity
  }

  /** What the purging limiter forgot is a bucket that has had time to fill up again. */
  ghost predicate Simulates(real_: Buckets, shadow: Buckets, now: real) {
    && real_.Keys <= shadow.Keys
    && (forall ip :: ip in shadow ==>
          && shadow[ip].tokens >= 0.0 && shadow[ip].lastSeen <= now
          && (if ip in real_ then real_[ip] == shadow[ip] else Stale(shadow[ip], now)))
  }

  lemma IdleEarns(cfg: Config, s: real, t: real)
    requires cfg.rate >= 0.0 && s + 600.0 <= t
    ensures Earned(cfg, t) - Earned(cfg, s) >= 600.0 * cfg.rate
  {
    var over := t - s - 600.0;
    assert cfg.rate * over >= 0.0;
    assert Earned(cfg, t) - Earned(cfg, s) == 600.0 * cfg.rate + cfg.rate * over;
  }

  lemma SimulationStep(cfg: Config, real_: Buckets, shadow: Buckets, now: real, e: Event)
    requires SafeToPurge(cfg) && Simulates(real_, shadow, now) && now <= e.at
    ensures Simulates(Step(cfg, true, real_, e).0, Step(cfg, false, shadow, e).0, e.at)
    ensures Step(cfg, true, real_, e).1 == Step(cfg, false, shadow, e).1
  {
    if e.Call? && e.ip in shadow {
      var b := shadow[e.ip];
      EarnsMore(cfg, b.lastSeen, e.at);
      if e.ip !in real_ {
        IdleEarns(cfg, b.lastSeen, e.at);
        assert Refilled(cfg, b, e.at) == cfg.capacity;
      }
    }
  }

  lemma {:induction false} SimulationHolds(cfg: Config, es: seq<Event>, n: nat)
    requires SafeToPurge(cfg) && Monotone(es) && 0 < n <= |es|
    ensures Simulates(After(cfg, true, es[..n]), After(cfg, false, es[..n]), es[n - 1].at)
    ensures Admitted(cfg, true, es, n - 1) == Admitted(cfg, false, es, n - 1)
    decreases n
  {
    AfterSnoc(cfg, true, es, n - 1);
    AfterSnoc(cfg, false, es, n - 1);
    if n == 1 {
      SimulationStep(cfg, map[], map[], es[0].at, es[0]);
    } else {
      SimulationHolds(cfg, es, n - 1);
      SimulationStep(cfg, After(cfg, true, es[..n - 1]), After(cfg, false, es[..n - 1]), es[n - 2].at, es[n - 1]);
    }
  }

  lemma {:induction false} SameGrants(cfg: Config, es: seq<Event>, ip: string, i: nat, j: nat)
    requires SafeToPurge(cfg) && Monotone(es) && j <= |es|
    ensures Granted(cfg, true, es, ip, i, j) == Granted(cfg, false, es, ip, i, j)
    decreases j
  {
    if i < j {
      SameGrants(cfg, es, ip, i, j - 1);
      SimulationHolds(cfg, es, j);
    }
  }

  /** The window rule for the limiter as deployed, when purges are safe. */
  lemma PurgingLimiterObeysTheWindowRule(cfg: Config, es: seq<Event>, n: nat)
    requires SafeToPurge(cfg) && Monotone(es) && n < |es| && es[n].Call?
    ensures Admitted(cfg, true, es, n) <==> EveryWindowHasRoom(cfg, true, es, n)
  {
    SimulationHolds(cfg, es, n + 1);
    AdmittedIffEveryWindowHasRoom(cfg, es, n);
    forall i | 0 <= i <= n
      ensures Granted(cfg, true, es, es[n].ip, i, n) == Granted(cfg, false, es, es[n].ip, i, n)
    {
      SameGrants(cfg, es, es[n].ip, i, n);
    }
  }

  lemma EarnedOver(cfg: Config, s: real, t: real)
    ensures Earned(cfg, t) - Earned(cfg, s) == cfg.rate * (t - s)
  {
  }

  lemma AdmittedHasRoom(cfg: Config, purging: bool, es: seq<Event>, ip: string)
    requires cfg.capacity >= 1.0 && (purging ==> SafeToPurge(cfg) && Monotone(es))
    ensures AllHaveRoom(cfg, purging, es, ip)
  {
    forall k | 0 <= k < |es| && CallOf(es, ip, k) && Admitted(cfg, purging, es, k)
      ensures EveryWindowHasRoom(cfg, purging, es, k)
    {
      if purging {
        PurgingLimiterObeysTheWindowRule(cfg, es, k);
      } else {
        AdmittedIffEveryWindowHasRoom(cfg, es, k);
      }
    }
  }

  /** No window [s, t] admits more than capacity + rate * (t - s) calls of one client, with purges
      (under the condition that makes them invisible) or without. */
  lemma WindowBound(cfg: Config, purging: bool, es: seq<Event>, ip: string, s: real, t: real)
    requires cfg.capacity >= 1.0 && cfg.rate >= 0.0 && s <= t
    requires purging ==> SafeToPurge(cfg) && Monotone(es)
    ensures GrantedWithin(cfg, purging, es, ip, s, t, |es|) as real <= cfg.capacity + cfg.rate * (t - s)
  {
    AdmittedHasRoom(cfg, purging, es, ip);
    WindowBoundFromRoom(cfg, purging, es, ip, s, t, |es|);
    EarnedOver(cfg, s, t);
  }

  // The converse: outside SafeToPurge some run tells the two limiters apart.

  lemma Snoc(cfg: Config, purging: bool, es: seq<Event>, e: Event)
    ensures var bs := After(cfg, purging, es);
            && After(cfg, purging, es + [e]) == Step(cfg, purging, bs, e).0
            && Admitted(cfg, purging, es + [e], |es|) == Step(cfg, purging, bs, e).1
  {
  }

  lemma EarnsAfter(cfg: Config, t: real, w: real, x: real)
    requires cfg.rate > 0.0 && w == x / cfg.rate && x >= 0.0
    ensures w >= 0.0 && Earned(cfg, t + w) - Earned(cfg, t) == x
  {
  }

  /** Both limiters know client "" and last saw it at time t, the final instant of the run. */
  ghost predicate KnownAt(cfg: Config, es: seq<Event>, real_: real, shadow: real, t: real) {
    && Monotone(es) && |es| > 0 && es[|es| - 1].at == t
    && After(cfg, true, es) == map["" := Bucket(real_, t)]
    && After(cfg, false, es) == map["" := Bucket(shadow, t)]
  }

  /** Appending a call of "" at time t' moves both buckets. */
  lemma CallBoth(cfg: Config, es: seq<Event>, a: real, b: real, t: real, t': real)
    returns (es': seq<Event>)
    requires KnownAt(cfg, es, b, a, t) && t <= t'
    ensures var ra, rb := Refilled(cfg, Bucket(a, t), t'), Refilled(cfg, Bucket(b, t), t');
            && |es'| == |es| + 1
            && KnownAt(cfg, es', if rb < 1.0 then rb else rb - 1.0, if ra < 1.0 then ra else ra - 1.0, t')
            && Admitted(cfg, true, es', |es|) == (rb >= 1.0)
            && Admitted(cfg, false, es', |es|) == (ra >= 1.0)
  {
    es' := es + [Call("", t')];
    Snoc(cfg, true, es, Call("", t'));
    Snoc(cfg, false, es, Call("", t'));
  }

  /** Spends whole tokens until less than one is left. */
  lemma {:induction false} Drain(cfg: Config, es: seq<Event>, a: real, t: real, k: nat)
    returns (es': seq<Event>, a': real)
    requires KnownAt(cfg, es, a, a, t) && 0.0 <= a <= cfg.capacity && a <= k as real
    ensures KnownAt(cfg, es', a', a', t) && 0.0 <= a' < 1.0
    decreases k
  {
    if a < 1.0 {
      es', a' := es, a;
    } else {
      var es1 := CallBoth(cfg, es, a, a, t, t);
      es', a' := Drain(cfg, es1, a - 1.0, t, k - 1);
    }
  }

  /** Two buckets holding different amounts can be told apart. */
  lemma {:induction false} Distinguish(cfg: Config, es: seq<Event>, a: real, b: real, t: real, k: nat)
    returns (es': seq<Event>, j: nat)
    requires cfg.rate > 0.0 && cfg.capacity >= 1.0
    requires KnownAt(cfg, es, b, a, t) && a < b <= cfg.capacity && b <= k as real
    ensures Monotone(es') && j < |es'| && Admitted(cfg, true, es', j) != Admitted(cfg, false, es', j)
    decreases k
  {
    j := |es|;
    if b < 1.0 {
      var w := (1.0 - b) / cfg.rate;
      EarnsAfter(cfg, t, w, 1.0 - b);
      es' := CallBoth(cfg, es, a, b, t, t + w);
    } else {
      es' := CallBoth(cfg, es, a, b, t, t);
      if a >= 1.0 {
        es', j := Distinguish(cfg, es', a - 1.0, b - 1.0, t, k - 1);
      }
    }
  }

  /** A purge at time t' followed by a call forgets and re-admits client "". */
  lemma PurgeThenCall(cfg: Config, es: seq<Event>, a: real, t: real, t': real)
    returns (es': seq<Event>)
    requires KnownAt(cfg, es, a, a, t) && t + 600.0 < t'
    ensures var ra := Refilled(cfg, Bucket(a, t), t');
            && |es'| == |es| + 2
            && KnownAt(cfg, es', cfg.capacity - 1.0, if ra < 1.0 then ra else ra - 1.0, t')
            && Admitted(cfg, true, es', |es| + 1)
            && Admitted(cfg, false, es', |es| + 1) == (ra >= 1.0)
  {
    var p, c := Purge(t'), Call("", t');
    Snoc(cfg, true, es, p);
    Snoc(cfg, false, es, p);
    assert After(cfg, true, es + [p]) == map[];
    Snoc(cfg, true, es + [p], c);
    Snoc(cfg, false, es + [p], c);
    es' := es + [p] + [c];
  }

  lemma FirstCall(cfg: Config) returns (es: seq<Event>)
    ensures KnownAt(cfg, es, cfg.capacity - 1.0, cfg.capacity - 1.0, 0.0)
  {
    es := [Call("", 0.0)];
    Snoc(cfg, true, [], Call("", 0.0));
    Snoc(cfg, false, [], Call("", 0.0));
    assert [] + [Call("", 0.0)] == es;
  }

  lemma CeilingOf(x: real) returns (k: nat)
    requires x >= 0.0
    ensures x <= k as real
  {
    k := x.Floor + 1;
  }

  /** Tiny capacity, or a rate that never refills: the forgotten client gets in, the remembered one does not. */
  lemma PurgeShowsWhenNothingRefills(cfg: Config) returns (es: seq<Event>, j: nat)
    requires cfg.capacity < 1.0 || cfg.rate <= 0.0
    ensures Monotone(es) && j < |es| && Admitted(cfg, true, es, j) != Admitted(cfg, false, es, j)
  {
    var es0 := FirstCall(cfg);
    var a := cfg.capacity - 1.0;
    if cfg.capacity >= 1.0 {
      var k := CeilingOf(a);
      es0, a := Drain(cfg, es0, a, 0.0, k);
    }
    if cfg.rate <= 0.0 {
      assert Earned(cfg, 601.0) <= Earned(cfg, 0.0);
    }
    es := PurgeThenCall(cfg, es0, a, 0.0, 601.0);
    j := |es0| + 1;
  }

  /** Refill slower than capacity per purge age: drain, go idle just too long, and the two differ. */
  lemma PurgeShowsWhenRefillIsSlow(cfg: Config) returns (es: seq<Event>, j: nat)
    requires cfg.capacity >= 1.0 && cfg.rate > 0.0 && 600.0 * cfg.rate < cfg.capacity
    ensures Monotone(es) && j < |es| && Admitted(cfg, true, es, j) != Admitted(cfg, false, es, j)
  {
    var es0 := FirstCall(cfg);
    var k := CeilingOf(cfg.capacity);
    var a;
    es0, a := Drain(cfg, es0, cfg.capacity - 1.0, 0.0, k);
    var w := (1.0 - a) / cfg.rate;
    EarnsAfter(cfg, 0.0, w, 1.0 - a);
    es0 := CallBoth(cfg, es0, a, a, 0.0, w);
    // the bucket is empty at time w; idle until it holds x tokens, x between the purge age's worth and capacity
    var x := (600.0 * cfg.rate + cfg.capacity) / 2.0;
    var gap := x / cfg.rate;
    EarnsAfter(cfg, w, gap, x);
    LongGap(cfg, x, gap);
    es := PurgeThenCall(cfg, es0, 0.0, w, w + gap);
    assert Refilled(cfg, Bucket(0.0, w), w + gap) == x;
    if x < 1.0 {
      j := |es0| + 1;
    } else {
      es, j := Distinguish(cfg, es, x - 1.0, cfg.capacity - 1.0, w + gap, k);
    }
  }

  lemma LongGap(cfg: Config, x: real, gap: real)
    requires cfg.rate > 0.0 && 600.0 * cfg.rate < x && gap == x / cfg.rate
    ensures gap > 600.0
  {
  }

  /** Purging is invisible on every run exactly when the capacity is at least one token and a
      bucket refills completely within the purge age. */
  lemma PurgeInvisibleIff(cfg: Config)
    ensures PurgeInvisible(cfg) <==> SafeToPurge(cfg)
  {
    if SafeToPurge(cfg) {
      forall es, j: nat | Monotone(es) && j < |es|
        ensures Admitted(cfg, true, es, j) == Admitted(cfg, false, es, j)
      {
        SimulationHolds(cfg, es, j + 1);
      }
    } else {
      var es, j;
      if cfg.capacity < 1.0 || cfg.rate <= 0.0 {
        es, j := PurgeShowsWhenNothingRefills(cfg);
      } else {
        es, j := PurgeShowsWhenRefillIsSlow(cfg);
      }
    }
  }

  // ---------------------------------------------------------------- whom the purging limiter remembers

  /** No purge since call i found it too old. */
  ghost predicate Remembered(es: seq<Event>, ip: string, i: int, n: nat)
    requires n <= |es|
  {
    && 0 <= i < n && CallOf(es, ip, i)
    && forall k :: i < k < n && es[k].Purge? ==> es[i].at >= es[k].at - 600.0
  }

  ghost predicate LastCall(es: seq<Event>, ip: string, i: int, n: nat)
    requires n <= |es|
  {
    0 <= i < n && CallOf(es, ip, i) && forall k :: i < k < n ==> !CallOf(es, ip, k)
  }

  /** A bucket is held exactly for the clients whose last call is remembered, and dates from that call. */
  ghost predicate Holds(es: seq<Event>, ip: string, n: nat, bs: Buckets)
    requires n <= |es|
  {
    && (ip in bs <==> exists i :: Remembered(es, ip, i, n))
    && (ip in bs ==> exists i :: LastCall(es, ip, i, n) && Remembered(es, ip, i, n) && bs[ip].lastSeen == es[i].at)
  }

  lemma HoldsAfterOwnCall(cfg: Config, es: seq<Event>, ip: string, n: nat, m: nat, bs: Buckets)
    requires m == n + 1 <= |es| && CallOf(es, ip, n)
    ensures Holds(es, ip, m, Step(cfg, true, bs, es[n]).0)
  {
    assert LastCall(es, ip, n, m) && Remembered(es, ip, n, m);
  }

  /** What an event other than a call of the client does to its memory. */
  lemma RememberedNext(es: seq<Event>, ip: string, n: nat, m: nat)
    requires m == n + 1 <= |es| && !CallOf(es, ip, n)
    ensures forall i :: Remembered(es, ip, i, m) <==>
        Remembered(es, ip, i, n) && (es[n].Purge? ==> es[i].at >= es[n].at - 600.0)
    ensures forall i :: LastCall(es, ip, i, n) ==> LastCall(es, ip, i, m)
  {
  }

  lemma HoldsAfterOtherCall(cfg: Config, es: seq<Event>, ip: string, n: nat, m: nat, bs: Buckets)
    requires m == n + 1 <= |es| && es[n].Call? && !CallOf(es, ip, n) && Holds(es, ip, n, bs)
    ensures Holds(es, ip, m, Step(cfg, true, bs, es[n]).0)
  {
    var bs' := Step(cfg, true, bs, es[n]).0;
    assert (ip in bs' <==> ip in bs) && (ip in bs ==> bs'[ip] == bs[ip]);
    RememberedNext(es, ip, n, m);
  }

  lemma HoldsAfterPurge(cfg: Config, es: seq<Event>, ip: string, n: nat, m: nat, bs: Buckets)
    requires Monotone(es) && m == n + 1 <= |es| && es[n].Purge? && Holds(es, ip, n, bs)
    ensures Holds(es, ip, m, Step(cfg, true, bs, es[n]).0)
  {
    var bs' := Step(cfg, true, bs, es[n]).0;
    RememberedNext(es, ip, n, m);
    if ip in bs {
      var i :| LastCall(es, ip, i, n) && Remembered(es, ip, i, n) && bs[ip].lastSeen == es[i].at;
      assert ip in bs' <==> es[i].at >= es[n].at - 600.0;
      LastIsRememberedLongest(es, ip, i, n, m);
    }
  }

  lemma LastIsRememberedLongest(es: seq<Event>, ip: string, i: int, n: nat, m: nat)
    requires Monotone(es) && m == n + 1 <= |es| && es[n].Purge? && LastCall(es, ip, i, n)
    ensures forall j :: Remembered(es, ip, j, m) ==> es[i].at >= es[n].at - 600.0
  {
    forall j | Remembered(es, ip, j, m)
      ensures es[i].at >= es[n].at - 600.0
    {
      assert j <= i;
    }
  }

  lemma {:induction false} AlwaysHolds(cfg: Config, es: seq<Event>, ip: string, n: nat)
    requires Monotone(es) && n <= |es|
    ensures Holds(es, ip, n, After(cfg, true, es[..n]))
    decreases n
  {
    if n > 0 {
      AlwaysHolds(cfg, es, ip, n - 1);
      AfterSnoc(cfg, true, es, n - 1);
      var bs := After(cfg, true, es[..n - 1]);
      if es[n - 1].Purge? {
        HoldsAfterPurge(cfg, es, ip, n - 1, n, bs);
      } else if CallOf(es, ip, n - 1) {
        HoldsAfterOwnCall(cfg, es, ip, n - 1, n, bs);
      } else {
        HoldsAfterOtherCall(cfg, es, ip, n - 1, n, bs);
      }
    }
  }

  /** The deployed limiter, at a capacity below one, admits a call exactly when no earlier call of the client is
      remembered: the first, and the first after each time a purge forgot it. */
  lemma TinyCapacityAdmitsTheForgotten(cfg: Config, es: seq<Event>, n: nat)
    requires cfg.capacity < 1.0 && Monotone(es)
    requires n < |es| && es[n].Call?
    ensures Admitted(cfg, true, es, n) <==> !(exists i :: Remembered(es, es[n].ip, i, n))
  {
    AlwaysHolds(cfg, es, es[n].ip, n);
  }

  /** So a client can be admitted again once it was idle for long enough. */
  lemma ForgottenClientIsAdmittedAgain(cfg: Config)
    requires cfg.capacity < 1.0
    ensures var es := [Call("", 0.0), Purge(601.0), Call("", 601.0)]; Admitted(cfg, true, es, 2) && !Admitted(cfg, false, es, 2)
  {
    var es := [Call("", 0.0), Purge(601.0), Call("", 601.0)];
    TinyCapacityAdmitsTheForgotten(cfg, es, 2);
    TinyCapacityAdmitsOnlyTheFirstCall(cfg, es, 2);
    assert CallOf(es, "", 0) && es[1].Purge?;
  }

  // ---------------------------------------------------------------- what purges do to the window rule

  ghost predicate SameUpTo(cfg: Config, es: seq<Event>, n: nat)
    requires n <= |es|
  {
    forall k :: 0 <= k < n ==> Admitted(cfg, true, es, k) == Admitted(cfg, false, es, k)
  }

  /** The first decision that a purge changed. */
  lemma {:induction false} FirstDivergence(cfg: Config, es: seq<Event>, j: nat) returns (n: nat)
    requires j < |es| && Admitted(cfg, true, es, j) != Admitted(cfg, false, es, j)
    ensures n <= j && SameUpTo(cfg, es, n) && Admitted(cfg, true, es, n) != Admitted(cfg, false, es, n)
    decreases j
  {
    if SameUpTo(cfg, es, j) {
      n := j;
    } else {
      var k :| 0 <= k < j && Admitted(cfg, true, es, k) != Admitted(cfg, false, es, k);
      n := FirstDivergence(cfg, es, k);
    }
  }

  /** The purging limiter knows fewer clients and holds at least as many tokens for those it knows. */
  ghost predicate Richer(real_: Buckets, shadow: Buckets) {
    forall ip :: ip in real_ ==>
      ip in shadow && real_[ip].lastSeen == shadow[ip].lastSeen && real_[ip].tokens >= shadow[ip].tokens
  }

  lemma RicherStep(cfg: Config, real_: Buckets, shadow: Buckets, e: Event)
    requires Richer(real_, shadow)
    ensures Step(cfg, false, shadow, e).1 ==> Step(cfg, true, real_, e).1
    ensures Step(cfg, true, real_, e).1 == Step(cfg, false, shadow, e).1 ==>
        Richer(Step(cfg, true, real_, e).0, Step(cfg, false, shadow, e).0)
  {
  }

  lemma {:induction false} RicherWhileTheSame(cfg: Config, es: seq<Event>, n: nat)
    requires n <= |es| && SameUpTo(cfg, es, n)
    ensures Richer(After(cfg, true, es[..n]), After(cfg, false, es[..n]))
  {
    if n > 0 {
      RicherWhileTheSame(cfg, es, n - 1);
      AfterSnoc(cfg, true, es, n - 1);
      AfterSnoc(cfg, false, es, n - 1);
      assert Admitted(cfg, true, es, n - 1) == Admitted(cfg, false, es, n - 1);
      RicherStep(cfg, After(cfg, true, es[..n - 1]), After(cfg, false, es[..n - 1]), es[n - 1]);
    }
  }

  lemma {:induction false} SameGrantsUpTo(cfg: Config, es: seq<Event>, ip: string, i: nat, n: nat)
    requires n <= |es| && SameUpTo(cfg, es, n)
    ensures Granted(cfg, true, es, ip, i, n) == Granted(cfg, false, es, ip, i, n)
    decreases n
  {
    if i < n {
      SameGrantsUpTo(cfg, es, ip, i, n - 1);
    }
  }

  /** The call that a purge lets in overfills a window. */
  lemma DivergentCallOverfills(cfg: Config, es: seq<Event>, n: nat) returns (i: nat)
    requires cfg.capacity >= 1.0 && n < |es| && SameUpTo(cfg, es, n)
    requires Admitted(cfg, true, es, n) != Admitted(cfg, false, es, n)
    ensures es[n].Call? && Admitted(cfg, true, es, n) && i <= n && CallOf(es, es[n].ip, i)
    ensures Granted(cfg, true, es, es[n].ip, i, n) as real + 1.0
          > cfg.capacity + (Earned(cfg, es[n].at) - Earned(cfg, es[i].at))
  {
    RicherWhileTheSame(cfg, es, n);
    RicherStep(cfg, After(cfg, true, es[..n]), After(cfg, false, es[..n]), es[n]);
    AdmittedIffEveryWindowHasRoom(cfg, es, n);
    i :| 0 <= i <= n && CallOf(es, es[n].ip, i)
      && !(Granted(cfg, false, es, es[n].ip, i, n) as real + 1.0
           <= cfg.capacity + (Earned(cfg, es[n].at) - Earned(cfg, es[i].at)));
    SameGrantsUpTo(cfg, es, es[n].ip, i, n);
  }

  /** A run in which the purging limiter overfills the window from call i to call n, for every unsafe configuration. */
  lemma UnsafePurgeOverfills(cfg: Config) returns (es: seq<Event>, i: nat, n: nat)
    requires !SafeToPurge(cfg)
    ensures Monotone(es) && i <= n < |es| && es[n].Call? && Admitted(cfg, true, es, n) && CallOf(es, es[n].ip, i)
    ensures Granted(cfg, true, es, es[n].ip, i, n) as real + 1.0
          > cfg.capacity + (Earned(cfg, es[n].at) - Earned(cfg, es[i].at))
  {
    if cfg.capacity < 1.0 {
      es, i, n := [Call("", 0.0)], 0, 0;
      assert es[..0] == [] && CallOf(es, "", 0);
    } else {
      PurgeInvisibleIff(cfg);
      var j: nat;
      es, j :| Monotone(es) && j < |es| && Admitted(cfg, true, es, j) != Admitted(cfg, false, es, j);
      n := FirstDivergence(cfg, es, j);
      i := DivergentCallOverfills(cfg, es, n);
    }
  }

  ghost predicate ObeysAt(cfg: Config, es: seq<Event>, n: nat) {
    Monotone(es) && n < |es| && es[n].Call? ==> (Admitted(cfg, true, es, n) <==> EveryWindowHasRoom(cfg, true, es, n))
  }

  /** The limiter as deployed obeys the every-window rule on every run exactly when purges are safe. */
  lemma WindowRuleIff(cfg: Config)
    ensures (forall es: seq<Event>, n: nat :: ObeysAt(cfg, es, n)) <==> SafeToPurge(cfg)
  {
    if SafeToPurge(cfg) {
      forall es: seq<Event>, n: nat
        ensures ObeysAt(cfg, es, n)
      {
        if Monotone(es) && n < |es| && es[n].Call? {
          PurgingLimiterObeysTheWindowRule(cfg, es, n);
        }
      }
    } else {
      var es, i, n := UnsafePurgeOverfills(cfg);
      assert !EveryWindowHasRoom(cfg, true, es, n);
      assert !ObeysAt(cfg, es, n);
    }
  }

  /** On a monotone clock the calls granted between two events lie in the window between their times. */
  lemma {:induction false} GrantsLieWithin(cfg: Config, purging: bool, es: seq<Event>, ip: string, i: nat, n: nat, m: nat)
    requires Monotone(es) && i <= n < |es| && m <= n + 1
    ensures Granted(cfg, purging, es, ip, i, m) <= GrantedWithin(cfg, purging, es, ip, es[i].at, es[n].at, m)
    decreases m
  {
    if i < m {
      GrantsLieWithin(cfg, purging, es, ip, i, n, m - 1);
      assert es[i].at <= es[m - 1].at <= es[n].at;
    }
  }

  lemma {:induction false} WithinGrows(cfg: Config, purging: bool, es: seq<Event>, ip: string, s: real, t: real, m: nat, n: nat)
    requires m <= n <= |es|
    ensures GrantedWithin(cfg, purging, es, ip, s, t, m) <= GrantedWithin(cfg, purging, es, ip, s, t, n)
    decreases n
  {
    if m < n {
      WithinGrows(cfg, purging, es, ip, s, t, m, n - 1);
    }
  }

  ghost predicate BoundedAt(cfg: Config, purging: bool, es: seq<Event>, ip: string, s: real, t: real) {
    Monotone(es) && s <= t ==>
      GrantedWithin(cfg, purging, es, ip, s, t, |es|) as real <= cfg.capacity + (Earned(cfg, t) - Earned(cfg, s))
  }

  /** On every run no window [s, t] admits more than capacity + rate * (t - s) calls of a client. */
  ghost predicate Bounded(cfg: Config, purging: bool) {
    forall es: seq<Event>, ip: string, s: real, t: real :: BoundedAt(cfg, purging, es, ip, s, t)
  }

  /** A full window breaks the bound. */
  lemma OverfilledWindow(cfg: Config, purging: bool, es: seq<Event>, i: nat, n: nat)
    requires Monotone(es) && i <= n < |es| && es[n].Call? && Admitted(cfg, purging, es, n)
    requires Granted(cfg, purging, es, es[n].ip, i, n) as real + 1.0
           > cfg.capacity + (Earned(cfg, es[n].at) - Earned(cfg, es[i].at))
    ensures !BoundedAt(cfg, purging, es, es[n].ip, es[i].at, es[n].at)
  {
    var ip := es[n].ip;
    GrantsLieWithin(cfg, purging, es, ip, i, n, n + 1);
    WithinGrows(cfg, purging, es, ip, es[i].at, es[n].at, n + 1, |es|);
  }

  /** One call is already too many for a capacity below one, or for a rate that takes tokens away. */
  lemma OneCallOverfills(cfg: Config, purging: bool)
    requires cfg.capacity < 1.0 || cfg.rate < 0.0
    ensures !Bounded(cfg, purging)
  {
    var es := [Call("", 0.0)];
    assert es[..0] == [] && CallOf(es, "", 0) && Admitted(cfg, purging, es, 0);
    assert GrantedWithin(cfg, purging, es, "", 0.0, 0.0, 0) == 0;
    if cfg.capacity < 1.0 {
      assert !BoundedAt(cfg, purging, es, "", 0.0, 0.0);
    } else {
      var t := cfg.capacity / -cfg.rate;
      EarnsAway(cfg, t);
      assert GrantedWithin(cfg, purging, es, "", 0.0, t, 0) == 0;
      assert !BoundedAt(cfg, purging, es, "", 0.0, t);
    }
  }

  lemma EarnsAway(cfg: Config, t: real)
    requires cfg.rate < 0.0 && cfg.capacity >= 1.0 && t == cfg.capacity / -cfg.rate
    ensures t >= 0.0 && Earned(cfg, t) == -cfg.capacity && Earned(cfg, 0.0) == 0.0
  {
  }

  /** The window bound holds on every run exactly when a client's capacity is at least one call and, for the
      limiter as deployed, purges are safe; without purges any rate that is not negative will do. */
  lemma WindowBoundIff(cfg: Config, purging: bool)
    ensures Bounded(cfg, purging) <==> if purging then SafeToPurge(cfg) else cfg.capacity >= 1.0 && cfg.rate >= 0.0
  {
    if cfg.capacity < 1.0 || cfg.rate < 0.0 {
      OneCallOverfills(cfg, purging);
    } else if purging && !SafeToPurge(cfg) {
      var es, i, n := UnsafePurgeOverfills(cfg);
      OverfilledWindow(cfg, true, es, i, n);
    } else {
      forall es: seq<Event>, ip: string, s: real, t: real
        ensures BoundedAt(cfg, purging, es, ip, s, t)
      {
        if Monotone(es) && s <= t {
          AdmittedHasRoom(cfg, purging, es, ip);
          WindowBoundFromRoom(cfg, purging, es, ip, s, t, |es|);
        }
      }
    }
  }
}
