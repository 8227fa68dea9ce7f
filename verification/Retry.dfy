/** Exponential backoff: what Do calls, how long it waits, and what it returns. */
module Retry {
  import opened Models

  datatype Config = Config(maxAttempts: int, baseDelay: real, maxDelay: real, multiplier: real, jitter: real)

  /** Go errors as far as errors.As can tell them apart; a cause of None is Permanent(nil). */
  datatype Error =
    | Plain(text: string)
    | Wrapping(text: string, inner: Error)
    | Permanent(cause: Option<Error>)
    | MaxAttempts

  /** errors.As(err, &perm) followed by perm.Unwrap(): the outermost permanent error's cause. */
  function PermanentIn(e: Error): Option<Option<Error>> {
    match e
    case Wrapping(_, inner) => PermanentIn(inner)
    case Permanent(cause) => Some(cause)
    case _ => None
  }

  function PermanentCause(err: Option<Error>): Option<Option<Error>> {
    if err.Some? then PermanentIn(err.value) else None
  }

  /** The error e behind these wrappings, the outermost first. */
  function Wrapped(texts: seq<string>, e: Error): Error {
    if texts == [] then e else Wrapping(texts[0], Wrapped(texts[1..], e))
  }

  /** A permanent error is recognised behind any number of wrappings, and nothing else is. */
  lemma {:induction false} PermanentBehindWrappings(texts: seq<string>, e: Error)
    requires !e.Wrapping?
    ensures PermanentCause(Some(Wrapped(texts, e))) == if e.Permanent? then Some(e.cause) else None
    ensures PermanentCause(None) == None
  {
    if texts != [] {
      PermanentBehindWrappings(texts[1..], e);
    }
  }

  datatype Outcome = Outcome(ok: bool, err: Option<Error>)

  /**
   * What lies outside Do: the outcome of each call, whether the context ends wait j (and with which error),
   * and the random draw used for wait j.
   */
  datatype World = World(call: nat -> Outcome, interrupt: nat -> Option<Error>, draw: nat -> real)

  datatype Report = Report(calls: nat, waits: seq<real>, result: Option<Error>)

  function AddJitter(d: real, jitter: real, draw: real): real {
    if jitter <= 0.0 then d else d + Times(draw * 2.0 - 1.0, Times(d, jitter))
  }

  /** Multiplication under a name, so that equal factors give equal terms. */
  function Times(x: real, y: real): real {
    x * y
  }

  function Min(x: real, y: real): real {
    if x > y then y else x
  }

  function Pow(x: real, n: nat): real {
    if n == 0 then 1.0 else Times(Pow(x, n - 1), x)
  }

  /** How the loop updates the delay between two attempts. */
  function Grow(d: real, multiplier: real, cap: real): real {
    Min(Times(d, multiplier), cap)
  }

  /** The delay after j updates of x. */
  function Grown(x: real, multiplier: real, cap: real, j: nat): real {
    if j == 0 then x else Grow(Grown(x, multiplier, cap, j - 1), multiplier, cap)
  }

  /** The nominal delay of wait j. */
  function Delay(cfg: Config, j: nat): real {
    Grown(cfg.baseDelay, cfg.multiplier, cfg.maxDelay, j)
  }

  // ---------------------------------------------------------------- which call is the last

  /** Call j settles the matter by itself: it succeeded or failed for good. */
  predicate Settles(w: World, j: nat) {
    w.call(j).ok || PermanentCause(w.call(j).err).Some?
  }

  predicate Stops(cfg: Config, w: World, j: nat) {
    Settles(w, j) || j == cfg.maxAttempts - 1 || w.interrupt(j).Some?
  }

  /** What Do returns when call j is the last. */
  function Verdict(cfg: Config, w: World, j: nat): Option<Error> {
    var o := w.call(j);
    if o.ok then None
    else if PermanentCause(o.err).Some? then PermanentCause(o.err).value
    else if j == cfg.maxAttempts - 1 then (if o.err.Some? then o.err else Some(MaxAttempts))
    else w.interrupt(j)
  }

  /** Whether a wait was begun after call j. */
  predicate Waits(cfg: Config, w: World, j: nat) {
    !Settles(w, j) && j != cfg.maxAttempts - 1
  }

  /** The run described without a loop: the last call is the first that stops, and no call precedes it in vain. */
  predicate Faithful(cfg: Config, w: World, r: Report) {
    if cfg.maxAttempts <= 0 then r == Report(0, [], Some(MaxAttempts))
    else
      && 0 < r.calls <= cfg.maxAttempts
      && Stops(cfg, w, r.calls - 1)
      && (forall j: nat :: j < r.calls - 1 ==> !Stops(cfg, w, j))
      && r.result == Verdict(cfg, w, r.calls - 1)
      && |r.waits| == (if Waits(cfg, w, r.calls - 1) then r.calls else r.calls - 1)
      && WaitsFit(cfg, w, r.waits)
  }

  predicate WaitsFit(cfg: Config, w: World, waits: seq<real>) {
    forall j :: 0 <= j < |waits| ==> waits[j] == AddJitter(Delay(cfg, j), cfg.jitter, w.draw(j))
  }

  method Do(cfg: Config, w: World) returns (r: Report)
    ensures Faithful(cfg, w, r)
  {
    var delay := cfg.baseDelay;
    var lastErr: Option<Error> := None;
    var waits: seq<real> := [];
    var attempt := 0;
    while attempt < cfg.maxAttempts
      invariant 0 <= attempt && (cfg.maxAttempts > 0 ==> attempt < cfg.maxAttempts)
      invariant cfg.maxAttempts <= 0 ==> lastErr.None? && waits == []
      invariant delay == Delay(cfg, attempt) && |waits| == attempt
      invariant forall j: nat :: j < attempt ==> !Stops(cfg, w, j)
      invariant WaitsFit(cfg, w, waits)
      decreases cfg.maxAttempts - attempt
    {
      var o := w.call(attempt);
      if o.ok {
        return Report(attempt + 1, waits, None);
      }
      lastErr := o.err;
      var perm := PermanentCause(o.err);
      if perm.Some? {
        return Report(attempt + 1, waits, perm.value);
      }
      if attempt == cfg.maxAttempts - 1 {
        return Report(attempt + 1, waits, if lastErr.Some? then lastErr else Some(MaxAttempts));
      }
      waits := waits + [AddJitter(delay, cfg.jitter, w.draw(attempt))];
      if w.interrupt(attempt).Some? {
        return Report(attempt + 1, waits, w.interrupt(attempt));
      }
      delay := Times(delay, cfg.multiplier);
      if delay > cfg.maxDelay {
        delay := cfg.maxDelay;
      }
      attempt := attempt + 1;
    }
    return Report(0, waits, Some(MaxAttempts));
  }

  /** The description admits one run only. */
  lemma OneRunPerWorld(cfg: Config, w: World, r: Report, s: Report)
    requires Faithful(cfg, w, r) && Faithful(cfg, w, s)
    ensures r == s
  {
  }

  /** What is returned when attempts are allowed: nil after a success; the cause of a permanent error; the last error,
      or that the attempts are used up when there is none; or else the context's error. */
  lemma WhatIsReturned(cfg: Config, w: World, r: Report)
    requires Faithful(cfg, w, r) && cfg.maxAttempts > 0
    ensures 0 < r.calls <= cfg.maxAttempts
    ensures var o := w.call(r.calls - 1);
            if o.ok then r.result == None
            else if PermanentCause(o.err).Some? then r.result == PermanentCause(o.err).value
            else if r.calls == cfg.maxAttempts then r.result == if o.err.None? then Some(MaxAttempts) else o.err
            else r.result == w.interrupt(r.calls - 1) && r.result.Some?
    ensures forall j: nat :: j < r.calls - 1 ==>
              !w.call(j).ok && PermanentCause(w.call(j).err).None? && w.interrupt(j).None?
  {
    forall j: nat | j < r.calls - 1
      ensures !w.call(j).ok && PermanentCause(w.call(j).err).None? && w.interrupt(j).None?
    {
      assert !Stops(cfg, w, j);
    }
  }

  // ---------------------------------------------------------------- what nil means

  /** Do returns nil exactly when its last call succeeded, or failed for good with a nil cause. */
  lemma NilIff(cfg: Config, w: World, r: Report)
    requires Faithful(cfg, w, r)
    ensures r.result.None? <==>
        cfg.maxAttempts > 0 && (w.call(r.calls - 1).ok || PermanentCause(w.call(r.calls - 1).err) == Some(None))
  {
  }

  /** A call that failed for good with a nil cause is reported as a success. */
  lemma PermanentNilLooksLikeSuccess(cfg: Config, w: World, r: Report)
    requires Faithful(cfg, w, r) && cfg.maxAttempts > 0
    requires w.call(0) == Outcome(false, Some(Permanent(None)))
    ensures r == Report(1, [], None)
  {
    assert Stops(cfg, w, 0);
  }

  /** Allowing more attempts never changes a verdict reached before the last attempt, and never loses a success. */
  lemma MoreAttemptsNeverHurt(cfg: Config, more: Config, w: World, r: Report, s: Report)
    requires Faithful(cfg, w, r) && Faithful(more, w, s)
    requires cfg.maxAttempts <= more.maxAttempts
    ensures r.calls <= s.calls
    ensures r.calls < cfg.maxAttempts ==> s.calls == r.calls && s.result == r.result
    ensures r.result.None? ==> s.result.None?
  {
    if cfg.maxAttempts > 0 {
      StopsOnlyBecauseOfTheLimit(cfg, more, w, s.calls - 1);
      StopsOnlyBecauseOfTheLimit(more, cfg, w, r.calls - 1);
      assert r.calls <= s.calls;
      NilIff(cfg, w, r);
      assert r.result.None? ==> Settles(w, r.calls - 1) && Stops(more, w, r.calls - 1);
      assert r.result.None? ==> s.calls == r.calls;
    }
  }

  /** Two limits agree on whether a call is the last, unless it is the last the limit allows. */
  lemma StopsOnlyBecauseOfTheLimit(cfg: Config, more: Config, w: World, j: nat)
    ensures Stops(more, w, j) ==> Stops(cfg, w, j) || j == more.maxAttempts - 1
  {
  }

  // ---------------------------------------------------------------- how long it waits

  predicate Capped(cfg: Config, j: nat) {
    Delay(cfg, j) == Min(Times(cfg.baseDelay, Pow(cfg.multiplier, j)), cfg.maxDelay)
  }

  /** Every nominal delay is the capped exponential, exactly when the first one is below the cap. */
  lemma DelayIsCappedExponentialIff(cfg: Config)
    requires cfg.multiplier >= 0.0
    ensures (forall j: nat :: Capped(cfg, j)) <==> cfg.baseDelay <= cfg.maxDelay
  {
    if cfg.baseDelay <= cfg.maxDelay {
      forall j: nat
        ensures Capped(cfg, j)
      {
        DelayClosedForm(cfg, j);
      }
    } else {
      assert Pow(cfg.multiplier, 0) == 1.0;
      assert !Capped(cfg, 0);
    }
  }

  lemma {:induction false} DelayClosedForm(cfg: Config, j: nat)
    requires cfg.multiplier >= 0.0 && cfg.baseDelay <= cfg.maxDelay
    ensures Capped(cfg, j)
  {
    if j > 0 {
      DelayClosedForm(cfg, j - 1);
      ClosedFormStep(cfg.baseDelay, cfg.multiplier, cfg.maxDelay, j);
    } else {
      assert Pow(cfg.multiplier, 0) == 1.0;
    }
  }

  lemma ClosedFormStep(base: real, m: real, cap: real, j: nat)
    requires j > 0 && m >= 0.0 && base <= cap
    ensures Grow(Min(Times(base, Pow(m, j - 1)), cap), m, cap) == Min(Times(base, Pow(m, j)), cap)
  {
    var p := Pow(m, j - 1);
    PowSide(m, j - 1);
    AboveTheCap(base, p, m, cap);
    CapOnce(Times(base, p), m, cap);
    Reassociate(base, p, m);
  }

  lemma Reassociate(x: real, y: real, z: real)
    ensures Times(Times(x, y), z) == Times(x, Times(y, z))
  {
  }

  /** A power stays on the multiplier's side of one. */
  lemma {:induction false} PowSide(x: real, n: nat)
    requires x >= 0.0
    ensures Pow(x, n) >= 0.0 && (x <= 1.0 ==> Pow(x, n) <= 1.0) && (x >= 1.0 ==> Pow(x, n) >= 1.0)
  {
    if n > 0 {
      PowSide(x, n - 1);
      var p := Pow(x, n - 1);
      if x <= 1.0 {
        MulMono(p, 1.0, x);
      }
      if x >= 1.0 {
        MulMono(1.0, p, x);
      }
      MulMono(0.0, p, x);
    }
  }

  lemma MulMono(a: real, b: real, x: real)
    requires a <= b && x >= 0.0
    ensures Times(a, x) <= Times(b, x)
  {
  }

  /** Capping before a multiplication changes nothing once the result is capped again. */
  lemma CapOnce(x: real, m: real, cap: real)
    requires m >= 0.0
    requires x > cap ==> (cap >= 0.0 ==> m >= 1.0) && (cap < 0.0 ==> m <= 1.0)
    ensures Grow(Min(x, cap), m, cap) == Grow(x, m, cap)
  {
  }

  /** The exponential can only be above the cap on the side where growing keeps it there. */
  lemma AboveTheCap(base: real, p: real, m: real, cap: real)
    requires base <= cap && m >= 0.0 && p >= 0.0
    requires (m <= 1.0 ==> p <= 1.0) && (m >= 1.0 ==> p >= 1.0)
    ensures Times(base, p) > cap ==> (cap >= 0.0 ==> m >= 1.0) && (cap < 0.0 ==> m <= 1.0)
  {
    Shrinks(base, p);
    if cap < 0.0 {
      Grows(-base, p);
      assert -base * p == -(base * p);
    }
  }

  lemma Shrinks(x: real, p: real)
    requires p >= 0.0
    ensures p <= 1.0 ==> x * p <= x || x * p <= 0.0
  {
  }

  lemma Grows(x: real, p: real)
    requires x >= 0.0
    ensures p >= 1.0 ==> x <= x * p
  {
  }

  /** Past the first wait the cap always holds: a first delay above it only shifts where the exponential starts. */
  lemma {:induction false} DelayAfterTheFirst(cfg: Config, j: nat)
    requires cfg.multiplier >= 0.0
    ensures var first := Grow(cfg.baseDelay, cfg.multiplier, cfg.maxDelay);
            Delay(cfg, j + 1) == Min(Times(first, Pow(cfg.multiplier, j)), cfg.maxDelay)
  {
    var first := Grow(cfg.baseDelay, cfg.multiplier, cfg.maxDelay);
    assert first <= cfg.maxDelay;
    GrownShift(cfg.baseDelay, cfg.multiplier, cfg.maxDelay, j);
    DelayClosedForm(cfg.(baseDelay := first), j);
  }

  lemma {:induction false} GrownShift(x: real, m: real, cap: real, j: nat)
    ensures Grown(x, m, cap, j + 1) == Grown(Grow(x, m, cap), m, cap, j)
  {
    if j > 0 {
      GrownShift(x, m, cap, j - 1);
    }
  }

  ghost predicate Draws(w: World) {
    forall j: nat :: 0.0 <= w.draw(j) < 1.0
  }

  /** Jitter keeps a wait within its fraction of the nominal delay, on both sides. */
  lemma JitterBand(d: real, jitter: real, draw: real)
    requires 0.0 <= draw < 1.0 && d >= 0.0
    ensures jitter <= 0.0 ==> AddJitter(d, jitter, draw) == d
    ensures jitter >= 0.0 ==> d - Times(d, jitter) <= AddJitter(d, jitter, draw) <= d + Times(d, jitter)
  {
    if jitter > 0.0 {
      var x, u := Times(d, jitter), draw * 2.0 - 1.0;
      assert x >= 0.0;
      MulMono(u, 1.0, x);
      MulMono(-1.0, u, x);
    }
  }

  /** Every length in the band, its upper end aside, is the jittered wait of exactly one draw. */
  lemma JitterCoversTheBand(d: real, jitter: real, x: real) returns (draw: real)
    requires d > 0.0 && jitter > 0.0 && d - d * jitter <= x < d + d * jitter
    ensures 0.0 <= draw < 1.0 && AddJitter(d, jitter, draw) == x
    ensures forall u :: AddJitter(d, jitter, u) == x ==> u == draw
  {
    var z := Times(d, jitter);
    assert z > 0.0;
    draw := ((x - d) / z + 1.0) / 2.0;
    Quotient(x - d, z);
    forall u | AddJitter(d, jitter, u) == x
      ensures u == draw
    {
      OneFactor(u * 2.0 - 1.0, (x - d) / z, z);
    }
  }

  lemma Quotient(y: real, z: real)
    requires z > 0.0 && -z <= y < z
    ensures -1.0 <= y / z < 1.0 && Times(y / z, z) == y
  {
    assert y / z * z == y;
  }

  lemma OneFactor(a: real, b: real, z: real)
    requires z > 0.0 && Times(a, z) == Times(b, z)
    ensures a == b
  {
    assert (a - b) * z == 0.0;
  }

  /** The draw moves a wait evenly from the lower end of the band to the upper. */
  lemma JitterIsEven(d: real, jitter: real, draw: real)
    requires jitter >= 0.0
    ensures AddJitter(d, jitter, draw) == Times(1.0 - draw, d - Times(d, jitter)) + Times(draw, d + Times(d, jitter))
  {
    var z := Times(d, jitter);
    assert Times(1.0 - draw, d - z) + Times(draw, d + z) == d + Times(draw * 2.0 - 1.0, z);
  }

  lemma {:induction false} DelayRange(cfg: Config, j: nat)
    requires cfg.multiplier >= 0.0 && 0.0 <= cfg.baseDelay <= cfg.maxDelay
    ensures 0.0 <= Delay(cfg, j) <= cfg.maxDelay
  {
    if j > 0 {
      DelayRange(cfg, j - 1);
      MulMono(0.0, Delay(cfg, j - 1), cfg.multiplier);
    }
  }

  function Sum(waits: seq<real>): real {
    if waits == [] then 0.0 else Sum(waits[..|waits| - 1]) + waits[|waits| - 1]
  }

  lemma {:induction false} SumBound(waits: seq<real>, most: real)
    requires forall j :: 0 <= j < |waits| ==> 0.0 <= waits[j] <= most
    ensures 0.0 <= Sum(waits) <= Times(|waits| as real, most)
  {
    if waits != [] {
      var n := |waits| - 1;
      SumBound(waits[..n], most);
      assert Times((n + 1) as real, most) == Times(n as real, most) + most;
    }
  }

  /** The longest wait the cap and the jitter allow. */
  function Most(cfg: Config): real {
    Times(cfg.maxDelay, 1.0 + cfg.jitter)
  }

  /** A wait of length x is within the jitter's fraction of nominal delay j, and within the cap's. */
  predicate InBand(cfg: Config, j: nat, x: real) {
    var d := Delay(cfg, j);
    d - Times(d, cfg.jitter) <= x <= d + Times(d, cfg.jitter) && 0.0 <= x <= Most(cfg)
  }

  /** A run waits at most MaxAttempts - 1 times, each within the band, and in total no longer than the caps allow. */
  lemma TotalWaiting(cfg: Config, w: World, r: Report)
    requires Faithful(cfg, w, r) && Draws(w)
    requires cfg.maxAttempts >= 1 && cfg.multiplier >= 0.0 && 0.0 <= cfg.baseDelay <= cfg.maxDelay
    requires 0.0 <= cfg.jitter <= 1.0
    ensures |r.waits| <= cfg.maxAttempts - 1
    ensures forall j :: 0 <= j < |r.waits| ==> InBand(cfg, j, r.waits[j])
    ensures 0.0 <= Sum(r.waits) <= Times((cfg.maxAttempts - 1) as real, Most(cfg))
  {
    forall j | 0 <= j < |r.waits|
      ensures InBand(cfg, j, r.waits[j])
    {
      OneWait(cfg, j, w.draw(j));
    }
    SumBound(r.waits, Most(cfg));
    MostSign(cfg);
    MulMono(|r.waits| as real, (cfg.maxAttempts - 1) as real, Most(cfg));
  }

  lemma MostSign(cfg: Config)
    requires 0.0 <= cfg.maxDelay && 0.0 <= cfg.jitter
    ensures Most(cfg) >= 0.0
  {
  }

  lemma Widen(d: real, cap: real, jitter: real)
    requires 0.0 <= d <= cap && 0.0 <= jitter <= 1.0
    ensures Times(d, jitter) <= d && d + Times(d, jitter) <= Times(cap, 1.0 + jitter)
  {
  }

  lemma OneWait(cfg: Config, j: nat, draw: real)
    requires cfg.multiplier >= 0.0 && 0.0 <= cfg.baseDelay <= cfg.maxDelay
    requires 0.0 <= cfg.jitter <= 1.0 && 0.0 <= draw < 1.0
    ensures InBand(cfg, j, AddJitter(Delay(cfg, j), cfg.jitter, draw))
  {
    DelayRange(cfg, j);
    var d := Delay(cfg, j);
    JitterBand(d, cfg.jitter, draw);
    Widen(d, cfg.maxDelay, cfg.jitter);
  }

  // ---------------------------------------------------------------- HTTP

  datatype Response = Response(code: int, status: string)

  /** One HTTP attempt: what the function returned. An error can come with a response; without an error there must
      be one, since its status code is looked at. */
  datatype Reply = Reply(resp: Option<Response>, err: Option<Error>)

  predicate WellFormed(p: Reply) {
    p.err.Some? || p.resp.Some?
  }

  const RETRIED := {429, 502, 503, 504}

  function ToOutcome(p: Reply): Outcome
    requires WellFormed(p)
  {
    if p.err.Some? then Outcome(false, p.err)
    else if p.resp.value.code in RETRIED then Outcome(false, Some(Plain(p.resp.value.status)))
    else Outcome(true, None)
  }

  /** The answer is final: no error, and a status that is not retried. */
  predicate Accepted(p: Reply)
    requires WellFormed(p)
  {
    p.err.None? && p.resp.value.code !in {429, 502, 503, 504}
  }

  predicate Retryable(p: Reply)
    requires WellFormed(p)
  {
    if p.err.Some? then PermanentCause(p.err).None? else p.resp.value.code in {429, 502, 503, 504}
  }

  /**
   * The response returned is that of the last call, with an error or without. Every call but the last was worth
   * retrying. A nil error means an accepted answer, or a permanent failure with a nil cause.
   */
  method DoHTTP(cfg: Config, replies: nat -> Reply, interrupt: nat -> Option<Error>, draw: nat -> real)
    returns (calls: nat, resp: Option<Response>, err: Option<Error>)
    requires forall j: nat :: WellFormed(replies(j))
    ensures cfg.maxAttempts <= 0 ==> calls == 0 && resp.None? && err == Some(MaxAttempts)
    ensures cfg.maxAttempts > 0 ==> 0 < calls <= cfg.maxAttempts && resp == replies(calls - 1).resp
    ensures forall j: nat :: j < calls - 1 ==> Retryable(replies(j)) && interrupt(j).None?
    ensures calls > 0 ==>
        var last := replies(calls - 1);
        && (err.None? <==> Accepted(last) || PermanentCause(last.err) == Some(None))
        && (!Accepted(last) && !Retryable(last) ==> Some(err) == PermanentCause(last.err))
        && (Retryable(last) && calls < cfg.maxAttempts ==> err == interrupt(calls - 1) && err.Some?)
        && (Retryable(last) && calls == cfg.maxAttempts ==>
              err == if last.err.Some? then last.err else Some(Plain(last.resp.value.status)))
  {
    var w := World((j: nat) => ToOutcome(replies(j)), interrupt, draw);
    var r := Do(cfg, w);
    calls, err := r.calls, r.result;
    resp := None;
    if calls > 0 {
      resp := replies(calls - 1).resp;
    }
    forall j: nat | j < calls - 1
      ensures Retryable(replies(j)) && interrupt(j).None?
    {
      assert !Stops(cfg, w, j) && w.call(j) == ToOutcome(replies(j));
    }
    assert calls > 0 ==> Stops(cfg, w, calls - 1) && err == Verdict(cfg, w, calls - 1);
  }
}
