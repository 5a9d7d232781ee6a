/** The per-address token buckets of crates/core-api/src/compat_security.rs, over
    real-valued time.

    `Allow` is one atomic step. It reads the clock twice: `created` when a bucket may
    be made, `now` when it is refilled. */
module RateLimiter {

  type Ip = nat

  /** Buckets idle for this long, in seconds, are forgotten by a collection. */
  const CUTOFF: real := 30.0

  const MAX_ENTRIES: nat := 4096

  datatype Limits = Limits(rate: real, burst: real)

  datatype Bucket = Bucket(tokens: real, last: real)

  type Table = map<Ip, Bucket>

  datatype Request = Request(ip: Ip, created: real, now: real)

  function Min(a: real, b: real): real {
    if a <= b then a else b
  }

  function Elapsed(since: real, now: real): real {
    if now < since then 0.0 else now - since
  }

  /** The tokens earned from `since` to `now`. */
  function Earned(l: Limits, since: real, now: real): real {
    Elapsed(since, now) * l.rate
  }

  function Refilled(l: Limits, b: Bucket, now: real): Bucket {
    Bucket(Min(b.tokens + Earned(l, b.last, now), l.burst), now)
  }

  function Taken(b: Bucket): (Bucket, bool) {
    if b.tokens >= 1.0 then (b.(tokens := b.tokens - 1.0), true) else (b, false)
  }

  function BucketFor(l: Limits, t: Table, q: Request): Bucket {
    if q.ip in t then t[q.ip] else Bucket(l.burst, q.created)
  }

  /** A request against a table that never forgets. */
  function Charge(l: Limits, t: Table, q: Request): (Table, bool) {
    var (b, ok) := Taken(Refilled(l, BucketFor(l, t, q), q.now));
    (t[q.ip := b], ok)
  }

  function Collected(t: Table, now: real): Table {
    map ip | ip in t && Elapsed(t[ip].last, now) < CUTOFF :: t[ip]
  }

  /** A request as the code serves it: a table grown too large is collected. */
  function Admit(l: Limits, t: Table, q: Request): (Table, bool) {
    var (t', ok) := Charge(l, t, q);
    (if |t'| > MAX_ENTRIES then Collected(t', q.now) else t', ok)
  }

  class IpRateLimiter {
    const limits: Limits
    var buckets: Table

    constructor (limits: Limits)
      ensures this.limits == limits && buckets == map[]
    {
      this.limits := limits;
      buckets := map[];
    }

    method Gc(now: real)
      modifies this
      ensures buckets == Collected(old(buckets), now)
    {
      var todo := buckets.Keys;
      ghost var before := buckets;
      while todo != {}
        invariant todo <= before.Keys
        invariant buckets == map ip | ip in before && (ip in todo || Elapsed(before[ip].last, now) < CUTOFF) :: before[ip]
        decreases |todo|
      {
        var ip :| ip in todo;
        if !(Elapsed(buckets[ip].last, now) < CUTOFF) {
          buckets := buckets - {ip};
        }
        todo := todo - {ip};
      }
    }

    method Allow(ip: Ip, created: real, now: real) returns (ok: bool)
      modifies this
      ensures (buckets, ok) == Admit(limits, old(buckets), Request(ip, created, now))
    {
      if ip !in buckets {
        buckets := buckets[ip := Bucket(limits.burst, created)];
      }
      var b := Refilled(limits, buckets[ip], now);
      ok := b.tokens >= 1.0;
      if ok {
        b := b.(tokens := b.tokens - 1.0);
      }
      buckets := buckets[ip := b];
      assert buckets == Charge(limits, old(buckets), Request(ip, created, now)).0;
      if |buckets| > MAX_ENTRIES {
        Gc(now);
      }
    }
  }

  // ------------------------------------------------------------------ whole runs

  /** A request with collection or, if `forever`, without. */
  function Next(l: Limits, t: Table, q: Request, forever: bool): (Table, bool) {
    if forever then Charge(l, t, q) else Admit(l, t, q)
  }

  /** The decisions over a run. */
  function Decisions(l: Limits, t: Table, qs: seq<Request>, forever: bool): seq<bool>
    decreases qs
  {
    if qs == [] then []
    else
      var (t', ok) := Next(l, t, qs[0], forever);
      [ok] + Decisions(l, t', qs[1..], forever)
  }

  /** Clock readings from `clock` on that never go back. */
  predicate Monotone(clock: real, qs: seq<Request>)
    decreases qs
  {
    qs == [] || (clock <= qs[0].created <= qs[0].now && Monotone(qs[0].now, qs[1..]))
  }

  function Count(b: bool): real {
    if b then 1.0 else 0.0
  }

  /** The admitted requests of one address. */
  function Admitted(qs: seq<Request>, ds: seq<bool>, ip: Ip): real
    requires |qs| == |ds|
    decreases qs
  {
    if qs == [] then 0.0
    else (if qs[0].ip == ip then Count(ds[0]) else 0.0) + Admitted(qs[1..], ds[1..], ip)
  }

  lemma {:induction false} DecisionsLength(l: Limits, t: Table, qs: seq<Request>, forever: bool)
    ensures |Decisions(l, t, qs, forever)| == |qs|
    decreases qs
  {
    if qs != [] {
      var (t', _) := Next(l, t, qs[0], forever);
      DecisionsLength(l, t', qs[1..], forever);
    }
  }

  // ------------------------------------------------------------- the window bound

  lemma EarnedPositive(l: Limits, since: real, now: real)
    requires l.rate >= 0.0
    ensures Earned(l, since, now) >= 0.0
    ensures now <= since ==> Earned(l, since, now) == 0.0
  {
  }

  lemma EarnedAdds(l: Limits, a: real, b: real, c: real)
    requires a <= b <= c
    ensures Earned(l, a, c) == Earned(l, a, b) + Earned(l, b, c)
  {
    assert (c - a) * l.rate == (b - a) * l.rate + (c - b) * l.rate;
  }

  predicate Sane(l: Limits) {
    l.rate >= 0.0 && l.burst >= 0.0
  }

  /** Buckets as a run from `clock` on may find them. */
  predicate Good(t: Table, clock: real) {
    forall ip :: ip in t ==> 0.0 <= t[ip].tokens && t[ip].last <= clock
  }

  lemma ChargeKeeps(l: Limits, t: Table, clock: real, q: Request)
    requires Sane(l) && Good(t, clock) && clock <= q.created <= q.now
    ensures Good(Charge(l, t, q).0, q.now)
  {
    EarnedPositive(l, BucketFor(l, t, q).last, q.now);
  }

  /** The time of the last request, or `clock` if there is none. */
  function End(clock: real, qs: seq<Request>): real
    decreases qs
  {
    if qs == [] then clock else End(qs[0].now, qs[1..])
  }

  lemma {:induction false} EndIsLate(clock: real, qs: seq<Request>)
    requires Monotone(clock, qs)
    ensures clock <= End(clock, qs)
    decreases qs
  {
    if qs != [] { EndIsLate(qs[0].now, qs[1..]); }
  }

  /** What an address may still spend at time `now`. */
  function Credit(l: Limits, t: Table, ip: Ip, now: real): real {
    if ip in t then Min(t[ip].tokens + Earned(l, t[ip].last, now), l.burst) else l.burst
  }

  lemma CreditIsPositive(l: Limits, t: Table, clock: real, ip: Ip)
    requires Sane(l) && Good(t, clock)
    ensures 0.0 <= Credit(l, t, ip, clock) <= l.burst
  {
    if ip in t { EarnedPositive(l, t[ip].last, clock); }
  }

  /** A request spends one unit of credit if it is admitted; waiting earns at most `rate`. */
  lemma CreditStep(l: Limits, t: Table, clock: real, q: Request, ip: Ip)
    requires Sane(l) && Good(t, clock) && clock <= q.created <= q.now
    ensures var (t', ok) := Charge(l, t, q);
            Credit(l, t', ip, q.now) + (if q.ip == ip then Count(ok) else 0.0)
              <= Min(Credit(l, t, ip, clock) + Earned(l, clock, q.now), l.burst)
  {
    EarnedPositive(l, q.now, q.now);
    EarnedPositive(l, q.created, q.now);
    EarnedPositive(l, clock, q.now);
    if ip in t { EarnedAdds(l, t[ip].last, clock, q.now); }
  }

  lemma {:induction false} SpentWithinCredit(l: Limits, t: Table, clock: real, qs: seq<Request>, ip: Ip)
    requires Sane(l) && Good(t, clock) && Monotone(clock, qs)
    ensures |Decisions(l, t, qs, true)| == |qs|
    ensures Admitted(qs, Decisions(l, t, qs, true), ip) <= Credit(l, t, ip, clock) + Earned(l, clock, End(clock, qs))
    decreases qs
  {
    DecisionsLength(l, t, qs, true);
    EndIsLate(clock, qs);
    EarnedPositive(l, clock, clock);
    if qs == [] {
      CreditIsPositive(l, t, clock, ip);
    } else {
      var q := qs[0];
      var (t', ok) := Charge(l, t, q);
      ChargeKeeps(l, t, clock, q);
      CreditStep(l, t, clock, q, ip);
      SpentWithinCredit(l, t', q.now, qs[1..], ip);
      EndIsLate(q.now, qs[1..]);
      EarnedAdds(l, clock, q.now, End(q.now, qs[1..]));
      assert Decisions(l, t, qs, true)[1..] == Decisions(l, t', qs[1..], true);
    }
  }

  /** A run of at least one request spends at most `burst`, and what it earned since the first. */
  lemma FirstAndRest(l: Limits, t: Table, clock: real, qs: seq<Request>, ip: Ip)
    requires Sane(l) && Good(t, clock) && Monotone(clock, qs) && qs != []
    ensures |Decisions(l, t, qs, true)| == |qs|
    ensures Admitted(qs, Decisions(l, t, qs, true), ip) <= l.burst + Earned(l, qs[0].now, End(clock, qs))
  {
    DecisionsLength(l, t, qs, true);
    var q := qs[0];
    var (t', ok) := Charge(l, t, q);
    ChargeKeeps(l, t, clock, q);
    CreditStep(l, t, clock, q, ip);
    SpentWithinCredit(l, t', q.now, qs[1..], ip);
    assert Decisions(l, t, qs, true)[1..] == Decisions(l, t', qs[1..], true);
  }

  /** The table after a run. */
  function After(l: Limits, t: Table, qs: seq<Request>, forever: bool): Table
    decreases qs
  {
    if qs == [] then t else After(l, Next(l, t, qs[0], forever).0, qs[1..], forever)
  }

  lemma {:induction false} DecisionsAppend(l: Limits, t: Table, qs: seq<Request>, rest: seq<Request>, forever: bool)
    ensures Decisions(l, t, qs + rest, forever) ==
              Decisions(l, t, qs, forever) + Decisions(l, After(l, t, qs, forever), rest, forever)
    decreases qs
  {
    if qs == [] {
      assert qs + rest == rest;
    } else {
      var (t', ok) := Next(l, t, qs[0], forever);
      var tail := Decisions(l, After(l, t, qs, forever), rest, forever);
      assert (qs + rest)[1..] == qs[1..] + rest && (qs + rest)[0] == qs[0];
      DecisionsAppend(l, t', qs[1..], rest, forever);
      assert [ok] + (Decisions(l, t', qs[1..], forever) + tail) == ([ok] + Decisions(l, t', qs[1..], forever)) + tail;
    }
  }

  lemma {:induction false} AfterAppend(l: Limits, t: Table, qs: seq<Request>, rest: seq<Request>, forever: bool)
    ensures After(l, t, qs + rest, forever) == After(l, After(l, t, qs, forever), rest, forever)
    decreases qs
  {
    if qs == [] {
      assert qs + rest == rest;
    } else {
      assert (qs + rest)[1..] == qs[1..] + rest;
      AfterAppend(l, Next(l, t, qs[0], forever).0, qs[1..], rest, forever);
    }
  }

  lemma {:induction false} MonotoneAppend(clock: real, qs: seq<Request>, rest: seq<Request>)
    ensures Monotone(clock, qs + rest) <==> Monotone(clock, qs) && Monotone(End(clock, qs), rest)
    decreases qs
  {
    if qs == [] {
      assert qs + rest == rest;
    } else {
      assert (qs + rest)[1..] == qs[1..] + rest;
      MonotoneAppend(qs[0].now, qs[1..], rest);
    }
  }

  lemma {:induction false} AfterIsGood(l: Limits, t: Table, clock: real, qs: seq<Request>)
    requires Sane(l) && Good(t, clock) && Monotone(clock, qs)
    ensures Good(After(l, t, qs, true), End(clock, qs))
    decreases qs
  {
    if qs != [] {
      ChargeKeeps(l, t, clock, qs[0]);
      AfterIsGood(l, Charge(l, t, qs[0]).0, qs[0].now, qs[1..]);
    }
  }

  lemma {:induction false} EndIsLast(clock: real, qs: seq<Request>)
    requires qs != []
    ensures End(clock, qs) == qs[|qs| - 1].now
    decreases qs
  {
    if |qs| > 1 { EndIsLast(qs[0].now, qs[1..]); }
  }

  lemma DecisionsSplit(l: Limits, qs: seq<Request>, i: nat, j: nat)
    requires Sane(l) && i <= j <= |qs| && Monotone(0.0, qs)
    ensures var t := After(l, map[], qs[..i], true); var c := End(0.0, qs[..i]);
            && Good(t, c) && Monotone(c, qs[i..j]) && |Decisions(l, map[], qs, true)| == |qs|
            && Decisions(l, map[], qs, true)[i..j] == Decisions(l, t, qs[i..j], true)
  {
    var t, c := After(l, map[], qs[..i], true), End(0.0, qs[..i]);
    assert qs[..i] + qs[i..] == qs && qs[i..j] + qs[j..] == qs[i..];
    MonotoneAppend(0.0, qs[..i], qs[i..]);
    MonotoneAppend(c, qs[i..j], qs[j..]);
    AfterIsGood(l, map[], 0.0, qs[..i]);
    DecisionsAppend(l, map[], qs[..i], qs[i..], true);
    DecisionsAppend(l, t, qs[i..j], qs[j..], true);
    DecisionsLength(l, map[], qs, true);
    DecisionsLength(l, map[], qs[..i], true);
    DecisionsLength(l, t, qs[i..j], true);
  }

  /** With a table that never forgets, any window of a run, from request `i` up to but
      not including `j`, admits at most `burst + rate * T` requests of one address,
      where `T` is its length in time. */
  lemma WindowBound(l: Limits, qs: seq<Request>, i: nat, j: nat, ip: Ip)
    requires Sane(l) && i < j <= |qs| && Monotone(0.0, qs)
    ensures |Decisions(l, map[], qs, true)| == |qs|
    ensures Admitted(qs[i..j], Decisions(l, map[], qs, true)[i..j], ip)
              <= l.burst + Earned(l, qs[i].now, qs[j - 1].now)
  {
    DecisionsSplit(l, qs, i, j);
    var t, c := After(l, map[], qs[..i], true), End(0.0, qs[..i]);
    FirstAndRest(l, t, c, qs[i..j], ip);
    EndIsLast(c, qs[i..j]);
  }

  // ----------------------------------------------- forgetting changes no decision

  /** The bucket would be full at time `now`. */
  predicate Full(l: Limits, b: Bucket, now: real) {
    b.tokens + Earned(l, b.last, now) >= l.burst
  }

  /** Every bucket kept is the true one, and every bucket forgotten would be full. */
  predicate Agrees(l: Limits, t: Table, all: Table, clock: real) {
    && (forall ip :: ip in t ==> ip in all && t[ip] == all[ip])
    && (forall ip :: ip in all && ip !in t ==> Full(l, all[ip], clock))
  }

  lemma StaysFull(l: Limits, b: Bucket, clock: real, now: real)
    requires Sane(l) && b.last <= clock <= now && Full(l, b, clock)
    ensures Full(l, b, now)
  {
    EarnedAdds(l, b.last, clock, now);
    EarnedPositive(l, clock, now);
  }

  /** A full bucket is as good as a new one. */
  lemma FullIsNew(l: Limits, b: Bucket, created: real, now: real)
    requires Sane(l) && Full(l, b, now)
    ensures Refilled(l, b, now) == Refilled(l, Bucket(l.burst, created), now)
  {
    EarnedPositive(l, created, now);
  }

  lemma SameCharge(l: Limits, t: Table, all: Table, clock: real, q: Request)
    requires Sane(l) && Agrees(l, t, all, clock) && Good(all, clock) && clock <= q.created <= q.now
    ensures Charge(l, t, q).1 == Charge(l, all, q).1
    ensures Agrees(l, Charge(l, t, q).0, Charge(l, all, q).0, q.now)
  {
    if q.ip !in t && q.ip in all {
      StaysFull(l, all[q.ip], clock, q.now);
      FullIsNew(l, all[q.ip], q.created, q.now);
    }
    forall ip | ip in all && ip !in t ensures Full(l, all[ip], q.now) {
      StaysFull(l, all[ip], clock, q.now);
    }
  }

  lemma IdleIsFull(l: Limits, b: Bucket, now: real)
    requires Sane(l) && CUTOFF * l.rate >= l.burst && b.tokens >= 0.0 && Elapsed(b.last, now) >= CUTOFF
    ensures Full(l, b, now)
  {
    assert (Elapsed(b.last, now) - CUTOFF) * l.rate >= 0.0;
  }

  lemma CollectAgrees(l: Limits, t: Table, all: Table, now: real)
    requires Sane(l) && CUTOFF * l.rate >= l.burst && Agrees(l, t, all, now) && Good(all, now)
    ensures Agrees(l, Collected(t, now), all, now)
  {
    forall ip | ip in t && ip !in Collected(t, now) ensures Full(l, all[ip], now) {
      IdleIsFull(l, all[ip], now);
    }
  }

  lemma {:induction false} SameDecisions(l: Limits, t: Table, all: Table, clock: real, qs: seq<Request>)
    requires Sane(l) && CUTOFF * l.rate >= l.burst
    requires Agrees(l, t, all, clock) && Good(all, clock) && Monotone(clock, qs)
    ensures Decisions(l, t, qs, false) == Decisions(l, all, qs, true)
    decreases qs
  {
    if qs != [] {
      var q := qs[0];
      SameCharge(l, t, all, clock, q);
      ChargeKeeps(l, all, clock, q);
      CollectAgrees(l, Charge(l, t, q).0, Charge(l, all, q).0, q.now);
      SameDecisions(l, Admit(l, t, q).0, Charge(l, all, q).0, q.now, qs[1..]);
    }
  }
}
