/** The window bound for the table as it is kept: exactly when it holds. */
module RateLimiterWindow {
  import opened RateLimiter
  import opened RateLimiterForgetting

  // ------------------------------------------------------------- runs, piece by piece

  lemma {:induction false} AdmittedAppend(xs: seq<Request>, ds: seq<bool>, ys: seq<Request>, es: seq<bool>, ip: Ip)
    requires |xs| == |ds| && |ys| == |es|
    ensures Admitted(xs + ys, ds + es, ip) == Admitted(xs, ds, ip) + Admitted(ys, es, ip)
    decreases xs
  {
    if xs == [] {
      assert xs + ys == ys && ds + es == es;
    } else {
      assert (xs + ys)[1..] == xs[1..] + ys && (ds + es)[1..] == ds[1..] + es;
      AdmittedAppend(xs[1..], ds[1..], ys, es, ip);
    }
  }

  /** From table `t` at time `clock`, the run admits `k` requests of address 0 and ends
      with table `t'` at time `end`. Idle buckets are collected. */
  ghost predicate Piece(l: Limits, t: Table, clock: real, qs: seq<Request>, k: real, t': Table, end: real) {
    && Monotone(clock, qs) && End(clock, qs) == end && After(l, t, qs, false) == t'
    && |Decisions(l, t, qs, false)| == |qs| && Admitted(qs, Decisions(l, t, qs, false), 0) == k
  }

  lemma Join(l: Limits, t: Table, clock: real, xs: seq<Request>, a: real, t1: Table, mid: real,
             ys: seq<Request>, b: real, t2: Table, end: real)
    requires Piece(l, t, clock, xs, a, t1, mid) && Piece(l, t1, mid, ys, b, t2, end)
    ensures Piece(l, t, clock, xs + ys, a + b, t2, end)
  {
    MonotoneAppend(clock, xs, ys);
    EndAppend(clock, xs, ys);
    AfterAppend(l, t, xs, ys, false);
    DecisionsAppend(l, t, xs, ys, false);
    AdmittedAppend(xs, Decisions(l, t, xs, false), ys, Decisions(l, t1, ys, false), 0);
  }

  lemma {:induction false} EndAppend(clock: real, xs: seq<Request>, ys: seq<Request>)
    ensures End(clock, xs + ys) == End(End(clock, xs), ys)
    decreases xs
  {
    if xs == [] {
      assert xs + ys == ys;
    } else {
      assert (xs + ys)[1..] == xs[1..] + ys;
      EndAppend(xs[0].now, xs[1..], ys);
    }
  }

  lemma Single(l: Limits, t: Table, clock: real, q: Request)
    requires clock <= q.created <= q.now && q.ip == 0
    ensures var (t', ok) := Next(l, t, q, false); Piece(l, t, clock, [q], Count(ok), t', q.now)
  {
    RunOne(l, t, q, false);
    OneInOrder(clock, q);
    assert [q][1..] == [];
  }

  // ----------------------------------------------------------------- spending a bucket

  /** As many requests as there are tokens are all admitted. */
  lemma {:induction false} Spend(l: Limits, t: Table, at: real, n: nat) returns (t': Table)
    requires Sane(l) && n >= 1 && n as real <= Level(l, t, at)
    ensures Piece(l, t, at, Drain(n, at), n as real, t', at) && JustUsed(t', Level(l, t, at) - n as real, at)
    decreases n
  {
    var q := Request(0, at, at);
    var before, left := t, Level(l, t, at);
    if n > 1 {
      before := Spend(l, t, at, n - 1);
      left := left - (n - 1) as real;
      LevelBound(l, t, at);
      LevelNow(l, before, left, at);
    } else {
      Nothing(l, t, at);
    }
    LevelAfter(l, before, at, false);
    Single(l, before, at, q);
    AdmitsAt(l, before, at);
    t' := Next(l, before, q, false).0;
    Join(l, t, at, Drain(n - 1, at), (n - 1) as real, before, at, [q], 1.0, t', at);
  }

  lemma Nothing(l: Limits, t: Table, clock: real)
    ensures Drain(0, clock) == [] && Piece(l, t, clock, [], 0.0, t, clock)
  {
  }

  lemma LevelBound(l: Limits, t: Table, at: real)
    ensures Level(l, t, at) <= l.burst
  {
  }

  lemma AdmitsAt(l: Limits, t: Table, at: real)
    requires Level(l, t, at) >= 1.0
    ensures Next(l, t, Request(0, at, at), false).1
  {
  }

  /** With a positive rate: wait for the missing part of a token, and take it. */
  lemma WaitAndTake(l: Limits, t: Table, at: real, y: real) returns (q: Request, t': Table)
    requires Sane(l) && l.rate > 0.0 && l.burst >= 1.0 && JustUsed(t, y, at) && 0.0 <= y < 1.0
    ensures Piece(l, t, at, [q], 1.0, t', q.now) && at <= q.now && Earned(l, at, q.now) == 1.0 - y
  {
    var now := WaitFor(l, at, 1.0 - y);
    q := Request(0, now, now);
    t' := Next(l, t, q, false).0;
    AdmitsAt(l, t, now);
    Single(l, t, at, q);
  }

  // ------------------------------------------------------------------------- the crowd

  lemma {:induction false} NoneOfZero(n: nat, at: real, ds: seq<bool>)
    requires |ds| == |CrowdRun(n, at)| == n
    ensures Admitted(CrowdRun(n, at), ds, 0) == 0.0
    decreases n
  {
    if n > 0 {
      var q := Request(n, at, at);
      CrowdLength(n - 1, at);
      assert ds == ds[..n - 1] + [ds[n - 1]];
      AdmittedAppend(CrowdRun(n - 1, at), ds[..n - 1], [q], [ds[n - 1]], 0);
      NoneOfZero(n - 1, at, ds[..n - 1]);
      assert [q][1..] == [];
    }
  }

  lemma {:induction false} CrowdLength(n: nat, at: real)
    ensures |CrowdRun(n, at)| == n
  {
    if n > 0 { CrowdLength(n - 1, at); }
  }

  /** The crowd makes the table forget address 0, and spends nothing of it. */
  lemma CrowdForgets(l: Limits, b: Bucket, at: real) returns (t': Table)
    requires Sane(l) && l.burst >= 1.0 && Elapsed(b.last, at) >= CUTOFF && b.last <= at
    ensures Piece(l, map[0 := b], at, CrowdRun(MAX_ENTRIES, at), 0.0, t', at) && 0 !in t'
  {
    var n := MAX_ENTRIES;
    t' := After(l, map[0 := b], CrowdRun(n, at), false);
    CrowdIsInOrder(n, at);
    CrowdLength(n, at);
    DecisionsLength(l, map[0 := b], CrowdRun(n, at), false);
    NoneOfZero(n, at, Decisions(l, map[0 := b], CrowdRun(n, at), false));
    CrowdComes(l, map[0 := b], n - 1, at, b, false);
    AfterOneMore(l, map[0 := b], CrowdRun(n - 1, at), Request(n, at, at), false);
    LastStraw(l, b, at);
  }

  // ------------------------------------------------------------------ the violating run

  /** The first phase: a fresh address empties its bucket, exactly if it can wait. */
  lemma FirstPhase(l: Limits, n: nat) returns (qs: seq<Request>, k: real, b: Bucket)
    requires Sane(l) && n >= 1 && n as real <= l.burst < n as real + 1.0
    ensures Piece(l, map[], 0.0, qs, k, map[0 := b], b.last) && qs != [] && qs[0].now == 0.0 && 0.0 <= b.last
    ensures l.rate > 0.0 ==> k == n as real + 1.0 && Earned(l, 0.0, b.last) == n as real + 1.0 - l.burst
    ensures l.rate == 0.0 ==> k == n as real && b.last == 0.0
  {
    var y := l.burst - n as real;
    qs, k, b := Drain(n, 0.0), n as real, Bucket(y, 0.0);
    EarnedPositive(l, 0.0, 0.0);
    assert Level(l, map[], 0.0) == l.burst;
    var t := Spend(l, map[], 0.0, n);
    Drained(l, map[], n, false);
    DrainStarts(n, 0.0);
    if l.rate > 0.0 {
      var q := Emptied(l, b);
      var b' := Bucket(0.0, q.now);
      Single(l, map[0 := b], 0.0, q);
      Join(l, map[], 0.0, qs, k, map[0 := b], 0.0, [q], 1.0, map[0 := b'], q.now);
      qs, k, b := qs + [q], k + 1.0, b';
    }
  }

  lemma {:induction false} DrainStarts(n: nat, at: real)
    requires n >= 1
    ensures Drain(n, at) != [] && Drain(n, at)[0].now == at
  {
    if n > 1 { DrainStarts(n - 1, at); }
  }

  /** The last phase: the forgotten address spends a full bucket once more. */
  lemma LastPhase(l: Limits, t: Table, at: real, n: nat) returns (qs: seq<Request>, k: real, t': Table, end: real)
    requires Sane(l) && n >= 1 && n as real <= l.burst < n as real + 1.0 && 0 !in t
    ensures Piece(l, t, at, qs, k, t', end) && qs != [] && at <= end
    ensures l.rate > 0.0 ==> k == n as real + 1.0 && Earned(l, at, end) == n as real + 1.0 - l.burst
    ensures l.rate == 0.0 ==> k == n as real && end == at
  {
    EarnedPositive(l, at, at);
    assert Level(l, t, at) == l.burst;
    qs, k, end := Drain(n, at), n as real, at;
    t' := Spend(l, t, at, n);
    DrainStarts(n, at);
    if l.rate > 0.0 {
      var q, t2 := WaitAndTake(l, t', at, l.burst - n as real);
      Join(l, t, at, qs, k, t', at, [q], 1.0, t2, q.now);
      qs, k, t', end := qs + [q], k + 1.0, t2, q.now;
    }
  }

  /** Some run from the empty table admits more of address 0, from its first request to
      its last, than the window bound allows. */
  ghost predicate Overdrawn(l: Limits, qs: seq<Request>) {
    && Monotone(0.0, qs) && qs != [] && |Decisions(l, map[], qs, false)| == |qs|
    && Admitted(qs, Decisions(l, map[], qs, false), 0) > l.burst + Earned(l, qs[0].now, qs[|qs| - 1].now)
  }

  lemma Shift(l: Limits, t: Table, clock: real, at: real, qs: seq<Request>, k: real, t': Table, end: real)
    requires clock <= at && qs != [] && Piece(l, t, at, qs, k, t', end)
    ensures Piece(l, t, clock, qs, k, t', end)
  {
  }

  /** Empty the bucket, wait until it is forgotten, and empty it again. */
  lemma SlowRefillOverdraws(l: Limits) returns (qs: seq<Request>)
    requires Sane(l) && l.burst >= 1.0 && CUTOFF * l.rate < l.burst
    ensures Overdrawn(l, qs)
  {
    var n := l.burst.Floor;
    var first, k1, b := FirstPhase(l, n);
    var at := b.last + CUTOFF;
    var crowd := CrowdRun(MAX_ENTRIES, at);
    var t := CrowdForgets(l, b, at);
    CrowdLength(MAX_ENTRIES, at);
    Shift(l, map[0 := b], b.last, at, crowd, 0.0, t, at);
    var last, k2, t', end := LastPhase(l, t, at, n);
    Join(l, map[], 0.0, first, k1, map[0 := b], b.last, crowd, 0.0, t, at);
    Join(l, map[], 0.0, first + crowd, k1 + 0.0, t, at, last, k2, t', end);
    qs := first + crowd + last;
    EndIsLast(0.0, qs);
    TimeAddsUp(l, b.last, end);
  }

  lemma TimeAddsUp(l: Limits, t1: real, end: real)
    requires Sane(l) && 0.0 <= t1 && t1 + CUTOFF <= end
    ensures Earned(l, 0.0, end) == Earned(l, 0.0, t1) + CUTOFF * l.rate + Earned(l, t1 + CUTOFF, end)
    ensures l.rate == 0.0 ==> Earned(l, 0.0, end) == 0.0
  {
    EarnedAdds(l, 0.0, t1, end);
    EarnedAdds(l, t1, t1 + CUTOFF, end);
  }

  // ---------------------------------------------------------------------- main results

  /** Request `i` up to but not including `j` of the run, for one address. */
  predicate WindowHolds(l: Limits, qs: seq<Request>, i: nat, j: nat, ip: Ip)
    requires i < j <= |qs|
  {
    var ds := Decisions(l, map[], qs, false);
    |ds| == |qs| && Admitted(qs[i..j], ds[i..j], ip) <= l.burst + Earned(l, qs[i].now, qs[j - 1].now)
  }

  /** Every window of every run of the table as it is kept admits at most
      `burst + rate * T` requests of any one address. */
  ghost predicate Bounded(l: Limits) {
    forall qs, i: nat, j: nat, ip :: Monotone(0.0, qs) && i < j <= |qs| ==> WindowHolds(l, qs, i, j, ip)
  }

  lemma {:induction false} NoneAdmitted(qs: seq<Request>, ds: seq<bool>, ip: Ip)
    requires |qs| == |ds| && forall i :: 0 <= i < |ds| ==> !ds[i]
    ensures Admitted(qs, ds, ip) == 0.0
    decreases qs
  {
    if qs != [] { NoneAdmitted(qs[1..], ds[1..], ip); }
  }

  lemma WindowKept(l: Limits, qs: seq<Request>, i: nat, j: nat, ip: Ip)
    requires Sane(l) && (CUTOFF * l.rate >= l.burst || l.burst < 1.0) && Monotone(0.0, qs) && i < j <= |qs|
    ensures WindowHolds(l, qs, i, j, ip)
  {
    if l.burst < 1.0 {
      NothingAdmitted(l, map[], qs, false);
      NoneAdmitted(qs[i..j], Decisions(l, map[], qs, false)[i..j], ip);
      EarnedPositive(l, qs[i].now, qs[j - 1].now);
    } else {
      SameDecisions(l, map[], map[], 0.0, qs);
      WindowBound(l, qs, i, j, ip);
    }
  }

  /** The window bound holds of the table as it is kept if and only if an idle bucket
      fills up before it is forgotten, or nothing is admitted anyway. */
  lemma WindowBoundExactly(l: Limits)
    requires Sane(l)
    ensures Bounded(l) <==> (CUTOFF * l.rate >= l.burst || l.burst < 1.0)
  {
    if CUTOFF * l.rate >= l.burst || l.burst < 1.0 {
      forall qs, i: nat, j: nat, ip | Monotone(0.0, qs) && i < j <= |qs| ensures WindowHolds(l, qs, i, j, ip) {
        WindowKept(l, qs, i, j, ip);
      }
    } else {
      var qs := SlowRefillOverdraws(l);
      assert qs[0..|qs|] == qs && Decisions(l, map[], qs, false)[0..|qs|] == Decisions(l, map[], qs, false);
      assert !WindowHolds(l, qs, 0, |qs|, 0);
    }
  }

  /** The limits the server is built with, 50 requests a second and bursts of 100, meet
      the condition. */
  lemma ServerIsBounded()
    ensures Bounded(Limits(50.0, 100.0))
  {
    WindowBoundExactly(Limits(50.0, 100.0));
  }
}
