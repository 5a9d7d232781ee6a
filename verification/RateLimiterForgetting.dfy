/** Exactly when forgetting idle buckets can be noticed. */
module RateLimiterForgetting {
  import opened RateLimiter

  /** The tokens address 0 can spend at time `now`. */
  function Level(l: Limits, t: Table, now: real): real {
    Refilled(l, BucketFor(l, t, Request(0, now, now)), now).tokens
  }

  /** Some run from `clock` on is decided differently with and without collection. */
  ghost predicate Differ(l: Limits, t: Table, all: Table, clock: real) {
    exists qs :: Monotone(clock, qs) && Decisions(l, t, qs, false) != Decisions(l, all, qs, true)
  }

  lemma DifferFrom(l: Limits, t: Table, all: Table, clock: real, qs: seq<Request>)
    requires Monotone(clock, qs) && Differ(l, After(l, t, qs, false), After(l, all, qs, true), End(clock, qs))
    ensures Differ(l, t, all, clock)
  {
    var rest :| Monotone(End(clock, qs), rest) &&
      Decisions(l, After(l, t, qs, false), rest, false) != Decisions(l, After(l, all, qs, true), rest, true);
    MonotoneAppend(clock, qs, rest);
    DecisionsAppend(l, t, qs, rest, false);
    DecisionsAppend(l, all, qs, rest, true);
    DecisionsLength(l, t, qs, false);
    DecisionsLength(l, all, qs, true);
    var n := |qs|;
    assert Decisions(l, t, qs + rest, false)[n..] == Decisions(l, After(l, t, qs, false), rest, false);
    assert Decisions(l, all, qs + rest, true)[n..] == Decisions(l, After(l, all, qs, true), rest, true);
  }

  lemma RunOne(l: Limits, t: Table, q: Request, forever: bool)
    ensures Decisions(l, t, [q], forever) == [Next(l, t, q, forever).1]
    ensures After(l, t, [q], forever) == Next(l, t, q, forever).0
  {
    assert [q][1..] == [];
  }

  lemma AfterOneMore(l: Limits, t: Table, qs: seq<Request>, q: Request, forever: bool)
    ensures After(l, t, qs + [q], forever) == Next(l, After(l, t, qs, forever), q, forever).0
  {
    AfterAppend(l, t, qs, [q], forever);
    RunOne(l, After(l, t, qs, forever), q, forever);
  }

  lemma OneInOrder(clock: real, q: Request)
    ensures Monotone(clock, [q]) <==> clock <= q.created <= q.now
    ensures End(clock, [q]) == q.now
  {
    assert [q][1..] == [];
  }

  lemma DifferNow(l: Limits, t: Table, all: Table, clock: real, now: real)
    requires clock <= now && Level(l, all, now) < 1.0 <= Level(l, t, now)
    ensures Differ(l, t, all, clock)
  {
    var q := Request(0, now, now);
    RunOne(l, t, q, false);
    RunOne(l, all, q, true);
    OneInOrder(clock, q);
    assert Decisions(l, t, [q], false)[0] != Decisions(l, all, [q], true)[0];
  }

  /** An admitted request leaves one token less, with or without collection. */
  lemma LevelAfter(l: Limits, t: Table, now: real, forever: bool)
    requires Sane(l) && Level(l, t, now) >= 1.0
    ensures var t' := Next(l, t, Request(0, now, now), forever).0;
            0 in t' && t'[0] == Bucket(Level(l, t, now) - 1.0, now) && Level(l, t', now) == Level(l, t, now) - 1.0
  {
    EarnedPositive(l, now, now);
    var b := BucketFor(l, t, Request(0, now, now));
    assert Refilled(l, b, now).tokens <= l.burst;
  }

  lemma WaitFor(l: Limits, now: real, need: real) returns (later: real)
    requires l.rate > 0.0 && need >= 0.0
    ensures now <= later && Earned(l, now, later) == need
  {
    later := now + need / l.rate;
  }

  /** Address 0 made its last request just now and has `tokens` left. */
  predicate JustUsed(t: Table, tokens: real, now: real) {
    0 in t && t[0] == Bucket(tokens, now)
  }

  lemma DifferLater(l: Limits, t: Table, all: Table, now: real, a: real, b: real)
    requires Sane(l) && l.rate > 0.0 && l.burst >= 1.0 && 0.0 <= b < a < 1.0
    requires JustUsed(t, a, now) && JustUsed(all, b, now)
    ensures Differ(l, t, all, now)
  {
    var later := WaitFor(l, now, 1.0 - a);
    DifferNow(l, t, all, now, later);
  }

  lemma LevelNow(l: Limits, t: Table, tokens: real, now: real)
    requires Sane(l) && JustUsed(t, tokens, now) && tokens <= l.burst
    ensures Level(l, t, now) == tokens
  {
    EarnedPositive(l, now, now);
  }

  /** Two tables in which address 0 has different tokens left can be told apart. */
  lemma {:induction false} Diverge(l: Limits, t: Table, all: Table, now: real, a: real, b: real)
    requires Sane(l) && l.rate > 0.0 && l.burst >= 1.0 && 0.0 <= b < a <= l.burst
    requires JustUsed(t, a, now) && JustUsed(all, b, now)
    ensures Differ(l, t, all, now)
    decreases b.Floor
  {
    LevelNow(l, t, a, now);
    LevelNow(l, all, b, now);
    if a < 1.0 {
      DifferLater(l, t, all, now, a, b);
    } else if b < 1.0 {
      DifferNow(l, t, all, now, now);
    } else {
      DivergeNext(l, t, all, now, a, b);
    }
  }

  /** Both tables admit a request, and stay different. */
  lemma {:induction false} DivergeNext(l: Limits, t: Table, all: Table, now: real, a: real, b: real)
    requires Sane(l) && l.rate > 0.0 && l.burst >= 1.0 && 1.0 <= b < a <= l.burst
    requires Level(l, t, now) == a && Level(l, all, now) == b
    ensures Differ(l, t, all, now)
    decreases b.Floor, 0
  {
    var q := Request(0, now, now);
    LevelAfter(l, t, now, false);
    LevelAfter(l, all, now, true);
    RunOne(l, t, q, false);
    RunOne(l, all, q, true);
    Diverge(l, Next(l, t, q, false).0, Next(l, all, q, true).0, now, a - 1.0, b - 1.0);
    OneInOrder(now, q);
    DifferFrom(l, t, all, now, [q]);
  }

  /** After a collection that took address 0, the forgetful table starts it afresh. */
  lemma DivergeAfterLoss(l: Limits, t: Table, all: Table, now: real)
    requires Sane(l) && l.burst >= 1.0 && 0 !in t && 0.0 <= Level(l, all, now) < l.burst
    requires l.rate > 0.0 || Level(l, all, now) < 1.0
    ensures Differ(l, t, all, now)
  {
    EarnedPositive(l, now, now);
    assert Level(l, t, now) == l.burst;
    if Level(l, all, now) < 1.0 {
      DifferNow(l, t, all, now, now);
    } else {
      DivergeNext(l, t, all, now, l.burst, Level(l, all, now));
    }
  }

  // ------------------------------------------------ a crowd that forces a collection

  /** Addresses 1 to `n`, each with one request at time `at`. */
  function Crowd(l: Limits, n: nat, at: real): Table {
    if n == 0 then map[] else Crowd(l, n - 1, at)[n := Bucket(l.burst - 1.0, at)]
  }

  lemma {:induction false} CrowdKeys(l: Limits, n: nat, at: real, ip: Ip)
    requires ip in Crowd(l, n, at)
    ensures 1 <= ip <= n
  {
    if ip != n { CrowdKeys(l, n - 1, at, ip); }
  }

  lemma CrowdOthers(l: Limits, n: nat, at: real, ip: Ip)
    requires ip == 0 || ip > n
    ensures ip !in Crowd(l, n, at)
  {
    if ip in Crowd(l, n, at) { CrowdKeys(l, n, at, ip); }
  }

  function CrowdRun(n: nat, at: real): seq<Request> {
    if n == 0 then [] else CrowdRun(n - 1, at) + [Request(n, at, at)]
  }

  lemma {:induction false} CrowdSize(l: Limits, n: nat, at: real, b: Bucket)
    ensures |Crowd(l, n, at)| == n && |Crowd(l, n, at)[0 := b]| == n + 1
  {
    CrowdOthers(l, n, at, 0);
    if n > 0 {
      CrowdSize(l, n - 1, at, b);
      CrowdOthers(l, n - 1, at, n);
    }
  }

  lemma Newcomer(l: Limits, n: nat, at: real, b: Bucket)
    requires Sane(l) && l.burst >= 1.0
    ensures Charge(l, Crowd(l, n, at)[0 := b], Request(n + 1, at, at)).0 == Crowd(l, n + 1, at)[0 := b]
  {
    EarnedPositive(l, at, at);
    CrowdOthers(l, n, at, n + 1);
  }

  lemma {:induction false} CrowdIsInOrder(n: nat, at: real)
    ensures Monotone(at, CrowdRun(n, at)) && End(at, CrowdRun(n, at)) == at
  {
    if n > 0 {
      CrowdIsInOrder(n - 1, at);
      MonotoneAppend(at, CrowdRun(n - 1, at), [Request(n, at, at)]);
      EndIsLast(at, CrowdRun(n, at));
    }
  }

  lemma CrowdGrows(l: Limits, n: nat, at: real, b: Bucket, forever: bool)
    requires Sane(l) && l.burst >= 1.0 && n + 1 < MAX_ENTRIES
    ensures Next(l, Crowd(l, n, at)[0 := b], Request(n + 1, at, at), forever).0 == Crowd(l, n + 1, at)[0 := b]
  {
    Newcomer(l, n, at, b);
    CrowdSize(l, n + 1, at, b);
  }

  predicate CrowdThere(l: Limits, start: Table, n: nat, at: real, b: Bucket, forever: bool) {
    After(l, start, CrowdRun(n, at), forever) == Crowd(l, n, at)[0 := b]
  }

  lemma CrowdStarts(l: Limits, start: Table, n: nat, at: real, b: Bucket, forever: bool)
    requires start == map[0 := b] && n == 0
    ensures CrowdThere(l, start, n, at, b, forever)
  {
    assert Crowd(l, n, at)[0 := b] == map[0 := b];
  }

  lemma CrowdStep(l: Limits, start: Table, n: nat, at: real, b: Bucket, forever: bool)
    requires Sane(l) && l.burst >= 1.0 && n + 1 < MAX_ENTRIES && CrowdThere(l, start, n, at, b, forever)
    ensures CrowdThere(l, start, n + 1, at, b, forever)
  {
    AfterOneMore(l, start, CrowdRun(n, at), Request(n + 1, at, at), forever);
    CrowdGrows(l, n, at, b, forever);
  }

  lemma {:induction false} CrowdComes(l: Limits, start: Table, n: nat, at: real, b: Bucket, forever: bool)
    requires Sane(l) && l.burst >= 1.0 && n < MAX_ENTRIES && start == map[0 := b]
    ensures CrowdThere(l, start, n, at, b, forever)
    decreases n
  {
    if n == 0 {
      CrowdStarts(l, start, n, at, b, forever);
    } else {
      CrowdComes(l, start, n - 1, at, b, forever);
      CrowdStep(l, start, n - 1, at, b, forever);
    }
  }

  /** The last of the crowd makes the table too large. */
  lemma LastStraw(l: Limits, b: Bucket, at: real)
    requires Sane(l) && l.burst >= 1.0 && Elapsed(b.last, at) >= CUTOFF
    ensures var t, q := Crowd(l, MAX_ENTRIES - 1, at)[0 := b], Request(MAX_ENTRIES, at, at);
            && 0 !in Next(l, t, q, false).0
            && 0 in Next(l, t, q, true).0 && Next(l, t, q, true).0[0] == b
  {
    Newcomer(l, MAX_ENTRIES - 1, at, b);
    CrowdSize(l, MAX_ENTRIES, at, b);
    CrowdOthers(l, MAX_ENTRIES, at, 0);
  }

  /** Once a crowd comes `CUTOFF` after its last request, address 0 is forgotten. */
  lemma ForgottenIsNoticed(l: Limits, b: Bucket)
    requires Sane(l) && l.burst >= 1.0 && 0.0 <= b.tokens && b.tokens + CUTOFF * l.rate < l.burst
    requires l.rate > 0.0 || b.tokens < 1.0
    ensures Differ(l, map[0 := b], map[0 := b], b.last)
  {
    var at := b.last + CUTOFF;
    var n := MAX_ENTRIES - 1;
    var qs, q := CrowdRun(n, at), Request(n + 1, at, at);
    var t := Crowd(l, n, at)[0 := b];
    LastStraw(l, b, at);
    RunOne(l, t, q, false);
    RunOne(l, t, q, true);
    assert Earned(l, b.last, at) == CUTOFF * l.rate;
    EarnedPositive(l, b.last, at);
    DivergeAfterLoss(l, Next(l, t, q, false).0, Next(l, t, q, true).0, at);
    OneInOrder(at, q);
    DifferFrom(l, t, t, at, [q]);
    CrowdIsInOrder(n, at);
    CrowdComes(l, map[0 := b], n, at, b, false);
    CrowdComes(l, map[0 := b], n, at, b, true);
    DifferFrom(l, map[0 := b], map[0 := b], at, qs);
    Earlier(l, map[0 := b], map[0 := b], b.last, at);
  }

  lemma Earlier(l: Limits, t: Table, all: Table, clock: real, at: real)
    requires clock <= at && Differ(l, t, all, at)
    ensures Differ(l, t, all, clock)
  {
    var qs :| Monotone(at, qs) && Decisions(l, t, qs, false) != Decisions(l, all, qs, true);
    assert Monotone(clock, qs);
  }

  // -------------------------------------------------------------- the exact condition

  /** `n` requests of address 0 at time `at`. */
  function Drain(n: nat, at: real): seq<Request> {
    if n == 0 then [] else Drain(n - 1, at) + [Request(0, at, at)]
  }

  lemma {:induction false} DrainIsInOrder(n: nat, at: real)
    ensures Monotone(at, Drain(n, at)) && End(at, Drain(n, at)) == at
  {
    if n > 0 {
      DrainIsInOrder(n - 1, at);
      OneInOrder(at, Request(0, at, at));
      MonotoneAppend(at, Drain(n - 1, at), [Request(0, at, at)]);
      EndIsLast(at, Drain(n, at));
    }
  }

  lemma DrainStep(l: Limits, t: Table, n: nat, forever: bool)
    requires Sane(l) && 1 <= n && n as real <= l.burst
    requires t == if n == 1 then map[] else map[0 := Bucket(l.burst - (n - 1) as real, 0.0)]
    ensures Next(l, t, Request(0, 0.0, 0.0), forever).0 == map[0 := Bucket(l.burst - n as real, 0.0)]
  {
    EarnedPositive(l, 0.0, 0.0);
    assert Charge(l, t, Request(0, 0.0, 0.0)).0 == map[0 := Bucket(l.burst - n as real, 0.0)];
  }

  lemma {:induction false} Drained(l: Limits, start: Table, n: nat, forever: bool)
    requires Sane(l) && 1 <= n && n as real <= l.burst && start == map[]
    ensures After(l, start, Drain(n, 0.0), forever) == map[0 := Bucket(l.burst - n as real, 0.0)]
  {
    if n > 1 { Drained(l, start, n - 1, forever); }
    AfterOneMore(l, start, Drain(n - 1, 0.0), Request(0, 0.0, 0.0), forever);
    DrainStep(l, After(l, start, Drain(n - 1, 0.0), forever), n, forever);
  }

  /** With a positive rate, the bucket can be emptied completely. */
  lemma Emptied(l: Limits, b: Bucket) returns (q: Request)
    requires Sane(l) && l.rate > 0.0 && l.burst >= 1.0 && 0.0 <= b.tokens < 1.0
    ensures b.last <= q.created <= q.now && q.ip == 0
    ensures forall forever :: Next(l, map[0 := b], q, forever).0 == map[0 := Bucket(0.0, q.now)]
    ensures Next(l, map[0 := b], q, false).1
    ensures Earned(l, b.last, q.now) == 1.0 - b.tokens
  {
    var now := WaitFor(l, b.last, 1.0 - b.tokens);
    q := Request(0, now, now);
    assert Charge(l, map[0 := b], q).0 == map[0 := Bucket(0.0, now)];
  }

  lemma LowBucketDiffers(l: Limits, b: Bucket)
    requires Sane(l) && l.burst >= 1.0 && CUTOFF * l.rate < l.burst && 0.0 <= b.tokens < 1.0
    ensures Differ(l, map[0 := b], map[0 := b], b.last)
  {
    if l.rate == 0.0 {
      ForgottenIsNoticed(l, b);
    } else {
      var q := Emptied(l, b);
      var t := map[0 := b];
      ForgottenIsNoticed(l, Bucket(0.0, q.now));
      RunOne(l, t, q, false);
      RunOne(l, t, q, true);
      OneInOrder(b.last, q);
      DifferFrom(l, t, t, b.last, [q]);
    }
  }

  lemma SlowRefillDiffers(l: Limits)
    requires Sane(l) && l.burst >= 1.0 && CUTOFF * l.rate < l.burst
    ensures Differ(l, map[], map[], 0.0)
  {
    var n := l.burst.Floor;
    Drained(l, map[], n, false);
    Drained(l, map[], n, true);
    DrainIsInOrder(n, 0.0);
    LowBucketDiffers(l, Bucket(l.burst - n as real, 0.0));
    DifferFrom(l, map[], map[], 0.0, Drain(n, 0.0));
  }

  /** Below one token of burst, nothing is ever admitted. */
  lemma {:induction false} NothingAdmitted(l: Limits, t: Table, qs: seq<Request>, forever: bool)
    requires l.burst < 1.0
    ensures |Decisions(l, t, qs, forever)| == |qs|
    ensures forall i :: 0 <= i < |qs| ==> !Decisions(l, t, qs, forever)[i]
    decreases qs
  {
    if qs != [] { NothingAdmitted(l, Next(l, t, qs[0], forever).0, qs[1..], forever); }
  }

  /** Forgetting idle buckets changes no decision in any run if and only if an idle
      bucket fills up before it is forgotten, or nothing is admitted anyway. */
  lemma ForgettingIsInvisible(l: Limits)
    requires Sane(l)
    ensures !Differ(l, map[], map[], 0.0) <==> (CUTOFF * l.rate >= l.burst || l.burst < 1.0)
  {
    if l.burst < 1.0 {
      forall qs ensures Decisions(l, map[], qs, false) == Decisions(l, map[], qs, true) {
        NothingAdmitted(l, map[], qs, false);
        NothingAdmitted(l, map[], qs, true);
      }
    } else if CUTOFF * l.rate >= l.burst {
      forall qs | Monotone(0.0, qs) ensures Decisions(l, map[], qs, false) == Decisions(l, map[], qs, true) {
        SameDecisions(l, map[], map[], 0.0, qs);
      }
    } else {
      SlowRefillDiffers(l);
    }
  }
}
