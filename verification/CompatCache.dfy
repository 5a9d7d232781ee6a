/** The snapshot cache of crates/core-api/src/compat_cache.rs: a double-checked read
    around one build mutex, with `invalidate` at any moment.

    Threads interleave at every access of the state lock, the mutex and the two
    counters. The value a build returns, the outcome of its serialisation and the
    clock readings are parameters of the steps. */
module CompatCache {
  import opened Wrappers

  const U64 := 0x1_0000_0000_0000_0000

  type Revision = Option<nat>

  /** A finished build of `value`, whose serialisation was `json`: asked for `revision`, started after `epoch` invalidations at a
      check that read the clock as `checkedAt`, stored at `storedAt` after
      `storeEpoch` invalidations. */
  datatype Build = Build(revision: Revision, epoch: nat, checkedAt: int, value: int, json: Option<string>,
                         bytes: string, storedAt: int, storeEpoch: nat)

  datatype Cache = Cache(bytes: Option<string>, value: Option<int>, lastBuilt: int, revision: Revision)

  /** What a fetch asks for, with the invalidations and the settled invalidations
      there were when it was called. */
  datatype Ticket = Ticket(revision: Revision, asked: nat, settled: nat)

  /** A completed fetch, answered from build number `from`: a hit, checked at this reading
      of the clock, or its own build. */
  datatype Served = Served(ticket: Ticket, bytes: string, value: int, from: nat, hitAt: Option<int>)

  /** The cache and the counters. The rest is history: which build filled the cache,
      all stored builds, all completed fetches, how many invalidations there were,
      and how many up to the last one that came with no build in flight. */
  datatype Shared = Shared(cache: Cache, holder: Option<nat>, hits: nat, builds: nat,
                           from: nat, log: seq<Build>, served: seq<Served>, epoch: nat, settled: nat)

  datatype Pc =
    | Idle
    | Asked(ticket: Ticket)
    | Missed(ticket: Ticket)
    | Locked(ticket: Ticket)
    | Hit(ticket: Ticket, bytes: string, value: int, from: nat, at: int)
    | Building(ticket: Ticket, epoch: nat, checkedAt: int)
    | Built(ticket: Ticket, epoch: nat, checkedAt: int, value: int, json: Option<string>, bytes: string)
    | Counted(ticket: Ticket, epoch: nat, checkedAt: int, value: int, json: Option<string>, bytes: string)

  datatype State = State(sh: Shared, threads: seq<Pc>)

  /** `Next` makes the thread's next access; a build in progress ends with `value`,
      serialised as `json` if that succeeds. `Unwind` is a panic inside the build. */
  datatype Event =
    | Fetch(t: nat, revision: Revision)
    | Next(t: nat, now: int, value: int, json: Option<string>)
    | Unwind(t: nat)
    | Invalidate(stale: int)

  function Elapsed(since: int, now: int): nat {
    if now < since then 0 else now - since
  }

  predicate Fresh(c: Cache, ttl: nat, now: int, revision: Revision) {
    c.bytes.Some? && c.value.Some? && Elapsed(c.lastBuilt, now) < ttl && c.revision == revision
  }

  predicate InFlight(pc: Pc) {
    pc.Building? || pc.Built? || pc.Counted?
  }

  predicate BuildInFlight(threads: seq<Pc>) {
    exists t :: 0 <= t < |threads| && InFlight(threads[t])
  }

  function ReadHit(sh: Shared, k: Ticket, now: int): Pc
    requires sh.cache.bytes.Some? && sh.cache.value.Some?
  {
    Hit(k, sh.cache.bytes.value, sh.cache.value.value, sh.from, now)
  }

  function Released(sh: Shared, t: nat): Shared {
    if sh.holder == Some(t) then sh.(holder := None) else sh
  }

  function Step(sh: Shared, pc: Pc, t: nat, ttl: nat, now: int, value: int, json: Option<string>): (Shared, Pc) {
    match pc
    case Idle => (sh, pc)
    case Asked(k) =>
      (sh, if Fresh(sh.cache, ttl, now, k.revision) then ReadHit(sh, k, now) else Missed(k))
    case Missed(k) =>
      if sh.holder.None? then (sh.(holder := Some(t)), Locked(k)) else (sh, pc)
    case Locked(k) =>
      (sh, if Fresh(sh.cache, ttl, now, k.revision) then ReadHit(sh, k, now) else Building(k, sh.epoch, now))
    case Hit(k, bytes, v, from, at) =>
      (Released(sh, t).(hits := (sh.hits + 1) % U64, served := sh.served + [Served(k, bytes, v, from, Some(at))]), Idle)
    case Building(k, epoch, at) =>
      (sh, Built(k, epoch, at, value, json, if json.Some? then json.value else "{}"))
    case Built(k, epoch, at, v, j, bytes) =>
      (sh.(builds := (sh.builds + 1) % U64), Counted(k, epoch, at, v, j, bytes))
    case Counted(k, epoch, at, v, j, bytes) =>
      (Released(sh, t).(cache := Cache(Some(bytes), Some(v), now, k.revision), from := |sh.log|,
                        log := sh.log + [Build(k.revision, epoch, at, v, j, bytes, now, sh.epoch)],
                        served := sh.served + [Served(k, bytes, v, |sh.log|, None)]), Idle)
  }

  function Invalidated(s: State, stale: int): Shared {
    s.sh.(cache := Cache(None, None, stale, None), epoch := s.sh.epoch + 1,
          settled := if BuildInFlight(s.threads) then s.sh.settled else s.sh.epoch + 1)
  }

  function Apply(s: State, ttl: nat, e: Event): State {
    match e
    case Fetch(t, r) =>
      if t < |s.threads| && s.threads[t].Idle?
      then s.(threads := s.threads[t := Asked(Ticket(r, s.sh.epoch, s.sh.settled))]) else s
    case Next(t, now, value, json) =>
      if t < |s.threads| then
        var (sh', pc') := Step(s.sh, s.threads[t], t, ttl, now, value, json);
        State(sh', s.threads[t := pc'])
      else s
    case Unwind(t) =>
      if t < |s.threads| && s.threads[t].Building?
      then State(Released(s.sh, t), s.threads[t := Idle]) else s
    case Invalidate(stale) => s.(sh := Invalidated(s, stale))
  }

  function Run(s: State, ttl: nat, events: seq<Event>): State
    decreases events
  {
    if events == [] then s else Run(Apply(s, ttl, events[0]), ttl, events[1..])
  }

  function Init(n: nat, stale: int): State {
    State(Shared(Cache(None, None, stale, None), None, 0, 0, 0, [], [], 0, 0), seq(n, _ => Idle))
  }

  // ---------------------------------------------------------------- the invariant

  /** The pair `bytes`, `value` is that of build `from`, made for `revision`. */
  predicate OfBuild(log: seq<Build>, from: nat, revision: Revision, bytes: string, value: int) {
    from < |log| && log[from].revision == revision && log[from].bytes == bytes && log[from].value == value
  }

  /** A build need not start while the one before it can still be served. */
  predicate Needed(log: seq<Build>, i: nat, ttl: nat, revision: Revision, epoch: nat, checkedAt: int)
    requires i <= |log|
  {
    i == 0 || log[i - 1].revision != revision || log[i - 1].storeEpoch < epoch
    || Elapsed(log[i - 1].storedAt, checkedAt) >= ttl
  }

  predicate WasNeeded(log: seq<Build>, i: nat, ttl: nat)
    requires i < |log|
  {
    Needed(log, i, ttl, log[i].revision, log[i].epoch, log[i].checkedAt)
  }

  /** The bytes are the serialisation, or an empty object if there is none. */
  predicate Serialised(json: Option<string>, bytes: string) {
    match json
    case Some(text) => bytes == text
    case None => bytes == "{}"
  }

  predicate GoodLog(log: seq<Build>, epoch: nat, ttl: nat) {
    && (forall i :: 0 <= i < |log| ==> log[i].epoch <= log[i].storeEpoch <= epoch)
    && (forall i :: 0 <= i < |log| ==> WasNeeded(log, i, ttl))
    && (forall i :: 0 <= i < |log| ==> Serialised(log[i].json, log[i].bytes))
  }

  /** A hit is younger than `ttl`, a build of the fetch's own began after it was called. */
  predicate GoodAnswer(log: seq<Build>, x: Served, ttl: nat) {
    && OfBuild(log, x.from, x.ticket.revision, x.bytes, x.value)
    && log[x.from].epoch >= x.ticket.settled
    && match x.hitAt
       case Some(at) => Elapsed(log[x.from].storedAt, at) < ttl
       case None => log[x.from].epoch >= x.ticket.asked
  }

  predicate GoodServed(log: seq<Build>, served: seq<Served>, ttl: nat) {
    forall i :: 0 <= i < |served| ==> GoodAnswer(log, served[i], ttl)
  }

  /** Unless it was invalidated, the cache holds the last build. */
  predicate GoodCache(sh: Shared) {
    && (sh.cache.bytes.Some? <==> sh.cache.value.Some?)
    && (sh.cache.value.Some? ==>
          && OfBuild(sh.log, sh.from, sh.cache.revision, sh.cache.bytes.value, sh.cache.value.value)
          && sh.log[sh.from].epoch >= sh.settled && sh.cache.lastBuilt == sh.log[sh.from].storedAt)
    && (|sh.log| > 0 && sh.log[|sh.log| - 1].storeEpoch == sh.epoch ==>
          sh.cache.value.Some? && sh.from == |sh.log| - 1)
  }

  predicate Wf(sh: Shared, ttl: nat) {
    && sh.settled <= sh.epoch && GoodLog(sh.log, sh.epoch, ttl) && GoodServed(sh.log, sh.served, ttl) && GoodCache(sh)
  }

  predicate NeedsLock(pc: Pc) {
    pc.Locked? || InFlight(pc)
  }

  predicate GoodTicket(sh: Shared, k: Ticket) {
    k.settled <= sh.settled && k.asked <= sh.epoch
  }

  /** A build in flight was asked for before it began, and is needed. */
  predicate GoodFlight(sh: Shared, k: Ticket, epoch: nat, at: int, ttl: nat) {
    && k.settled <= sh.settled <= epoch <= sh.epoch && k.asked <= epoch
    && Needed(sh.log, |sh.log|, ttl, k.revision, epoch, at)
  }

  predicate Local(sh: Shared, pc: Pc, ttl: nat) {
    match pc
    case Idle => true
    case Hit(k, bytes, v, from, at) => GoodAnswer(sh.log, Served(k, bytes, v, from, Some(at)), ttl)
    case Asked(k) => GoodTicket(sh, k)
    case Missed(k) => GoodTicket(sh, k)
    case Locked(k) => GoodTicket(sh, k)
    case Building(k, epoch, at) => GoodFlight(sh, k, epoch, at, ttl)
    case Built(k, epoch, at, _, j, bytes) => GoodFlight(sh, k, epoch, at, ttl) && Serialised(j, bytes)
    case Counted(k, epoch, at, _, j, bytes) => GoodFlight(sh, k, epoch, at, ttl) && Serialised(j, bytes)
  }

  /** Builds counted but not yet stored: at most the lock holder's. */
  function Pending(s: State): nat {
    if s.sh.holder.Some? && s.sh.holder.value < |s.threads| && s.threads[s.sh.holder.value].Counted? then 1 else 0
  }

  predicate LockOk(s: State) {
    && (forall t :: 0 <= t < |s.threads| && NeedsLock(s.threads[t]) ==> s.sh.holder == Some(t))
    && (s.sh.holder.Some? ==> MayHold(s, s.sh.holder.value))
  }

  predicate Inv(s: State, ttl: nat) {
    && Wf(s.sh, ttl)
    && (forall t :: 0 <= t < |s.threads| ==> Local(s.sh, s.threads[t], ttl))
    && LockOk(s)
  }

  /** The mutex is with a fetch under way, which releases it when it ends. */
  predicate MayHold(s: State, t: nat) {
    t < |s.threads| && (NeedsLock(s.threads[t]) || s.threads[t].Hit?)
  }

  /** Every completed fetch was counted once, as a hit or as a build. */
  predicate Counts(s: State) {
    && |s.sh.log| <= |s.sh.served|
    && s.sh.hits == (|s.sh.served| - |s.sh.log|) % U64
    && s.sh.builds == (|s.sh.log| + Pending(s)) % U64
  }

  lemma LogGrows(log: seq<Build>, served: seq<Served>, b: Build, epoch: nat, ttl: nat)
    requires GoodLog(log, epoch, ttl) && b.epoch <= b.storeEpoch == epoch
    requires Needed(log, |log|, ttl, b.revision, b.epoch, b.checkedAt) && Serialised(b.json, b.bytes)
    ensures GoodLog(log + [b], epoch, ttl)
    ensures GoodServed(log, served, ttl) ==> GoodServed(log + [b], served, ttl)
  {
    var log' := log + [b];
    forall i | 0 <= i < |log'| ensures WasNeeded(log', i, ttl) {
      assert i < |log| ==> WasNeeded(log, i, ttl);
    }
    if GoodServed(log, served, ttl) {
      forall i | 0 <= i < |served| ensures GoodAnswer(log', served[i], ttl) {
        assert GoodAnswer(log, served[i], ttl) && log'[served[i].from] == log[served[i].from];
      }
    }
  }

  lemma ServedGrows(log: seq<Build>, served: seq<Served>, x: Served, ttl: nat)
    requires GoodServed(log, served, ttl) && GoodAnswer(log, x, ttl)
    ensures GoodServed(log, served + [x], ttl)
  {
  }

  lemma StoreKeeps(sh: Shared, pc: Pc, t: nat, ttl: nat, now: int)
    requires Wf(sh, ttl) && pc.Counted? && Local(sh, pc, ttl)
    ensures var (sh', _) := Step(sh, pc, t, ttl, now, 0, None); Wf(sh', ttl)
  {
    var b := Build(pc.ticket.revision, pc.epoch, pc.checkedAt, pc.value, pc.json, pc.bytes, now, sh.epoch);
    LogGrows(sh.log, sh.served, b, sh.epoch, ttl);
    ServedGrows(sh.log + [b], sh.served, Served(pc.ticket, pc.bytes, pc.value, |sh.log|, None), ttl);
  }

  lemma HitKeeps(sh: Shared, pc: Pc, t: nat, ttl: nat, now: int)
    requires Wf(sh, ttl) && pc.Hit? && Local(sh, pc, ttl)
    ensures var (sh', _) := Step(sh, pc, t, ttl, now, 0, None); Wf(sh', ttl)
  {
    ServedGrows(sh.log, sh.served, Served(pc.ticket, pc.bytes, pc.value, pc.from, Some(pc.at)), ttl);
  }

  lemma StepKeeps(sh: Shared, pc: Pc, t: nat, ttl: nat, now: int, value: int, json: Option<string>)
    requires Wf(sh, ttl) && Local(sh, pc, ttl)
    ensures var (sh', pc') := Step(sh, pc, t, ttl, now, value, json);
            && Wf(sh', ttl) && Local(sh', pc', ttl) && sh'.epoch == sh.epoch && sh'.settled == sh.settled
            && sh.log <= sh'.log && (!pc.Counted? ==> sh'.log == sh.log)
  {
    match pc
    case Counted(_, _, _, _, _, _) => StoreKeeps(sh, pc, t, ttl, now);
    case Hit(_, _, _, _, _) => HitKeeps(sh, pc, t, ttl, now);
    case _ =>
  }

  /** A thread is not disturbed by another's step, unless both have a build in flight. */
  lemma OtherKeeps(sh: Shared, sh': Shared, pc: Pc, ttl: nat)
    requires Local(sh, pc, ttl) && sh'.epoch == sh.epoch && sh'.settled == sh.settled && sh.log <= sh'.log
    requires InFlight(pc) ==> sh'.log == sh.log
    ensures Local(sh', pc, ttl)
  {
  }

  lemma LockStays(s: State, ttl: nat, t: nat, now: int, value: int, json: Option<string>)
    requires LockOk(s) && t < |s.threads|
    ensures LockOk(Apply(s, ttl, Next(t, now, value, json)))
  {
  }

  lemma NextKeeps(s: State, ttl: nat, t: nat, now: int, value: int, json: Option<string>)
    requires Inv(s, ttl) && t < |s.threads|
    ensures Inv(Apply(s, ttl, Next(t, now, value, json)), ttl)
  {
    var pc := s.threads[t];
    var s' := Apply(s, ttl, Next(t, now, value, json));
    StepKeeps(s.sh, pc, t, ttl, now, value, json);
    LockStays(s, ttl, t, now, value, json);
    forall u | 0 <= u < |s.threads| ensures Local(s'.sh, s'.threads[u], ttl) {
      if u != t { OtherKeeps(s.sh, s'.sh, s.threads[u], ttl); }
    }
  }

  lemma InvalidateKeeps(s: State, ttl: nat, stale: int)
    requires Inv(s, ttl)
    ensures Inv(Apply(s, ttl, Invalidate(stale)), ttl)
  {
  }

  lemma ApplyKeeps(s: State, ttl: nat, e: Event)
    requires Inv(s, ttl)
    ensures Inv(Apply(s, ttl, e), ttl)
  {
    match e
    case Fetch(_, _) =>
    case Next(t, now, value, json) => if t < |s.threads| { NextKeeps(s, ttl, t, now, value, json); }
    case Unwind(_) =>
    case Invalidate(stale) => InvalidateKeeps(s, ttl, stale);
  }

  lemma {:induction false} RunKeeps(s: State, ttl: nat, events: seq<Event>)
    requires Inv(s, ttl)
    ensures Inv(Run(s, ttl, events), ttl)
    decreases events
  {
    if events != [] {
      ApplyKeeps(s, ttl, events[0]);
      RunKeeps(Apply(s, ttl, events[0]), ttl, events[1..]);
    }
  }

  lemma InitIsInv(n: nat, stale: int, ttl: nat)
    ensures Inv(Init(n, stale), ttl)
  {
  }

  lemma WrappedNext(n: nat)
    ensures (n % U64 + 1) % U64 == (n + 1) % U64
  {
  }

  /** What a step adds to the counters and to the history. */
  lemma StepCounts(sh: Shared, pc: Pc, t: nat, ttl: nat, now: int, value: int, json: Option<string>)
    ensures var (sh', pc') := Step(sh, pc, t, ttl, now, value, json);
            && |sh'.served| == |sh.served| + (if pc.Hit? || pc.Counted? then 1 else 0)
            && |sh'.log| == |sh.log| + (if pc.Counted? then 1 else 0)
            && sh'.hits == (if pc.Hit? then (sh.hits + 1) % U64 else sh.hits)
            && sh'.builds == (if pc.Built? then (sh.builds + 1) % U64 else sh.builds)
            && pc'.Counted? == pc.Built?
            && (sh'.holder == sh.holder || (sh.holder.None? && sh'.holder == Some(t)) || (sh.holder == Some(t) && sh'.holder.None?))
  {
  }

  /** The lock, and with it the one pending build, before and after a step. */
  lemma PendingStep(s: State, ttl: nat, t: nat, now: int, value: int, json: Option<string>)
    requires Inv(s, ttl) && t < |s.threads|
    ensures Pending(s) == if s.threads[t].Counted? then 1 else Pending(s)
    ensures Pending(Apply(s, ttl, Next(t, now, value, json))) ==
              if s.threads[t].Built? then 1 else if s.threads[t].Counted? then 0 else Pending(s)
    ensures s.threads[t].Built? ==> Pending(s) == 0
  {
    StepCounts(s.sh, s.threads[t], t, ttl, now, value, json);
  }

  lemma CountsKept(s: State, ttl: nat, e: Event)
    requires Inv(s, ttl) && Counts(s)
    ensures Counts(Apply(s, ttl, e))
  {
    if e.Next? && e.t < |s.threads| {
      StepCounts(s.sh, s.threads[e.t], e.t, ttl, e.now, e.value, e.json);
      PendingStep(s, ttl, e.t, e.now, e.value, e.json);
      WrappedNext(|s.sh.served| - |s.sh.log|);
      WrappedNext(|s.sh.log|);
    }
  }

  lemma {:induction false} RunCounts(s: State, ttl: nat, events: seq<Event>)
    requires Inv(s, ttl) && Counts(s)
    ensures Counts(Run(s, ttl, events))
    decreases events
  {
    if events != [] {
      ApplyKeeps(s, ttl, events[0]);
      CountsKept(s, ttl, events[0]);
      RunCounts(Apply(s, ttl, events[0]), ttl, events[1..]);
    }
  }

  // ---------------------------------------------------------------- main results

  /** Every served pair is the bytes and the value of one and the same build, made
      for the revision that was asked for. */
  lemma ServedFromOneBuild(n: nat, stale: int, ttl: nat, events: seq<Event>, i: nat)
    requires i < |Run(Init(n, stale), ttl, events).sh.served|
    ensures var sh := Run(Init(n, stale), ttl, events).sh;
            && OfBuild(sh.log, sh.served[i].from, sh.served[i].ticket.revision, sh.served[i].bytes, sh.served[i].value)
            && Serialised(sh.log[sh.served[i].from].json, sh.served[i].bytes)
  {
    InitIsInv(n, stale, ttl);
    RunKeeps(Init(n, stale), ttl, events);
    assert GoodAnswer(Run(Init(n, stale), ttl, events).sh.log, Run(Init(n, stale), ttl, events).sh.served[i], ttl);
  }

  /** Nothing outdated is served: a pair from the cache was stored less than `ttl` before
      the fetch checked it, and any other is of a build that began after the fetch was
      called. */
  lemma ServedIsFresh(n: nat, stale: int, ttl: nat, events: seq<Event>, i: nat)
    requires i < |Run(Init(n, stale), ttl, events).sh.served|
    ensures var sh := Run(Init(n, stale), ttl, events).sh;
            var x := sh.served[i];
            && x.from < |sh.log|
            && match x.hitAt
               case Some(at) => ttl > 0 && at - sh.log[x.from].storedAt < ttl
               case None => x.ticket.asked <= sh.log[x.from].epoch
  {
    InitIsInv(n, stale, ttl);
    RunKeeps(Init(n, stale), ttl, events);
    assert GoodAnswer(Run(Init(n, stale), ttl, events).sh.log, Run(Init(n, stale), ttl, events).sh.served[i], ttl);
  }

  /** At most one build runs at a time. */
  lemma OneBuildAtATime(n: nat, stale: int, ttl: nat, events: seq<Event>, t: nat, u: nat)
    requires var threads := Run(Init(n, stale), ttl, events).threads;
             t < |threads| && u < |threads| && InFlight(threads[t]) && InFlight(threads[u])
    ensures t == u
  {
    InitIsInv(n, stale, ttl);
    RunKeeps(Init(n, stale), ttl, events);
  }

  /** The steps a fetch is away from its end, at most, if it gets the mutex. */
  function Distance(pc: Pc): nat {
    match pc
    case Idle => 0
    case Asked(_) => 6
    case Missed(_) => 5
    case Locked(_) => 4
    case Building(_, _, _) => 3
    case Built(_, _, _, _, _, _) => 2
    case Counted(_, _, _, _, _, _) => 1
    case Hit(_, _, _, _, _) => 1
  }

  /** Every fetch ends, if whoever has the mutex goes on: the holder's own steps end its
      fetch and release the mutex, and so do the steps of any fetch while the mutex is free. */
  lemma {:induction false} FetchEnds(s: State, ttl: nat, t: nat) returns (events: seq<Event>)
    requires Inv(s, ttl) && t < |s.threads| && !s.threads[t].Idle?
    requires s.sh.holder.None? || s.sh.holder == Some(t)
    ensures forall e :: e in events ==> e.Next? && e.t == t
    ensures var s' := Run(s, ttl, events);
            && t < |s'.threads| && s'.threads[t].Idle? && s'.sh.holder.None?
            && |s'.sh.served| == |s.sh.served| + 1 && s'.sh.served[|s.sh.served|].ticket == s.threads[t].ticket
    decreases Distance(s.threads[t])
  {
    var e := Next(t, 0, 0, None);
    var s' := Apply(s, ttl, e);
    ApplyKeeps(s, ttl, e);
    var rest := [];
    if !s'.threads[t].Idle? { rest := FetchEnds(s', ttl, t); }
    events := [e] + rest;
    assert events[1..] == rest;
  }

  /** A build starts only if the one before it cannot answer: it was for another
      revision, was invalidated, or is at least `ttl` old at the second check. */
  lemma SingleFlight(n: nat, stale: int, ttl: nat, events: seq<Event>, i: nat)
    requires i + 1 < |Run(Init(n, stale), ttl, events).sh.log|
    ensures var log := Run(Init(n, stale), ttl, events).sh.log;
            || log[i].revision != log[i + 1].revision
            || log[i].storeEpoch < log[i + 1].epoch
            || ttl == 0 || log[i + 1].checkedAt - log[i].storedAt >= ttl
  {
    InitIsInv(n, stale, ttl);
    RunKeeps(Init(n, stale), ttl, events);
    assert WasNeeded(Run(Init(n, stale), ttl, events).sh.log, i + 1, ttl);
  }

  /** A build that panics gives the mutex back and leaves the cache as it was. */
  lemma PanicReleases(s: State, ttl: nat, t: nat)
    requires Inv(s, ttl) && t < |s.threads| && s.threads[t].Building?
    ensures var s' := Apply(s, ttl, Unwind(t));
            && s'.sh == s.sh.(holder := None) && s'.threads == s.threads[t := Idle]
  {
  }

  /** Hits and builds add up to the completed fetches, and the one in flight that is
      counted already. */
  lemma CountersAddUp(n: nat, stale: int, ttl: nat, events: seq<Event>)
    ensures var s := Run(Init(n, stale), ttl, events);
            (s.sh.hits + s.sh.builds) % U64 == (|s.sh.served| + Pending(s)) % U64
  {
    InitIsInv(n, stale, ttl);
    RunCounts(Init(n, stale), ttl, events);
    var s := Run(Init(n, stale), ttl, events);
    WrappedSum(|s.sh.served| - |s.sh.log|, |s.sh.log| + Pending(s));
  }

  lemma WrappedSum(a: nat, b: nat)
    ensures (a % U64 + b % U64) % U64 == (a + b) % U64
  {
  }

  // ------------------------------------------------------------------ invalidation

  /** Fetches asked after `epoch` invalidations have settled that many. */
  predicate Settled(s: State, epoch: nat) {
    && epoch <= s.sh.settled
    && (forall t :: 0 <= t < |s.threads| && !s.threads[t].Idle? && s.threads[t].ticket.asked >= epoch ==>
          s.threads[t].ticket.settled >= epoch)
    && (forall i :: 0 <= i < |s.sh.served| && s.sh.served[i].ticket.asked >= epoch ==>
          s.sh.served[i].ticket.settled >= epoch)
  }

  /** No fetch was asked in the future. */
  predicate Dated(s: State) {
    && (forall t :: 0 <= t < |s.threads| && !s.threads[t].Idle? ==> s.threads[t].ticket.asked <= s.sh.epoch)
    && (forall i :: 0 <= i < |s.sh.served| ==> s.sh.served[i].ticket.asked <= s.sh.epoch)
  }

  lemma StepTickets(sh: Shared, pc: Pc, t: nat, ttl: nat, now: int, value: int, json: Option<string>)
    ensures var (sh', pc') := Step(sh, pc, t, ttl, now, value, json);
            && (!pc'.Idle? ==> !pc.Idle? && pc'.ticket == pc.ticket)
            && (sh'.served == sh.served || (!pc.Idle? && |sh'.served| == |sh.served| + 1
                  && sh'.served[..|sh.served|] == sh.served && sh'.served[|sh.served|].ticket == pc.ticket))
            && sh'.epoch == sh.epoch && sh'.settled == sh.settled
  {
  }

  lemma ApplyTickets(s: State, ttl: nat, e: Event, epoch: nat)
    requires s.sh.settled <= s.sh.epoch
    ensures Dated(s) ==> Dated(Apply(s, ttl, e))
    ensures Settled(s, epoch) ==> Settled(Apply(s, ttl, e), epoch)
  {
    if e.Next? && e.t < |s.threads| {
      StepTickets(s.sh, s.threads[e.t], e.t, ttl, e.now, e.value, e.json);
    }
  }

  lemma {:induction false} RunTickets(s: State, ttl: nat, events: seq<Event>, epoch: nat)
    requires Inv(s, ttl)
    ensures Dated(s) ==> Dated(Run(s, ttl, events))
    ensures Settled(s, epoch) ==> Settled(Run(s, ttl, events), epoch)
    decreases events
  {
    if events != [] {
      ApplyKeeps(s, ttl, events[0]);
      ApplyTickets(s, ttl, events[0], epoch);
      RunTickets(Apply(s, ttl, events[0]), ttl, events[1..], epoch);
    }
  }

  /** Some fetch asked after invalidation number `epoch` was answered by a build that
      had started before it. */
  predicate StaleAnswer(s: State, epoch: nat) {
    exists i :: 0 <= i < |s.sh.served| && s.sh.served[i].ticket.asked >= epoch
      && s.sh.served[i].from < |s.sh.log| && s.sh.log[s.sh.served[i].from].epoch < epoch
  }

  ghost predicate ForcesRebuild(s: State, ttl: nat) {
    forall events :: !StaleAnswer(Run(s, ttl, events), s.sh.epoch)
  }

  lemma QuietInvalidateForces(s: State, ttl: nat, stale: int, events: seq<Event>)
    requires Inv(s, ttl) && Dated(s) && !BuildInFlight(s.threads)
    ensures var s' := Apply(s, ttl, Invalidate(stale)); !StaleAnswer(Run(s', ttl, events), s'.sh.epoch)
  {
    var s' := Apply(s, ttl, Invalidate(stale));
    assert Settled(s', s'.sh.epoch);
    ApplyKeeps(s, ttl, Invalidate(stale));
    RunTickets(s', ttl, events, s'.sh.epoch);
    RunKeeps(s', ttl, events);
  }

  lemma {:induction false} RunAppend(s: State, ttl: nat, xs: seq<Event>, ys: seq<Event>)
    ensures Run(s, ttl, xs + ys) == Run(Run(s, ttl, xs), ttl, ys)
    decreases xs
  {
    if xs == [] {
      assert xs + ys == ys;
    } else {
      assert (xs + ys)[1..] == xs[1..] + ys;
      RunAppend(Apply(s, ttl, xs[0]), ttl, xs[1..], ys);
    }
  }

  lemma RunOne(s: State, ttl: nat, e: Event)
    ensures Run(s, ttl, [e]) == Apply(s, ttl, e)
  {
    assert [e][1..] == [];
  }

  /** A build in flight can go on to be stored, at time 0. */
  lemma FinishBuild(s: State, ttl: nat, t: nat) returns (events: seq<Event>)
    requires t < |s.threads| && InFlight(s.threads[t])
    ensures var s' := Run(s, ttl, events);
            && |s'.threads| == |s.threads| && s'.threads[t].Idle? && s'.sh.epoch == s.sh.epoch
            && |s'.sh.log| == |s.sh.log| + 1 && s'.sh.log[|s.sh.log|].epoch == s.threads[t].epoch
            && s'.sh.from == |s.sh.log| && s'.sh.cache.bytes.Some? && s'.sh.cache.value.Some?
            && s'.sh.cache.lastBuilt == 0 && s'.sh.cache.revision == s.threads[t].ticket.revision
    decreases if s.threads[t].Building? then 2 else if s.threads[t].Built? then 1 else 0
  {
    var e := Next(t, 0, 0, None);
    RunOne(s, ttl, e);
    events := [e];
    if !s.threads[t].Counted? {
      var rest := FinishBuild(Apply(s, ttl, e), ttl, t);
      events := [e] + rest;
      RunAppend(s, ttl, [e], rest);
    }
  }

  /** A fetch of the cached revision at the time it was stored is answered from the cache. */
  lemma FetchHits(s: State, ttl: nat, t: nat) returns (events: seq<Event>)
    requires t < |s.threads| && s.threads[t].Idle? && ttl > 0
    requires s.sh.cache.bytes.Some? && s.sh.cache.value.Some? && s.sh.cache.lastBuilt == 0
    ensures var s' := Run(s, ttl, events);
            && s'.sh.log == s.sh.log && |s'.sh.served| == |s.sh.served| + 1
            && s'.sh.served[|s.sh.served|].ticket.asked == s.sh.epoch
            && s'.sh.served[|s.sh.served|].from == s.sh.from
  {
    var e1, e2 := Fetch(t, s.sh.cache.revision), Next(t, 0, 0, None);
    var s1 := Apply(s, ttl, e1);
    var s2 := Apply(s1, ttl, e2);
    events := [e1] + ([e2] + [e2]);
    RunOne(s, ttl, e1);
    RunOne(s1, ttl, e2);
    RunOne(s2, ttl, e2);
    RunAppend(s, ttl, [e1], [e2] + [e2]);
    RunAppend(s1, ttl, [e2], [e2]);
  }

  lemma BusyInvalidateFails(s: State, ttl: nat, stale: int, t: nat) returns (events: seq<Event>)
    requires Inv(s, ttl) && ttl > 0 && t < |s.threads| && InFlight(s.threads[t])
    ensures var s' := Apply(s, ttl, Invalidate(stale)); StaleAnswer(Run(s', ttl, events), s'.sh.epoch)
  {
    var s0 := Apply(s, ttl, Invalidate(stale));
    assert s.threads[t].epoch <= s.sh.epoch by { assert Local(s.sh, s.threads[t], ttl); }
    var first := FinishBuild(s0, ttl, t);
    var s1 := Run(s0, ttl, first);
    var second := FetchHits(s1, ttl, t);
    events := first + second;
    RunAppend(s0, ttl, first, second);
    var s2 := Run(s1, ttl, second);
    assert s2.sh.served[|s1.sh.served|].from == |s0.sh.log|;
    assert s2.sh.log[|s0.sh.log|].epoch < s0.sh.epoch;
  }

  /** With a zero `ttl` nothing is served from the cache. */
  lemma NeverCachedForces(s: State, stale: int, events: seq<Event>)
    requires Inv(s, 0)
    ensures var s' := Apply(s, 0, Invalidate(stale)); !StaleAnswer(Run(s', 0, events), s'.sh.epoch)
  {
    var s' := Apply(s, 0, Invalidate(stale));
    ApplyKeeps(s, 0, Invalidate(stale));
    RunKeeps(s', 0, events);
    var end := Run(s', 0, events);
    forall i | 0 <= i < |end.sh.served| ensures end.sh.served[i].hitAt.None? {
      assert GoodAnswer(end.sh.log, end.sh.served[i], 0);
    }
    assert forall i :: 0 <= i < |end.sh.served| ==> GoodAnswer(end.sh.log, end.sh.served[i], 0);
  }

  /** `invalidate` forces the fetches that follow to rebuild if and only if no build
      is in flight when it is called, or the cache never answers anyway. */
  lemma InvalidateForcesRebuild(n: nat, began: int, ttl: nat, events: seq<Event>, stale: int)
    ensures var s := Run(Init(n, began), ttl, events);
            ForcesRebuild(Apply(s, ttl, Invalidate(stale)), ttl) <==> !BuildInFlight(s.threads) || ttl == 0
  {
    var s := Run(Init(n, began), ttl, events);
    InitIsInv(n, began, ttl);
    RunKeeps(Init(n, began), ttl, events);
    RunTickets(Init(n, began), ttl, events, 0);
    if ttl == 0 {
      forall later ensures !StaleAnswer(Run(Apply(s, ttl, Invalidate(stale)), ttl, later), s.sh.epoch + 1) {
        NeverCachedForces(s, stale, later);
      }
    } else if BuildInFlight(s.threads) {
      var t :| 0 <= t < |s.threads| && InFlight(s.threads[t]);
      var later := BusyInvalidateFails(s, ttl, stale, t);
    } else {
      forall later ensures !StaleAnswer(Run(Apply(s, ttl, Invalidate(stale)), ttl, later), s.sh.epoch + 1) {
        QuietInvalidateForces(s, ttl, stale, later);
      }
    }
  }
}
