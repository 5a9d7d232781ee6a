/** Whole runs of the shared flow table: any number of threads, any interleaving. */
module NatTableRuns {
  import opened Bytes
  import opened Wrappers
  import opened NatTable

  datatype System = System(sh: Shared, threads: seq<Pc>)

  /** The keys locked by threads other than `t`. */
  function Busy(threads: seq<Pc>, t: nat): set<FlowKey> {
    set u | 0 <= u < |threads| && u != t && Holds(threads[u]).Some? :: Holds(threads[u]).value
  }

  function Apply(s: System, ttl: nat, t: nat, a: Action): System {
    if t < |s.threads| then
      var (sh', pc') := Step(s.sh, s.threads[t], Busy(s.threads, t), ttl, a);
      System(sh', s.threads[t := pc'])
    else s
  }

  datatype Event = Event(thread: nat, action: Action)

  function Run(s: System, ttl: nat, events: seq<Event>): System
    decreases events
  {
    if events == [] then s else Run(Apply(s, ttl, events[0].thread, events[0].action), ttl, events[1..])
  }

  function Init(n: nat): System {
    System(EMPTY, seq(n, _ => Idle))
  }

  predicate Free(s: System, k: FlowKey) {
    forall t :: 0 <= t < |s.threads| ==> Holds(s.threads[t]) != Some(k)
  }

  predicate Exclusive(s: System) {
    forall t, u :: 0 <= t < u < |s.threads| && Holds(s.threads[t]).Some? ==>
      Holds(s.threads[t]) != Holds(s.threads[u])
  }

  ghost predicate Inv(s: System, ttl: nat) {
    && Wf(s.sh) && Exclusive(s)
    && (forall t :: 0 <= t < |s.threads| ==> Local(s.sh, s.threads[t], ttl))
    && (forall k :: Free(s, k) ==> Clean(s.sh, k))
  }

  lemma InvIsReady(s: System, ttl: nat, t: nat)
    requires Inv(s, ttl) && t < |s.threads|
    ensures Ready(s.sh, s.threads[t], Busy(s.threads, t), ttl)
  {
    forall k | k !in Busy(s.threads, t) && Some(k) != Holds(s.threads[t]) ensures Clean(s.sh, k) {
      assert Free(s, k);
    }
  }

  lemma IssuedGrows(s: System, ttl: nat, events: seq<Event>)
    ensures s.sh.issued <= Run(s, ttl, events).sh.issued
    decreases events
  {
  }

  lemma OthersKeepLocal(s: System, ttl: nat, t: nat, a: Action, u: nat)
    requires Inv(s, ttl) && t < |s.threads| && u < |s.threads| && u != t
    requires Kept(s.sh, s.threads[t], Busy(s.threads, t), ttl, Apply(s, ttl, t, a).sh, Apply(s, ttl, t, a).threads[t])
    ensures Local(Apply(s, ttl, t, a).sh, s.threads[u], ttl)
  {
    FrameKeepsLocal(s.sh, Apply(s, ttl, t, a).sh, Holds(s.threads[t]), s.threads[u], ttl);
  }

  lemma ApplyKeeps(s: System, ttl: nat, t: nat, a: Action)
    requires Inv(s, ttl) && Apply(s, ttl, t, a).sh.issued <= U64
    ensures Inv(Apply(s, ttl, t, a), ttl)
  {
    if t < |s.threads| {
      var s' := Apply(s, ttl, t, a);
      InvIsReady(s, ttl, t);
      StepKeeps(s.sh, s.threads[t], Busy(s.threads, t), ttl, a);
      forall u | 0 <= u < |s.threads| ensures Local(s'.sh, s'.threads[u], ttl) {
        if u != t { OthersKeepLocal(s, ttl, t, a, u); }
      }
      StillExclusive(s, s', t);
      forall k | Free(s', k) ensures Clean(s'.sh, k) {
        FreeIsNotBusy(s, s', t, k);
      }
    }
  }

  lemma FreeIsNotBusy(s: System, s': System, t: nat, k: FlowKey)
    requires t < |s.threads| == |s'.threads| && s'.threads == s.threads[t := s'.threads[t]] && Free(s', k)
    ensures k !in Busy(s.threads, t)
  {
    forall u | 0 <= u < |s.threads| && u != t ensures Holds(s.threads[u]) != Some(k) {
      assert s'.threads[u] == s.threads[u];
    }
  }

  lemma StillExclusive(s: System, s': System, t: nat)
    requires Exclusive(s) && t < |s.threads| && |s'.threads| == |s.threads|
    requires s'.threads == s.threads[t := s'.threads[t]]
    requires Holds(s'.threads[t]).Some? ==> Holds(s'.threads[t]).value !in Busy(s.threads, t)
    ensures Exclusive(s')
  {
  }

  /** Every run keeps the invariant, as long as at most 2^64 ids were handed out. */
  lemma {:induction false} RunKeeps(s: System, ttl: nat, events: seq<Event>)
    requires Inv(s, ttl) && Run(s, ttl, events).sh.issued <= U64
    ensures Inv(Run(s, ttl, events), ttl)
    decreases events
  {
    if events != [] {
      var s' := Apply(s, ttl, events[0].thread, events[0].action);
      IssuedGrows(s', ttl, events[1..]);
      ApplyKeeps(s, ttl, events[0].thread, events[0].action);
      RunKeeps(s', ttl, events[1..]);
    }
  }

  lemma InitIsInv(n: nat, ttl: nat)
    ensures Inv(Init(n), ttl)
  {
  }

  // -------------------------------------------------------- what callers observe

  datatype Slot = Slot(id: nat, entry: Entry)

  /** The table as callers see it. */
  function View(sh: Shared): map<FlowKey, Slot> {
    map k | k in sh.index && sh.index[k] in sh.entries :: Slot(sh.index[k], sh.entries[sh.index[k]])
  }

  /** For every flow whose lock is free, index and entries are inverse. */
  lemma IndexIsInverse(n: nat, ttl: nat, events: seq<Event>, k: FlowKey, id: nat)
    requires Run(Init(n), ttl, events).sh.issued <= U64 && Free(Run(Init(n), ttl, events), k)
    ensures var sh := Run(Init(n), ttl, events).sh;
            (k in sh.index && sh.index[k] == id) <==> (id in sh.entries && sh.entries[id].key == k)
  {
    InitIsInv(n, ttl);
    RunKeeps(Init(n), ttl, events);
    assert Clean(Run(Init(n), ttl, events).sh, k);
  }

  /** The repairs of a dangling index and of an orphaned entry never have work: a
      thread that found its flow in the index finds the entry, and one that found
      the index empty finds no entry to remove. */
  lemma NothingToRepair(n: nat, ttl: nat, events: seq<Event>, t: nat)
    requires Run(Init(n), ttl, events).sh.issued <= U64 && t < |Run(Init(n), ttl, events).threads|
    ensures var s := Run(Init(n), ttl, events);
            match s.threads[t]
            case UpdateHeld(e, id) => id in s.sh.entries
            case TouchHeld(what) => what.id in s.sh.entries
            case LookupHeld(what) => what.id in s.sh.entries
            case RemoveHeld(what, false) => what.id !in s.sh.entries
            case PurgeDoomed(_, what, occupied, _) => occupied && what.key in s.sh.index && s.sh.index[what.key] == what.id
            case _ => true
  {
    InitIsInv(n, ttl);
    RunKeeps(Init(n), ttl, events);
    assert Local(Run(Init(n), ttl, events).sh, Run(Init(n), ttl, events).threads[t], ttl);
  }

  ghost predicate NoSlotOf(v: map<FlowKey, Slot>, id: nat) {
    forall k :: k in v ==> v[k].id != id
  }

  /** What one step of an `insert` does to the table as callers see it: it adds a flow
      under an id of its own or merges, at one step. */
  ghost predicate InsertShows(v: map<FlowKey, Slot>, pc: Pc, v': map<FlowKey, Slot>, pc': Pc) {
    match pc
    case InsertStored(e, id) =>
      && e.key !in v && NoSlotOf(v, id) && v' == v[e.key := Slot(id, e)] && pc' == Done(Id(id))
    case UpdateHeld(e, id) =>
      && e.key in v && v[e.key].id == id
      && v' == v[e.key := Slot(id, Merge(v[e.key].entry, e))] && pc' == Done(Id(id))
    case _ => v' == v
  }

  /** `touch` and `lookup_flow` refresh. */
  ghost predicate UseShows(v: map<FlowKey, Slot>, pc: Pc, v': map<FlowKey, Slot>, pc': Pc, now: int) {
    if !pc.TouchHeld? && !pc.LookupHeld? then v' == v
    else
      && pc.what.key in v && v[pc.what.key].id == pc.what.id
      && v' == v[pc.what.key := Slot(pc.what.id, Seen(v[pc.what.key].entry, now))]
      && (pc.LookupHeld? ==> pc' == Done(Found(Some(v'[pc.what.key].entry))))
  }

  /** `remove` drops the flow of its id, or finds that no flow has it. */
  ghost predicate RemoveShows(v: map<FlowKey, Slot>, pc: Pc, v': map<FlowKey, Slot>, pc': Pc) {
    match pc
    case RemoveHeld(what, _) =>
      if what.key in v && v[what.key].id == what.id then
        v' == v - {what.key} && pc' == RemoveUnlink(what, Some(v[what.key].entry))
      else
        v' == v && NoSlotOf(v, what.id) && (pc' == RemoveUnlink(what, None) || pc' == Done(Found(None)))
    case RemoveUnlink(_, gone) => v' == v && pc' == Done(Found(gone))
    case _ => v' == v
  }

  /** `purge` drops what is expired. */
  ghost predicate PurgeShows(v: map<FlowKey, Slot>, pc: Pc, v': map<FlowKey, Slot>, ttl: nat) {
    if !pc.PurgeDoomed? then v' == v
    else
      && pc.what.key in v && v[pc.what.key].id == pc.what.id && Expired(v[pc.what.key].entry, pc.now, ttl)
      && v' == v - {pc.what.key}
  }

  /** A call that is answered at once is answered by what is there. */
  ghost predicate CallShows(v: map<FlowKey, Slot>, op: Op, v': map<FlowKey, Slot>, pc': Pc) {
    && v' == v
    && (op.LookupFlow? && pc'.Done? ==> op.key !in v && pc' == Done(Found(None)))
    && (op.Remove? && pc'.Done? ==> NoSlotOf(v, op.id) && pc' == Done(Found(None)))
    && (op.Touch? && pc'.Done? ==> NoSlotOf(v, op.id))
  }

  /** What one step does to the table as callers see it. No other step shows. */
  ghost predicate Refines(sh: Shared, pc: Pc, sh': Shared, pc': Pc, ttl: nat, a: Action) {
    var v, v' := View(sh), View(sh');
    if !a.Next? then v' == v
    else if pc.Called? then CallShows(v, pc.op, v', pc')
    else if Inserting(pc) then InsertShows(v, pc, v', pc')
    else if Using(pc) then UseShows(v, pc, v', pc', a.now)
    else if Removing(pc) then RemoveShows(v, pc, v', pc')
    else if Sweeping(pc) then PurgeShows(v, pc, v', ttl)
    else v' == v
  }

  lemma StoreShows(sh: Shared, id: nat, e: Entry)
    requires Wf(sh) && Known(sh, Candidate(id, e.key))
    ensures e.key in sh.index && sh.index[e.key] == id ==>
              View(Stored(sh, id, e)) == View(sh)[e.key := Slot(id, e)]
    ensures e.key !in sh.index ==> View(Stored(sh, id, e)) == View(sh)
  {
  }

  lemma EraseShows(sh: Shared, what: Candidate)
    requires Wf(sh) && Known(sh, what)
    ensures View(Erased(sh, what.id)) ==
              if what.key in View(sh) && View(sh)[what.key].id == what.id then View(sh) - {what.key} else View(sh)
  {
  }

  lemma UnlinkShows(sh: Shared, what: Candidate)
    requires Unlinking(sh, what)
    ensures View(Unlinked(sh, what)) == View(sh)
  {
  }

  lemma PublishShows(sh: Shared, k: FlowKey, id: nat)
    requires Wf(sh) && id in sh.entries && k !in sh.index && sh.entries[id].key == k
    ensures View(sh.(index := sh.index[k := id])) == View(sh)[k := Slot(id, sh.entries[id])]
    ensures NoSlotOf(View(sh), id)
  {
  }

  lemma InsertRefines(sh: Shared, pc: Pc, ttl: nat)
    requires Wf(sh) && Inserting(pc) && Local(sh, pc, ttl)
    ensures InsertShows(View(sh), pc, View(InsertStep(sh, pc).0), InsertStep(sh, pc).1)
  {
    match pc
    case InsertHeld(e) =>
    case InsertNumbered(e, id) => StoreShows(sh, id, e);
    case InsertStored(e, id) => PublishShows(sh, e.key, id);
    case UpdateHeld(e, id) => StoreShows(sh, id, Merge(sh.entries[id], e));
  }

  lemma UseRefines(sh: Shared, pc: Pc, busy: set<FlowKey>, ttl: nat, now: int)
    requires Wf(sh) && Using(pc) && Local(sh, pc, ttl)
    ensures UseShows(View(sh), pc, View(UseStep(sh, pc, busy, now).0), UseStep(sh, pc, busy, now).1, now)
  {
    if !pc.TouchKnown? { StoreShows(sh, pc.what.id, Seen(sh.entries[pc.what.id], now)); }
  }

  /** An id that is not its owner's slot is nobody's. */
  lemma NobodyElse(sh: Shared, what: Candidate)
    requires Wf(sh) && Known(sh, what) && !(what.key in View(sh) && View(sh)[what.key].id == what.id)
    ensures NoSlotOf(View(sh), what.id)
  {
  }

  lemma NoEntryNoSlot(sh: Shared, id: nat)
    requires id !in sh.entries
    ensures NoSlotOf(View(sh), id)
  {
  }

  lemma EraseRefines(sh: Shared, pc: Pc, busy: set<FlowKey>, ttl: nat)
    requires Wf(sh) && pc.RemoveHeld? && Local(sh, pc, ttl)
    ensures RemoveShows(View(sh), pc, View(RemoveStep(sh, pc, busy).0), RemoveStep(sh, pc, busy).1)
  {
    EraseShows(sh, pc.what);
    if !(pc.what.key in View(sh) && View(sh)[pc.what.key].id == pc.what.id) { NobodyElse(sh, pc.what); }
  }

  lemma RemoveRefines(sh: Shared, pc: Pc, busy: set<FlowKey>, ttl: nat)
    requires Wf(sh) && Removing(pc) && Local(sh, pc, ttl)
    ensures RemoveShows(View(sh), pc, View(RemoveStep(sh, pc, busy).0), RemoveStep(sh, pc, busy).1)
  {
    match pc
    case RemoveKnown(_) =>
    case RemoveHeld(_, _) => EraseRefines(sh, pc, busy, ttl);
    case RemoveUnlink(what, _) => UnlinkShows(sh, what);
  }

  lemma PurgeRefines(sh: Shared, pc: Pc, busy: set<FlowKey>, ttl: nat)
    requires Wf(sh) && Sweeping(pc) && Local(sh, pc, ttl)
    ensures PurgeShows(View(sh), pc, View(PurgeStep(sh, pc, busy, ttl).0), ttl)
  {
    if pc.PurgeDoomed? { EraseShows(sh, pc.what); }
    if pc.PurgeUnlink? { UnlinkShows(sh, pc.what); }
  }

  lemma CallRefines(sh: Shared, op: Op, busy: set<FlowKey>, now: int)
    ensures CallShows(View(sh), op, View(Begin(sh, op, busy, now).0), Begin(sh, op, busy, now).1)
  {
    if (op.Remove? || op.Touch?) && op.id !in sh.entries { NoEntryNoSlot(sh, op.id); }
  }

  lemma GoRefines(sh: Shared, pc: Pc, busy: set<FlowKey>, ttl: nat, now: int)
    requires Wf(sh) && Local(sh, pc, ttl)
    ensures Refines(sh, pc, Go(sh, pc, busy, ttl, now).0, Go(sh, pc, busy, ttl, now).1, ttl, Next(now))
  {
    if pc.Called? { CallRefines(sh, pc.op, busy, now); }
    else if Inserting(pc) { InsertRefines(sh, pc, ttl); }
    else if Using(pc) { UseRefines(sh, pc, busy, ttl, now); }
    else if Removing(pc) { RemoveRefines(sh, pc, busy, ttl); }
    else if Sweeping(pc) { PurgeRefines(sh, pc, busy, ttl); }
  }

  /** Every call acts on the visible table in one atomic step, whatever the others do. */
  lemma StepRefines(s: System, ttl: nat, t: nat, a: Action)
    requires Inv(s, ttl) && t < |s.threads|
    ensures Refines(s.sh, s.threads[t], Apply(s, ttl, t, a).sh, Apply(s, ttl, t, a).threads[t], ttl, a)
  {
    if a.Next? { GoRefines(s.sh, s.threads[t], Busy(s.threads, t), ttl, a.now); }
  }

  /** An entry leaves the table only by a `remove` of its id, or by a purge for whose
      captured time it is expired: a refreshed entry is spared. */
  lemma OnlyExpiredArePurged(s: System, ttl: nat, t: nat, a: Action, k: FlowKey)
    requires Inv(s, ttl) && t < |s.threads|
    requires k in View(s.sh) && k !in View(Apply(s, ttl, t, a).sh)
    ensures var pc := s.threads[t];
            || (pc.RemoveHeld? && pc.what == Candidate(View(s.sh)[k].id, k))
            || (pc.PurgeDoomed? && pc.what == Candidate(View(s.sh)[k].id, k)
                && (ttl == 0 || pc.now - View(s.sh)[k].entry.lastSeen >= ttl))
  {
    StepRefines(s, ttl, t, a);
  }

  /** The flow is in the table after every step of the run. */
  predicate Stays(s: System, ttl: nat, events: seq<Event>, k: FlowKey)
    decreases events
  {
    && k in View(s.sh)
    && (events == [] || Stays(Apply(s, ttl, events[0].thread, events[0].action), ttl, events[1..], k))
  }

  lemma StepKeepsId(s: System, ttl: nat, t: nat, a: Action, k: FlowKey)
    requires Inv(s, ttl) && k in View(s.sh) && k in View(Apply(s, ttl, t, a).sh)
    ensures View(Apply(s, ttl, t, a).sh)[k].id == View(s.sh)[k].id
    ensures View(Apply(s, ttl, t, a).sh)[k].entry.createdAt <= View(s.sh)[k].entry.createdAt
    ensures View(s.sh)[k].entry.fakeHost.Some? ==> View(Apply(s, ttl, t, a).sh)[k].entry.fakeHost.Some?
  {
    if t < |s.threads| { StepRefines(s, ttl, t, a); }
  }

  /** A flow keeps its id until it is removed, its creation time never grows, and a
      host once known is not forgotten. */
  lemma {:induction false} FlowKeepsId(s: System, ttl: nat, events: seq<Event>, k: FlowKey)
    requires Inv(s, ttl) && Run(s, ttl, events).sh.issued <= U64 && Stays(s, ttl, events, k)
    ensures k in View(Run(s, ttl, events).sh)
    ensures View(Run(s, ttl, events).sh)[k].id == View(s.sh)[k].id
    ensures View(Run(s, ttl, events).sh)[k].entry.createdAt <= View(s.sh)[k].entry.createdAt
    ensures View(s.sh)[k].entry.fakeHost.Some? ==> View(Run(s, ttl, events).sh)[k].entry.fakeHost.Some?
    decreases events
  {
    if events != [] {
      var s' := Apply(s, ttl, events[0].thread, events[0].action);
      IssuedGrows(s', ttl, events[1..]);
      ApplyKeeps(s, ttl, events[0].thread, events[0].action);
      StepKeepsId(s, ttl, events[0].thread, events[0].action, k);
      FlowKeepsId(s', ttl, events[1..], k);
    }
  }

  // ------------------------------------------------------ when ids wrap around

  predicate Ready1(s: System) {
    |s.threads| == 1 && (s.threads[0].Idle? || s.threads[0].Done?)
  }

  lemma {:induction false} RunAppend(s: System, ttl: nat, xs: seq<Event>, ys: seq<Event>)
    ensures Run(s, ttl, xs + ys) == Run(Run(s, ttl, xs), ttl, ys)
    decreases xs
  {
    if xs == [] {
      assert xs + ys == ys;
    } else {
      assert (xs + ys)[1..] == xs[1..] + ys;
      RunAppend(Apply(s, ttl, xs[0].thread, xs[0].action), ttl, xs[1..], ys);
    }
  }

  lemma RunOne(s: System, ttl: nat, a: Action)
    ensures Run(s, ttl, [Event(0, a)]) == Apply(s, ttl, 0, a)
  {
    assert [Event(0, a)][1..] == [];
  }

  /** Several steps of the only thread. */
  function Alone(sh: Shared, pc: Pc, ttl: nat, n: nat): (Shared, Pc)
    decreases n
  {
    if n == 0 then (sh, pc) else var (sh', pc') := Go(sh, pc, {}, ttl, 0); Alone(sh', pc', ttl, n - 1)
  }

  lemma {:induction false} AloneRuns(s: System, ttl: nat, n: nat) returns (events: seq<Event>)
    requires |s.threads| == 1
    ensures var (sh, pc) := Alone(s.sh, s.threads[0], ttl, n); Run(s, ttl, events) == System(sh, [pc])
    decreases n
  {
    if n == 0 {
      events := [];
    } else {
      var s' := Apply(s, ttl, 0, Next(0));
      var (sh', pc') := Go(s.sh, s.threads[0], {}, ttl, 0);
      assert Busy(s.threads, 0) == {};
      assert s' == System(sh', [pc']);
      var rest := AloneRuns(s', ttl, n - 1);
      events := [Event(0, Next(0))] + rest;
      RunOne(s, ttl, Next(0));
      RunAppend(s, ttl, [Event(0, Next(0))], rest);
    }
  }

  lemma CallRuns(s: System, ttl: nat, op: Op, n: nat) returns (events: seq<Event>)
    requires Ready1(s)
    ensures var (sh, pc) := Alone(s.sh, Called(op), ttl, n); Run(s, ttl, events) == System(sh, [pc])
  {
    var s' := Apply(s, ttl, 0, Call(op));
    assert s' == System(s.sh, [Called(op)]);
    var rest := AloneRuns(s', ttl, n);
    events := [Event(0, Call(op))] + rest;
    RunOne(s, ttl, Call(op));
    RunAppend(s, ttl, [Event(0, Call(op))], rest);
  }

  lemma InsertAlone(sh: Shared, e: Entry, ttl: nat)
    requires e.key !in sh.index
    ensures var id := IdOf(sh.issued);
            Alone(sh, Called(Insert(e)), ttl, 4) ==
            (Shared(sh.entries[id := e], sh.index[e.key := id], sh.issued + 1, sh.owner[id := e.key]), Done(Id(id)))
  {
    var id := IdOf(sh.issued);
    var sh1 := sh.(issued := sh.issued + 1, owner := sh.owner[id := e.key]);
    var sh2 := Stored(sh1, id, e);
    var end := (sh2.(index := sh2.index[e.key := id]), Done(Id(id)));
    assert Alone(end.0, end.1, ttl, 0) == end;
    assert Alone(sh2, InsertStored(e, id), ttl, 1) == end;
    assert Alone(sh1, InsertNumbered(e, id), ttl, 2) == end;
    assert Alone(sh, InsertHeld(e), ttl, 3) == end;
  }

  lemma RemoveAlone(sh: Shared, id: nat, ttl: nat)
    requires id in sh.entries && sh.entries[id].key in sh.index && sh.index[sh.entries[id].key] == id
    ensures var (sh', pc') := Alone(sh, Called(Remove(id)), ttl, 4);
            sh' == sh.(entries := sh.entries - {id}, index := sh.index - {sh.entries[id].key}) && pc'.Done?
  {
    var e := sh.entries[id];
    var what := Candidate(id, e.key);
    var sh1 := Erased(sh, id);
    var end := (Unlinked(sh1, what), Done(Found(Some(e))));
    assert Alone(end.0, end.1, ttl, 0) == end;
    assert Alone(sh1, RemoveUnlink(what, Some(e)), ttl, 1) == end;
    assert Alone(sh, RemoveHeld(what, true), ttl, 2) == end;
    assert Alone(sh, RemoveKnown(what), ttl, 3) == end;
  }

  function FlowEntry(name: string): Entry {
    Entry(FlowKey(name, SocketAddr([], 0), SocketAddr([], 0)), None, 0, 0)
  }

  /** One long-lived flow with id 1, and `n` others that came and went. */
  predicate OneStays(s: System, n: nat) {
    && Ready1(s) && s.sh.issued == 1 + n
    && s.sh.entries == map[1 := FlowEntry("tcp")] && s.sh.index == map[FlowEntry("tcp").key := 1]
  }

  lemma {:induction false} OthersCome(n: nat, ttl: nat) returns (events: seq<Event>)
    requires n < U64
    ensures OneStays(Run(Init(1), ttl, events), n)
    decreases n
  {
    if n == 0 {
      events := CallRuns(Init(1), ttl, Insert(FlowEntry("tcp")), 4);
      InsertAlone(EMPTY, FlowEntry("tcp"), ttl);
    } else {
      var before := OthersCome(n - 1, ttl);
      var s := Run(Init(1), ttl, before);
      var id := IdOf(s.sh.issued);
      var e := FlowEntry("udp");
      assert id != 1;
      var first := CallRuns(s, ttl, Insert(e), 4);
      InsertAlone(s.sh, e, ttl);
      var s1 := Run(s, ttl, first);
      var second := CallRuns(s1, ttl, Remove(id), 4);
      RemoveAlone(s1.sh, id, ttl);
      events := before + (first + second);
      RunAppend(s, ttl, first, second);
      RunAppend(Init(1), ttl, before, first + second);
      assert s1.sh.entries - {id} == s.sh.entries;
      assert s1.sh.index - {e.key} == s.sh.index;
    }
  }

  /** The bound cannot be raised: with one id more, handed out while the first flow still
      lives, the index of that flow names the entry of another. */
  lemma WrappedIdCollides(ttl: nat) returns (events: seq<Event>)
    ensures var s := Run(Init(1), ttl, events);
            var k := FlowEntry("tcp").key;
            && s.sh.issued == U64 + 1 && Free(s, k)
            && k in s.sh.index && s.sh.index[k] in s.sh.entries && s.sh.entries[s.sh.index[k]].key != k
  {
    var before := OthersCome(U64 - 1, ttl);
    var s := Run(Init(1), ttl, before);
    var last := CallRuns(s, ttl, Insert(FlowEntry("udp")), 4);
    InsertAlone(s.sh, FlowEntry("udp"), ttl);
    events := before + last;
    RunAppend(Init(1), ttl, before, last);
  }
}
