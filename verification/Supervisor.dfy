/** The lifecycle protocol of the capture supervisor
    (crates/core-capture/src/supervisor.rs) as a transition system.

    Any number of `start` and `stop` callers interleave with rollbacks that outlive
    a cancelled caller. An action is one atomic step of one task: an atomic load,
    store or compare-exchange, taking or filling the resource slot, or the outcome
    of one awaited call, which may succeed or fail. A caller may be cancelled at
    every `await`.
 */
module Supervisor {
  import opened SupervisorResources
  import opened Wrappers

  datatype Lifecycle = Stopped | Starting | Running | Stopping | CleanupFailed

  predicate InTransition(l: Lifecycle) {
    l.Starting? || l.Stopping?
  }

  /** What the plan asks for: `mark == 0` requests no lease. */
  datatype Config = Config(listeners: nat, mark: nat, tun: bool, recovery: bool, proxy: bool)

  datatype Op = StartOp | StopOp

  /** The stages of `start_with_failpoint` after the claim; each waits for, or is
      about to make, the call it is named after. */
  datatype Stage =
    Listeners | Fwmark | Recovery | EngineStart | Proxy | AttachDispatcher | PostStart | Tasks | Commit

  /** What follows a teardown: try to start again, or return. */
  datatype Then = StartAgain | Return

  datatype Pc =
    | Enter(op: Op)
    | Check(op: Op, notified: bool)
    | Claim(op: Op, seen: Lifecycle, notified: bool)
    | Asleep(op: Op, notified: bool)
    | Build(stage: Stage, res: Resources)
    | TakeSlot(op: Op)
    | Clean(next: Then, detached: bool, step: nat, engineOk: bool, res: Resources)
    | FillSlot(res: Resources, target: Lifecycle)
    | Publish(target: Lifecycle, next: Then, left: Resources)
    | Notify(next: Then, left: Resources)
    | Discard(left: Resources)

  /** The shared state. `unhosted`: some transaction was dropped outside the async
      runtime. `leaked`: a bundle was dropped with its lease unreleased.
      `disturbed`: something else wrote the process-wide mark. */
  datatype Core = Core(
    lifecycle: Lifecycle, slot: Option<Resources>, world: World,
    unhosted: bool, leaked: bool, disturbed: bool)

  datatype State = State(core: Core, tasks: map<nat, Pc>)

  const INIT := State(Core(Stopped, None, World(false, false, 0), false, false, false), map[])

  datatype Action =
    | Call(t: nat, op: Op)
    | Advance(t: nat, ok: bool)
    | CloseListener(t: nat)
    | Cancel(t: nat, hosted: bool)
    | ForeignMark(mark: nat)

  // ------------------------------------------------------------ the steps

  /** The shared state after a step, and where its task goes, if it goes on. */
  datatype Move = Move(core: Core, pc: Option<Pc>)

  /** The loop of `begin_start` and `begin_stop`: register, load, compare-exchange. */
  function ClaimStep(k: Core, pc: Pc): Move
    requires pc.Enter? || pc.Check? || pc.Claim? || pc.Asleep?
  {
    match pc
    case Enter(op) => Move(k, Some(Check(op, false)))
    case Check(op, notified) =>
      if InTransition(k.lifecycle) then Move(k, Some(Asleep(op, notified)))
      else if (op.StartOp? && k.lifecycle.Running?) || (op.StopOp? && k.lifecycle.Stopped?) then Move(k, None)
      else Move(k, Some(Claim(op, k.lifecycle, notified)))
    case Claim(op, seen, notified) =>
      if k.lifecycle != seen then Move(k, Some(Enter(op)))
      else if seen.Stopped? then Move(k.(lifecycle := Starting), Some(Build(Listeners, DEFAULT)))
      else Move(k.(lifecycle := Stopping), Some(TakeSlot(op)))
    case Asleep(op, notified) => Move(k, Some(if notified then Enter(op) else pc))
  }

  /** Dropping a transaction before `mark_engine_started`: there is nothing on the
      platform to undo, so `Stopped` is published, waiters are notified, and only then
      what is left of the bundle is destroyed. Its lease is never released. */
  function DropEarly(k: Core, res: Resources): Move {
    Move(k.(leaked := k.leaked || res.lease.Lease?), Some(Publish(Stopped, Return, AbortSync(res))))
  }

  /** Dropping it later: a rollback that outlives the caller or, with no runtime to
      host it, the synchronous fallback. */
  function DropArmed(k: Core, res: Resources, hosted: bool): Move {
    if hosted then Move(k, Some(Clean(Return, true, 0, true, res)))
    else Move(k.(unhosted := true), Some(FillSlot(AbortSync(res), CleanupFailed)))
  }

  function Rollback(k: Core, res: Resources): Move {
    Move(k, Some(Clean(Return, false, 0, true, res)))
  }

  /** `start_with_failpoint` after the claim. */
  function BuildStep(c: Config, k: Core, stage: Stage, res: Resources, ok: bool): Move {
    match stage
    case Listeners =>
      if res.dns >= c.listeners then Move(k, Some(Build(Fwmark, res)))
      else if ok then Move(k, Some(Build(Listeners, res.(dns := res.dns + 1))))
      else DropEarly(k, res)
    case Fwmark =>
      var (w, installed, lease) := InstallMark(k.world, c.mark);
      if installed then Move(k.(world := w), Some(Build(Recovery, res.(lease := lease))))
      else DropEarly(k, res)
    case Recovery =>
      if c.recovery && !ok then DropEarly(k, res)
      else Move(k.(world := k.world.(rules := true)), Some(Build(EngineStart, res.(guard := c.recovery))))
    case EngineStart => if ok then Move(k, Some(Build(Proxy, res))) else Rollback(k, res)
    case Proxy => Move(k, Some(Build(AttachDispatcher, res.(proxy := c.proxy))))
    case AttachDispatcher =>
      if c.tun && !ok then Rollback(k, res)
      else Move(k.(world := k.world.(ingress := true)), Some(Build(PostStart, res.(dispatcher := c.tun))))
    case PostStart => if ok then Move(k, Some(Build(Tasks, res))) else Rollback(k, res)
    case Tasks =>
      var r := res.(event := true, purge := true, network := true);
      if ok then Move(k, Some(Build(Commit, r))) else Rollback(k, r)
    case Commit => Move(k, Some(FillSlot(res, Running)))
  }

  /** One step of `shutdown(engine, true)`, or what follows the last one. */
  function CleanStep(k: Core, pc: Pc, ok: bool): Move
    requires pc.Clean?
  {
    if pc.step < |CLEANUP_ORDER| then
      var e := RunStep(CLEANUP_ORDER[pc.step], true, ok, Teardown(k.world, pc.res, pc.engineOk, false));
      Move(k.(world := e.world),
           Some(if e.aborted then FillSlot(e.res, CleanupFailed)
                else Clean(pc.next, pc.detached, pc.step + 1, e.engineOk, e.res)))
    else
      Move(k,
           Some(if !pc.engineOk then FillSlot(pc.res, CleanupFailed)
                else if pc.res.guard && !ok then FillSlot(pc.res.(guard := false), CleanupFailed)
                else Publish(Stopped, pc.next, DEFAULT)))
  }

  /** The step of a task on the shared state. */
  function TaskStep(c: Config, k: Core, pc: Pc, ok: bool): Move {
    match pc
    case Build(stage, res) => BuildStep(c, k, stage, res, ok)
    case TakeSlot(op) =>
      Move(k.(slot := None),
           Some(Clean(if op.StartOp? then StartAgain else Return, false, 0, true,
                      if k.slot.Some? then k.slot.value else DEFAULT)))
    case Clean(_, _, _, _, _) => CleanStep(k, pc, ok)
    case FillSlot(res, target) => Move(k.(slot := Some(res)), Some(Publish(target, Return, DEFAULT)))
    case Publish(target, next, left) => Move(k.(lifecycle := target), Some(Notify(next, left)))
    case Notify(_, _) => Move(k, None)
    case Discard(_) => Move(k, None)
    case Enter(_) => ClaimStep(k, pc)
    case Check(_, _) => ClaimStep(k, pc)
    case Claim(_, _, _) => ClaimStep(k, pc)
    case Asleep(_, _) => ClaimStep(k, pc)
  }

  /** Dropping the caller's future at an `await`; elsewhere there is no such point. */
  function CancelStep(c: Config, k: Core, pc: Pc, hosted: bool): Move {
    match pc
    case Asleep(_, _) => Move(k, None)
    case Build(stage, res) =>
      if stage.Listeners? && res.dns < c.listeners then DropEarly(k, res)
      else if stage.EngineStart? || (stage.AttachDispatcher? && c.tun) || stage.PostStart?
      then DropArmed(k, res, hosted)
      else Move(k, Some(pc))
    case Clean(_, detached, _, _, res) => if detached then Move(k, Some(pc)) else DropArmed(k, res, hosted)
    case _ => Move(k, Some(pc))
  }

  /** Listeners are closed one at a time, with a cancellation point after each. */
  function CloseStep(k: Core, pc: Pc): Move {
    Move(k,
         Some(if pc.Clean? && pc.step == 8 && pc.engineOk && pc.res.dns > 0
              then Clean(pc.next, pc.detached, 8, true, pc.res.(dns := pc.res.dns - 1))
              else pc))
  }

  function After(s: State, t: nat, m: Move): State {
    State(m.core, if m.pc.Some? then s.tasks[t := m.pc.value] else s.tasks - {t})
  }

  /** `notify_waiters` reaches the waiters registered now. */
  function Wake(pc: Pc): Pc {
    match pc
    case Check(op, _) => Check(op, true)
    case Claim(op, seen, _) => Claim(op, seen, true)
    case Asleep(op, _) => Asleep(op, true)
    case _ => pc
  }

  function NotifyStep(s: State, t: nat, next: Then, left: Resources): State {
    var woken := map u | u in s.tasks :: Wake(s.tasks[u]);
    State(s.core,
          if next.StartAgain? then woken[t := Enter(StartOp)]
          else if left != DEFAULT then woken[t := Discard(left)]
          else woken - {t})
  }

  function Apply(c: Config, s: State, a: Action): State {
    match a
    case Call(t, op) => if t in s.tasks then s else State(s.core, s.tasks[t := Enter(op)])
    case Advance(t, ok) =>
      if t !in s.tasks then s
      else if s.tasks[t].Notify? then NotifyStep(s, t, s.tasks[t].next, s.tasks[t].left)
      else After(s, t, TaskStep(c, s.core, s.tasks[t], ok))
    case CloseListener(t) => if t in s.tasks then After(s, t, CloseStep(s.core, s.tasks[t])) else s
    case Cancel(t, hosted) => if t in s.tasks then After(s, t, CancelStep(c, s.core, s.tasks[t], hosted)) else s
    case ForeignMark(mark) => s.(core := s.core.(world := s.core.world.(mark := mark), disturbed := true))
  }

  /** The state after a run from a fresh supervisor. */
  function Run(c: Config, actions: seq<Action>): State {
    if actions == [] then INIT
    else Apply(c, Run(c, actions[..|actions| - 1]), actions[|actions| - 1])
  }

  // ------------------------------------------------------- the invariant

  /** From winning a compare-exchange until the next lifecycle is stored. */
  predicate Active(pc: Pc) {
    pc.Build? || pc.TakeSlot? || pc.Clean? || pc.FillSlot? || pc.Publish?
  }

  /** The lease, when one was requested, and every listener. */
  predicate Held(c: Config, r: Resources) {
    (c.mark != 0 ==> r.lease == Lease(0, c.mark)) && r.dns == c.listeners
  }

  /** Undisturbed, the process-wide mark is set exactly while a lease accounts for it. */
  predicate MarkOk(c: Config, k: Core, leased: bool) {
    !k.disturbed ==>
      && k.world.mark == (if leased || k.leaked then c.mark else 0)
      && !(k.leaked && leased)
  }

  /** What a bundle guarantees as long as platform state may exist. */
  predicate BundleOk(c: Config, k: Core, r: Resources) {
    && (k.world.rules ==> Held(c, r))
    && (k.world.ingress ==> k.world.rules)
    && (c.tun && k.world.ingress && !k.unhosted ==> r.dispatcher)
    && (r.lease.Lease? ==> c.mark != 0 && r.lease == Lease(0, c.mark))
    && (k.leaked ==> c.mark != 0)
    && MarkOk(c, k, r.lease.Lease?)
  }

  /** Nothing is left on the platform. */
  predicate Quiet(c: Config, k: Core) {
    !k.world.rules && !k.world.ingress && (k.leaked ==> c.mark != 0) && MarkOk(c, k, false)
  }

  predicate BuildOk(c: Config, k: Core, stage: Stage, r: Resources) {
    var early := stage.Listeners? || stage.Fwmark? || stage.Recovery?;
    && k.slot.None? && BundleOk(c, k, r)
    && r.dns <= c.listeners && (stage.Listeners? || r.dns == c.listeners)
    && (stage.Listeners? || stage.Fwmark? ==> r.lease.NoLease?)
    && (early ==> r == DEFAULT.(dns := r.dns, lease := r.lease))
    && (stage.Listeners? || stage.Fwmark? || Held(c, r))
    && (k.world.rules <==> !early)
    && (k.world.ingress <==> stage.PostStart? || stage.Tasks? || stage.Commit?)
    && (k.world.ingress ==> r.dispatcher == c.tun)
    && (k.world.rules ==> r.guard == c.recovery)
    && (k.world.ingress || stage.AttachDispatcher? ==> r.proxy == c.proxy)
    && (stage.Commit? ==> r.event && r.purge && r.network)
  }

  predicate CleanOk(c: Config, k: Core, step: nat, engineOk: bool, r: Resources) {
    && k.slot.None? && BundleOk(c, k, r)
    && step <= |CLEANUP_ORDER|
    && (step > 3 ==> !k.world.ingress)
    && (step <= 6 ==> engineOk)
    && (step > 6 && engineOk ==> !k.world.rules)
    && (step > 7 && engineOk ==> r.lease.NoLease?)
    && (step > 8 && engineOk ==> r.dns == 0)
    && Emptied(step, r)
  }

  /** What the first steps of a teardown release whatever the engine answers. */
  predicate Emptied(step: nat, r: Resources) {
    && (step > 0 ==> !r.network) && (step > 1 ==> !r.purge) && (step > 2 ==> !r.event)
    && (step > 4 ==> !r.dispatcher) && (step > 5 ==> !r.proxy)
  }

  /** A bundle that `Running` may be published for. */
  predicate FullyAttached(c: Config, k: Core, r: Resources) {
    k.world.rules && k.world.ingress && r == Complete(c)
  }

  /** All that a start of the plan acquires. */
  function Complete(c: Config): Resources {
    Resources(true, true, true, c.tun, c.proxy, if c.mark == 0 then NoLease else Lease(0, c.mark),
              c.listeners, c.recovery)
  }

  /** What each stable lifecycle means. */
  predicate Settled(c: Config, k: Core, l: Lifecycle) {
    match l
    case Stopped => k.slot.None? && Quiet(c, k)
    case Running => k.slot.Some? && BundleOk(c, k, k.slot.value) && FullyAttached(c, k, k.slot.value)
    case CleanupFailed => k.slot.Some? && BundleOk(c, k, k.slot.value) && Emptied(3, k.slot.value)
    case _ => true
  }

  predicate ActiveOk(c: Config, k: Core, pc: Pc) {
    && InTransition(k.lifecycle)
    && match pc
       case Build(stage, res) => BuildOk(c, k, stage, res)
       case TakeSlot(_) => k.slot.Some? && BundleOk(c, k, k.slot.value)
       case Clean(_, _, step, engineOk, res) => CleanOk(c, k, step, engineOk, res)
       case FillSlot(res, target) =>
         && k.slot.None? && BundleOk(c, k, res)
         && ((target.CleanupFailed? && Emptied(3, res)) || (target.Running? && FullyAttached(c, k, res)))
       case Publish(target, _, _) => !InTransition(target) && Settled(c, k, target)
       case _ => false
  }

  /** What a task that no longer counts as the owner still holds. */
  function Left(pc: Pc): Resources {
    match pc
    case Publish(_, _, left) => left
    case Notify(_, left) => left
    case Discard(left) => left
    case _ => DEFAULT
  }

  /** That is listeners, and a lease that is leaked; and only on the way out. */
  predicate LeftOk(c: Config, leaked: bool, pc: Pc) {
    var left := Left(pc);
    && left == DEFAULT.(dns := left.dns, lease := left.lease)
    && left.dns <= c.listeners && (left.lease.Lease? ==> leaked)
    && (left.dns > 0 && left.dns == c.listeners ==> c.mark != 0 || c.recovery)
    && (left != DEFAULT ==> pc.Discard? || pc.next.Return?)
    && (pc.Publish? && !pc.target.Stopped? ==> left == DEFAULT)
  }

  /** A step of an active task that stays active. */
  predicate Keeps(c: Config, k: Core, m: Move) {
    && m.core.lifecycle == k.lifecycle && m.pc.Some? && Active(m.pc.value) && ActiveOk(c, m.core, m.pc.value)
    && (k.leaked ==> m.core.leaked) && LeftOk(c, m.core.leaked, m.pc.value)
  }

  lemma EarlyBuildKeeps(c: Config, k: Core, stage: Stage, res: Resources, ok: bool)
    requires InTransition(k.lifecycle) && BuildOk(c, k, stage, res)
    requires stage.Listeners? || stage.Fwmark? || stage.Recovery?
    ensures Keeps(c, k, BuildStep(c, k, stage, res, ok))
  {
  }

  lemma EngineBuildKeeps(c: Config, k: Core, stage: Stage, res: Resources, ok: bool)
    requires InTransition(k.lifecycle) && BuildOk(c, k, stage, res)
    requires stage.EngineStart? || stage.Proxy? || stage.AttachDispatcher?
    ensures Keeps(c, k, BuildStep(c, k, stage, res, ok))
  {
  }

  lemma LateBuildKeeps(c: Config, k: Core, stage: Stage, res: Resources, ok: bool)
    requires InTransition(k.lifecycle) && BuildOk(c, k, stage, res)
    requires stage.PostStart? || stage.Tasks? || stage.Commit?
    ensures Keeps(c, k, BuildStep(c, k, stage, res, ok))
  {
  }

  /** Every stage of a start, succeeding or failing. */
  lemma BuildKeeps(c: Config, k: Core, stage: Stage, res: Resources, ok: bool)
    requires InTransition(k.lifecycle) && BuildOk(c, k, stage, res)
    ensures Keeps(c, k, BuildStep(c, k, stage, res, ok))
  {
    if stage.Listeners? || stage.Fwmark? || stage.Recovery? {
      EarlyBuildKeeps(c, k, stage, res, ok);
    } else if stage.EngineStart? || stage.Proxy? || stage.AttachDispatcher? {
      EngineBuildKeeps(c, k, stage, res, ok);
    } else {
      LateBuildKeeps(c, k, stage, res, ok);
    }
  }

  lemma CleanKeeps(c: Config, k: Core, pc: Pc, ok: bool)
    requires InTransition(k.lifecycle) && pc.Clean? && CleanOk(c, k, pc.step, pc.engineOk, pc.res)
    ensures Keeps(c, k, CleanStep(k, pc, ok))
  {
    if pc.step < |CLEANUP_ORDER| {
      RunStepKeeps(c, k, pc.step, CLEANUP_ORDER[pc.step], pc.engineOk, pc.res, ok);
    }
  }

  lemma RunStepKeeps(c: Config, k: Core, n: nat, step: CleanupStep, engineOk: bool, r: Resources, ok: bool)
    requires n < |CLEANUP_ORDER| && step == CLEANUP_ORDER[n] && CleanOk(c, k, n, engineOk, r)
    ensures var e := RunStep(step, true, ok, Teardown(k.world, r, engineOk, false));
            var k' := k.(world := e.world);
            if e.aborted then BundleOk(c, k', e.res) && Emptied(3, e.res) else CleanOk(c, k', n + 1, e.engineOk, e.res)
  {
    match step
    case NetworkListener => assert n == 0;
    case PurgeTask => assert n == 1;
    case EventTask => assert n == 2;
    case EngineIngress => assert n == 3;
    case Dispatcher => assert n == 4;
    case SystemProxy => assert n == 5;
    case Engine => assert n == 6;
    case OutboundFwmark => assert n == 7;
    case DnsListener => assert n == 8;
  }

  predicate IsActive(s: State, t: nat) {
    t in s.tasks && Active(s.tasks[t])
  }

  predicate NotifyPending(s: State) {
    exists u :: u in s.tasks && s.tasks[u].Notify?
  }

  predicate Unnotified(s: State, t: nat) {
    t in s.tasks && s.tasks[t].Asleep? && !s.tasks[t].notified
  }

  /** A sleeper that has not been notified is still waiting for a transition to end,
      or for a notification about to be sent. */
  ghost predicate NoLostWakeup(s: State) {
    (exists t :: Unnotified(s, t)) ==> InTransition(s.core.lifecycle) || NotifyPending(s)
  }

  ghost predicate Inv(c: Config, s: State) {
    && (forall t, u :: IsActive(s, t) && IsActive(s, u) ==> t == u)
    && (InTransition(s.core.lifecycle) ==> exists t :: IsActive(s, t))
    && (forall t :: IsActive(s, t) ==> ActiveOk(c, s.core, s.tasks[t]))
    && (forall t :: t in s.tasks ==> LeftOk(c, s.core.leaked, s.tasks[t]))
    && Settled(c, s.core, s.core.lifecycle)
    && (forall t :: t in s.tasks && s.tasks[t].Claim? ==> !InTransition(s.tasks[t].seen))
    && NoLostWakeup(s)
  }

  /** The active task goes on, still active. */
  lemma ActiveGoesOn(c: Config, s: State, t: nat, m: Move)
    requires Inv(c, s) && IsActive(s, t) && Keeps(c, s.core, m)
    ensures Inv(c, After(s, t, m))
  {
    var s' := After(s, t, m);
    assert IsActive(s', t) && InTransition(s.core.lifecycle);
    assert forall u :: u != t ==> (IsActive(s', u) <==> IsActive(s, u));
  }

  /** The active task publishes a stable lifecycle and still has to notify. */
  lemma ActivePublishes(c: Config, s: State, t: nat)
    requires Inv(c, s) && t in s.tasks && s.tasks[t].Publish?
    ensures Inv(c, After(s, t, TaskStep(c, s.core, s.tasks[t], true)))
  {
    var s' := After(s, t, TaskStep(c, s.core, s.tasks[t], true));
    assert IsActive(s, t) && s'.tasks[t].Notify?;
    assert forall u :: IsActive(s', u) ==> IsActive(s, u) && u != t;
  }

  /** A waiting task moves without touching the shared state. */
  lemma WaiterMoves(c: Config, s: State, s': State, t: nat)
    requires Inv(c, s) && s'.core == s.core && !IsActive(s, t)
    requires t in s.tasks ==> !s.tasks[t].Notify?
    requires s'.tasks == s.tasks - {t} || (t in s'.tasks && s'.tasks == s.tasks[t := s'.tasks[t]] && !Active(s'.tasks[t]))
    requires t in s'.tasks && s'.tasks[t].Claim? ==> !InTransition(s'.tasks[t].seen)
    requires Unnotified(s', t) ==> Unnotified(s, t) || InTransition(s.core.lifecycle)
    requires t in s'.tasks ==> LeftOk(c, s.core.leaked, s'.tasks[t])
    ensures Inv(c, s')
  {
    assert forall u :: u != t ==> (u in s'.tasks <==> u in s.tasks);
    assert forall u :: IsActive(s', u) <==> IsActive(s, u);
    assert forall u :: u != t ==> (Unnotified(s', u) <==> Unnotified(s, u));
    if NotifyPending(s) {
      var u :| u in s.tasks && s.tasks[u].Notify?;
      assert u in s'.tasks && s'.tasks[u].Notify?;
    }
  }

  /** A compare-exchange claims the transition. */
  lemma WaiterClaims(c: Config, s: State, t: nat, m: Move)
    requires Inv(c, s) && !InTransition(s.core.lifecycle) && !IsActive(s, t)
    requires InTransition(m.core.lifecycle) && m.pc.Some? && Active(m.pc.value) && ActiveOk(c, m.core, m.pc.value)
    requires m.core.leaked == s.core.leaked && LeftOk(c, m.core.leaked, m.pc.value)
    ensures Inv(c, After(s, t, m))
  {
    var s' := After(s, t, m);
    assert forall u :: !IsActive(s, u);
    assert IsActive(s', t);
    assert forall u :: IsActive(s', u) ==> u == t;
  }

  lemma WakeKeeps(c: Config, leaked: bool, pc: Pc)
    ensures Active(Wake(pc)) == Active(pc) && (Active(pc) ==> Wake(pc) == pc)
    ensures LeftOk(c, leaked, pc) ==> LeftOk(c, leaked, Wake(pc))
    ensures Wake(pc).Claim? ==> pc.Claim? && Wake(pc).seen == pc.seen
    ensures Wake(pc).Asleep? ==> Wake(pc).notified
  {
  }

  /** The tasks after a notification. */
  lemma Notified(c: Config, s: State, t: nat, u: nat)
    requires t in s.tasks && s.tasks[t].Notify? && LeftOk(c, s.core.leaked, s.tasks[t])
    ensures var s' := NotifyStep(s, t, s.tasks[t].next, s.tasks[t].left);
            && (u != t ==> (u in s'.tasks <==> u in s.tasks) && (u in s.tasks ==> s'.tasks[u] == Wake(s.tasks[u])))
            && (t in s'.tasks ==> !Active(s'.tasks[t]) && !s'.tasks[t].Claim? && !s'.tasks[t].Asleep?
                                  && LeftOk(c, s.core.leaked, s'.tasks[t]))
  {
  }

  lemma NotifyKeeps(c: Config, s: State, t: nat)
    requires Inv(c, s) && t in s.tasks && s.tasks[t].Notify?
    ensures Inv(c, NotifyStep(s, t, s.tasks[t].next, s.tasks[t].left))
  {
    var s' := NotifyStep(s, t, s.tasks[t].next, s.tasks[t].left);
    forall u
      ensures (IsActive(s', u) <==> IsActive(s, u)) && !Unnotified(s', u)
      ensures IsActive(s', u) ==> s'.tasks[u] == s.tasks[u]
      ensures u in s'.tasks ==> LeftOk(c, s.core.leaked, s'.tasks[u])
      ensures u in s'.tasks && s'.tasks[u].Claim? ==> !InTransition(s'.tasks[u].seen)
    {
      Notified(c, s, t, u);
      if u in s.tasks { WakeKeeps(c, s.core.leaked, s.tasks[u]); }
    }
  }

  lemma SlotKeeps(c: Config, k: Core, pc: Pc, ok: bool)
    requires (pc.TakeSlot? || pc.FillSlot?) && ActiveOk(c, k, pc)
    ensures Keeps(c, k, TaskStep(c, k, pc, ok))
  {
  }

  lemma ActiveTaskKeeps(c: Config, s: State, t: nat, ok: bool)
    requires Inv(c, s) && IsActive(s, t)
    ensures Inv(c, After(s, t, TaskStep(c, s.core, s.tasks[t], ok)))
  {
    var pc := s.tasks[t];
    var m := TaskStep(c, s.core, pc, ok);
    if pc.Publish? {
      ActivePublishes(c, s, t);
    } else {
      assert ActiveOk(c, s.core, pc);
      assert Keeps(c, s.core, m) by {
        if pc.Build? {
          BuildKeeps(c, s.core, pc.stage, pc.res, ok);
        } else if pc.Clean? {
          CleanKeeps(c, s.core, pc, ok);
        } else {
          SlotKeeps(c, s.core, pc, ok);
        }
      }
      ActiveGoesOn(c, s, t, m);
    }
  }

  lemma WaiterKeeps(c: Config, s: State, t: nat, ok: bool)
    requires Inv(c, s) && t in s.tasks && !IsActive(s, t) && !s.tasks[t].Notify?
    ensures Inv(c, After(s, t, TaskStep(c, s.core, s.tasks[t], ok)))
  {
    var pc := s.tasks[t];
    var m := TaskStep(c, s.core, pc, ok);
    if pc.Claim? && s.core.lifecycle == pc.seen {
      WaiterClaims(c, s, t, m);
    } else {
      WaiterMoves(c, s, After(s, t, m), t);
    }
  }

  /** Dropping the active task's caller at an await. */
  lemma DropKeeps(c: Config, k: Core, pc: Pc, hosted: bool)
    requires Active(pc) && ActiveOk(c, k, pc) && LeftOk(c, k.leaked, pc)
    ensures Keeps(c, k, CancelStep(c, k, pc, hosted))
  {
  }

  lemma CancelKeeps(c: Config, s: State, t: nat, hosted: bool)
    requires Inv(c, s) && t in s.tasks
    ensures Inv(c, After(s, t, CancelStep(c, s.core, s.tasks[t], hosted)))
  {
    var pc := s.tasks[t];
    var m := CancelStep(c, s.core, pc, hosted);
    if IsActive(s, t) {
      DropKeeps(c, s.core, pc, hosted);
      ActiveGoesOn(c, s, t, m);
    } else if pc.Asleep? {
      WaiterMoves(c, s, After(s, t, m), t);
    } else {
      assert After(s, t, m) == s;
    }
  }

  lemma CloseKeeps(c: Config, s: State, t: nat)
    requires Inv(c, s) && t in s.tasks
    ensures Inv(c, After(s, t, CloseStep(s.core, s.tasks[t])))
  {
    var m := CloseStep(s.core, s.tasks[t]);
    if m.pc.value == s.tasks[t] {
      assert After(s, t, m) == s;
    } else {
      assert IsActive(s, t);
      ActiveGoesOn(c, s, t, m);
    }
  }

  /** Whoever else writes the mark, only what is said about the mark changes. */
  function Overwritten(k: Core, mark: nat): Core {
    k.(world := k.world.(mark := mark), disturbed := true)
  }

  lemma OverwriteKeeps(c: Config, k: Core, pc: Pc, l: Lifecycle, mark: nat)
    ensures ActiveOk(c, k, pc) ==> ActiveOk(c, Overwritten(k, mark), pc)
    ensures Settled(c, k, l) ==> Settled(c, Overwritten(k, mark), l)
  {
  }

  lemma ForeignKeeps(c: Config, s: State, mark: nat)
    requires Inv(c, s)
    ensures Inv(c, Apply(c, s, ForeignMark(mark)))
  {
    var s' := Apply(c, s, ForeignMark(mark));
    assert s' == State(Overwritten(s.core, mark), s.tasks);
    OverwriteKeeps(c, s.core, Enter(StartOp), s.core.lifecycle, mark);
    forall t ensures IsActive(s', t) <==> IsActive(s, t) ensures IsActive(s', t) ==> ActiveOk(c, s'.core, s'.tasks[t]) {
      if t in s.tasks { OverwriteKeeps(c, s.core, s.tasks[t], Stopped, mark); }
    }
    assert forall t :: Unnotified(s', t) <==> Unnotified(s, t);
    assert NotifyPending(s) ==> NotifyPending(s');
  }

  /** Every action keeps the invariant. */
  lemma ApplyKeeps(c: Config, s: State, a: Action)
    requires Inv(c, s)
    ensures Inv(c, Apply(c, s, a))
  {
    match a
    case Call(t, op) => if t !in s.tasks { WaiterMoves(c, s, Apply(c, s, a), t); }
    case Advance(t, ok) =>
      if t in s.tasks {
        if s.tasks[t].Notify? {
          NotifyKeeps(c, s, t);
        } else if IsActive(s, t) {
          ActiveTaskKeeps(c, s, t, ok);
        } else {
          WaiterKeeps(c, s, t, ok);
        }
      }
    case CloseListener(t) => if t in s.tasks { CloseKeeps(c, s, t); }
    case Cancel(t, hosted) => if t in s.tasks { CancelKeeps(c, s, t, hosted); }
    case ForeignMark(mark) => ForeignKeeps(c, s, mark);
  }

  /** Every state of every run satisfies the invariant. */
  lemma {:induction false} RunKeeps(c: Config, actions: seq<Action>)
    ensures Inv(c, Run(c, actions))
  {
    if actions != [] {
      RunKeeps(c, actions[..|actions| - 1]);
      ApplyKeeps(c, Run(c, actions[..|actions| - 1]), actions[|actions| - 1]);
    }
  }
}
