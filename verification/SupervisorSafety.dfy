/** What the lifecycle protocol guarantees in every run, and where it does not. */
module SupervisorSafety {
  import opened SupervisorResources
  import opened Supervisor
  import opened Wrappers

  /** The task has the resource bundle in its hands. */
  predicate Carries(s: State, t: nat) {
    t in s.tasks && (s.tasks[t].Build? || s.tasks[t].Clean? || s.tasks[t].FillSlot?)
  }

  function Carried(s: State, t: nat): Resources
    requires Carries(s, t)
  {
    s.tasks[t].res
  }

  /** The one bundle, wherever it is, satisfies `p`. */
  ghost predicate SomeBundle(s: State, p: Resources -> bool) {
    (s.core.slot.Some? && p(s.core.slot.value)) || (exists t :: Carries(s, t) && p(Carried(s, t)))
  }

  lemma FindBundle(c: Config, s: State)
    requires Inv(c, s) && s.core.world.rules
    ensures SomeBundle(s, r => BundleOk(c, s.core, r))
  {
    if InTransition(s.core.lifecycle) {
      var t :| IsActive(s, t);
      assert ActiveOk(c, s.core, s.tasks[t]);
      if Carries(s, t) { assert BundleOk(c, s.core, Carried(s, t)); }
    }
  }

  /** While platform rules may be installed, the lease and the listeners are held. */
  lemma RulesImplyHeld(c: Config, actions: seq<Action>)
    ensures var s := Run(c, actions);
            s.core.world.rules ==> SomeBundle(s, r => Held(c, r))
  {
    var s := Run(c, actions);
    RunKeeps(c, actions);
    if s.core.world.rules { FindBundle(c, s); }
  }

  /** While ingress may be active, a TUN dispatcher is attached, provided that no
      transaction was dropped outside the async runtime. */
  lemma IngressImpliesDispatcher(c: Config, actions: seq<Action>)
    requires c.tun
    requires forall t :: Cancel(t, false) !in actions
    ensures var s := Run(c, actions);
            s.core.world.ingress ==> SomeBundle(s, (r: Resources) => r.dispatcher)
  {
    var s := Run(c, actions);
    RunKeeps(c, actions);
    AlwaysHosted(c, actions);
    if s.core.world.ingress {
      IngressImpliesRules(c, s);
      FindBundle(c, s);
    }
  }

  lemma IngressImpliesRules(c: Config, s: State)
    requires Inv(c, s) && s.core.world.ingress
    ensures s.core.world.rules
  {
    if InTransition(s.core.lifecycle) {
      var t :| IsActive(s, t);
      assert ActiveOk(c, s.core, s.tasks[t]);
    }
  }

  lemma {:induction false} AlwaysHosted(c: Config, actions: seq<Action>)
    requires forall t :: Cancel(t, false) !in actions
    ensures !Run(c, actions).core.unhosted
  {
    if actions != [] {
      var before, a := actions[..|actions| - 1], actions[|actions| - 1];
      AlwaysHosted(c, before);
      assert a in actions;
      HostedStep(c, Run(c, before), a);
    }
  }

  lemma HostedStep(c: Config, s: State, a: Action)
    requires !s.core.unhosted && (a.Cancel? ==> a.hosted)
    ensures !Apply(c, s, a).core.unhosted
  {
  }

  /** The task is a start that failed before it touched the platform, and has not yet
      destroyed what it had. */
  predicate Leaves(s: State, t: nat) {
    t in s.tasks && Left(s.tasks[t]) != DEFAULT
  }

  /** Listeners only, and a lease only if it is leaked. */
  predicate ListenersOnly(c: Config, leaked: bool, r: Resources) {
    r == DEFAULT.(dns := r.dns, lease := r.lease) && r.dns <= c.listeners && (r.lease.Lease? ==> leaked)
  }

  /** The bundle has one owner: at most one task carries it, never while the slot is
      filled; the slot is empty whenever it is about to be filled (both assertions
      of the source) and filled whenever it is about to be taken. What a failed start
      still has to destroy is listeners only. */
  lemma SingleOwner(c: Config, actions: seq<Action>)
    ensures var s := Run(c, actions);
            && (forall t, u :: Carries(s, t) && Carries(s, u) ==> t == u)
            && (forall t :: Carries(s, t) ==> s.core.slot.None? && !Leaves(s, t))
            && (forall t :: t in s.tasks && s.tasks[t].TakeSlot? ==> s.core.slot.Some?)
            && (s.core.lifecycle.Running? || s.core.lifecycle.CleanupFailed? ==>
                  s.core.slot.Some? && forall t :: !Carries(s, t))
            && (forall t :: Leaves(s, t) ==> ListenersOnly(c, s.core.leaked, Left(s.tasks[t])))
  {
    var s := Run(c, actions);
    RunKeeps(c, actions);
    forall t | Carries(s, t) || (t in s.tasks && s.tasks[t].TakeSlot?)
      ensures IsActive(s, t) && ActiveOk(c, s.core, s.tasks[t])
    {
    }
    forall t | Leaves(s, t) ensures ListenersOnly(c, s.core.leaked, Left(s.tasks[t])) {
      assert LeftOk(c, s.core.leaked, s.tasks[t]);
    }
  }

  /** Published as stopped: the engine is stopped, no task and no slot holds a bundle,
      the process-wide mark is back unless a lease was leaked, and all there may be is
      listeners of a start that failed before it touched the platform. */
  lemma StoppedMeansReleased(c: Config, actions: seq<Action>)
    requires Run(c, actions).core.lifecycle.Stopped?
    ensures var s := Run(c, actions);
            && !s.core.world.rules && !s.core.world.ingress && s.core.slot.None?
            && (forall t :: !Carries(s, t))
            && (forall t :: Leaves(s, t) ==> ListenersOnly(c, s.core.leaked, Left(s.tasks[t])))
            && (!s.core.disturbed && !s.core.leaked ==> s.core.world.mark == 0)
  {
    var s := Run(c, actions);
    RunKeeps(c, actions);
    SingleOwner(c, actions);
    forall t | Carries(s, t)
      ensures IsActive(s, t)
    {
    }
  }

  /** A teardown drops nothing that was not released: when its last step goes on to
      publish `Stopped`, all that is left in the bundle is the guard it has just marked
      clean; and if that fails, an empty bundle goes back to the slot. */
  lemma TeardownReleasesAll(c: Config, actions: seq<Action>, t: nat, ok: bool)
    requires var s := Run(c, actions);
             t in s.tasks && s.tasks[t].Clean? && s.tasks[t].step == |CLEANUP_ORDER| && s.tasks[t].engineOk
    ensures var s, s' := Run(c, actions), Apply(c, Run(c, actions), Advance(t, ok));
            var r := s.tasks[t].res;
            && r == DEFAULT.(guard := r.guard) && t in s'.tasks
            && if r.guard && !ok then s'.tasks[t] == FillSlot(DEFAULT, CleanupFailed)
               else s'.tasks[t] == Publish(Stopped, s.tasks[t].next, DEFAULT)
  {
    var s := Run(c, actions);
    RunKeeps(c, actions);
    assert IsActive(s, t) && ActiveOk(c, s.core, s.tasks[t]);
  }

  /** After a failed cleanup no background task runs on, and the bundle is in the slot
      for a retry. */
  lemma FailedCleanupIsQuiet(c: Config, actions: seq<Action>)
    requires Run(c, actions).core.lifecycle.CleanupFailed?
    ensures var slot := Run(c, actions).core.slot;
            slot.Some? && !slot.value.network && !slot.value.purge && !slot.value.event
  {
    RunKeeps(c, actions);
  }

  /** Dropped outside the runtime once the engine may have started, a transaction keeps
      exactly what platform rules may still depend on: lease, listeners and guard. */
  lemma UnhostedDropKeeps(c: Config, s: State, t: nat)
    requires t in s.tasks && (s.tasks[t].Build? || s.tasks[t].Clean?)
    requires s.tasks[t].Build? ==> s.tasks[t].stage.EngineStart? || s.tasks[t].stage.PostStart?
                                   || (s.tasks[t].stage.AttachDispatcher? && c.tun)
    requires s.tasks[t].Clean? ==> !s.tasks[t].detached
    ensures var s', r := Apply(c, s, Cancel(t, false)), s.tasks[t].res;
            && t in s'.tasks
            && s'.tasks[t] == FillSlot(DEFAULT.(lease := r.lease, dns := r.dns, guard := r.guard), CleanupFailed)
            && s'.core == s.core.(unhosted := true)
  {
  }

  /** Listeners are closed one by one ... */
  lemma ListenersCloseOneByOne(c: Config, s: State, t: nat, next: Then, detached: bool, r: Resources)
    requires t in s.tasks && s.tasks[t] == Clean(next, detached, 8, true, r) && r.dns > 0
    ensures CLEANUP_ORDER[8].DnsListener?
    ensures Apply(c, s, CloseListener(t)) ==
              State(s.core, s.tasks[t := Clean(next, detached, 8, true, r.(dns := r.dns - 1))])
  {
  }

  /** ... and that comes to the same as all at once. */
  lemma ClosingIsOneStep(k: Core, next: Then, detached: bool, r: Resources, n: nat, ok: bool)
    ensures CleanStep(k, Clean(next, detached, 8, true, r.(dns := n)), ok) == CleanStep(k, Clean(next, detached, 8, true, r), ok)
  {
  }

  /** Published as running: every resource is in place. */
  lemma RunningMeansAttached(c: Config, actions: seq<Action>)
    requires Run(c, actions).core.lifecycle.Running?
    ensures var k := Run(c, actions).core;
            k.slot.Some? && FullyAttached(c, k, k.slot.value) && (c.mark != 0 && !k.disturbed ==> k.world.mark == c.mark)
  {
    RunKeeps(c, actions);
  }

  /** No wakeup is lost: whoever sleeps without a notification has one to come. */
  lemma WakeupsAreNotLost(c: Config, actions: seq<Action>, t: nat)
    requires Unnotified(Run(c, actions), t)
    ensures InTransition(Run(c, actions).core.lifecycle) || NotifyPending(Run(c, actions))
  {
    RunKeeps(c, actions);
  }

  // ------------------------------------------------------- the leaked lease

  /** Only a failing crash-recovery guard leaks, and only with a lease requested. */
  lemma {:induction false} LeakNeedsRecovery(c: Config, actions: seq<Action>)
    ensures Run(c, actions).core.leaked ==> c.recovery && c.mark != 0
  {
    if actions != [] {
      var before := actions[..|actions| - 1];
      var s := Run(c, before);
      LeakNeedsRecovery(c, before);
      RunKeeps(c, before);
      LeakStep(c, s, actions[|actions| - 1]);
    }
  }

  lemma LeakStep(c: Config, s: State, a: Action)
    requires Inv(c, s) && (s.core.leaked ==> c.recovery && c.mark != 0)
    ensures Apply(c, s, a).core.leaked ==> c.recovery && c.mark != 0
  {
    if (a.Advance? || a.Cancel?) && a.t in s.tasks && s.tasks[a.t].Build? {
      assert IsActive(s, a.t);
      assert ActiveOk(c, s.core, s.tasks[a.t]);
    }
  }

  /** After a leak, undisturbed, the supervisor never gets to the engine again. */
  lemma LeakBlocksEveryStart(c: Config, actions: seq<Action>)
    requires Run(c, actions).core.leaked && !Run(c, actions).core.disturbed
    ensures !Run(c, actions).core.world.rules
  {
    var s := Run(c, actions);
    RunKeeps(c, actions);
    LeakNeedsRecovery(c, actions);
    if s.core.world.rules { FindBundle(c, s); }
  }

  // ------------------------------------------------ runs that show the limits

  ghost predicate Reachable(c: Config, s: State) {
    exists actions :: Run(c, actions) == s
  }

  lemma ReachNext(c: Config, s: State, a: Action)
    requires Reachable(c, s)
    ensures Reachable(c, Apply(c, s, a))
  {
    var actions :| Run(c, actions) == s;
    assert (actions + [a])[..|actions|] == actions;
    assert Run(c, actions + [a]) == Apply(c, s, a);
  }

  /** Only task 0 is about. */
  function Solo(k: Core, pc: Pc): State {
    State(k, map[0 := pc])
  }

  lemma SoloNext(c: Config, k: Core, pc: Pc, ok: bool)
    requires Reachable(c, Solo(k, pc)) && !pc.Notify?
    ensures var m := TaskStep(c, k, pc, ok);
            m.pc.Some? ==> Reachable(c, Solo(m.core, m.pc.value))
  {
    var m := TaskStep(c, k, pc, ok);
    ReachNext(c, Solo(k, pc), Advance(0, ok));
    if m.pc.Some? { assert Apply(c, Solo(k, pc), Advance(0, ok)) == Solo(m.core, m.pc.value); }
  }

  const CLAIMED := INIT.core.(lifecycle := Starting)

  lemma StartClaims(c: Config)
    ensures Reachable(c, Solo(CLAIMED, Build(Listeners, DEFAULT)))
  {
    assert Run(c, []) == INIT;
    ReachNext(c, INIT, Call(0, StartOp));
    SoloNext(c, INIT.core, Enter(StartOp), true);
    SoloNext(c, INIT.core, Check(StartOp, false), true);
    SoloNext(c, INIT.core, Claim(StartOp, Stopped, false), true);
  }

  lemma {:induction false} ListenersUp(c: Config, n: nat)
    requires n <= c.listeners
    ensures Reachable(c, Solo(CLAIMED, Build(Listeners, DEFAULT.(dns := n))))
  {
    if n == 0 {
      StartClaims(c);
    } else {
      ListenersUp(c, n - 1);
      SoloNext(c, CLAIMED, Build(Listeners, DEFAULT.(dns := n - 1)), true);
    }
  }

  function Equipped(c: Config): Resources {
    DEFAULT.(dns := c.listeners, lease := if c.mark == 0 then NoLease else Lease(0, c.mark))
  }

  /** A start that has spawned its listeners and installed the mark. */
  lemma LeaseTaken(c: Config)
    ensures Reachable(c, Solo(CLAIMED.(world := World(false, false, c.mark)), Build(Recovery, Equipped(c))))
  {
    var r := DEFAULT.(dns := c.listeners);
    ListenersUp(c, c.listeners);
    SoloNext(c, CLAIMED, Build(Listeners, r), true);
    SoloNext(c, CLAIMED, Build(Fwmark, r), true);
  }

  /** A run can leak the lease exactly when both a lease and crash recovery are
      asked for: the recovery guard fails after the mark is installed. */
  lemma LeakCondition(c: Config)
    ensures (exists s :: Reachable(c, s) && s.core.leaked && s.core.lifecycle.Stopped?)
            <==> c.recovery && c.mark != 0
  {
    if c.recovery && c.mark != 0 {
      var k := CLAIMED.(world := World(false, false, c.mark));
      LeaseTaken(c);
      SoloNext(c, k, Build(Recovery, Equipped(c)), false);
      SoloNext(c, k.(leaked := true), Publish(Stopped, Return, Equipped(c)), true);
      var s := Solo(k.(leaked := true, lifecycle := Stopped), Notify(Return, Equipped(c)));
      assert Reachable(c, s) && s.core.leaked && s.core.lifecycle.Stopped?;
    }
    if s :| Reachable(c, s) && s.core.leaked && s.core.lifecycle.Stopped? {
      var actions :| Run(c, actions) == s;
      LeakNeedsRecovery(c, actions);
    }
  }

  // ------------------------------------------- listeners that outlive the start

  /** Some task still holds listeners although `Stopped` is published. */
  predicate StoppedWithListeners(s: State) {
    s.core.lifecycle.Stopped? && exists t :: t in s.tasks && Left(s.tasks[t]).dns > 0
  }

  /** A start binds listeners while an earlier, failed one still holds some. */
  predicate ListenersOverlap(s: State) {
    exists t, u :: t in s.tasks && u in s.tasks && Left(s.tasks[t]).dns > 0
      && s.tasks[u].Build? && s.tasks[u].stage.Listeners?
  }

  const ONE := DEFAULT.(dns := 1)

  /** The plan lets a start fail with a listener up: while it waits for another, at the
      mark, or at the recovery guard. */
  predicate CanLeave(c: Config) {
    c.listeners > 1 || (c.listeners == 1 && (c.mark != 0 || c.recovery))
  }

  /** A caller cancelled while it waits for its second listener. */
  lemma CancelledEarly(c: Config)
    requires c.listeners > 1
    ensures Reachable(c, Solo(CLAIMED, Publish(Stopped, Return, ONE)))
  {
    ListenersUp(c, 1);
    var s := Solo(CLAIMED, Build(Listeners, ONE));
    ReachNext(c, s, Cancel(0, true));
    assert Apply(c, s, Cancel(0, true)) == Solo(CLAIMED, Publish(Stopped, Return, ONE));
  }

  /** A start that finds the mark taken. */
  lemma MarkRefused(c: Config)
    requires c.listeners == 1 && c.mark != 0
    ensures Reachable(c, Solo(CLAIMED.(world := World(false, false, 1), disturbed := true), Publish(Stopped, Return, ONE)))
  {
    ListenersUp(c, 1);
    SoloNext(c, CLAIMED, Build(Listeners, ONE), true);
    var s, k := Solo(CLAIMED, Build(Fwmark, ONE)), CLAIMED.(world := World(false, false, 1), disturbed := true);
    ReachNext(c, s, ForeignMark(1));
    assert Apply(c, s, ForeignMark(1)) == Solo(k, Build(Fwmark, ONE));
    SoloNext(c, k, Build(Fwmark, ONE), true);
  }

  lemma LeftoverReached(c: Config) returns (k: Core, left: Resources)
    requires CanLeave(c)
    ensures Reachable(c, Solo(k, Notify(Return, left))) && k.lifecycle.Stopped? && left.dns > 0
  {
    k, left := CLAIMED, ONE;
    if c.listeners > 1 {
      CancelledEarly(c);
    } else if c.mark != 0 {
      MarkRefused(c);
      k := k.(world := World(false, false, 1), disturbed := true);
    } else {
      left := Equipped(c);
      LeaseTaken(c);
      assert k.(world := World(false, false, c.mark)) == k;
      SoloNext(c, k, Build(Recovery, left), false);
    }
    SoloNext(c, k, Publish(Stopped, Return, left), true);
    k := k.(lifecycle := Stopped);
  }

  function Duo(k: Core, first: Pc, second: Pc): State {
    State(k, map[0 := first, 1 := second])
  }

  lemma DuoNext(c: Config, k: Core, first: Pc, second: Pc)
    requires Reachable(c, Duo(k, first, second)) && !second.Notify?
    ensures var m := TaskStep(c, k, second, true);
            m.pc.Some? ==> Reachable(c, Duo(m.core, first, m.pc.value))
  {
    var m := TaskStep(c, k, second, true);
    ReachNext(c, Duo(k, first, second), Advance(1, true));
    if m.pc.Some? { assert Apply(c, Duo(k, first, second), Advance(1, true)) == Duo(m.core, first, m.pc.value); }
  }

  lemma SecondStart(c: Config, k: Core, first: Pc)
    requires Reachable(c, Solo(k, first)) && k.lifecycle.Stopped?
    ensures Reachable(c, Duo(k.(lifecycle := Starting), first, Build(Listeners, DEFAULT)))
  {
    ReachNext(c, Solo(k, first), Call(1, StartOp));
    assert Apply(c, Solo(k, first), Call(1, StartOp)) == Duo(k, first, Enter(StartOp));
    DuoNext(c, k, first, Enter(StartOp));
    DuoNext(c, k, first, Check(StartOp, false));
    DuoNext(c, k, first, Claim(StartOp, Stopped, false));
  }

  lemma LeftFitsPlan(c: Config, s: State, t: nat)
    requires Reachable(c, s) && t in s.tasks
    ensures Left(s.tasks[t]).dns > 0 ==> CanLeave(c)
  {
    var actions :| Run(c, actions) == s;
    RunKeeps(c, actions);
    assert LeftOk(c, s.core.leaked, s.tasks[t]);
  }

  /** The exception of `StoppedMeansReleased` is needed exactly if the plan lets a start
      fail with a listener up: then a run publishes `Stopped` with it still held, and
      goes on to a start that binds it a second time. */
  lemma LeftoverCondition(c: Config)
    ensures (exists s :: Reachable(c, s) && StoppedWithListeners(s)) <==> CanLeave(c)
    ensures (exists s :: Reachable(c, s) && ListenersOverlap(s)) <==> CanLeave(c)
  {
    if CanLeave(c) {
      var k, left := LeftoverReached(c);
      var first := Notify(Return, left);
      SecondStart(c, k, first);
      var s1, s2 := Solo(k, first), Duo(k.(lifecycle := Starting), first, Build(Listeners, DEFAULT));
      assert s1.tasks[0] == first && s2.tasks[0] == first && s2.tasks[1] == Build(Listeners, DEFAULT);
      assert StoppedWithListeners(s1) && ListenersOverlap(s2);
    } else {
      forall s, t | Reachable(c, s) && t in s.tasks ensures Left(s.tasks[t]).dns == 0 {
        LeftFitsPlan(c, s, t);
      }
    }
  }

  lemma PostStartReached(c: Config)
    ensures Reachable(c, Solo(CLAIMED.(world := World(true, true, c.mark)),
                              Build(PostStart, Equipped(c).(guard := c.recovery, proxy := c.proxy, dispatcher := c.tun))))
  {
    var k := CLAIMED.(world := World(true, false, c.mark));
    var r := Equipped(c).(guard := c.recovery);
    LeaseTaken(c);
    SoloNext(c, CLAIMED.(world := World(false, false, c.mark)), Build(Recovery, Equipped(c)), true);
    SoloNext(c, k, Build(EngineStart, r), true);
    SoloNext(c, k, Build(Proxy, r), true);
    SoloNext(c, k, Build(AttachDispatcher, r.(proxy := c.proxy)), true);
  }

  /** Dropped outside the runtime while `post_start` is awaited, a transaction loses
      its dispatcher with ingress possibly active. */
  lemma UnhostedDropLosesDispatcher(c: Config)
    requires c.tun
    ensures exists s :: Reachable(c, s) && s.core.world.ingress
                        && !SomeBundle(s, (r: Resources) => r.dispatcher)
  {
    var k := CLAIMED.(world := World(true, true, c.mark));
    var r := Equipped(c).(guard := c.recovery, proxy := c.proxy, dispatcher := c.tun);
    PostStartReached(c);
    ReachNext(c, Solo(k, Build(PostStart, r)), Cancel(0, false));
    var s := Solo(k.(unhosted := true), FillSlot(AbortSync(r), CleanupFailed));
    assert Apply(c, Solo(k, Build(PostStart, r)), Cancel(0, false)) == s;
    assert Reachable(c, s) && s.core.world.ingress;
    assert !SomeBundle(s, (r: Resources) => r.dispatcher);
  }
}
