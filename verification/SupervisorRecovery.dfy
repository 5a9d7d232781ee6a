/** From wherever a run has led, calls that succeed lead back to a clean stop. */
module SupervisorRecovery {
  import opened SupervisorResources
  import opened Supervisor
  import opened SupervisorSafety
  import opened Wrappers

  /** A call, or a step whose awaited call succeeds. */
  predicate Succeeds(a: Action) {
    a.Call? || (a.Advance? && a.ok)
  }

  function RunFrom(c: Config, s: State, actions: seq<Action>): State
    decreases actions
  {
    if actions == [] then s else RunFrom(c, Apply(c, s, actions[0]), actions[1..])
  }

  lemma {:induction false} RunFromIsRun(c: Config, actions: seq<Action>, more: seq<Action>)
    ensures Run(c, actions + more) == RunFrom(c, Run(c, actions), more)
    decreases more
  {
    if more == [] {
      assert actions + more == actions;
    } else {
      var next := actions + [more[0]];
      assert next[..|next| - 1] == actions;
      assert actions + more == next + more[1..];
      RunFromIsRun(c, next, more[1..]);
    }
  }

  ghost predicate Leads(c: Config, s: State, s': State) {
    exists actions :: (forall a :: a in actions ==> Succeeds(a)) && RunFrom(c, s, actions) == s'
  }

  lemma LeadsHere(c: Config, s: State)
    ensures Leads(c, s, s)
  {
    assert RunFrom(c, s, []) == s;
  }

  lemma LeadsBy(c: Config, s: State, a: Action, s': State)
    requires Succeeds(a) && Leads(c, Apply(c, s, a), s')
    ensures Leads(c, s, s')
  {
    var rest :| (forall b :: b in rest ==> Succeeds(b)) && RunFrom(c, Apply(c, s, a), rest) == s';
    assert ([a] + rest)[1..] == rest;
    assert RunFrom(c, s, [a] + rest) == s';
  }

  // ------------------------------------------------------- the active task comes to its end

  function StageRank(c: Config, stage: Stage, r: Resources): nat {
    match stage
    case Listeners => 10 + (if r.dns < c.listeners then c.listeners - r.dns else 0)
    case Fwmark => 9
    case Recovery => 8
    case EngineStart => 7
    case Proxy => 6
    case AttachDispatcher => 5
    case PostStart => 4
    case Tasks => 3
    case Commit => 2
  }

  /** The steps an active task is away from publishing, at most. */
  function Rank(c: Config, pc: Pc): nat {
    match pc
    case Build(stage, res) => StageRank(c, stage, res)
    case TakeSlot(_) => 12
    case Clean(_, _, step, _, _) => if step < 9 then 11 - step else 2
    case FillSlot(_, _) => 1
    case _ => 0
  }

  /** A teardown in which nothing has failed. */
  predicate Sound(pc: Pc) {
    pc.TakeSlot? || (pc.Clean? && pc.engineOk) || (pc.Publish? && pc.target.Stopped?)
  }

  lemma BuildDown(c: Config, k: Core, pc: Pc)
    requires pc.Build? && ActiveOk(c, k, pc)
    ensures var m := TaskStep(c, k, pc, true);
            m.pc.Some? && Active(m.pc.value) && Rank(c, m.pc.value) < Rank(c, pc)
  {
  }

  lemma StepDown(c: Config, k: Core, pc: Pc)
    requires Active(pc) && ActiveOk(c, k, pc) && !pc.Publish?
    ensures var m := TaskStep(c, k, pc, true);
            && m.pc.Some? && Active(m.pc.value) && Rank(c, m.pc.value) < Rank(c, pc)
            && (Sound(pc) ==> Sound(m.pc.value))
  {
    if pc.Build? {
      BuildDown(c, k, pc);
    } else if pc.Clean? && pc.step < |CLEANUP_ORDER| {
      StepDownOrder(k, pc, CLEANUP_ORDER[pc.step]);
    }
  }

  lemma StepDownOrder(k: Core, pc: Pc, step: CleanupStep)
    requires pc.Clean? && pc.step < |CLEANUP_ORDER| && step == CLEANUP_ORDER[pc.step]
    ensures var e := RunStep(step, true, true, Teardown(k.world, pc.res, pc.engineOk, false));
            !e.aborted && e.engineOk == pc.engineOk
  {
  }

  /** Left alone with calls that succeed, the active task publishes a stable lifecycle,
      and `Stopped` if nothing in its teardown has failed. */
  lemma {:induction false} ActiveEnds(c: Config, s: State, t: nat) returns (s': State)
    requires Inv(c, s) && IsActive(s, t)
    ensures Leads(c, s, s') && Inv(c, s') && !InTransition(s'.core.lifecycle)
    ensures Sound(s.tasks[t]) ==> s'.core.lifecycle.Stopped?
    decreases Rank(c, s.tasks[t])
  {
    var pc, a := s.tasks[t], Advance(t, true);
    var next := Apply(c, s, a);
    ApplyKeeps(c, s, a);
    assert ActiveOk(c, s.core, pc);
    if pc.Publish? {
      s' := next;
      LeadsHere(c, s');
    } else {
      StepDown(c, s.core, pc);
      s' := ActiveEnds(c, next, t);
    }
    LeadsBy(c, s, a, s');
  }

  // -------------------------------------------------------------------- somebody stops it

  lemma {:induction false} NewTask(ids: set<nat>) returns (n: nat)
    ensures forall i :: i in ids ==> i < n
    decreases ids
  {
    n := 0;
    if ids != {} {
      var i :| i in ids;
      var m := NewTask(ids - {i});
      n := if m <= i then i + 1 else m;
      assert forall j :: j in ids ==> j == i || j in ids - {i};
    }
  }

  lemma StopClaims(c: Config, s: State, t: nat)
    requires t !in s.tasks && (s.core.lifecycle.Running? || s.core.lifecycle.CleanupFailed?)
    ensures Leads(c, s, State(s.core.(lifecycle := Stopping), s.tasks[t := TakeSlot(StopOp)]))
  {
    var l, go := s.core.lifecycle, Advance(t, true);
    var s1 := State(s.core, s.tasks[t := Enter(StopOp)]);
    var s2 := State(s.core, s.tasks[t := Check(StopOp, false)]);
    var s3 := State(s.core, s.tasks[t := Claim(StopOp, l, false)]);
    var s4 := State(s.core.(lifecycle := Stopping), s.tasks[t := TakeSlot(StopOp)]);
    assert Apply(c, s, Call(t, StopOp)) == s1;
    assert Apply(c, s1, go) == s2;
    assert Apply(c, s2, go) == s3;
    assert Apply(c, s3, go) == s4;
    LeadsHere(c, s4);
    LeadsBy(c, s3, go, s4);
    LeadsBy(c, s2, go, s4);
    LeadsBy(c, s1, go, s4);
    LeadsBy(c, s, Call(t, StopOp), s4);
  }

  lemma {:induction false} LeadsOn(c: Config, s: State, actions: seq<Action>, s': State)
    requires (forall a :: a in actions ==> Succeeds(a)) && Leads(c, RunFrom(c, s, actions), s')
    ensures Leads(c, s, s')
    decreases actions
  {
    if actions != [] {
      assert actions[0] in actions;
      LeadsOn(c, Apply(c, s, actions[0]), actions[1..], s');
      LeadsBy(c, s, actions[0], s');
    }
  }

  lemma LeadsTwice(c: Config, s: State, mid: State, s': State)
    requires Leads(c, s, mid) && Leads(c, mid, s')
    ensures Leads(c, s, s')
  {
    var actions :| (forall a :: a in actions ==> Succeeds(a)) && RunFrom(c, s, actions) == mid;
    LeadsOn(c, s, actions, s');
  }

  lemma {:induction false} RunFromKeeps(c: Config, s: State, actions: seq<Action>)
    requires Inv(c, s)
    ensures Inv(c, RunFrom(c, s, actions))
    decreases actions
  {
    if actions != [] {
      ApplyKeeps(c, s, actions[0]);
      RunFromKeeps(c, Apply(c, s, actions[0]), actions[1..]);
    }
  }

  lemma LeadsKeeps(c: Config, s: State, s': State)
    requires Inv(c, s) && Leads(c, s, s')
    ensures Inv(c, s')
  {
    var actions :| (forall a :: a in actions ==> Succeeds(a)) && RunFrom(c, s, actions) == s';
    RunFromKeeps(c, s, actions);
  }

  /** A stable supervisor that is not stopped can be stopped. */
  lemma StableStops(c: Config, s: State) returns (s': State)
    requires Inv(c, s) && !InTransition(s.core.lifecycle)
    ensures Leads(c, s, s') && Inv(c, s') && s'.core.lifecycle.Stopped?
  {
    if s.core.lifecycle.Stopped? {
      s' := s;
      LeadsHere(c, s);
    } else {
      var t := NewTask(s.tasks.Keys);
      var claimed := State(s.core.(lifecycle := Stopping), s.tasks[t := TakeSlot(StopOp)]);
      StopClaims(c, s, t);
      LeadsKeeps(c, s, claimed);
      s' := ActiveEnds(c, claimed, t);
      LeadsTwice(c, s, claimed, s');
    }
  }

  // ------------------------------------------------------ what failed starts have left

  function Leaving(s: State): set<nat> {
    set t | t in s.tasks && Left(s.tasks[t]) != DEFAULT
  }

  lemma WakeLeaves(pc: Pc)
    ensures Left(Wake(pc)) == Left(pc)
  {
  }

  /** Notifying, a task keeps what it has left; discarding, it is gone. */
  lemma LeavingStep(c: Config, s: State, t: nat)
    requires Inv(c, s) && s.core.lifecycle.Stopped? && t in Leaving(s)
    ensures var s' := Apply(c, s, Advance(t, true));
            && s'.core == s.core
            && if s.tasks[t].Discard? then Leaving(s') == Leaving(s) - {t}
               else Leaving(s') == Leaving(s) && s'.tasks[t].Discard?
  {
    var s' := Apply(c, s, Advance(t, true));
    assert LeftOk(c, s.core.leaked, s.tasks[t]);
    assert !IsActive(s, t);
    if s.tasks[t].Notify? {
      forall u | u != t ensures u in Leaving(s') <==> u in Leaving(s) {
        Notified(c, s, t, u);
        if u in s.tasks { WakeLeaves(s.tasks[u]); }
      }
    }
  }

  lemma {:induction false} LeftoversGo(c: Config, s: State) returns (s': State)
    requires Inv(c, s) && s.core.lifecycle.Stopped?
    ensures Leads(c, s, s') && Inv(c, s') && s'.core == s.core && Leaving(s') == {}
    decreases Leaving(s), if exists t :: t in Leaving(s) && s.tasks[t].Discard? then 0 else 1
  {
    if Leaving(s) == {} {
      s' := s;
      LeadsHere(c, s);
    } else {
      var t :| t in Leaving(s) && ((exists u :: u in Leaving(s) && s.tasks[u].Discard?) ==> s.tasks[t].Discard?);
      var a := Advance(t, true);
      LeavingStep(c, s, t);
      ApplyKeeps(c, s, a);
      var next := Apply(c, s, a);
      s' := LeftoversGo(c, next);
      LeadsBy(c, s, a, s');
    }
  }

  /** Stopped, with nothing of this supervisor left anywhere. */
  ghost predicate Released(s: State) {
    && s.core.lifecycle.Stopped? && s.core.slot.None? && !s.core.world.rules && !s.core.world.ingress
    && (forall t :: !Carries(s, t) && !Leaves(s, t))
    && (!s.core.disturbed && !s.core.leaked ==> s.core.world.mark == 0)
  }

  lemma StoppedIsReleased(c: Config, s: State)
    requires Inv(c, s) && s.core.lifecycle.Stopped? && Leaving(s) == {}
    ensures Released(s)
  {
    forall t ensures !Carries(s, t) && !Leaves(s, t) {
      assert !IsActive(s, t);
      assert t !in Leaving(s);
    }
  }

  /** Whatever happened before, failed teardowns and cancellations included: from every
      reachable state, calls that succeed lead to a stop with everything released. */
  lemma AlwaysRecoverable(c: Config, actions: seq<Action>)
    ensures exists s' :: Leads(c, Run(c, actions), s') && Released(s')
  {
    var s := Run(c, actions);
    RunKeeps(c, actions);
    var stable := s;
    if InTransition(s.core.lifecycle) {
      var t :| IsActive(s, t);
      stable := ActiveEnds(c, s, t);
    } else {
      LeadsHere(c, s);
    }
    var stopped := StableStops(c, stable);
    var clean := LeftoversGo(c, stopped);
    LeadsTwice(c, s, stable, stopped);
    LeadsTwice(c, s, stopped, clean);
    StoppedIsReleased(c, clean);
  }
}
