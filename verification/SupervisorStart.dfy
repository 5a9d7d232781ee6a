/** Which calls lead where: what `Running` says about the answers a start was given, who
    may leave a lifecycle, and that calls which succeed do what they are named after. */
module SupervisorStart {
  import opened SupervisorResources
  import opened Supervisor
  import opened SupervisorSafety
  import opened SupervisorRecovery
  import opened Wrappers

  // ------------------------------------------------------ the story of a start

  datatype Answer = Succeeded | Failed | Dropped

  /** The call of a stage, and how it was answered. */
  datatype Reply = Reply(call: Stage, answer: Answer)

  /** The stages at which the plan has something to call, and the call may fail. */
  predicate Asks(c: Config, pc: Pc)
    requires pc.Build?
  {
    match pc.stage
    case Listeners => pc.res.dns < c.listeners
    case Fwmark => c.mark != 0
    case Recovery => c.recovery
    case AttachDispatcher => c.tun
    case Proxy => false
    case Commit => false
    case _ => true
  }

  /** The points at which a caller's future can be dropped. */
  predicate Awaits(c: Config, pc: Pc) {
    match pc
    case Asleep(_, _) => true
    case Build(stage, res) =>
      (stage.Listeners? || stage.EngineStart? || stage.AttachDispatcher? || stage.PostStart?) && Asks(c, pc)
    case Clean(_, detached, _, _, _) => !detached
    case _ => false
  }

  /** The reply that an action gives to a start under way, if any. The mark is refused
      by what is installed, every other call by its answer. */
  function Replied(c: Config, s: State, a: Action): seq<Reply> {
    if (a.Advance? || a.Cancel?) && a.t in s.tasks && s.tasks[a.t].Build? then
      var pc := s.tasks[a.t];
      if a.Cancel? then (if Awaits(c, pc) then [Reply(pc.stage, Dropped)] else [])
      else if !Asks(c, pc) then []
      else
        var ok := if pc.stage.Fwmark? then s.core.world.mark == 0 else a.ok;
        [Reply(pc.stage, if ok then Succeeded else Failed)]
    else []
  }

  /** All replies since the last claim of a start. */
  function Story(c: Config, actions: seq<Action>): seq<Reply> {
    if actions == [] then []
    else
      var before, a := actions[..|actions| - 1], actions[|actions| - 1];
      var s := Run(c, before);
      if s.core.lifecycle.Stopped? && Apply(c, s, a).core.lifecycle.Starting? then []
      else Story(c, before) + Replied(c, s, a)
  }

  function Times(n: nat, stage: Stage): seq<Reply> {
    if n == 0 then [] else Times(n - 1, stage) + [Reply(stage, Succeeded)]
  }

  function If(b: bool, stage: Stage): seq<Reply> {
    if b then [Reply(stage, Succeeded)] else []
  }

  /** A whole start: the listeners one by one, the mark, the recovery guard, the engine,
      the dispatcher, ingress and the tasks, in this order, and all succeed. */
  function WholeStart(c: Config): seq<Reply> {
    Times(c.listeners, Listeners) + If(c.mark != 0, Fwmark) + If(c.recovery, Recovery) + If(true, EngineStart)
    + If(c.tun, AttachDispatcher) + If(true, PostStart) + If(true, Tasks)
  }

  /** What has been answered when a stage is reached. */
  function Upto(c: Config, stage: Stage, dns: nat): seq<Reply> {
    var mark := Times(c.listeners, Listeners) + If(c.mark != 0, Fwmark);
    var engine := mark + If(c.recovery, Recovery) + If(true, EngineStart);
    match stage
    case Listeners => Times(dns, Listeners)
    case Fwmark => Times(c.listeners, Listeners)
    case Recovery => mark
    case EngineStart => mark + If(c.recovery, Recovery)
    case Proxy => engine
    case AttachDispatcher => engine
    case PostStart => engine + If(c.tun, AttachDispatcher)
    case Tasks => engine + If(c.tun, AttachDispatcher) + If(true, PostStart)
    case Commit => WholeStart(c)
  }

  /** Where a start is, by what it has been told. */
  predicate Told(c: Config, k: Core, pc: Pc, story: seq<Reply>) {
    match pc
    case Build(stage, res) => k.lifecycle.Starting? && story == Upto(c, stage, res.dns)
    case FillSlot(_, target) => target.Running? ==> k.lifecycle.Starting? && story == WholeStart(c)
    case Publish(target, _, _) => target.Running? ==> k.lifecycle.Starting? && story == WholeStart(c)
    case _ => true
  }

  ghost predicate Faithful(c: Config, s: State, story: seq<Reply>) {
    && (forall t :: IsActive(s, t) ==> Told(c, s.core, s.tasks[t], story))
    && (s.core.lifecycle.Running? ==> story == WholeStart(c))
  }

  lemma NoReply(x: seq<Reply>)
    ensures x + [] == x
  {
  }

  lemma BuildTold(c: Config, s: State, t: nat, ok: bool, story: seq<Reply>)
    requires t in s.tasks && s.tasks[t].Build? && Told(c, s.core, s.tasks[t], story)
    requires BuildOk(c, s.core, s.tasks[t].stage, s.tasks[t].res)
    ensures var m := BuildStep(c, s.core, s.tasks[t].stage, s.tasks[t].res, ok);
            m.pc.Some? && Told(c, m.core, m.pc.value, story + Replied(c, s, Advance(t, ok)))
  {
    NoReply(story);
  }

  lemma CancelTold(c: Config, s: State, t: nat, hosted: bool, story: seq<Reply>)
    requires t in s.tasks && IsActive(s, t) && Told(c, s.core, s.tasks[t], story)
    ensures var m := CancelStep(c, s.core, s.tasks[t], hosted);
            m.pc.Some? && Told(c, m.core, m.pc.value, story + Replied(c, s, Cancel(t, hosted)))
  {
    NoReply(story);
  }

  lemma OtherTold(c: Config, k: Core, pc: Pc, ok: bool, story: seq<Reply>)
    requires Active(pc) && !pc.Build? && !pc.Publish? && Told(c, k, pc, story)
    ensures var m := TaskStep(c, k, pc, ok); m.pc.Some? && Told(c, m.core, m.pc.value, story)
  {
  }

  lemma OnlyActive(c: Config, s: State, t: nat, m: Move, u: nat)
    requires Inv(c, s) && IsActive(s, t) && IsActive(After(s, t, m), u)
    ensures u == t
  {
    if u != t { assert IsActive(s, u); }
  }

  /** The one active task moves on. */
  lemma MoveTold(c: Config, s: State, t: nat, m: Move, story: seq<Reply>)
    requires Inv(c, s) && IsActive(s, t) && m.pc.Some? && Told(c, m.core, m.pc.value, story)
    requires m.core.lifecycle.Running? ==> story == WholeStart(c)
    ensures Faithful(c, After(s, t, m), story)
  {
    forall u | IsActive(After(s, t, m), u) ensures Told(c, m.core, After(s, t, m).tasks[u], story) {
      OnlyActive(c, s, t, m, u);
    }
  }

  lemma ActiveTold(c: Config, s: State, t: nat, ok: bool, story: seq<Reply>)
    requires Inv(c, s) && Faithful(c, s, story) && IsActive(s, t)
    ensures Faithful(c, Apply(c, s, Advance(t, ok)), story + Replied(c, s, Advance(t, ok)))
  {
    var pc := s.tasks[t];
    assert ActiveOk(c, s.core, pc) && Told(c, s.core, pc, story);
    NoReply(story);
    if pc.Build? {
      BuildTold(c, s, t, ok, story);
      BuildKeeps(c, s.core, pc.stage, pc.res, ok);
    } else if !pc.Publish? {
      OtherTold(c, s.core, pc, ok, story);
      OtherStays(c, s.core, pc, ok);
    }
    MoveTold(c, s, t, TaskStep(c, s.core, pc, ok), story + Replied(c, s, Advance(t, ok)));
  }

  lemma OtherStays(c: Config, k: Core, pc: Pc, ok: bool)
    requires Active(pc) && !pc.Build? && !pc.Publish?
    ensures TaskStep(c, k, pc, ok).core.lifecycle == k.lifecycle
  {
  }

  lemma CancelledTold(c: Config, s: State, t: nat, hosted: bool, story: seq<Reply>)
    requires Inv(c, s) && Faithful(c, s, story) && t in s.tasks
    ensures Faithful(c, Apply(c, s, Cancel(t, hosted)), story + Replied(c, s, Cancel(t, hosted)))
  {
    NoReply(story);
    if IsActive(s, t) {
      assert ActiveOk(c, s.core, s.tasks[t]);
      CancelTold(c, s, t, hosted, story);
      MoveTold(c, s, t, CancelStep(c, s.core, s.tasks[t], hosted), story + Replied(c, s, Cancel(t, hosted)));
    } else {
      SameActive(c, s, Apply(c, s, Cancel(t, hosted)), story);
    }
  }

  /** Nothing active, and not the lifecycle, has changed. */
  lemma SameActive(c: Config, s: State, s': State, story: seq<Reply>)
    requires Faithful(c, s, story) && s'.core.lifecycle == s.core.lifecycle
    requires forall u :: IsActive(s', u) ==> IsActive(s, u) && s'.tasks[u] == s.tasks[u]
    ensures Faithful(c, s', story)
  {
    forall u | IsActive(s', u) ensures Told(c, s'.core, s'.tasks[u], story) {
      assert Told(c, s.core, s.tasks[u], story);
    }
  }

  /** A new start begins a new story. */
  function NextStory(c: Config, s: State, a: Action, story: seq<Reply>): seq<Reply> {
    if s.core.lifecycle.Stopped? && Apply(c, s, a).core.lifecycle.Starting? then []
    else story + Replied(c, s, a)
  }

  lemma NobodyActive(c: Config, s: State)
    requires Inv(c, s) && !InTransition(s.core.lifecycle)
    ensures forall u :: !IsActive(s, u)
  {
  }

  lemma WaiterTold(c: Config, s: State, t: nat, ok: bool, story: seq<Reply>)
    requires Inv(c, s) && Faithful(c, s, story) && t in s.tasks && !IsActive(s, t) && !s.tasks[t].Notify?
    ensures Faithful(c, Apply(c, s, Advance(t, ok)), NextStory(c, s, Advance(t, ok), story))
  {
    var pc, s' := s.tasks[t], Apply(c, s, Advance(t, ok));
    NoReply(story);
    if pc.Claim? && s.core.lifecycle == pc.seen {
      NobodyActive(c, s);
      assert forall u :: u != t && IsActive(s', u) ==> IsActive(s, u);
      assert s'.tasks[t] == if pc.seen.Stopped? then Build(Listeners, DEFAULT) else TakeSlot(pc.op);
    } else {
      SameActive(c, s, s', story);
    }
  }

  lemma NotifyTold(c: Config, s: State, t: nat, ok: bool, story: seq<Reply>)
    requires Inv(c, s) && Faithful(c, s, story) && t in s.tasks && s.tasks[t].Notify?
    ensures Faithful(c, Apply(c, s, Advance(t, ok)), story)
  {
    var s' := Apply(c, s, Advance(t, ok));
    forall u | IsActive(s', u) ensures IsActive(s, u) && s'.tasks[u] == s.tasks[u] {
      Notified(c, s, t, u);
      if u in s.tasks { WakeKeeps(c, s.core.leaked, s.tasks[u]); }
    }
    SameActive(c, s, s', story);
  }

  lemma CloseTold(c: Config, s: State, t: nat, story: seq<Reply>)
    requires Inv(c, s) && Faithful(c, s, story) && t in s.tasks
    ensures Faithful(c, Apply(c, s, CloseListener(t)), story)
  {
    if IsActive(s, t) {
      assert ActiveOk(c, s.core, s.tasks[t]);
      MoveTold(c, s, t, CloseStep(s.core, s.tasks[t]), story);
    } else {
      SameActive(c, s, Apply(c, s, CloseListener(t)), story);
    }
  }

  lemma StepTold(c: Config, s: State, a: Action, story: seq<Reply>)
    requires Inv(c, s) && Faithful(c, s, story)
    ensures Faithful(c, Apply(c, s, a), NextStory(c, s, a, story))
  {
    NoReply(story);
    match a
    case Call(t, op) => SameActive(c, s, Apply(c, s, a), story);
    case Advance(t, ok) =>
      if t in s.tasks {
        if s.tasks[t].Notify? {
          NotifyTold(c, s, t, ok, story);
        } else if IsActive(s, t) {
          assert ActiveOk(c, s.core, s.tasks[t]);
          ActiveTold(c, s, t, ok, story);
        } else {
          WaiterTold(c, s, t, ok, story);
        }
      }
    case CloseListener(t) => if t in s.tasks { CloseTold(c, s, t, story); }
    case Cancel(t, hosted) => if t in s.tasks { CancelledTold(c, s, t, hosted, story); CancelStays(c, s.core, s.tasks[t], hosted); }
    case ForeignMark(mark) => SameActive(c, s, Apply(c, s, a), story);
  }

  lemma CancelStays(c: Config, k: Core, pc: Pc, hosted: bool)
    ensures CancelStep(c, k, pc, hosted).core.lifecycle == k.lifecycle
  {
  }

  lemma {:induction false} StoryIsFaithful(c: Config, actions: seq<Action>)
    ensures Faithful(c, Run(c, actions), Story(c, actions))
  {
    if actions != [] {
      var before := actions[..|actions| - 1];
      RunKeeps(c, before);
      StoryIsFaithful(c, before);
      StepTold(c, Run(c, before), actions[|actions| - 1], Story(c, before));
    }
  }

  /** `Running` is published only for a start that was given every answer it needs: since
      the claim, each call of the plan was made once, in order, and succeeded, and its
      caller was not dropped. */
  lemma RunningMeansAnswered(c: Config, actions: seq<Action>)
    requires Run(c, actions).core.lifecycle.Running?
    ensures Story(c, actions) == WholeStart(c)
  {
    StoryIsFaithful(c, actions);
  }

  // ------------------------------------------------------------ who may do what

  /** What task `t` was last called for, unless its caller was dropped since. */
  function Caller(c: Config, actions: seq<Action>, t: nat): Option<Op> {
    if actions == [] then None
    else
      var before, a := actions[..|actions| - 1], actions[|actions| - 1];
      NextCaller(c, Run(c, before), a, t, Caller(c, before, t))
  }

  function NextCaller(c: Config, s: State, a: Action, t: nat, was: Option<Op>): Option<Op> {
    if a == Call(t, StartOp) && t !in s.tasks then Some(StartOp)
    else if a == Call(t, StopOp) && t !in s.tasks then Some(StopOp)
    else if a.Cancel? && a.t == t && t in s.tasks && Awaits(c, s.tasks[t]) then None
    else was
  }

  /** A task does what it was called for: a start does not leave `Running`, a stop does
      not leave `Stopped`, only a start builds or comes back after a teardown; and a task
      without a caller only finishes a rollback. */
  predicate Entitled(op: Option<Op>, pc: Pc) {
    if op.None? then
      match pc
      case Clean(next, detached, _, _, _) => next.Return? && detached
      case FillSlot(_, target) => target.CleanupFailed?
      case Publish(target, next, _) => next.Return? && !target.Running?
      case Notify(next, _) => next.Return?
      case Discard(_) => true
      case _ => false
    else
      match pc
      case Enter(o) => o == op.value
      case Check(o, _) => o == op.value
      case Claim(o, seen, _) => o == op.value && (if o.StartOp? then !seen.Running? else !seen.Stopped?)
      case Asleep(o, _) => o == op.value
      case Build(_, _) => op.value.StartOp?
      case TakeSlot(o) => o == op.value
      case Clean(next, detached, _, _, _) => (next.StartAgain? ==> op.value.StartOp?) && !detached
      case FillSlot(_, target) => target.Running? ==> op.value.StartOp?
      case Publish(target, next, _) => next.StartAgain? || target.Running? ==> op.value.StartOp?
      case Notify(next, _) => next.StartAgain? ==> op.value.StartOp?
      case Discard(_) => true
  }

  lemma TaskEntitled(c: Config, k: Core, pc: Pc, ok: bool, op: Option<Op>)
    requires Entitled(op, pc) && !pc.Notify?
    ensures var m := TaskStep(c, k, pc, ok); m.pc.Some? ==> Entitled(op, m.pc.value)
  {
  }

  lemma CancelEntitled(c: Config, k: Core, pc: Pc, hosted: bool, op: Option<Op>)
    requires Entitled(op, pc)
    ensures var m := CancelStep(c, k, pc, hosted);
            m.pc.Some? ==> Entitled(if Awaits(c, pc) then None else op, m.pc.value)
  {
  }

  lemma NotifyEntitled(s: State, t: nat, u: nat, op: Option<Op>)
    requires t in s.tasks && s.tasks[t].Notify? && u in s.tasks && Entitled(op, s.tasks[u])
    ensures var s' := NotifyStep(s, t, s.tasks[t].next, s.tasks[t].left);
            u in s'.tasks ==> Entitled(op, s'.tasks[u])
  {
  }

  lemma StepEntitled(c: Config, s: State, a: Action, t: nat, op: Option<Op>)
    requires t in s.tasks ==> Entitled(op, s.tasks[t])
    ensures t in Apply(c, s, a).tasks ==> Entitled(NextCaller(c, s, a, t, op), Apply(c, s, a).tasks[t])
  {
    match a
    case Call(u, o) => if u == t && t !in s.tasks { assert Entitled(Some(o), Enter(o)); }
    case Advance(u, ok) =>
      if u in s.tasks && s.tasks[u].Notify? {
        if t in s.tasks { NotifyEntitled(s, u, t, op); }
      } else if u == t && t in s.tasks {
        TaskEntitled(c, s.core, s.tasks[t], ok, op);
      }
    case CloseListener(u) =>
    case Cancel(u, hosted) => if u == t && t in s.tasks { CancelEntitled(c, s.core, s.tasks[t], hosted, op); }
    case ForeignMark(_) =>
  }

  lemma {:induction false} RunEntitled(c: Config, actions: seq<Action>, t: nat)
    requires t in Run(c, actions).tasks
    ensures Entitled(Caller(c, actions, t), Run(c, actions).tasks[t])
  {
    if actions != [] {
      var before, a := actions[..|actions| - 1], actions[|actions| - 1];
      var s := Run(c, before);
      if t in s.tasks { RunEntitled(c, before, t); }
      StepEntitled(c, s, a, t, Caller(c, before, t));
    }
  }

  /** A caller that was dropped acts no more: all its task still does is to finish the
      rollback, and it neither claims, nor builds, nor starts again. */
  lemma DroppedCallersAreDone(c: Config, actions: seq<Action>, t: nat)
    requires t in Run(c, actions).tasks && Caller(c, actions, t).None?
    ensures var pc := Run(c, actions).tasks[t];
            && (pc.Clean? || pc.FillSlot? || pc.Publish? || pc.Notify? || pc.Discard?)
            && (pc.Clean? || pc.Publish? || pc.Notify? ==> pc.next.Return?)
            && (pc.FillSlot? || pc.Publish? ==> !pc.target.Running?)
  {
    RunEntitled(c, actions, t);
  }

  /** A caller can be dropped only where it awaits something; a rollback that outlived its
      caller cannot. */
  lemma DroppedOnlyAtAwait(c: Config, s: State, t: nat, hosted: bool)
    requires t in s.tasks ==> !Awaits(c, s.tasks[t])
    ensures Apply(c, s, Cancel(t, hosted)) == s
  {
    if t in s.tasks { assert s.tasks[t := s.tasks[t]] == s.tasks; }
  }

  /** A notification reaches every caller that has registered for it, asleep or about to
      look at the lifecycle. */
  lemma NotifyReachesAll(c: Config, s: State, t: nat, u: nat, ok: bool)
    requires t in s.tasks && s.tasks[t].Notify? && u in s.tasks
    requires s.tasks[u].Check? || s.tasks[u].Claim? || s.tasks[u].Asleep?
    ensures var s' := Apply(c, s, Advance(t, ok));
            && u in s'.tasks
            && s'.tasks[u] == match s.tasks[u]
                              case Check(op, _) => Check(op, true)
                              case Claim(op, seen, _) => Claim(op, seen, true)
                              case Asleep(op, _) => Asleep(op, true)
  {
  }

  /** The lifecycles that may follow each other, and what the task that makes the change
      was called for. A dropped caller's task may only end a transition. */
  predicate MayFollow(from: Lifecycle, to: Lifecycle, op: Option<Op>) {
    match from
    case Stopped => to.Starting? && op == Some(StartOp)
    case Running => to.Stopping? && op == Some(StopOp)
    case CleanupFailed => to.Stopping? && op.Some?
    case Starting => to.Stopped? || to.CleanupFailed? || (to.Running? && op == Some(StartOp))
    case Stopping => to.Stopped? || to.CleanupFailed?
  }

  lemma ActiveMoves(c: Config, s: State, t: nat, ok: bool, op: Option<Op>, story: seq<Reply>)
    requires Inv(c, s) && IsActive(s, t) && Told(c, s.core, s.tasks[t], story) && Entitled(op, s.tasks[t])
    ensures var l := TaskStep(c, s.core, s.tasks[t], ok).core.lifecycle;
            l == s.core.lifecycle || MayFollow(s.core.lifecycle, l, op)
  {
    var pc := s.tasks[t];
    assert ActiveOk(c, s.core, pc);
    if pc.Build? { BuildKeeps(c, s.core, pc.stage, pc.res, ok); }
    if !pc.Build? && !pc.Publish? { OtherStays(c, s.core, pc, ok); }
  }

  lemma WaiterMayClaim(c: Config, s: State, t: nat, ok: bool, op: Option<Op>)
    requires Inv(c, s) && t in s.tasks && !IsActive(s, t) && !s.tasks[t].Notify? && Entitled(op, s.tasks[t])
    ensures var l := TaskStep(c, s.core, s.tasks[t], ok).core.lifecycle;
            l == s.core.lifecycle || MayFollow(s.core.lifecycle, l, op)
  {
  }

  /** Over any run the lifecycle changes only like this: an idempotent `start` leaves a
      running supervisor alone, an idempotent `stop` a stopped one, and a stop never ends
      in `Running`. */
  lemma LifecycleMoves(c: Config, actions: seq<Action>, a: Action)
    requires Apply(c, Run(c, actions), a).core.lifecycle != Run(c, actions).core.lifecycle
    ensures a.Advance?
    ensures MayFollow(Run(c, actions).core.lifecycle, Apply(c, Run(c, actions), a).core.lifecycle,
                      Caller(c, actions, a.t))
  {
    var s := Run(c, actions);
    RunKeeps(c, actions);
    StoryIsFaithful(c, actions);
    if a.Cancel? && a.t in s.tasks { CancelStays(c, s.core, s.tasks[a.t], a.hosted); }
    var t, op := a.t, Caller(c, actions, a.t);
    RunEntitled(c, actions, t);
    if IsActive(s, t) {
      ActiveMoves(c, s, t, a.ok, op, Story(c, actions));
    } else {
      WaiterMayClaim(c, s, t, a.ok, op);
    }
  }

  // -------------------------------------------------- what a call leads to, left alone

  /** The task makes `n` steps on its own, and every call it makes succeeds. */
  function Alone(c: Config, s: State, t: nat, n: nat): State
    decreases n
  {
    if n == 0 then s else Alone(c, Apply(c, s, Advance(t, true)), t, n - 1)
  }

  ghost predicate Gets(c: Config, s: State, t: nat, l: Lifecycle) {
    exists n: nat :: Alone(c, s, t, n).core.lifecycle == l
  }

  lemma GetsHere(c: Config, s: State, t: nat)
    ensures Gets(c, s, t, s.core.lifecycle)
  {
    assert Alone(c, s, t, 0) == s;
  }

  lemma {:induction false} GetsLater(c: Config, s: State, t: nat, n: nat, l: Lifecycle)
    requires Gets(c, Alone(c, s, t, n), t, l)
    ensures Gets(c, s, t, l)
    decreases n
  {
    if n > 0 {
      GetsLater(c, Apply(c, s, Advance(t, true)), t, n - 1, l);
      var m: nat :| Alone(c, Apply(c, s, Advance(t, true)), t, m).core.lifecycle == l;
      assert Alone(c, s, t, m + 1).core.lifecycle == l;
    }
  }

  /** On the way up: the mark is free, not asked for, or already installed. */
  predicate Rising(c: Config, k: Core, pc: Pc) {
    match pc
    case Build(stage, _) => c.mark == 0 || k.world.mark == 0 || !(stage.Listeners? || stage.Fwmark?)
    case FillSlot(_, target) => target.Running?
    case Publish(target, _, _) => target.Running?
    case _ => false
  }

  lemma RiseStep(c: Config, k: Core, pc: Pc)
    requires Active(pc) && ActiveOk(c, k, pc) && Rising(c, k, pc) && !pc.Publish?
    ensures var m := TaskStep(c, k, pc, true); m.pc.Some? && Rising(c, m.core, m.pc.value)
  {
  }

  lemma {:induction false} Rises(c: Config, s: State, t: nat)
    requires Inv(c, s) && IsActive(s, t) && Rising(c, s.core, s.tasks[t])
    ensures Gets(c, s, t, Running)
    decreases Rank(c, s.tasks[t])
  {
    var pc, next := s.tasks[t], Apply(c, s, Advance(t, true));
    assert ActiveOk(c, s.core, pc);
    if pc.Publish? {
      GetsHere(c, next, t);
    } else {
      ApplyKeeps(c, s, Advance(t, true));
      StepDown(c, s.core, pc);
      RiseStep(c, s.core, pc);
      Rises(c, next, t);
    }
    assert Alone(c, s, t, 1) == next;
    GetsLater(c, s, t, 1, Running);
  }

  /** What a sound teardown is followed by. */
  function Following(pc: Pc): Then
    requires Sound(pc)
  {
    if pc.TakeSlot? then (if pc.op.StartOp? then StartAgain else Return) else pc.next
  }

  lemma SinkStep(c: Config, k: Core, pc: Pc)
    requires Active(pc) && ActiveOk(c, k, pc) && Sound(pc) && !pc.Publish?
    ensures var m := TaskStep(c, k, pc, true);
            && m.pc.Some? && Sound(m.pc.value) && Following(m.pc.value) == Following(pc)
            && m.core.leaked == k.leaked && m.core.disturbed == k.disturbed
  {
    StepDown(c, k, pc);
  }

  lemma {:induction false} Sinks(c: Config, s: State, t: nat) returns (n: nat)
    requires Inv(c, s) && IsActive(s, t) && Sound(s.tasks[t])
    ensures var s' := Alone(c, s, t, n);
            && Inv(c, s') && s'.core.lifecycle.Stopped?
            && t in s'.tasks && s'.tasks[t].Notify? && s'.tasks[t].next == Following(s.tasks[t])
            && s'.core.leaked == s.core.leaked && s'.core.disturbed == s.core.disturbed
    decreases Rank(c, s.tasks[t])
  {
    var pc, next := s.tasks[t], Apply(c, s, Advance(t, true));
    assert ActiveOk(c, s.core, pc);
    ApplyKeeps(c, s, Advance(t, true));
    if pc.Publish? {
      n := 1;
      assert Alone(c, next, t, 0) == next;
    } else {
      StepDown(c, s.core, pc);
      SinkStep(c, s.core, pc);
      var m := Sinks(c, next, t);
      n := m + 1;
    }
  }

  lemma OneMore(c: Config, s: State, t: nat, n: nat)
    requires n > 0
    ensures Alone(c, s, t, n) == Alone(c, Apply(c, s, Advance(t, true)), t, n - 1)
    ensures Alone(c, s, t, 0) == s
  {
  }

  /** A caller that finds a lifecycle it has to leave claims the transition. */
  function Claimed(s: State, t: nat, op: Op): State {
    if s.core.lifecycle.Stopped?
    then State(s.core.(lifecycle := Starting), s.tasks[t := Build(Listeners, DEFAULT)])
    else State(s.core.(lifecycle := Stopping), s.tasks[t := TakeSlot(op)])
  }

  predicate HasToAct(s: State, t: nat, op: Op) {
    && t in s.tasks && s.tasks[t] == Enter(op) && !InTransition(s.core.lifecycle)
    && if op.StartOp? then !s.core.lifecycle.Running? else !s.core.lifecycle.Stopped?
  }

  lemma ClaimSteps(c: Config, s: State, t: nat, op: Op)
    requires HasToAct(s, t, op)
    ensures var go := Advance(t, true); Apply(c, Apply(c, Apply(c, s, go), go), go) == Claimed(s, t, op)
  {
    var go := Advance(t, true);
    var s1 := State(s.core, s.tasks[t := Check(op, false)]);
    var s2 := State(s.core, s.tasks[t := Claim(op, s.core.lifecycle, false)]);
    assert Apply(c, s, go) == s1;
    assert Apply(c, s1, go) == s2;
    assert Apply(c, s2, go) == Claimed(s, t, op);
  }

  lemma Claims(c: Config, s: State, t: nat, op: Op) returns (n: nat)
    requires Inv(c, s) && HasToAct(s, t, op)
    ensures Alone(c, s, t, n) == Claimed(s, t, op) && Inv(c, Claimed(s, t, op))
  {
    var go := Advance(t, true);
    var s1 := Apply(c, s, go);
    var s2 := Apply(c, s1, go);
    n := 3;
    ClaimSteps(c, s, t, op);
    ApplyKeeps(c, s, go);
    ApplyKeeps(c, s1, go);
    ApplyKeeps(c, s2, go);
    OneMore(c, s, t, n);
    OneMore(c, s1, t, n - 1);
    OneMore(c, s2, t, n - 2);
    OneMore(c, Apply(c, s2, go), t, n);
  }

  lemma StartsFromStopped(c: Config, s: State, t: nat)
    requires Inv(c, s) && t in s.tasks && s.tasks[t] == Enter(StartOp) && s.core.lifecycle.Stopped?
    requires c.mark == 0 || s.core.world.mark == 0
    ensures Gets(c, s, t, Running)
  {
    var n := Claims(c, s, t, StartOp);
    Rises(c, Claimed(s, t, StartOp), t);
    GetsLater(c, s, t, n, Running);
  }

  /** After a failed cleanup, a start first finishes it and then starts. */
  lemma StartsFromFailed(c: Config, s: State, t: nat)
    requires Inv(c, s) && t in s.tasks && s.tasks[t] == Enter(StartOp) && s.core.lifecycle.CleanupFailed?
    requires !s.core.leaked && !s.core.disturbed
    ensures Gets(c, s, t, Running)
  {
    var m := Claims(c, s, t, StartOp);
    var s1 := Claimed(s, t, StartOp);
    var n := Sinks(c, s1, t);
    var s2 := Alone(c, s1, t, n);
    var s3 := Apply(c, s2, Advance(t, true));
    ApplyKeeps(c, s2, Advance(t, true));
    assert s3.tasks[t] == Enter(StartOp) && s3.core == s2.core;
    StartsFromStopped(c, s3, t);
    assert Alone(c, s2, t, 1) == s3;
    GetsLater(c, s2, t, 1, Running);
    GetsLater(c, s1, t, n, Running);
    GetsLater(c, s, t, m, Running);
  }

  /** A caller that waits for its turn, or has just been woken. */
  predicate Waiting(pc: Pc, op: Op) {
    pc == Enter(op) || pc == Asleep(op, true)
  }

  lemma WokenEnters(c: Config, s: State, t: nat, op: Op, l: Lifecycle)
    requires t in s.tasks && s.tasks[t] == Asleep(op, true)
    requires Gets(c, State(s.core, s.tasks[t := Enter(op)]), t, l)
    ensures Gets(c, s, t, l)
  {
    var n: nat := 1;
    OneMore(c, s, t, n);
    OneMore(c, Apply(c, s, Advance(t, true)), t, n);
    assert Apply(c, s, Advance(t, true)) == State(s.core, s.tasks[t := Enter(op)]);
    GetsLater(c, s, t, n, l);
  }

  lemma EnteredStarts(c: Config, s: State, t: nat)
    requires Inv(c, s) && t in s.tasks && s.tasks[t] == Enter(StartOp)
    requires !InTransition(s.core.lifecycle) && !s.core.leaked && !s.core.disturbed
    ensures Gets(c, s, t, Running)
  {
    match s.core.lifecycle
    case Running => GetsHere(c, s, t);
    case Stopped => StartsFromStopped(c, s, t);
    case CleanupFailed => StartsFromFailed(c, s, t);
  }

  lemma EnteredStops(c: Config, s: State, t: nat)
    requires Inv(c, s) && t in s.tasks && s.tasks[t] == Enter(StopOp) && !InTransition(s.core.lifecycle)
    ensures Gets(c, s, t, Stopped)
  {
    if s.core.lifecycle.Stopped? {
      GetsHere(c, s, t);
    } else {
      var m := Claims(c, s, t, StopOp);
      var n := Sinks(c, Claimed(s, t, StopOp), t);
      GetsHere(c, Alone(c, Claimed(s, t, StopOp), t, n), t);
      GetsLater(c, Claimed(s, t, StopOp), t, n, Stopped);
      GetsLater(c, s, t, m, Stopped);
    }
  }

  /** `start` starts: called on any settled supervisor that nothing else disturbs, or woken
      when it has settled, and left to calls that succeed, it ends with `Running` published. */
  lemma StartStarts(c: Config, actions: seq<Action>, t: nat)
    requires var s := Run(c, actions);
             && t in s.tasks && Waiting(s.tasks[t], StartOp)
             && !InTransition(s.core.lifecycle) && !s.core.leaked && !s.core.disturbed
    ensures Gets(c, Run(c, actions), t, Running)
  {
    var s := Run(c, actions);
    RunKeeps(c, actions);
    if s.tasks[t].Enter? {
      EnteredStarts(c, s, t);
    } else {
      ApplyKeeps(c, s, Advance(t, true));
      EnteredStarts(c, Apply(c, s, Advance(t, true)), t);
      WokenEnters(c, s, t, StartOp, Running);
    }
  }

  /** `stop` stops, whatever was leaked or disturbed before. */
  lemma StopStops(c: Config, actions: seq<Action>, t: nat)
    requires var s := Run(c, actions);
             t in s.tasks && Waiting(s.tasks[t], StopOp) && !InTransition(s.core.lifecycle)
    ensures Gets(c, Run(c, actions), t, Stopped)
  {
    var s := Run(c, actions);
    RunKeeps(c, actions);
    if s.tasks[t].Enter? {
      EnteredStops(c, s, t);
    } else {
      ApplyKeeps(c, s, Advance(t, true));
      EnteredStops(c, Apply(c, s, Advance(t, true)), t);
      WokenEnters(c, s, t, StopOp, Stopped);
    }
  }

  /** Who sleeps does nothing until it is notified. */
  lemma SleepersSleep(c: Config, s: State, t: nat, ok: bool)
    requires Unnotified(s, t)
    ensures Apply(c, s, Advance(t, ok)) == s
  {
  }

  /** A call of a start that fails, at whatever stage, or a caller dropped there with a
      runtime to host the rollback, leads back to `Stopped`. */
  lemma FailedStartStops(c: Config, actions: seq<Action>, a: Action)
    requires var r := Replied(c, Run(c, actions), a); r != [] && !r[0].answer.Succeeded?
    requires a.Cancel? ==> a.hosted
    ensures Gets(c, Apply(c, Run(c, actions), a), a.t, Stopped)
  {
    var s := Run(c, actions);
    var s', t := Apply(c, s, a), a.t;
    RunKeeps(c, actions);
    ApplyKeeps(c, s, a);
    assert IsActive(s, t) && ActiveOk(c, s.core, s.tasks[t]);
    assert IsActive(s', t) && Sound(s'.tasks[t]);
    var n := Sinks(c, s', t);
    GetsHere(c, Alone(c, s', t, n), t);
    GetsLater(c, s', t, n, Stopped);
  }

  // ------------------------------------------------------------- a mark that is taken

  /** A start that will not get past the mark. */
  predicate Refused(c: Config, s: State, t: nat) {
    && c.mark != 0 && s.core.world.mark != 0 && !s.core.lifecycle.Running? && !s.core.lifecycle.CleanupFailed?
    && (t in s.tasks ==>
          match s.tasks[t]
          case Enter(_) => true
          case Check(_, _) => true
          case Asleep(_, _) => true
          case Claim(_, seen, _) => seen.Stopped?
          case Build(stage, _) => stage.Listeners? || stage.Fwmark?
          case Publish(target, next, _) => target.Stopped? && next.Return?
          case Notify(next, _) => next.Return?
          case Discard(_) => true
          case _ => false)
  }

  lemma StaysRefused(c: Config, s: State, t: nat)
    requires Refused(c, s, t)
    ensures Refused(c, Apply(c, s, Advance(t, true)), t)
  {
  }

  lemma {:induction false} AloneRefused(c: Config, s: State, t: nat, n: nat)
    requires Refused(c, s, t)
    ensures !Alone(c, s, t, n).core.lifecycle.Running?
    decreases n
  {
    if n > 0 {
      StaysRefused(c, s, t);
      AloneRefused(c, Apply(c, s, Advance(t, true)), t, n - 1);
    }
  }

  /** From `Stopped`, however that was reached, calls that succeed lead to `Running` if and
      only if no mark is asked for or none is installed. */
  lemma StartCondition(c: Config, actions: seq<Action>, t: nat)
    requires t !in Run(c, actions).tasks && Run(c, actions).core.lifecycle.Stopped?
    ensures Gets(c, Apply(c, Run(c, actions), Call(t, StartOp)), t, Running)
            <==> c.mark == 0 || Run(c, actions).core.world.mark == 0
  {
    var s := Run(c, actions);
    var s' := Apply(c, s, Call(t, StartOp));
    RunKeeps(c, actions);
    ApplyKeeps(c, s, Call(t, StartOp));
    if c.mark == 0 || s.core.world.mark == 0 {
      StartsFromStopped(c, s', t);
    } else {
      forall n: nat ensures !Alone(c, s', t, n).core.lifecycle.Running? {
        AloneRefused(c, s', t, n);
      }
    }
  }
}
