/** What whole calls do: between its call and its return every `insert`, `touch`,
    `lookup_flow` and `remove` takes effect in exactly one step, every `purge` removes
    what is expired and nothing else, and every call completes if it is left alone. */
module NatTableCalls {
  import opened Bytes
  import opened Wrappers
  import opened NatTable
  import opened NatTableRuns

  type Visible = map<FlowKey, Slot>

  // ---------------------------------------------------------------- one effect

  /** What a call does to the table callers see, and what it answers: `insert` adds a flow
      under a new id or merges into the flow that is there, `touch` and `lookup_flow`
      refresh it, `remove` takes it out, all by what is there at that moment. */
  ghost predicate Acts(v: Visible, op: Op, now: int, v': Visible, r: Reply) {
    match op
    case Insert(e) =>
      && r.Id?
      && if e.key in v then r.id == v[e.key].id && v' == v[e.key := Slot(r.id, Merge(v[e.key].entry, e))]
         else NoSlotOf(v, r.id) && v' == v[e.key := Slot(r.id, e)]
    case Touch(id) =>
      && r == Nothing
      && if NoSlotOf(v, id) then v' == v
         else exists k :: k in v && v[k].id == id && v' == v[k := Slot(id, v[k].entry.(lastSeen := now))]
    case LookupFlow(k) =>
      if k in v then
        v' == v[k := Slot(v[k].id, v[k].entry.(lastSeen := now))] && r == Found(Some(v[k].entry.(lastSeen := now)))
      else v' == v && r == Found(None)
    case Remove(id) =>
      if NoSlotOf(v, id) then v' == v && r == Found(None)
      else exists k :: k in v && v[k].id == id && v' == v - {k} && r == Found(Some(v[k].entry))
    case Purge => true
  }

  /** A call that has not taken effect yet. */
  predicate Awaits(pc: Pc, op: Op) {
    match pc
    case Called(o) => o == op
    case InsertHeld(e) => op == Insert(e)
    case InsertNumbered(e, _) => op == Insert(e)
    case InsertStored(e, _) => op == Insert(e)
    case UpdateHeld(e, _) => op == Insert(e)
    case TouchKnown(what) => op == Touch(what.id)
    case TouchHeld(what) => op == Touch(what.id)
    case LookupHeld(what) => op == LookupFlow(what.key)
    case RemoveKnown(what) => op == Remove(what.id)
    case RemoveHeld(what, _) => op == Remove(what.id)
    case _ => false
  }

  /** A call that has, with its answer. */
  predicate Acted(pc: Pc, r: Reply) {
    pc == Done(r) || (pc.RemoveUnlink? && r == Found(pc.gone))
  }

  /** One step of a call: nothing callers see, or the whole effect. */
  ghost predicate StepsOn(v: Visible, pc: Pc, op: Op, now: int, v': Visible, pc': Pc) {
    || (Awaits(pc', op) && v' == v)
    || (exists r :: Acted(pc', r) && Acts(v, op, now, v', r))
  }

  lemma ActsAt(v: Visible, pc: Pc, op: Op, now: int, v': Visible, pc': Pc, r: Reply)
    requires Acted(pc', r) && Acts(v, op, now, v', r)
    ensures StepsOn(v, pc, op, now, v', pc')
  {
  }

  lemma OwnSlot(v: Visible, k: FlowKey, id: nat)
    requires k in v && v[k].id == id
    ensures !NoSlotOf(v, id)
  {
  }

  lemma BeginStepsOn(sh: Shared, op: Op, busy: set<FlowKey>, ttl: nat, now: int)
    requires Ready(sh, Called(op), busy, ttl) && !op.Purge?
    ensures var (sh', pc') := Begin(sh, op, busy, now); StepsOn(View(sh), Called(op), op, now, View(sh'), pc')
  {
    var (sh', pc') := Begin(sh, op, busy, now);
    CallRefines(sh, op, busy, now);
    if pc'.Done? { ActsAt(View(sh), Called(op), op, now, View(sh'), pc', pc'.reply); }
  }

  lemma InsertStepsOn(sh: Shared, pc: Pc, ttl: nat, op: Op, now: int)
    requires Wf(sh) && Inserting(pc) && Local(sh, pc, ttl) && Awaits(pc, op)
    ensures var (sh', pc') := InsertStep(sh, pc); StepsOn(View(sh), pc, op, now, View(sh'), pc')
  {
    var (sh', pc') := InsertStep(sh, pc);
    InsertRefines(sh, pc, ttl);
    if pc'.Done? { ActsAt(View(sh), pc, op, now, View(sh'), pc', pc'.reply); }
  }

  /** An id whose flow is indexed under another is nobody's. */
  lemma StaleIsNobody(sh: Shared, what: Candidate)
    requires Wf(sh) && Known(sh, what) && !(what.key in sh.index && sh.index[what.key] == what.id)
    ensures NoSlotOf(View(sh), what.id)
  {
  }

  lemma UseStepsOn(sh: Shared, pc: Pc, busy: set<FlowKey>, ttl: nat, op: Op, now: int)
    requires Wf(sh) && Using(pc) && Local(sh, pc, ttl) && Awaits(pc, op)
    ensures var (sh', pc') := UseStep(sh, pc, busy, now); StepsOn(View(sh), pc, op, now, View(sh'), pc')
  {
    var (sh', pc') := UseStep(sh, pc, busy, now);
    UseRefines(sh, pc, busy, ttl, now);
    if pc'.Done? {
      if pc.TouchKnown? { StaleIsNobody(sh, pc.what); } else { OwnSlot(View(sh), pc.what.key, pc.what.id); }
      ActsAt(View(sh), pc, op, now, View(sh'), pc', pc'.reply);
    }
  }

  lemma RemoveStepsOn(sh: Shared, pc: Pc, busy: set<FlowKey>, ttl: nat, op: Op, now: int)
    requires Wf(sh) && Removing(pc) && Local(sh, pc, ttl) && Awaits(pc, op)
    ensures var (sh', pc') := RemoveStep(sh, pc, busy); StepsOn(View(sh), pc, op, now, View(sh'), pc')
  {
    var (sh', pc') := RemoveStep(sh, pc, busy);
    var v, what := View(sh), pc.what;
    RemoveRefines(sh, pc, busy, ttl);
    if pc.RemoveHeld? {
      if what.key in v && v[what.key].id == what.id { OwnSlot(v, what.key, what.id); }
      ActsAt(v, pc, op, now, View(sh'), pc', Found(if pc'.Done? then pc'.reply.entry else pc'.gone));
    }
  }

  lemma GoStepsOn(sh: Shared, pc: Pc, busy: set<FlowKey>, ttl: nat, op: Op, now: int)
    requires Ready(sh, pc, busy, ttl) && Awaits(pc, op) && !op.Purge?
    ensures var (sh', pc') := Go(sh, pc, busy, ttl, now); StepsOn(View(sh), pc, op, now, View(sh'), pc')
  {
    if pc.Called? { BeginStepsOn(sh, op, busy, ttl, now); }
    else if Inserting(pc) { InsertStepsOn(sh, pc, ttl, op, now); }
    else if Using(pc) { UseStepsOn(sh, pc, busy, ttl, op, now); }
    else { RemoveStepsOn(sh, pc, busy, ttl, op, now); }
  }

  /** After its effect a call changes nothing that callers see, and keeps its answer. */
  lemma ActedStays(sh: Shared, pc: Pc, busy: set<FlowKey>, ttl: nat, now: int, r: Reply)
    requires Wf(sh) && Local(sh, pc, ttl) && Acted(pc, r)
    ensures var (sh', pc') := Go(sh, pc, busy, ttl, now); View(sh') == View(sh) && Acted(pc', r)
  {
    if pc.RemoveUnlink? { UnlinkShows(sh, pc.what); }
  }

  /** Thread `t` makes no further call. */
  predicate NoCall(events: seq<Event>, t: nat) {
    forall i :: 0 <= i < |events| && events[i].thread == t ==> !events[i].action.Call?
  }

  /** Of the steps of thread `t`, exactly one is the whole effect of `op` with the answer
      `r`, and no other shows; if `acted`, it was before. */
  ghost predicate ActsOnce(s: System, ttl: nat, events: seq<Event>, t: nat, op: Op, r: Reply, acted: bool)
    decreases events
  {
    if events == [] then acted
    else
      var e, s' := events[0], Apply(s, ttl, events[0].thread, events[0].action);
      if e.thread != t then ActsOnce(s', ttl, events[1..], t, op, r, acted)
      else
        || (View(s'.sh) == View(s.sh) && ActsOnce(s', ttl, events[1..], t, op, r, acted))
        || (!acted && e.action.Next? && Acts(View(s.sh), op, e.action.now, View(s'.sh), r)
            && ActsOnce(s', ttl, events[1..], t, op, r, true))
  }

  lemma OtherStands(s: System, ttl: nat, e: Event, t: nat)
    requires t < |s.threads| && e.thread != t
    ensures var s' := Apply(s, ttl, e.thread, e.action); |s'.threads| == |s.threads| && s'.threads[t] == s.threads[t]
  {
  }

  lemma StepAnswerStays(s: System, ttl: nat, e: Event, t: nat, r: Reply)
    requires Inv(s, ttl) && t < |s.threads| && Acted(s.threads[t], r) && (e.thread == t ==> !e.action.Call?)
    ensures var s' := Apply(s, ttl, e.thread, e.action);
            && t < |s'.threads| && Acted(s'.threads[t], r)
            && (e.thread == t ==> View(s'.sh) == View(s.sh))
  {
    if e.thread != t {
      OtherStands(s, ttl, e, t);
    } else if e.action.Next? {
      ActedStays(s.sh, s.threads[t], Busy(s.threads, t), ttl, e.action.now, r);
    }
  }

  lemma {:induction false} AnswerStays(s: System, ttl: nat, events: seq<Event>, t: nat, op: Op, r: Reply)
    requires Inv(s, ttl) && Run(s, ttl, events).sh.issued <= U64 && NoCall(events, t)
    requires t < |s.threads| && Acted(s.threads[t], r)
    ensures t < |Run(s, ttl, events).threads| && Acted(Run(s, ttl, events).threads[t], r)
    ensures ActsOnce(s, ttl, events, t, op, r, true)
    decreases events
  {
    if events != [] {
      var e := events[0];
      IssuedGrows(Apply(s, ttl, e.thread, e.action), ttl, events[1..]);
      ApplyKeeps(s, ttl, e.thread, e.action);
      StepAnswerStays(s, ttl, e, t, r);
      AnswerStays(Apply(s, ttl, e.thread, e.action), ttl, events[1..], t, op, r);
    }
  }

  ghost predicate ActsNow(s: System, s': System, e: Event, t: nat, op: Op, r: Reply)
    requires t < |s'.threads|
  {
    e.thread == t && e.action.Next? && Acted(s'.threads[t], r) && Acts(View(s.sh), op, e.action.now, View(s'.sh), r)
  }

  lemma StepEffect(s: System, ttl: nat, e: Event, t: nat, op: Op)
    requires Inv(s, ttl) && t < |s.threads| && !op.Purge? && Awaits(s.threads[t], op)
    requires e.thread == t ==> !e.action.Call?
    ensures var s' := Apply(s, ttl, e.thread, e.action);
            && t < |s'.threads|
            && (|| (Awaits(s'.threads[t], op) && (e.thread == t ==> View(s'.sh) == View(s.sh)))
                || exists r :: ActsNow(s, s', e, t, op, r))
  {
    var s' := Apply(s, ttl, e.thread, e.action);
    if e.thread != t {
      OtherStands(s, ttl, e, t);
    } else if e.action.Next? {
      InvIsReady(s, ttl, t);
      GoStepsOn(s.sh, s.threads[t], Busy(s.threads, t), ttl, op, e.action.now);
      if r :| Acted(s'.threads[t], r) && Acts(View(s.sh), op, e.action.now, View(s'.sh), r) {
        assert ActsNow(s, s', e, t, op, r);
      }
    }
  }

  lemma HereOrLater(s: System, ttl: nat, events: seq<Event>, t: nat, op: Op, r: Reply)
    requires events != [] && t < |Apply(s, ttl, events[0].thread, events[0].action).threads|
    ensures var e, s' := events[0], Apply(s, ttl, events[0].thread, events[0].action);
            && (ActsNow(s, s', e, t, op, r) && ActsOnce(s', ttl, events[1..], t, op, r, true) ==>
                  ActsOnce(s, ttl, events, t, op, r, false))
            && ((e.thread == t ==> View(s'.sh) == View(s.sh)) && ActsOnce(s', ttl, events[1..], t, op, r, false) ==>
                  ActsOnce(s, ttl, events, t, op, r, false))
  {
  }

  lemma EffectWasNow(s: System, ttl: nat, events: seq<Event>, t: nat, op: Op, x: Reply, r: Reply)
    requires Inv(s, ttl) && Run(s, ttl, events).sh.issued <= U64 && NoCall(events, t)
    requires t < |s.threads| && Acted(s.threads[t], x)
    requires t < |Run(s, ttl, events).threads| && Run(s, ttl, events).threads[t] == Done(r)
    ensures x == r && ActsOnce(s, ttl, events, t, op, r, true)
  {
    AnswerStays(s, ttl, events, t, op, x);
  }

  lemma {:induction false} EffectComes(s: System, ttl: nat, events: seq<Event>, t: nat, op: Op, r: Reply)
    requires Inv(s, ttl) && Run(s, ttl, events).sh.issued <= U64 && NoCall(events, t)
    requires t < |s.threads| && !op.Purge? && Awaits(s.threads[t], op)
    requires t < |Run(s, ttl, events).threads| && Run(s, ttl, events).threads[t] == Done(r)
    ensures ActsOnce(s, ttl, events, t, op, r, false)
    decreases events
  {
    if events != [] {
      var e := events[0];
      var s' := Apply(s, ttl, e.thread, e.action);
      IssuedGrows(s', ttl, events[1..]);
      ApplyKeeps(s, ttl, e.thread, e.action);
      StepEffect(s, ttl, e, t, op);
      HereOrLater(s, ttl, events, t, op, r);
      if x :| ActsNow(s, s', e, t, op, x) {
        EffectWasNow(s', ttl, events[1..], t, op, x, r);
      } else {
        EffectComes(s', ttl, events[1..], t, op, r);
      }
    }
  }

  /** Whatever the others do meanwhile, a call that returned took effect in exactly one
      step between its call and its return, with the answer it gave. */
  lemma TakesEffectOnce(s: System, ttl: nat, events: seq<Event>, t: nat, r: Reply)
    requires Inv(s, ttl) && Run(s, ttl, events).sh.issued <= U64 && NoCall(events, t)
    requires t < |s.threads| && s.threads[t].Called? && !s.threads[t].op.Purge?
    requires t < |Run(s, ttl, events).threads| && Run(s, ttl, events).threads[t] == Done(r)
    ensures ActsOnce(s, ttl, events, t, s.threads[t].op, r, false)
  {
    EffectComes(s, ttl, events, t, s.threads[t].op, r);
  }

  // ---------------------------------------------------------------------- purging

  /** The flow is there with this entry, or not at all. */
  predicate There(sh: Shared, what: Candidate, e: Entry) {
    what.key in sh.index && sh.index[what.key] == what.id && what.id in sh.entries && sh.entries[what.id] == e
  }

  predicate Gone(sh: Shared, what: Candidate) {
    what.key !in sh.index && what.id !in sh.entries
  }

  predicate SameAt(sh: Shared, sh': Shared, what: Candidate) {
    && (what.key in sh'.index <==> what.key in sh.index)
    && (what.key in sh.index ==> sh'.index[what.key] == sh.index[what.key])
    && (what.id in sh'.entries <==> what.id in sh.entries)
    && (what.id in sh.entries ==> sh'.entries[what.id] == sh.entries[what.id])
  }

  /** No other thread stores or removes this flow. */
  ghost predicate Undisturbed(s: System, ttl: nat, events: seq<Event>, t: nat, what: Candidate)
    decreases events
  {
    events == [] ||
    var s' := Apply(s, ttl, events[0].thread, events[0].action);
    (events[0].thread != t ==> SameAt(s.sh, s'.sh, what)) && Undisturbed(s', ttl, events[1..], t, what)
  }

  /** The purge of thread `t` comes across the id as it walks the entries. */
  predicate Visited(s: System, ttl: nat, events: seq<Event>, t: nat, id: nat)
    decreases events
  {
    events != [] &&
    (|| (events[0] == Event(t, Visit(id)) && t < |s.threads| && s.threads[t].Collecting?)
     || Visited(Apply(s, ttl, events[0].thread, events[0].action), ttl, events[1..], t, id))
  }

  predicate Sweep(pc: Pc, now: int) {
    (pc.Collecting? || Sweeping(pc)) && pc.now == now
  }

  /** The candidate is still to be looked at. */
  predicate Listed(pc: Pc, what: Candidate) {
    match pc
    case Collecting(_, todo) => what in todo
    case Purging(_, todo) => what in todo
    case PurgeHeld(_, w, _, todo) => w == what || what in todo
    case PurgeDoomed(_, w, _, todo) => w == what || what in todo
    case PurgeUnlink(_, _, todo) => what in todo
    case _ => false
  }

  /** Last seen at least `ttl` before `now`. */
  predicate Late(e: Entry, now: int, ttl: nat) {
    ttl == 0 || now - e.lastSeen >= ttl
  }

  /** How far a purge has come with a flow. */
  predicate Handled(sh: Shared, pc: Pc, now: int, what: Candidate, e: Entry, ttl: nat, visited: bool) {
    && (Sweep(pc, now) || pc.Done?)
    && if Late(e, now, ttl) then
         || (There(sh, what, e) && (visited ==> Listed(pc, what)))
         || (pc.PurgeUnlink? && pc.what == what && what.id !in sh.entries
             && what.key in sh.index && sh.index[what.key] == what.id)
         || Gone(sh, what)
       else There(sh, what, e)
  }

  lemma WalkHandles(sh: Shared, pc: Pc, busy: set<FlowKey>, ttl: nat, a: Action, now: int, what: Candidate, e: Entry, visited: bool)
    requires Ready(sh, pc, busy, ttl) && e.key == what.key && pc.Collecting? && !a.Call?
    requires Handled(sh, pc, now, what, e, ttl, visited)
    ensures var (sh', pc') := Step(sh, pc, busy, ttl, a);
            Handled(sh', pc', now, what, e, ttl, visited || a == Visit(what.id))
  {
    if a.Visit? && a.pick in sh.entries {
      var c := Candidate(a.pick, sh.entries[a.pick].key);
      assert c in pc.todo + [c];
      assert forall x :: x in pc.todo ==> x in pc.todo + [c];
    }
  }

  lemma HeadOrRest(what: Candidate, todo: seq<Candidate>)
    requires what in todo
    ensures what == todo[0] || what in todo[1..]
  {
  }

  lemma LookHandles(sh: Shared, pc: Pc, busy: set<FlowKey>, ttl: nat, now: int, what: Candidate, e: Entry, visited: bool)
    requires Ready(sh, pc, busy, ttl) && e.key == what.key && (pc.Purging? || pc.PurgeHeld?)
    requires Handled(sh, pc, now, what, e, ttl, visited)
    ensures var (sh', pc') := PurgeStep(sh, pc, busy, ttl); Handled(sh', pc', now, what, e, ttl, visited)
  {
    if pc.Purging? && what in pc.todo { HeadOrRest(what, pc.todo); }
  }

  lemma EraseHandles(sh: Shared, pc: Pc, busy: set<FlowKey>, ttl: nat, now: int, what: Candidate, e: Entry, visited: bool)
    requires Ready(sh, pc, busy, ttl) && e.key == what.key && pc.PurgeDoomed?
    requires Handled(sh, pc, now, what, e, ttl, visited)
    ensures var (sh', pc') := PurgeStep(sh, pc, busy, ttl); Handled(sh', pc', now, what, e, ttl, visited)
  {
  }

  lemma UnlinkHandles(sh: Shared, pc: Pc, busy: set<FlowKey>, ttl: nat, now: int, what: Candidate, e: Entry, visited: bool)
    requires Ready(sh, pc, busy, ttl) && e.key == what.key && pc.PurgeUnlink?
    requires Handled(sh, pc, now, what, e, ttl, visited)
    ensures var (sh', pc') := PurgeStep(sh, pc, busy, ttl); Handled(sh', pc', now, what, e, ttl, visited)
  {
  }

  lemma StepHandles(sh: Shared, pc: Pc, busy: set<FlowKey>, ttl: nat, a: Action, now: int, what: Candidate, e: Entry, visited: bool)
    requires Ready(sh, pc, busy, ttl) && e.key == what.key && !a.Call?
    requires Handled(sh, pc, now, what, e, ttl, visited)
    ensures var (sh', pc') := Step(sh, pc, busy, ttl, a);
            Handled(sh', pc', now, what, e, ttl, visited || (pc.Collecting? && a == Visit(what.id)))
  {
    if pc.Collecting? {
      WalkHandles(sh, pc, busy, ttl, a, now, what, e, visited);
    } else if a.Next? && (pc.Purging? || pc.PurgeHeld?) {
      LookHandles(sh, pc, busy, ttl, now, what, e, visited);
    } else if a.Next? && pc.PurgeDoomed? {
      EraseHandles(sh, pc, busy, ttl, now, what, e, visited);
    } else if a.Next? && pc.PurgeUnlink? {
      UnlinkHandles(sh, pc, busy, ttl, now, what, e, visited);
    }
  }

  lemma EventHandles(s: System, ttl: nat, ev: Event, t: nat, now: int, what: Candidate, e: Entry, visited: bool)
    requires Inv(s, ttl) && t < |s.threads| && e.key == what.key
    requires if ev.thread == t then !ev.action.Call?
             else SameAt(s.sh, Apply(s, ttl, ev.thread, ev.action).sh, what)
    requires Handled(s.sh, s.threads[t], now, what, e, ttl, visited)
    ensures var s' := Apply(s, ttl, ev.thread, ev.action);
            && t < |s'.threads|
            && Handled(s'.sh, s'.threads[t], now, what, e, ttl,
                       visited || (ev == Event(t, Visit(what.id)) && s.threads[t].Collecting?))
  {
    if ev.thread == t {
      InvIsReady(s, ttl, t);
      StepHandles(s.sh, s.threads[t], Busy(s.threads, t), ttl, ev.action, now, what, e, visited);
    } else {
      OtherStands(s, ttl, ev, t);
    }
  }

  lemma {:induction false} RunHandles(s: System, ttl: nat, events: seq<Event>, t: nat, now: int, what: Candidate, e: Entry, visited: bool)
    requires Inv(s, ttl) && Run(s, ttl, events).sh.issued <= U64 && t < |s.threads| && e.key == what.key
    requires NoCall(events, t) && Undisturbed(s, ttl, events, t, what)
    requires Handled(s.sh, s.threads[t], now, what, e, ttl, visited)
    ensures var s' := Run(s, ttl, events);
            && t < |s'.threads|
            && Handled(s'.sh, s'.threads[t], now, what, e, ttl, visited || Visited(s, ttl, events, t, what.id))
    decreases events
  {
    if events != [] {
      var ev := events[0];
      var s' := Apply(s, ttl, ev.thread, ev.action);
      IssuedGrows(s', ttl, events[1..]);
      ApplyKeeps(s, ttl, ev.thread, ev.action);
      EventHandles(s, ttl, ev, t, now, what, e, visited);
      RunHandles(s', ttl, events[1..], t, now, what, e,
                 visited || (ev == Event(t, Visit(what.id)) && s.threads[t].Collecting?));
    }
  }

  /** A purge that began at `now` and has returned, and that no other thread interfered
      with at this flow: a flow last seen less than `ttl` before `now` is there as it was,
      and one that was not, if the purge came across it, is not. */
  lemma PurgeIsExact(s: System, ttl: nat, events: seq<Event>, t: nat, now: int, k: FlowKey)
    requires Inv(s, ttl) && Run(s, ttl, events).sh.issued <= U64 && t < |s.threads|
    requires s.threads[t] == Collecting(now, []) && NoCall(events, t) && k in View(s.sh)
    requires Undisturbed(s, ttl, events, t, Candidate(View(s.sh)[k].id, k))
    requires t < |Run(s, ttl, events).threads| && Run(s, ttl, events).threads[t].Done?
    ensures var before, after := View(s.sh), View(Run(s, ttl, events).sh);
            if ttl == 0 || now - before[k].entry.lastSeen >= ttl then
              Visited(s, ttl, events, t, before[k].id) ==> k !in after
            else k in after && after[k] == before[k]
  {
    var slot := View(s.sh)[k];
    RunHandles(s, ttl, events, t, now, Candidate(slot.id, k), slot.entry, false);
  }

  // ------------------------------------------------------------------- completion

  /** The steps a call is away from its return, at most, if no lock is in its way. */
  function Distance(pc: Pc): nat {
    match pc
    case Called(_) => 6
    case InsertHeld(_) => 3
    case InsertNumbered(_, _) => 2
    case RemoveKnown(_) => 3
    case RemoveHeld(_, _) => 2
    case TouchKnown(_) => 2
    case Purging(_, todo) => 4 * |todo| + 1
    case PurgeHeld(_, _, _, todo) => 4 * |todo| + 4
    case PurgeDoomed(_, _, _, todo) => 4 * |todo| + 3
    case PurgeUnlink(_, _, todo) => 4 * |todo| + 2
    case Idle => 0
    case Done(_) => 0
    case _ => 1
  }

  /** A call under way, other than a purge that still walks the entries. */
  predicate Underway(pc: Pc) {
    (pc.Called? && !pc.op.Purge?) || Inserting(pc) || Using(pc) || Removing(pc) || Sweeping(pc)
  }

  lemma GoesOn(sh: Shared, pc: Pc, ttl: nat, now: int)
    requires Underway(pc)
    ensures var (_, pc') := Go(sh, pc, {}, ttl, now);
            (Underway(pc') || pc'.Done?) && Distance(pc') < Distance(pc)
  {
  }

  /** Only thread `t` moves. */
  predicate Only(events: seq<Event>, t: nat) {
    forall i :: 0 <= i < |events| ==> events[i].thread == t && !events[i].action.Call?
  }

  lemma BusyStays(threads: seq<Pc>, t: nat, pc: Pc)
    requires t < |threads|
    ensures Busy(threads[t := pc], t) == Busy(threads, t)
  {
    forall k | k in Busy(threads, t) ensures k in Busy(threads[t := pc], t) {
      var u :| 0 <= u < |threads| && u != t && Holds(threads[u]) == Some(k);
      assert threads[t := pc][u] == threads[u];
    }
    forall k | k in Busy(threads[t := pc], t) ensures k in Busy(threads, t) {
      var u :| 0 <= u < |threads| && u != t && Holds(threads[t := pc][u]) == Some(k);
      assert threads[t := pc][u] == threads[u];
    }
  }

  /** Left alone, with no lock held by another thread, every call returns. */
  lemma {:induction false} Returns(s: System, ttl: nat, t: nat, now: int) returns (events: seq<Event>)
    requires t < |s.threads| && Busy(s.threads, t) == {} && Underway(s.threads[t])
    ensures Only(events, t)
    ensures var s' := Run(s, ttl, events); t < |s'.threads| && s'.threads[t].Done?
    decreases Distance(s.threads[t])
  {
    var e := Event(t, Next(now));
    var s' := Apply(s, ttl, t, Next(now));
    GoesOn(s.sh, s.threads[t], ttl, now);
    BusyStays(s.threads, t, s'.threads[t]);
    var rest := [];
    if !s'.threads[t].Done? { rest := Returns(s', ttl, t, now); }
    events := [e] + rest;
    assert events[1..] == rest;
  }

  lemma {:induction false} OnlyIsUndisturbed(s: System, ttl: nat, events: seq<Event>, t: nat, what: Candidate)
    requires Only(events, t)
    ensures Undisturbed(s, ttl, events, t, what)
    decreases events
  {
    if events != [] { OnlyIsUndisturbed(Apply(s, ttl, events[0].thread, events[0].action), ttl, events[1..], t, what); }
  }

  /** No flow of `after` was not there before. */
  predicate Within(after: Visible, before: Visible) {
    forall k :: k in after ==> k in before && after[k] == before[k]
  }

  lemma SweepStays(sh: Shared, pc: Pc, busy: set<FlowKey>, ttl: nat, a: Action, now: int)
    requires !a.Call? && (Sweep(pc, now) || pc.Done?)
    ensures var (sh', pc') := Step(sh, pc, busy, ttl, a);
            && (Sweep(pc', now) || pc'.Done?) && sh'.issued == sh.issued
            && (!(a.Next? && Sweeping(pc)) ==> sh' == sh)
  {
  }

  lemma ShownIsWithin(v: Visible, pc: Pc, v': Visible, ttl: nat)
    requires PurgeShows(v, pc, v', ttl)
    ensures Within(v', v)
  {
  }

  lemma PurgeShrinks(s: System, ttl: nat, t: nat, a: Action, now: int)
    requires Inv(s, ttl) && t < |s.threads| && !a.Call? && (Sweep(s.threads[t], now) || s.threads[t].Done?)
    ensures Within(View(Apply(s, ttl, t, a).sh), View(s.sh))
  {
    var pc, busy := s.threads[t], Busy(s.threads, t);
    SweepStays(s.sh, pc, busy, ttl, a, now);
    if a.Next? && Sweeping(pc) {
      PurgeRefines(s.sh, pc, busy, ttl);
      ShownIsWithin(View(s.sh), pc, View(Apply(s, ttl, t, a).sh), ttl);
    }
  }

  lemma {:induction false} OnlyShrinks(s: System, ttl: nat, events: seq<Event>, t: nat, now: int)
    requires Inv(s, ttl) && s.sh.issued <= U64 && t < |s.threads| && Only(events, t)
    requires Sweep(s.threads[t], now) || s.threads[t].Done?
    ensures Run(s, ttl, events).sh.issued == s.sh.issued && Within(View(Run(s, ttl, events).sh), View(s.sh))
    decreases events
  {
    if events != [] {
      var s' := Apply(s, ttl, t, events[0].action);
      PurgeShrinks(s, ttl, t, events[0].action, now);
      SweepStays(s.sh, s.threads[t], Busy(s.threads, t), ttl, events[0].action, now);
      ApplyKeeps(s, ttl, t, events[0].action);
      OnlyShrinks(s', ttl, events[1..], t, now);
    }
  }

  /** What a visit adds to is only the list of its thread. */
  lemma {:induction false} Walks(s: System, ttl: nat, t: nat, ids: seq<nat>) returns (events: seq<Event>)
    requires t < |s.threads| && s.threads[t].Collecting?
    ensures Only(events, t)
    ensures var s' := Run(s, ttl, events);
            && t < |s'.threads| && s'.threads[t].Collecting? && Busy(s'.threads, t) == Busy(s.threads, t)
            && forall id :: id in ids ==> Visited(s, ttl, events, t, id)
    decreases ids
  {
    if ids == [] {
      events := [];
    } else {
      var e := Event(t, Visit(ids[0]));
      var s' := Apply(s, ttl, t, Visit(ids[0]));
      BusyStays(s.threads, t, s'.threads[t]);
      var rest := Walks(s', ttl, t, ids[1..]);
      events := [e] + rest;
      assert events[1..] == rest;
      forall id | id in ids ensures Visited(s, ttl, events, t, id) {
        if id != ids[0] { assert id in ids[1..]; }
      }
    }
  }

  lemma {:induction false} StillVisited(s: System, ttl: nat, xs: seq<Event>, ys: seq<Event>, t: nat, id: nat)
    requires Visited(s, ttl, xs, t, id)
    ensures Visited(s, ttl, xs + ys, t, id)
    decreases xs
  {
    assert (xs + ys)[1..] == xs[1..] + ys;
    if !(xs[0] == Event(t, Visit(id)) && t < |s.threads| && s.threads[t].Collecting?) {
      StillVisited(Apply(s, ttl, xs[0].thread, xs[0].action), ttl, xs[1..], ys, t, id);
    }
  }

  lemma {:induction false} Enumerate(ids: set<nat>) returns (list: seq<nat>)
    ensures forall id :: id in ids ==> id in list
    decreases ids
  {
    list := [];
    if ids != {} {
      var id :| id in ids;
      var rest := Enumerate(ids - {id});
      list := [id] + rest;
    }
  }

  /** A purge left alone, from the start of its walk to its return. */
  lemma WalksAndReturns(s: System, ttl: nat, t: nat) returns (events: seq<Event>)
    requires t < |s.threads| && s.threads[t].Collecting? && Busy(s.threads, t) == {}
    ensures Only(events, t)
    ensures var s' := Run(s, ttl, events); t < |s'.threads| && s'.threads[t].Done?
    ensures forall id :: id in s.sh.entries ==> Visited(s, ttl, events, t, id)
  {
    var ids := Enumerate(s.sh.entries.Keys);
    var walk := Walks(s, ttl, t, ids);
    var s1 := Run(s, ttl, walk);
    var e := Event(t, EndVisit);
    var s2 := Apply(s1, ttl, t, EndVisit);
    BusyStays(s1.threads, t, s2.threads[t]);
    var rest := Returns(s2, ttl, t, 0);
    events := walk + ([e] + rest);
    RunAppend(s, ttl, walk, [e] + rest);
    assert ([e] + rest)[1..] == rest;
    forall id | id in s.sh.entries ensures Visited(s, ttl, events, t, id) {
      StillVisited(s, ttl, walk, [e] + rest, t, id);
    }
  }

  /** The flows last seen less than `ttl` before `now`. */
  function Live(v: Visible, now: int, ttl: nat): Visible {
    map k | k in v && ttl > 0 && now - v[k].entry.lastSeen < ttl :: v[k]
  }

  lemma PurgeHere(s: System, ttl: nat, events: seq<Event>, t: nat, now: int)
    requires Inv(s, ttl) && s.sh.issued <= U64 && t < |s.threads| && s.threads[t] == Collecting(now, [])
    requires Only(events, t) && t < |Run(s, ttl, events).threads| && Run(s, ttl, events).threads[t].Done?
    requires forall id :: id in s.sh.entries ==> Visited(s, ttl, events, t, id)
    ensures View(Run(s, ttl, events).sh) == Live(View(s.sh), now, ttl)
  {
    var before, after := View(s.sh), View(Run(s, ttl, events).sh);
    OnlyShrinks(s, ttl, events, t, now);
    forall k | k in before ensures if k in Live(before, now, ttl) then k in after && after[k] == before[k] else k !in after {
      OnlyIsUndisturbed(s, ttl, events, t, Candidate(before[k].id, k));
      PurgeIsExact(s, ttl, events, t, now, k);
    }
  }

  /** A purge called at `now` and left alone returns, and leaves exactly the flows last
      seen less than `ttl` before `now`, as they were. */
  lemma PurgeAlone(s: System, ttl: nat, t: nat, now: int) returns (events: seq<Event>)
    requires Inv(s, ttl) && s.sh.issued <= U64 && t < |s.threads|
    requires s.threads[t] == Called(Purge) && Busy(s.threads, t) == {}
    ensures var s' := Run(s, ttl, events);
            && Only(events, t) && t < |s'.threads| && s'.threads[t].Done?
            && View(s'.sh) == Live(View(s.sh), now, ttl)
  {
    var e := Event(t, Next(now));
    var s1 := Apply(s, ttl, t, Next(now));
    assert s1 == System(s.sh, s.threads[t := Collecting(now, [])]);
    ApplyKeeps(s, ttl, t, Next(now));
    BusyStays(s.threads, t, s1.threads[t]);
    var rest := WalksAndReturns(s1, ttl, t);
    PurgeHere(s1, ttl, rest, t, now);
    events := [e] + rest;
    assert events[1..] == rest;
  }
}
