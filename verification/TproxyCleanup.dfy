/** Cleanup undoes every prefix of setup. */
module TproxyCleanup {
  import opened Firewall
  import opened TproxyRules

  /** A host on which the proxy has left nothing, with the two hooks in place. Whatever
      rules it has jump to user-defined chains only, as a packet filter demands. */
  predicate Pristine(s: Side) {
    && Prerouting in s.chains && Output in s.chains && !s.rule && !s.route
    && (forall c :: c in s.chains ==> !Own(c) && ForeignJumps(s.chains[c]))
  }

  predicate ForeignJumps(rules: seq<Rule>) {
    forall i :: 0 <= i < |rules| && rules[i].target.Jump? ==> rules[i].target.chain.Foreign?
  }

  /** The own chains: only incoming traffic is sent on, and only to be diverted. */
  predicate Tame(c: Chain, r: Rule) {
    r.target.Jump? ==> c.OwnPrerouting? && r.target.chain.Divert?
  }

  predicate AllTame(c: Chain, rules: seq<Rule>) {
    forall i :: 0 <= i < |rules| ==> Tame(c, rules[i])
  }

  function HookedIn(rules: seq<Rule>, hooked: bool): seq<Rule> {
    if hooked then rules + [HOOK_IN] else rules
  }

  function HookedOut(rules: seq<Rule>, hooked: bool): seq<Rule> {
    if hooked then [HOOK_OUT] + rules else rules
  }

  /** `s` is the pristine host `s0` with own chains and, as told, hooks added. */
  predicate Touched(s0: Side, s: Side, hookIn: bool, hookOut: bool) {
    && Prerouting in s0.chains && Output in s0.chains
    && (forall c :: c in s.chains && !Own(c) ==> c in s0.chains)
    && (forall c :: c in s0.chains ==> c in s.chains)
    && (forall c :: c in s0.chains && c != Prerouting && c != Output ==> s.chains[c] == s0.chains[c])
    && s.chains[Prerouting] == HookedIn(s0.chains[Prerouting], hookIn)
    && s.chains[Output] == HookedOut(s0.chains[Output], hookOut)
    && (forall c :: c in s.chains && Own(c) ==> AllTame(c, s.chains[c]))
  }

  // ------------------------------------------------------------------------- setup

  /** A command that works on the own chains, or on the policy route. */
  predicate Inner(c: Command) {
    match c
    case RuleAdd => true
    case RouteAdd => true
    case New(d) => Own(d)
    case Flush(d) => Own(d)
    case Append(d, r) => Own(d) && Tame(d, r)
    case _ => false
  }

  predicate AllInner(cs: seq<Command>) {
    forall i :: 0 <= i < |cs| ==> Inner(cs[i])
  }

  lemma InnerKeeps(s0: Side, s: Side, a: bool, b: bool, c: Command)
    requires Pristine(s0) && Touched(s0, s, a, b) && Inner(c)
    ensures Touched(s0, Attempt(s, c), a, b)
  {
  }

  lemma {:induction false} AllInnerKeep(s0: Side, s: Side, a: bool, b: bool, cs: seq<Command>)
    requires Pristine(s0) && Touched(s0, s, a, b) && AllInner(cs)
    ensures Touched(s0, Run(s, cs), a, b)
    decreases cs
  {
    if cs != [] {
      InnerKeeps(s0, s, a, b, cs[0]);
      AllInnerKeep(s0, Attempt(s, cs[0]), a, b, cs[1..]);
    }
  }

  lemma HookInKeeps(s0: Side, s: Side, b: bool)
    requires Pristine(s0) && Touched(s0, s, false, b)
    ensures var s' := Attempt(s, Append(Prerouting, HOOK_IN));
            Touched(s0, s', true, b) || Touched(s0, s', false, b)
  {
    assert CanJump(s.chains, HOOK_IN) || Attempt(s, Append(Prerouting, HOOK_IN)) == s;
  }

  lemma HookOutKeeps(s0: Side, s: Side, a: bool)
    requires Pristine(s0) && Touched(s0, s, a, false)
    ensures var s' := Attempt(s, Insert(Output, HOOK_OUT));
            Touched(s0, s', a, true) || Touched(s0, s', a, false)
  {
    assert CanJump(s.chains, HOOK_OUT) || Attempt(s, Insert(Output, HOOK_OUT)) == s;
  }

  // ----------------------------------------------------------------------- cleanup

  lemma PolicyGone(s0: Side, s: Side, a: bool, b: bool)
    requires Touched(s0, s, a, b)
    ensures Run(s, [RuleDel, RouteDel]) == s.(rule := false, route := false)
    ensures Touched(s0, s.(rule := false, route := false), a, b)
  {
    RunTwo(s, RuleDel, RouteDel);
  }

  lemma HookInGone(s0: Side, s: Side, a: bool, b: bool)
    requires Pristine(s0) && Touched(s0, s, a, b)
    ensures var s' := Attempt(s, Delete(Prerouting, HOOK_IN));
            Touched(s0, s', false, b) && s'.rule == s.rule && s'.route == s.route
    ensures a ==> Execute(s, Delete(Prerouting, HOOK_IN)).Some?
    ensures forall c :: Own(c) ==> (c in Attempt(s, Delete(Prerouting, HOOK_IN)).chains <==> c in s.chains)
  {
    var rules := s0.chains[Prerouting];
    assert HOOK_IN !in rules;
    WithoutFirstAbsent(rules, HOOK_IN);
  }

  lemma HookOutGone(s0: Side, s: Side, a: bool, b: bool)
    requires Pristine(s0) && Touched(s0, s, a, b)
    ensures var s' := Attempt(s, Delete(Output, HOOK_OUT));
            Touched(s0, s', a, false) && s'.rule == s.rule && s'.route == s.route
    ensures b ==> Execute(s, Delete(Output, HOOK_OUT)).Some?
    ensures forall c :: Own(c) ==> (c in Attempt(s, Delete(Output, HOOK_OUT)).chains <==> c in s.chains)
  {
    assert HOOK_OUT !in s0.chains[Output];
    assert ([HOOK_OUT] + s0.chains[Output])[1..] == s0.chains[Output];
  }

  /** With the hooks gone, an own chain that no own chain needs can be emptied and removed. */
  lemma NotReferenced(s0: Side, s: Side, c: Chain)
    requires Pristine(s0) && Touched(s0, s, false, false) && Own(c)
    requires c.Divert? ==> OwnPrerouting !in s.chains
    ensures !Referenced(s.chains[c := []], c)
  {
    var chains: map<Chain, seq<Rule>> := s.chains[c := []];
    forall d, i | d in chains && 0 <= i < |chains[d]| ensures chains[d][i].target != Jump(c) {
      if Own(d) {
        assert Tame(d, chains[d][i]);
      } else {
        assert ForeignJumps(s0.chains[d]);
      }
    }
  }

  lemma ChainGone(s0: Side, s: Side, c: Chain)
    requires Pristine(s0) && Touched(s0, s, false, false) && Own(c)
    requires c.Divert? ==> OwnPrerouting !in s.chains
    ensures var s' := Run(s, FlushAndRemove(c));
            s' == Gone(s, c) && Touched(s0, s', false, false)
    ensures c in s.chains ==> AllSucceed(s, FlushAndRemove(c))
  {
    RunTwo(s, Flush(c), Remove(c));
    if c in s.chains {
      NotReferenced(s0, s, c);
      assert s.chains[c := []] - {c} == s.chains - {c};
    } else {
      assert s.chains - {c} == s.chains;
    }
  }

  lemma NothingLeft(s0: Side, s: Side)
    requires Pristine(s0) && Touched(s0, s, false, false) && !s.rule && !s.route
    requires forall c :: c in s.chains ==> !Own(c)
    ensures s == s0
  {
    assert s.chains == s0.chains;
  }

  function ChainCleanup(): seq<Command> {
    FlushAndRemove(OwnPrerouting) + FlushAndRemove(Divert) + FlushAndRemove(OwnOutput)
  }

  function Gone(s: Side, c: Chain): Side {
    s.(chains := s.chains - {c})
  }

  function AllGone(s: Side): Side {
    Gone(Gone(Gone(s, OwnPrerouting), Divert), OwnOutput)
  }

  lemma AllGoneIsForeign(s: Side)
    ensures forall c :: c in AllGone(s).chains ==> !Own(c)
  {
  }

  lemma TwoGone(s0: Side, s: Side, a: Chain, b: Chain)
    requires Pristine(s0) && Touched(s0, s, false, false) && a.OwnPrerouting? && b.Divert?
    ensures var cs := FlushAndRemove(a) + FlushAndRemove(b);
            && Run(s, cs) == Gone(Gone(s, a), b) && Touched(s0, Gone(Gone(s, a), b), false, false)
            && (a in s.chains && b in s.chains ==> AllSucceed(s, cs))
  {
    ChainGone(s0, s, a);
    ChainGone(s0, Gone(s, a), b);
    RunAppend(s, FlushAndRemove(a), FlushAndRemove(b));
  }

  lemma ThreeGone(s0: Side, s: Side, a: Chain, b: Chain, c: Chain)
    requires Pristine(s0) && Touched(s0, s, false, false) && a.OwnPrerouting? && b.Divert? && c.OwnOutput?
    ensures var cs := FlushAndRemove(a) + FlushAndRemove(b) + FlushAndRemove(c);
            && Run(s, cs) == Gone(Gone(Gone(s, a), b), c) && Touched(s0, Gone(Gone(Gone(s, a), b), c), false, false)
            && (a in s.chains && b in s.chains && c in s.chains ==> AllSucceed(s, cs))
  {
    TwoGone(s0, s, a, b);
    ChainGone(s0, Gone(Gone(s, a), b), c);
    RunAppend(s, FlushAndRemove(a) + FlushAndRemove(b), FlushAndRemove(c));
  }

  /** The last part of the cleanup, after the hooks. */
  lemma ChainsGone(s0: Side, s: Side)
    requires Pristine(s0) && Touched(s0, s, false, false)
    ensures Run(s, ChainCleanup()) == AllGone(s) && Touched(s0, AllGone(s), false, false)
    ensures Divert in s.chains && OwnPrerouting in s.chains && OwnOutput in s.chains ==> AllSucceed(s, ChainCleanup())
  {
    ThreeGone(s0, s, OwnPrerouting, Divert, OwnOutput);
  }

  lemma CleanupParts()
    ensures FamilyCleanup() ==
              [RuleDel, RouteDel] + ([Delete(Prerouting, HOOK_IN), Delete(Output, HOOK_OUT)] + ChainCleanup())
  {
  }

  /** From any touched state, cleanup leads back to the pristine host. */
  lemma CleanupRestores(s0: Side, s: Side, a: bool, b: bool)
    requires Pristine(s0) && Touched(s0, s, a, b)
    ensures Run(s, FamilyCleanup()) == s0
  {
    var hooks := [Delete(Prerouting, HOOK_IN), Delete(Output, HOOK_OUT)];
    var s1 := s.(rule := false, route := false);
    var s2 := Attempt(s1, Delete(Prerouting, HOOK_IN));
    var s3 := Attempt(s2, Delete(Output, HOOK_OUT));
    CleanupParts();
    PolicyGone(s0, s, a, b);
    HookInGone(s0, s1, a, b);
    HookOutGone(s0, s2, false, b);
    ChainsGone(s0, s3);
    AllGoneIsForeign(s3);
    NothingLeft(s0, AllGone(s3));
    RunTwo(s1, Delete(Prerouting, HOOK_IN), Delete(Output, HOOK_OUT));
    RunAppend(s1, hooks, ChainCleanup());
    RunAppend(s, [RuleDel, RouteDel], hooks + ChainCleanup());
  }

  // ---------------------------------------------------------- any prefix of setup

  lemma {:induction false} AppendsAreInner(c: Chain, rules: seq<Rule>)
    requires Own(c) && AllTame(c, rules)
    ensures AllInner(Appends(c, rules))
    decreases rules
  {
    if rules != [] {
      assert forall i :: 0 <= i < |rules[1..]| ==> rules[1..][i] == rules[i + 1];
      AppendsAreInner(c, rules[1..]);
    }
  }

  lemma BypassIsTame(c: Chain, p: Plan, f: Family)
    ensures AllTame(c, BypassRules(p, f))
  {
    var rules := BypassRules(p, f);
    forall i | 0 <= i < |rules| ensures Tame(c, rules[i]) {
      assert rules[i] in rules;
      ReturnRulesMembers(Distinct(Bypassed(p, f), {}), rules[i]);
    }
  }

  lemma InnerConcat(xs: seq<Command>, ys: seq<Command>)
    requires AllInner(xs) && AllInner(ys)
    ensures AllInner(xs + ys)
  {
  }

  lemma TameConcat(c: Chain, xs: seq<Rule>, ys: seq<Rule>, zs: seq<Rule>)
    requires AllTame(c, xs) && AllTame(c, ys) && AllTame(c, zs)
    ensures AllTame(c, xs + ys + zs)
  {
  }

  /** Making a chain and filling it with tame rules. */
  lemma MakeIsInner(c: Chain, rules: seq<Rule>)
    requires Own(c) && AllTame(c, rules)
    ensures AllInner([New(c), Flush(c)] + Appends(c, rules))
  {
    AppendsAreInner(c, rules);
    InnerConcat([New(c), Flush(c)], Appends(c, rules));
  }

  lemma InnerThree(xs: seq<Command>, ys: seq<Command>, zs: seq<Command>)
    requires AllInner(xs) && AllInner(ys) && AllInner(zs)
    ensures AllInner(xs + ys + zs)
  {
    InnerConcat(xs, ys);
    InnerConcat(xs + ys, zs);
  }

  lemma PreroutingIsTame(p: Plan, f: Family)
    ensures AllTame(OwnPrerouting, PreroutingRules(p, f))
  {
    BypassIsTame(OwnPrerouting, p, f);
    TameConcat(OwnPrerouting, PreroutingHead(f), BypassRules(p, f), PreroutingTail());
  }

  lemma OutputIsTame(p: Plan, f: Family, mark: bv32)
    ensures AllTame(OwnOutput, OutputRules(p, f, mark))
  {
    BypassIsTame(OwnOutput, p, f);
    TameConcat(OwnOutput, OutputHead(f, mark), BypassRules(p, f), OutputTail());
  }

  lemma SetupInIsInner(p: Plan, f: Family)
    ensures AllInner(SetupIn(p, f))
  {
    MakeIsInner(Divert, DivertRules());
    PreroutingIsTame(p, f);
    MakeIsInner(OwnPrerouting, PreroutingRules(p, f));
    InnerThree([RuleAdd, RouteAdd], [New(Divert), Flush(Divert)] + Appends(Divert, DivertRules()),
               [New(OwnPrerouting), Flush(OwnPrerouting)] + Appends(OwnPrerouting, PreroutingRules(p, f)));
  }

  lemma SetupOutIsInner(p: Plan, f: Family, mark: bv32)
    ensures AllInner(SetupOut(p, f, mark))
  {
    OutputIsTame(p, f, mark);
    MakeIsInner(OwnOutput, OutputRules(p, f, mark));
  }

  lemma PristineIsTouched(s0: Side)
    requires Pristine(s0)
    ensures Touched(s0, s0, false, false)
  {
  }

  /** The prefix of a list that ends within its first or its second part. */
  lemma PrefixSplit(xs: seq<Command>, ys: seq<Command>, n: nat)
    requires n <= |xs + ys|
    ensures (xs + ys)[..n] == if n <= |xs| then xs[..n] else xs + ys[..n - |xs|]
  {
  }

  lemma RunPrefix(s: Side, cs: seq<Command>, hook: Command, n: nat)
    requires n <= |cs| + 1
    ensures Run(s, (cs + [hook])[..n]) == if n <= |cs| then Run(s, cs[..n]) else Attempt(Run(s, cs), hook)
  {
    PrefixSplit(cs, [hook], n);
    if n > |cs| {
      assert [hook][..1] == [hook];
      RunAppend(s, cs, [hook]);
      RunOne(Run(s, cs), hook);
    }
  }

  /** Any prefix of the first half of setup, which ends with the incoming hook. */
  lemma FirstHalf(s0: Side, s: Side, cs: seq<Command>, n: nat)
    requires Pristine(s0) && Touched(s0, s, false, false) && AllInner(cs) && n <= |cs| + 1
    ensures var s' := Run(s, (cs + [Append(Prerouting, HOOK_IN)])[..n]);
            Touched(s0, s', false, false) || Touched(s0, s', true, false)
  {
    RunPrefix(s, cs, Append(Prerouting, HOOK_IN), n);
    AllInnerKeep(s0, s, false, false, if n <= |cs| then cs[..n] else cs);
    if n > |cs| { HookInKeeps(s0, Run(s, cs), false); }
  }

  /** Any prefix of the second half, which ends with the outgoing hook. */
  lemma SecondHalf(s0: Side, s: Side, a: bool, cs: seq<Command>, n: nat)
    requires Pristine(s0) && Touched(s0, s, a, false) && AllInner(cs) && n <= |cs| + 1
    ensures var s' := Run(s, (cs + [Insert(Output, HOOK_OUT)])[..n]);
            Touched(s0, s', a, false) || Touched(s0, s', a, true)
  {
    RunPrefix(s, cs, Insert(Output, HOOK_OUT), n);
    AllInnerKeep(s0, s, a, false, if n <= |cs| then cs[..n] else cs);
    if n > |cs| { HookOutKeeps(s0, Run(s, cs), a); }
  }

  function FirstPart(p: Plan, f: Family): seq<Command> {
    SetupIn(p, f) + [Append(Prerouting, HOOK_IN)]
  }

  function SecondPart(p: Plan, f: Family, mark: bv32): seq<Command> {
    SetupOut(p, f, mark) + [Insert(Output, HOOK_OUT)]
  }

  lemma SetupParts(p: Plan, f: Family, mark: bv32)
    ensures FamilySetup(p, f, mark) == FirstPart(p, f) + SecondPart(p, f, mark)
  {
  }

  lemma FirstPartTouches(s0: Side, p: Plan, f: Family, n: nat)
    requires Pristine(s0) && n <= |FirstPart(p, f)|
    ensures var s := Run(s0, FirstPart(p, f)[..n]); Touched(s0, s, false, false) || Touched(s0, s, true, false)
  {
    SetupInIsInner(p, f);
    PristineIsTouched(s0);
    FirstHalf(s0, s0, SetupIn(p, f), n);
  }

  lemma FirstPartUndone(s0: Side, p: Plan, f: Family, n: nat)
    requires Pristine(s0) && n <= |FirstPart(p, f)|
    ensures Run(Run(s0, FirstPart(p, f)[..n]), FamilyCleanup()) == s0
  {
    FirstPartTouches(s0, p, f, n);
    var s := Run(s0, FirstPart(p, f)[..n]);
    CleanupRestores(s0, s, Touched(s0, s, true, false), false);
  }

  /** All of the first part, then a prefix of the second. */
  lemma BothPartsUndone(s0: Side, p: Plan, f: Family, mark: bv32, n: nat)
    requires Pristine(s0) && n <= |SecondPart(p, f, mark)|
    ensures Run(Run(Run(s0, FirstPart(p, f)), SecondPart(p, f, mark)[..n]), FamilyCleanup()) == s0
  {
    var s := Run(s0, FirstPart(p, f));
    assert FirstPart(p, f)[..|FirstPart(p, f)|] == FirstPart(p, f);
    FirstPartTouches(s0, p, f, |FirstPart(p, f)|);
    SecondPartUndone(s0, s, Touched(s0, s, true, false), p, f, mark, n);
  }

  lemma SecondPartUndone(s0: Side, s: Side, a: bool, p: Plan, f: Family, mark: bv32, n: nat)
    requires Pristine(s0) && Touched(s0, s, a, false) && n <= |SecondPart(p, f, mark)|
    ensures Run(Run(s, SecondPart(p, f, mark)[..n]), FamilyCleanup()) == s0
  {
    SetupOutIsInner(p, f, mark);
    SecondHalf(s0, s, a, SetupOut(p, f, mark), n);
    var s' := Run(s, SecondPart(p, f, mark)[..n]);
    CleanupRestores(s0, s', a, Touched(s0, s', a, true));
  }

  lemma PrefixUndone(s0: Side, first: seq<Command>, second: seq<Command>, n: nat, cleanup: seq<Command>)
    requires n <= |first + second|
    requires n <= |first| ==> Run(Run(s0, first[..n]), cleanup) == s0
    requires n > |first| ==> Run(Run(Run(s0, first), second[..n - |first|]), cleanup) == s0
    ensures Run(Run(s0, (first + second)[..n]), cleanup) == s0
  {
    PrefixSplit(first, second, n);
    if n > |first| { RunAppend(s0, first, second[..n - |first|]); }
  }

  /** Cleanup, its failing commands skipped, after any prefix of a family's setup. */
  lemma FamilyPrefixUndone(s0: Side, p: Plan, f: Family, mark: bv32, n: nat)
    requires Pristine(s0) && n <= |FamilySetup(p, f, mark)|
    ensures Run(Run(s0, FamilySetup(p, f, mark)[..n]), FamilyCleanup()) == s0
  {
    SetupParts(p, f, mark);
    if n <= |FirstPart(p, f)| {
      FirstPartUndone(s0, p, f, n);
    } else {
      BothPartsUndone(s0, p, f, mark, n - |FirstPart(p, f)|);
    }
    PrefixUndone(s0, FirstPart(p, f), SecondPart(p, f, mark), n, FamilyCleanup());
  }

  // ------------------------------------------------------------- a complete setup

  /** Everything setup puts in place is there. */
  predicate Installed(s0: Side, s: Side) {
    && Touched(s0, s, true, true) && s.rule && s.route
    && Divert in s.chains && OwnPrerouting in s.chains && OwnOutput in s.chains
  }

  /** After a complete setup no cleanup command fails: in particular no chain is
      removed while it is referenced or not empty. */
  lemma CleanupNeverFails(s0: Side, s: Side)
    requires Pristine(s0) && Installed(s0, s)
    ensures AllSucceed(s, FamilyCleanup())
  {
    var hooks := [Delete(Prerouting, HOOK_IN), Delete(Output, HOOK_OUT)];
    var s1 := s.(rule := false, route := false);
    var s2 := Attempt(s1, Delete(Prerouting, HOOK_IN));
    var s3 := Attempt(s2, Delete(Output, HOOK_OUT));
    CleanupParts();
    PolicyGone(s0, s, true, true);
    RunTwo(s, RuleDel, RouteDel);
    HookInGone(s0, s1, true, true);
    HookOutGone(s0, s2, false, true);
    RunTwo(s1, Delete(Prerouting, HOOK_IN), Delete(Output, HOOK_OUT));
    ChainsGone(s0, s3);
    RunAppend(s1, hooks, ChainCleanup());
    RunAppend(s, [RuleDel, RouteDel], hooks + ChainCleanup());
  }
}
