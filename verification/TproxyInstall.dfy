/** A complete setup: it never fails on a pristine host, and what it installs. */
module TproxyInstall {
  import opened Firewall
  import opened TproxyRules
  import opened TproxyCleanup

  lemma MakeChain(s: Side, c: Chain, rules: seq<Rule>)
    requires c !in s.chains && CanAllJump(With(s, c, []), rules)
    ensures var cs := [New(c), Flush(c)] + Appends(c, rules);
            AllSucceed(s, cs) && Run(s, cs) == With(s, c, rules)
  {
    var made := With(s, c, []);
    RunTwo(s, New(c), Flush(c));
    WithTwice(s, c, [], []);
    AppendAll(made, c, rules);
    WithTwice(s, c, [], rules);
    assert [] + rules == rules;
    RunAppend(s, [New(c), Flush(c)], Appends(c, rules));
  }

  lemma NoJumps(s: Side, rules: seq<Rule>)
    requires forall r :: r in rules ==> !r.target.Jump?
    ensures CanAllJump(s, rules)
  {
  }

  lemma BypassReturns(p: Plan, f: Family, r: Rule)
    requires r in BypassRules(p, f)
    ensures r.target.Return?
  {
    ReturnRulesMembers(Distinct(Bypassed(p, f), {}), r);
  }

  lemma PreroutingJumps(s: Side, p: Plan, f: Family)
    requires Divert in s.chains
    ensures CanAllJump(s, PreroutingRules(p, f))
  {
    forall r | r in PreroutingRules(p, f) ensures CanJump(s.chains, r) {
      if r in BypassRules(p, f) { BypassReturns(p, f, r); }
    }
  }

  lemma OutputJumps(s: Side, p: Plan, f: Family, mark: bv32)
    ensures CanAllJump(s, OutputRules(p, f, mark))
  {
    forall r | r in OutputRules(p, f, mark) ensures CanJump(s.chains, r) {
      if r in BypassRules(p, f) { BypassReturns(p, f, r); }
    }
  }

  /** The state after the first half without its hook. */
  function AfterIn(s0: Side, p: Plan, f: Family): Side {
    With(With(s0.(rule := true, route := true), Divert, DivertRules()), OwnPrerouting, PreroutingRules(p, f))
  }

  lemma InInstalls(s0: Side, p: Plan, f: Family)
    requires Pristine(s0)
    ensures AllSucceed(s0, SetupIn(p, f)) && Run(s0, SetupIn(p, f)) == AfterIn(s0, p, f)
  {
    var policy := [RuleAdd, RouteAdd];
    var divert := [New(Divert), Flush(Divert)] + Appends(Divert, DivertRules());
    var own := [New(OwnPrerouting), Flush(OwnPrerouting)] + Appends(OwnPrerouting, PreroutingRules(p, f));
    var s1 := s0.(rule := true, route := true);
    var s2 := With(s1, Divert, DivertRules());
    RunTwo(s0, RuleAdd, RouteAdd);
    NoJumps(With(s1, Divert, []), DivertRules());
    MakeChain(s1, Divert, DivertRules());
    PreroutingJumps(With(s2, OwnPrerouting, []), p, f);
    MakeChain(s2, OwnPrerouting, PreroutingRules(p, f));
    RunAppend(s0, policy, divert);
    RunAppend(s0, policy + divert, own);
  }

  function HookIn(s: Side): Side
    requires Prerouting in s.chains
  {
    With(s, Prerouting, s.chains[Prerouting] + [HOOK_IN])
  }

  function HookOut(s: Side): Side
    requires Output in s.chains
  {
    With(s, Output, [HOOK_OUT] + s.chains[Output])
  }

  /** The state after a complete setup. */
  function After(s0: Side, p: Plan, f: Family, mark: bv32): Side
    requires Prerouting in s0.chains && Output in s0.chains
  {
    HookOut(With(HookIn(AfterIn(s0, p, f)), OwnOutput, OutputRules(p, f, mark)))
  }

  /** Commands that all succeed and lead from `s` to `s'`. */
  predicate Leads(s: Side, cs: seq<Command>, s': Side) {
    AllSucceed(s, cs) && Run(s, cs) == s'
  }

  lemma LeadsOn(s: Side, xs: seq<Command>, s1: Side, ys: seq<Command>, s2: Side)
    requires Leads(s, xs, s1) && Leads(s1, ys, s2)
    ensures Leads(s, xs + ys, s2)
  {
    RunAppend(s, xs, ys);
  }

  lemma HooksLead(s: Side)
    requires Prerouting in s.chains && Output in s.chains
    ensures OwnPrerouting in s.chains ==> Leads(s, [Append(Prerouting, HOOK_IN)], HookIn(s))
    ensures OwnOutput in s.chains ==> Leads(s, [Insert(Output, HOOK_OUT)], HookOut(s))
  {
    RunOne(s, Append(Prerouting, HOOK_IN));
    RunOne(s, Insert(Output, HOOK_OUT));
  }

  lemma OutLeads(s: Side, p: Plan, f: Family, mark: bv32)
    requires OwnOutput !in s.chains
    ensures Leads(s, SetupOut(p, f, mark), With(s, OwnOutput, OutputRules(p, f, mark)))
  {
    OutputJumps(With(s, OwnOutput, []), p, f, mark);
    MakeChain(s, OwnOutput, OutputRules(p, f, mark));
  }

  lemma SetupInstalls(s0: Side, p: Plan, f: Family, mark: bv32)
    requires Pristine(s0)
    ensures Leads(s0, FamilySetup(p, f, mark), After(s0, p, f, mark))
  {
    var a, b, c, d := SetupIn(p, f), [Append(Prerouting, HOOK_IN)], SetupOut(p, f, mark), [Insert(Output, HOOK_OUT)];
    var s1 := AfterIn(s0, p, f);
    var s2 := HookIn(s1);
    var s3 := With(s2, OwnOutput, OutputRules(p, f, mark));
    InInstalls(s0, p, f);
    HooksLead(s1);
    LeadsOn(s0, a, s1, b, s2);
    OutLeads(s2, p, f, mark);
    LeadsOn(s0, a + b, s2, c, s3);
    HooksLead(s3);
    LeadsOn(s0, a + b + c, s3, d, HookOut(s3));
  }

  lemma OwnChainTouches(s0: Side, s: Side, a: bool, b: bool, c: Chain, rules: seq<Rule>)
    requires Pristine(s0) && Touched(s0, s, a, b) && Own(c) && AllTame(c, rules)
    ensures Touched(s0, With(s, c, rules), a, b)
  {
  }

  lemma HooksTouch(s0: Side, s: Side, a: bool)
    requires Pristine(s0) && Touched(s0, s, a, false)
    ensures !a ==> Touched(s0, HookIn(s), true, false)
    ensures Touched(s0, HookOut(s), a, true)
  {
  }

  lemma AfterIsInstalled(s0: Side, p: Plan, f: Family, mark: bv32)
    requires Pristine(s0)
    ensures Installed(s0, After(s0, p, f, mark))
  {
    var s1 := s0.(rule := true, route := true);
    var s2 := With(s1, Divert, DivertRules());
    var s3 := AfterIn(s0, p, f);
    var s4 := HookIn(s3);
    PreroutingIsTame(p, f);
    OutputIsTame(p, f, mark);
    PristineIsTouched(s0);
    assert Touched(s0, s1, false, false);
    OwnChainTouches(s0, s1, false, false, Divert, DivertRules());
    OwnChainTouches(s0, s2, false, false, OwnPrerouting, PreroutingRules(p, f));
    HooksTouch(s0, s3, false);
    OwnChainTouches(s0, s4, true, false, OwnOutput, OutputRules(p, f, mark));
    HooksTouch(s0, With(s4, OwnOutput, OutputRules(p, f, mark)), true);
  }

  // ----------------------------------------------------------------- both families

  datatype Kernel = Kernel(v4: Side, v6: Side)

  datatype FamilyCommand = On(family: Family, command: Command)

  function Lift(f: Family, cs: seq<Command>): seq<FamilyCommand> {
    seq(|cs|, i requires 0 <= i < |cs| => On(f, cs[i]))
  }

  function AttemptKernel(k: Kernel, c: FamilyCommand): Kernel {
    match c.family
    case Ipv4 => k.(v4 := Attempt(k.v4, c.command))
    case Ipv6 => k.(v6 := Attempt(k.v6, c.command))
  }

  function RunKernel(k: Kernel, cs: seq<FamilyCommand>): Kernel
    decreases cs
  {
    if cs == [] then k else RunKernel(AttemptKernel(k, cs[0]), cs[1..])
  }

  function SetupCommands(p: Plan, mark: bv32): seq<FamilyCommand> {
    Lift(Ipv4, FamilySetup(p, Ipv4, mark)) + (if p.ipv6 then Lift(Ipv6, FamilySetup(p, Ipv6, mark)) else [])
  }

  function CleanupCommands(p: Plan): seq<FamilyCommand> {
    Lift(Ipv4, FamilyCleanup()) + (if p.ipv6 then Lift(Ipv6, FamilyCleanup()) else [])
  }

  lemma {:induction false} RunLifted(k: Kernel, f: Family, cs: seq<Command>)
    ensures RunKernel(k, Lift(f, cs)) ==
              if f.Ipv4? then k.(v4 := Run(k.v4, cs)) else k.(v6 := Run(k.v6, cs))
    decreases cs
  {
    if cs != [] {
      assert Lift(f, cs)[1..] == Lift(f, cs[1..]);
      RunLifted(AttemptKernel(k, On(f, cs[0])), f, cs[1..]);
    }
  }

  lemma {:induction false} RunKernelAppend(k: Kernel, xs: seq<FamilyCommand>, ys: seq<FamilyCommand>)
    ensures RunKernel(k, xs + ys) == RunKernel(RunKernel(k, xs), ys)
    decreases xs
  {
    if xs == [] {
      assert xs + ys == ys;
    } else {
      assert (xs + ys)[1..] == xs[1..] + ys;
      RunKernelAppend(AttemptKernel(k, xs[0]), xs[1..], ys);
    }
  }

  lemma LiftPrefix(f: Family, cs: seq<Command>, n: nat)
    requires n <= |cs|
    ensures Lift(f, cs)[..n] == Lift(f, cs[..n])
  {
  }

  lemma RunBoth(k: Kernel, a: seq<Command>, b: seq<Command>)
    ensures RunKernel(k, Lift(Ipv4, a) + Lift(Ipv6, b)) == Kernel(Run(k.v4, a), Run(k.v6, b))
  {
    RunKernelAppend(k, Lift(Ipv4, a), Lift(Ipv6, b));
    RunLifted(k, Ipv4, a);
    RunLifted(k.(v4 := Run(k.v4, a)), Ipv6, b);
  }

  lemma BothPrefix(a: seq<Command>, b: seq<Command>, n: nat)
    requires n <= |a| + |b|
    ensures (Lift(Ipv4, a) + Lift(Ipv6, b))[..n] ==
              if n <= |a| then Lift(Ipv4, a[..n]) + Lift(Ipv6, []) else Lift(Ipv4, a) + Lift(Ipv6, b[..n - |a|])
  {
    if n <= |a| { LiftPrefix(Ipv4, a, n); } else { LiftPrefix(Ipv6, b, n - |a|); }
  }

  /** The part of the first `n` commands that is for one family. */
  lemma KernelPrefix(k: Kernel, p: Plan, mark: bv32, n: nat) returns (n4: nat, n6: nat)
    requires n <= |SetupCommands(p, mark)|
    ensures n4 <= |FamilySetup(p, Ipv4, mark)| && n6 <= |FamilySetup(p, Ipv6, mark)| && (!p.ipv6 ==> n6 == 0)
    ensures RunKernel(k, SetupCommands(p, mark)[..n]) ==
              Kernel(Run(k.v4, FamilySetup(p, Ipv4, mark)[..n4]), Run(k.v6, FamilySetup(p, Ipv6, mark)[..n6]))
  {
    var a := FamilySetup(p, Ipv4, mark);
    var b := if p.ipv6 then FamilySetup(p, Ipv6, mark) else [];
    assert SetupCommands(p, mark) == Lift(Ipv4, a) + Lift(Ipv6, b);
    BothPrefix(a, b, n);
    n4, n6 := if n <= |a| then n else |a|, if n <= |a| then 0 else n - |a|;
    assert a[..|a|] == a && b[..0] == [] && FamilySetup(p, Ipv6, mark)[..0] == [];
    RunBoth(k, a[..n4], b[..n6]);
  }

  lemma RunCleanup(k: Kernel, p: Plan)
    ensures RunKernel(k, CleanupCommands(p)) ==
              Kernel(Run(k.v4, FamilyCleanup()), if p.ipv6 then Run(k.v6, FamilyCleanup()) else k.v6)
  {
    var k1 := k.(v4 := Run(k.v4, FamilyCleanup()));
    RunLifted(k, Ipv4, FamilyCleanup());
    if p.ipv6 {
      RunKernelAppend(k, Lift(Ipv4, FamilyCleanup()), Lift(Ipv6, FamilyCleanup()));
      RunLifted(k1, Ipv6, FamilyCleanup());
    } else {
      assert CleanupCommands(p) == Lift(Ipv4, FamilyCleanup());
    }
  }

  /** Setup interrupted anywhere, then cleanup with failing commands skipped, leaves the
      host exactly as it was, whatever the plan excludes. */
  lemma SetupThenCleanupIsIdentity(k: Kernel, p: Plan, mark: bv32, n: nat)
    requires Pristine(k.v4) && (p.ipv6 ==> Pristine(k.v6)) && n <= |SetupCommands(p, mark)|
    ensures RunKernel(RunKernel(k, SetupCommands(p, mark)[..n]), CleanupCommands(p)) == k
  {
    var n4, n6 := KernelPrefix(k, p, mark, n);
    RunCleanup(RunKernel(k, SetupCommands(p, mark)[..n]), p);
    FamilyPrefixUndone(k.v4, p, Ipv4, mark, n4);
    if p.ipv6 {
      FamilyPrefixUndone(k.v6, p, Ipv6, mark, n6);
    } else {
      assert FamilySetup(p, Ipv6, mark)[..0] == [];
    }
  }

  /** A complete setup on a pristine host succeeds, and so does every command of the
      cleanup after it. */
  lemma CompleteSetupAndCleanupSucceed(s0: Side, p: Plan, f: Family, mark: bv32)
    requires Pristine(s0)
    ensures AllSucceed(s0, FamilySetup(p, f, mark))
    ensures AllSucceed(Run(s0, FamilySetup(p, f, mark)), FamilyCleanup())
  {
    SetupInstalls(s0, p, f, mark);
    AfterIsInstalled(s0, p, f, mark);
    CleanupNeverFails(s0, After(s0, p, f, mark));
  }
}
