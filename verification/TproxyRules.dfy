/** The command lists of crates/core-capture/src/tproxy_rules.rs, and what they do to
    a host that holds none of the proxy's chains or rules. */
module TproxyRules {
  import opened Firewall

  const TPROXY_FWMARK: bv32 := 0x2d0
  const TPROXY_PORT: nat := 7894
  const ROUTE_IFACE := "lo"

  datatype Family = Ipv4 | Ipv6

  /** A network as it is written on a command line. */
  datatype Cidr = Cidr(family: Family, text: string)

  datatype Plan = Plan(excludeCidrs: seq<Cidr>, routeExcludes: seq<Cidr>, ipv6: bool)

  const IPV4_BYPASS := [
    "0.0.0.0/8", "10.0.0.0/8", "100.64.0.0/10", "127.0.0.0/8", "169.254.0.0/16", "172.16.0.0/12",
    "192.0.0.0/24", "192.0.2.0/24", "192.88.99.0/24", "192.168.0.0/16", "198.51.100.0/24",
    "203.0.113.0/24", "224.0.0.0/4", "240.0.0.0/4", "255.255.255.255/32"]

  const IPV6_BYPASS := [
    "::/128", "::1/128", "::ffff:0:0/96", "100::/64", "2001:db8::/32", "fc00::/7", "fe80::/10", "ff00::/8"]

  function BypassCidrs(f: Family): seq<string> {
    if f.Ipv4? then IPV4_BYPASS else IPV6_BYPASS
  }

  const DOCKER := "172.17.0.0/16"

  // --------------------------------------------------------------- bypassed networks

  /** The networks of one family, in the order given. */
  function OfFamily(nets: seq<Cidr>, f: Family): seq<string> {
    if nets == [] then []
    else (if nets[0].family == f then [nets[0].text] else []) + OfFamily(nets[1..], f)
  }

  /** Every text once, at its first place. */
  function Distinct(texts: seq<string>, seen: set<string>): seq<string> {
    if texts == [] then []
    else if texts[0] in seen then Distinct(texts[1..], seen)
    else [texts[0]] + Distinct(texts[1..], seen + {texts[0]})
  }

  /** All networks that must be left alone. */
  function Bypassed(p: Plan, f: Family): seq<string> {
    OfFamily(p.excludeCidrs + p.routeExcludes, f) + BypassCidrs(f)
  }

  function ReturnRules(texts: seq<string>): seq<Rule> {
    if texts == [] then [] else [Rule(Destination(texts[0]), Return)] + ReturnRules(texts[1..])
  }

  function BypassRules(p: Plan, f: Family): seq<Rule> {
    ReturnRules(Distinct(Bypassed(p, f), {}))
  }

  /** A network of this family, written like this, is among them. */
  predicate Names(nets: seq<Cidr>, f: Family, text: string) {
    exists n :: n in nets && n.family == f && n.text == text
  }

  lemma {:induction false} OfFamilyMembers(nets: seq<Cidr>, f: Family, text: string)
    ensures text in OfFamily(nets, f) <==> Names(nets, f, text)
    decreases nets
  {
    if nets != [] {
      OfFamilyMembers(nets[1..], f, text);
      assert forall n :: n in nets <==> n == nets[0] || n in nets[1..];
    }
  }

  /** What is left alone: the networks of the family that the plan excludes by either of
      its lists, the fixed ones, and nothing else. */
  lemma BypassedMembers(p: Plan, f: Family, text: string)
    ensures text in Bypassed(p, f) <==>
              || Names(p.excludeCidrs, f, text) || Names(p.routeExcludes, f, text)
              || (f.Ipv4? && text in IPV4_BYPASS) || (f.Ipv6? && text in IPV6_BYPASS)
  {
    var nets := p.excludeCidrs + p.routeExcludes;
    OfFamilyMembers(nets, f, text);
    assert forall n :: n in nets <==> n in p.excludeCidrs || n in p.routeExcludes;
  }

  lemma {:induction false} DistinctMembers(texts: seq<string>, seen: set<string>, t: string)
    ensures t in Distinct(texts, seen) <==> t in texts && t !in seen
    decreases texts
  {
    if texts != [] {
      DistinctMembers(texts[1..], seen, t);
      DistinctMembers(texts[1..], seen + {texts[0]}, t);
      assert t in texts <==> t == texts[0] || t in texts[1..];
    }
  }

  lemma {:induction false} DistinctIsDistinct(texts: seq<string>, seen: set<string>, i: nat, j: nat)
    requires i < j < |Distinct(texts, seen)|
    ensures Distinct(texts, seen)[i] != Distinct(texts, seen)[j]
    decreases texts
  {
    if texts[0] in seen {
      DistinctIsDistinct(texts[1..], seen, i, j);
    } else {
      var rest := Distinct(texts[1..], seen + {texts[0]});
      if i > 0 {
        DistinctIsDistinct(texts[1..], seen + {texts[0]}, i - 1, j - 1);
      } else {
        assert rest[j - 1] in rest;
        DistinctMembers(texts[1..], seen + {texts[0]}, rest[j - 1]);
      }
    }
  }

  lemma {:induction false} ReturnRulesMembers(texts: seq<string>, r: Rule)
    ensures r in ReturnRules(texts) <==> r.target.Return? && r.when.Destination? && r.when.cidr in texts
    decreases texts
  {
    if texts != [] {
      ReturnRulesMembers(texts[1..], r);
      assert r in ReturnRules(texts) <==> r == ReturnRules(texts)[0] || r in ReturnRules(texts)[1..];
    }
  }

  // ------------------------------------------------------------------- the commands

  function DivertRules(): seq<Rule> {
    [Rule(Always, SetMark(TPROXY_FWMARK)), Rule(Always, Accept)]
  }

  /** What a packet must pass before it is intercepted on its way in ... */
  function PreroutingHead(f: Family): seq<Rule> {
    (if f.Ipv4? then [Rule(Source(DOCKER), Return)] else []) + [Rule(LocalDestination, Return)]
  }

  /** ... and how it is intercepted. */
  function PreroutingTail(): seq<Rule> {
    [Rule(SocketOf(Tcp), Jump(Divert)), Rule(SocketOf(Udp), Jump(Divert)),
     Rule(Proto(Tcp), Tproxy(TPROXY_PORT, TPROXY_FWMARK, TPROXY_FWMARK)),
     Rule(Proto(Udp), Tproxy(TPROXY_PORT, TPROXY_FWMARK, TPROXY_FWMARK))]
  }

  function PreroutingRules(p: Plan, f: Family): seq<Rule> {
    PreroutingHead(f) + BypassRules(p, f) + PreroutingTail()
  }

  /** What a packet must pass before it is marked on its way out. */
  function OutputHead(f: Family, mark: bv32): seq<Rule> {
    [Rule(Marked(mark), Return), Rule(LocalDestination, Return)]
    + (if f.Ipv4? then [Rule(BroadcastDestination, Return)] else [])
  }

  function OutputTail(): seq<Rule> {
    [Rule(Proto(Tcp), SetMark(TPROXY_FWMARK)), Rule(Proto(Udp), SetMark(TPROXY_FWMARK))]
  }

  function OutputRules(p: Plan, f: Family, mark: bv32): seq<Rule> {
    OutputHead(f, mark) + BypassRules(p, f) + OutputTail()
  }

  const HOOK_IN := Rule(Always, Jump(OwnPrerouting))
  const HOOK_OUT := Rule(OutInterface(ROUTE_IFACE), Jump(OwnOutput))

  /** Up to the first hook, the second part, and its hook. */
  function SetupIn(p: Plan, f: Family): seq<Command> {
    [RuleAdd, RouteAdd] + ([New(Divert), Flush(Divert)] + Appends(Divert, DivertRules()))
    + ([New(OwnPrerouting), Flush(OwnPrerouting)] + Appends(OwnPrerouting, PreroutingRules(p, f)))
  }

  function SetupOut(p: Plan, f: Family, mark: bv32): seq<Command> {
    [New(OwnOutput), Flush(OwnOutput)] + Appends(OwnOutput, OutputRules(p, f, mark))
  }

  function FamilySetup(p: Plan, f: Family, mark: bv32): seq<Command> {
    SetupIn(p, f) + [Append(Prerouting, HOOK_IN)] + SetupOut(p, f, mark) + [Insert(Output, HOOK_OUT)]
  }

  function FlushAndRemove(c: Chain): seq<Command> {
    [Flush(c), Remove(c)]
  }

  function FamilyCleanup(): seq<Command> {
    [RuleDel, RouteDel] + [Delete(Prerouting, HOOK_IN), Delete(Output, HOOK_OUT)]
    + FlushAndRemove(OwnPrerouting) + FlushAndRemove(Divert) + FlushAndRemove(OwnOutput)
  }

  // ------------------------------------------------------- the commands, appended

  lemma {:induction false} AppendsSplit(c: Chain, xs: seq<Rule>, ys: seq<Rule>)
    ensures Appends(c, xs + ys) == Appends(c, xs) + Appends(c, ys)
    decreases xs
  {
    if xs == [] {
      assert xs + ys == ys;
    } else {
      assert (xs + ys)[1..] == xs[1..] + ys;
      AppendsSplit(c, xs[1..], ys);
    }
  }

  lemma {:induction false} DistinctOneMore(texts: seq<string>, seen: set<string>, t: string)
    ensures Distinct(texts + [t], seen) == Distinct(texts, seen) + (if t in seen || t in texts then [] else [t])
    decreases texts
  {
    if texts == [] {
      assert texts + [t] == [t] && [t][1..] == [];
    } else {
      assert (texts + [t])[1..] == texts[1..] + [t];
      assert t in texts <==> t == texts[0] || t in texts[1..];
      DistinctOneMore(texts[1..], seen, t);
      DistinctOneMore(texts[1..], seen + {texts[0]}, t);
    }
  }

  lemma {:induction false} ReturnRulesOneMore(texts: seq<string>, t: string)
    ensures ReturnRules(texts + [t]) == ReturnRules(texts) + [Rule(Destination(t), Return)]
    decreases texts
  {
    if texts == [] {
      assert texts + [t] == [t];
    } else {
      assert (texts + [t])[1..] == texts[1..] + [t];
      ReturnRulesOneMore(texts[1..], t);
    }
  }

  /** The commands for the texts met so far, of which `seen` is the set. */
  ghost predicate Pushed(commands: seq<Command>, chain: Chain, texts: seq<string>, seen: set<string>) {
    && commands == Appends(chain, ReturnRules(Distinct(texts, {})))
    && (forall t :: t in seen <==> t in texts)
  }

  method PushBypassRule(commands: seq<Command>, chain: Chain, text: string, seen: set<string>, ghost texts: seq<string>)
    returns (commands': seq<Command>, seen': set<string>)
    requires Pushed(commands, chain, texts, seen)
    ensures Pushed(commands', chain, texts + [text], seen')
  {
    commands', seen' := commands, seen;
    DistinctOneMore(texts, {}, text);
    if text !in seen {
      var r := Rule(Destination(text), Return);
      ReturnRulesOneMore(Distinct(texts, {}), text);
      AppendsSplit(chain, ReturnRules(Distinct(texts, {})), [r]);
      commands' := commands + [Append(chain, r)];
      seen' := seen + {text};
    } else {
      assert Distinct(texts + [text], {}) == Distinct(texts, {});
    }
  }

  lemma OfFamilyOneMore(nets: seq<Cidr>, n: Cidr, f: Family)
    ensures OfFamily(nets + [n], f) == OfFamily(nets, f) + (if n.family == f then [n.text] else [])
    decreases nets
  {
    if nets == [] {
      assert nets + [n] == [n];
    } else {
      assert (nets + [n])[1..] == nets[1..] + [n];
      OfFamilyOneMore(nets[1..], n, f);
    }
  }

  method PushExcluded(chain: Chain, nets: seq<Cidr>, f: Family) returns (commands: seq<Command>, seen: set<string>)
    ensures Pushed(commands, chain, OfFamily(nets, f), seen)
  {
    commands, seen := [], {};
    for i := 0 to |nets|
      invariant Pushed(commands, chain, OfFamily(nets[..i], f), seen)
    {
      ghost var before := OfFamily(nets[..i], f);
      assert nets[..i + 1] == nets[..i] + [nets[i]];
      OfFamilyOneMore(nets[..i], nets[i], f);
      if nets[i].family == f {
        commands, seen := PushBypassRule(commands, chain, nets[i].text, seen, before);
      } else {
        assert before + [] == before;
      }
    }
    assert nets[..|nets|] == nets;
  }

  method PushFixed(before: seq<Command>, chain: Chain, fixed: seq<string>, seen: set<string>, ghost texts: seq<string>)
    returns (commands: seq<Command>)
    requires Pushed(before, chain, texts, seen)
    ensures commands == Appends(chain, ReturnRules(Distinct(texts + fixed, {})))
  {
    var met := seen;
    commands := before;
    assert texts + fixed[..0] == texts;
    for i := 0 to |fixed|
      invariant Pushed(commands, chain, texts + fixed[..i], met)
    {
      assert texts + fixed[..i + 1] == (texts + fixed[..i]) + [fixed[i]];
      commands, met := PushBypassRule(commands, chain, fixed[i], met, texts + fixed[..i]);
    }
    assert fixed[..|fixed|] == fixed;
  }

  /** The return rules of a chain: first the plan's networks, then the fixed ones, none twice. */
  method AppendBypassRules(chain: Chain, p: Plan, f: Family) returns (commands: seq<Command>)
    ensures commands == Appends(chain, BypassRules(p, f))
  {
    var nets := p.excludeCidrs + p.routeExcludes;
    var seen;
    commands, seen := PushExcluded(chain, nets, f);
    commands := PushFixed(commands, chain, BypassCidrs(f), seen, OfFamily(nets, f));
  }

  /** A chain from its head, the bypassed networks and its tail. */
  method AppendChain(chain: Chain, head: seq<Rule>, p: Plan, f: Family, tail: seq<Rule>) returns (commands: seq<Command>)
    ensures commands == [New(chain), Flush(chain)] + Appends(chain, head + BypassRules(p, f) + tail)
  {
    var bypass := AppendBypassRules(chain, p, f);
    AppendsSplit(chain, head, BypassRules(p, f));
    AppendsSplit(chain, head + BypassRules(p, f), tail);
    commands := [New(chain), Flush(chain)] + (Appends(chain, head) + bypass + Appends(chain, tail));
  }

  method AppendFamilySetup(p: Plan, f: Family, mark: bv32) returns (commands: seq<Command>)
    ensures commands == FamilySetup(p, f, mark)
  {
    commands := [RuleAdd, RouteAdd];
    commands := commands + ([New(Divert), Flush(Divert)] + Appends(Divert, DivertRules()));
    var inward := AppendChain(OwnPrerouting, PreroutingHead(f), p, f, PreroutingTail());
    commands := commands + inward;
    commands := commands + [Append(Prerouting, HOOK_IN)];
    var outward := AppendChain(OwnOutput, OutputHead(f, mark), p, f, OutputTail());
    commands := commands + outward;
    commands := commands + [Insert(Output, HOOK_OUT)];
  }
}
