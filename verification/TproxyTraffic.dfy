/** Which packets the installed rules intercept. */
module TproxyTraffic {
  import opened Firewall
  import opened TproxyRules
  import opened TproxyCleanup
  import opened TproxyInstall

  /** What the matches look at. `to` and `from` say whether the destination and the
      source lie in a network. */
  datatype Packet = Packet(to: string -> bool, from: string -> bool, isLocal: bool, isBroadcast: bool,
                           mark: bv32, protocol: Protocol, hasSocket: bool, outInterface: string)

  predicate Matches(m: Match, p: Packet) {
    match m
    case Always => true
    case Source(cidr) => p.from(cidr)
    case Destination(cidr) => p.to(cidr)
    case LocalDestination => p.isLocal
    case BroadcastDestination => p.isBroadcast
    case Marked(mark) => p.mark == mark
    case Proto(protocol) => p.protocol == protocol
    case SocketOf(protocol) => p.protocol == protocol && p.hasSocket
    case OutInterface(name) => p.outInterface == name
  }

  /** How a packet leaves a list of rules: at its end, by a return, or for good. */
  datatype Outcome =
    | Passed(mark: bv32)
    | Returned(mark: bv32)
    | Accepted(mark: bv32)
    | Dropped
    | Proxied(port: nat, mark: bv32)

  predicate Resumes(o: Outcome) {
    o.Passed? || o.Returned?
  }

  /** `mark` written under `mask`, as the TPROXY target does. */
  function Masked(was: bv32, mark: bv32, mask: bv32): bv32 {
    (was & !mask) ^ mark
  }

  /** What one rule does with a packet: it goes on to the next rule, or leaves. */
  datatype Step = Next(mark: bv32) | Leave(outcome: Outcome)

  /** `depth` bounds nested chains. */
  function OnRule(chains: map<Chain, seq<Rule>>, r: Rule, p: Packet, depth: nat): Step
    decreases depth, 0, 0
  {
    if !Matches(r.when, p) then Next(p.mark)
    else
      match r.target
      case Return => Leave(Returned(p.mark))
      case Accept => Leave(Accepted(p.mark))
      case Drop => Leave(Dropped)
      case SetMark(mark) => Next(mark)
      case Tproxy(port, mark, mask) => Leave(Proxied(port, Masked(p.mark, mark, mask)))
      case Jump(c) =>
        if c !in chains || depth == 0 then Next(p.mark)
        else
          var o := Walk(chains, chains[c], p, depth - 1);
          if Resumes(o) then Next(o.mark) else Leave(o)
  }

  /** A packet on its way through the rules of a chain. */
  function Walk(chains: map<Chain, seq<Rule>>, rules: seq<Rule>, p: Packet, depth: nat): Outcome
    decreases depth, 1, rules
  {
    if rules == [] then Passed(p.mark)
    else
      match OnRule(chains, rules[0], p, depth)
      case Next(mark) => Walk(chains, rules[1..], p.(mark := mark), depth)
      case Leave(o) => o
  }

  lemma SameMark(p: Packet)
    ensures p.(mark := p.mark) == p
  {
  }

  predicate AllReturn(rules: seq<Rule>) {
    forall r :: r in rules ==> r.target.Return?
  }

  predicate SomeMatches(rules: seq<Rule>, p: Packet) {
    exists r :: r in rules && Matches(r.when, p)
  }

  /** A packet that meets a guard leaves the chain as it came. */
  lemma {:induction false} GuardsFirst(chains: map<Chain, seq<Rule>>, guards: seq<Rule>, rest: seq<Rule>,
                                       p: Packet, depth: nat)
    requires AllReturn(guards)
    ensures Walk(chains, guards + rest, p, depth) ==
              if SomeMatches(guards, p) then Returned(p.mark) else Walk(chains, rest, p, depth)
    decreases guards
  {
    SameMark(p);
    if guards == [] {
      assert guards + rest == rest;
    } else {
      var g := guards[0];
      assert g in guards && (guards + rest)[0] == g && (guards + rest)[1..] == guards[1..] + rest;
      assert forall r :: r in guards <==> r == g || r in guards[1..];
      if !Matches(g.when, p) {
        GuardsFirst(chains, guards[1..], rest, p, depth);
        assert SomeMatches(guards, p) <==> SomeMatches(guards[1..], p);
      }
    }
  }

  /** The packet goes to a network of its family among these. */
  predicate GoesTo(nets: seq<Cidr>, f: Family, p: Packet) {
    exists n :: n in nets && n.family == f && p.to(n.text)
  }

  /** To a network that the plan excludes, by either of its lists, or to a fixed one. */
  predicate IsBypassed(plan: Plan, f: Family, p: Packet) {
    || GoesTo(plan.excludeCidrs, f, p)
    || GoesTo(plan.routeExcludes, f, p)
    || (f.Ipv4? && exists t :: t in IPV4_BYPASS && p.to(t))
    || (f.Ipv6? && exists t :: t in IPV6_BYPASS && p.to(t))
  }

  lemma BypassedIsListed(plan: Plan, f: Family, p: Packet)
    ensures IsBypassed(plan, f, p) <==> exists t :: t in Bypassed(plan, f) && p.to(t)
  {
    if t :| t in Bypassed(plan, f) && p.to(t) { BypassedMembers(plan, f, t); }
    if n :| n in plan.excludeCidrs + plan.routeExcludes && n.family == f && p.to(n.text) {
      BypassedMembers(plan, f, n.text);
    }
    if t :| t in BypassCidrs(f) && p.to(t) { BypassedMembers(plan, f, t); }
  }

  /** The bypass rules match exactly the packets to a bypassed network. */
  lemma BypassMatches(plan: Plan, f: Family, p: Packet)
    ensures AllReturn(BypassRules(plan, f))
    ensures SomeMatches(BypassRules(plan, f), p) <==> IsBypassed(plan, f, p)
  {
    var rules := BypassRules(plan, f);
    var texts := Distinct(Bypassed(plan, f), {});
    BypassedIsListed(plan, f, p);
    forall r | r in rules ensures r.target.Return? && (Matches(r.when, p) ==> IsBypassed(plan, f, p)) {
      ReturnRulesMembers(texts, r);
      DistinctMembers(Bypassed(plan, f), {}, r.when.cidr);
    }
    if t :| t in Bypassed(plan, f) && p.to(t) {
      DistinctMembers(Bypassed(plan, f), {}, t);
      ReturnRulesMembers(texts, Rule(Destination(t), Return));
      assert Matches(Destination(t), p);
    }
  }

  /** Guards are a head of return rules and the bypass rules. */
  lemma HeadAndBypass(head: seq<Rule>, plan: Plan, f: Family, p: Packet)
    requires AllReturn(head)
    ensures AllReturn(head + BypassRules(plan, f))
    ensures SomeMatches(head + BypassRules(plan, f), p) <==> SomeMatches(head, p) || IsBypassed(plan, f, p)
  {
    BypassMatches(plan, f, p);
    var all := head + BypassRules(plan, f);
    assert forall r :: r in all <==> r in head || r in BypassRules(plan, f);
  }

  predicate Proxyable(p: Packet) {
    p.protocol.Tcp? || p.protocol.Udp?
  }

  /** Exempt from marking on the way out. */
  predicate ExemptOut(plan: Plan, f: Family, mark: bv32, p: Packet) {
    p.mark == mark || p.isLocal || (f.Ipv4? && p.isBroadcast) || IsBypassed(plan, f, p)
  }

  /** Exempt from interception on the way in. */
  predicate ExemptIn(plan: Plan, f: Family, p: Packet) {
    (f.Ipv4? && p.from(DOCKER)) || p.isLocal || IsBypassed(plan, f, p)
  }

  lemma OutputHeadMatches(f: Family, mark: bv32, p: Packet)
    ensures AllReturn(OutputHead(f, mark))
    ensures SomeMatches(OutputHead(f, mark), p) <==> p.mark == mark || p.isLocal || (f.Ipv4? && p.isBroadcast)
  {
    var head := OutputHead(f, mark);
    assert head[0] in head && head[1] in head && (f.Ipv4? ==> head[2] in head);
  }

  lemma PreroutingHeadMatches(f: Family, p: Packet)
    ensures AllReturn(PreroutingHead(f))
    ensures SomeMatches(PreroutingHead(f), p) <==> (f.Ipv4? && p.from(DOCKER)) || p.isLocal
  {
    var head := PreroutingHead(f);
    assert head[0] in head && (f.Ipv4? ==> head[1] in head);
  }

  /** One rule of a walk. */
  lemma WalkOn(chains: map<Chain, seq<Rule>>, r: Rule, rest: seq<Rule>, p: Packet, depth: nat)
    ensures var step := OnRule(chains, r, p, depth);
            Walk(chains, [r] + rest, p, depth) ==
              if step.Next? then Walk(chains, rest, p.(mark := step.mark), depth) else step.outcome
  {
    assert ([r] + rest)[0] == r && ([r] + rest)[1..] == rest;
  }

  lemma OutputTailMarks(chains: map<Chain, seq<Rule>>, p: Packet, depth: nat)
    ensures Walk(chains, OutputTail(), p, depth) == Passed(if Proxyable(p) then TPROXY_FWMARK else p.mark)
  {
    var tcp, udp := OutputTail()[0], OutputTail()[1];
    SameMark(p);
    assert OutputTail() == [tcp] + ([udp] + []);
    WalkOn(chains, tcp, [udp] + [], p, depth);
    WalkOn(chains, udp, [], p, depth);
    WalkOn(chains, udp, [], p.(mark := TPROXY_FWMARK), depth);
  }

  lemma DivertAccepts(chains: map<Chain, seq<Rule>>, p: Packet, depth: nat)
    ensures Walk(chains, DivertRules(), p, depth) == Accepted(TPROXY_FWMARK)
  {
    var mark, accept := DivertRules()[0], DivertRules()[1];
    assert DivertRules() == [mark] + ([accept] + []);
    WalkOn(chains, mark, [accept] + [], p, depth);
    WalkOn(chains, accept, [], p.(mark := TPROXY_FWMARK), depth);
  }

  function ToProxy(protocol: Protocol): Rule {
    Rule(Proto(protocol), Tproxy(TPROXY_PORT, TPROXY_FWMARK, TPROXY_FWMARK))
  }

  function ToDivert(protocol: Protocol): Rule {
    Rule(SocketOf(protocol), Jump(Divert))
  }

  lemma ToProxyRule(chains: map<Chain, seq<Rule>>, protocol: Protocol, p: Packet, depth: nat)
    ensures OnRule(chains, ToProxy(protocol), p, depth) ==
              if p.protocol == protocol then Leave(Proxied(TPROXY_PORT, Masked(p.mark, TPROXY_FWMARK, TPROXY_FWMARK)))
              else Next(p.mark)
  {
  }

  lemma ToProxyCatches(chains: map<Chain, seq<Rule>>, p: Packet, depth: nat)
    ensures Walk(chains, [ToProxy(Tcp)] + ([ToProxy(Udp)] + []), p, depth) ==
              if !Proxyable(p) then Passed(p.mark)
              else Proxied(TPROXY_PORT, Masked(p.mark, TPROXY_FWMARK, TPROXY_FWMARK))
  {
    SameMark(p);
    ToProxyRule(chains, Tcp, p, depth);
    ToProxyRule(chains, Udp, p, depth);
    WalkOn(chains, ToProxy(Tcp), [ToProxy(Udp)] + [], p, depth);
    WalkOn(chains, ToProxy(Udp), [], p, depth);
  }

  lemma ToDivertCatches(chains: map<Chain, seq<Rule>>, rest: seq<Rule>, p: Packet, depth: nat)
    requires Divert in chains && chains[Divert] == DivertRules() && depth > 0
    ensures Walk(chains, [ToDivert(Tcp)] + ([ToDivert(Udp)] + rest), p, depth) ==
              if Proxyable(p) && p.hasSocket then Accepted(TPROXY_FWMARK) else Walk(chains, rest, p, depth)
  {
    var tcp, udp := ToDivert(Tcp), ToDivert(Udp);
    DivertAccepts(chains, p, depth - 1);
    SameMark(p);
    WalkOn(chains, tcp, [udp] + rest, p, depth);
    WalkOn(chains, udp, rest, p, depth);
  }

  lemma PreroutingTailCatches(chains: map<Chain, seq<Rule>>, p: Packet, depth: nat)
    requires Divert in chains && chains[Divert] == DivertRules() && depth > 0
    ensures Walk(chains, PreroutingTail(), p, depth) ==
              if !Proxyable(p) then Passed(p.mark)
              else if p.hasSocket then Accepted(TPROXY_FWMARK)
              else Proxied(TPROXY_PORT, Masked(p.mark, TPROXY_FWMARK, TPROXY_FWMARK))
  {
    var last := [ToProxy(Tcp)] + ([ToProxy(Udp)] + []);
    assert PreroutingTail() == [ToDivert(Tcp)] + ([ToDivert(Udp)] + last);
    ToDivertCatches(chains, last, p, depth);
    ToProxyCatches(chains, p, depth);
  }

  lemma InstalledChains(s0: Side, plan: Plan, f: Family, mark: bv32)
    requires Pristine(s0)
    ensures var chains := Run(s0, FamilySetup(plan, f, mark)).chains;
            && Divert in chains && chains[Divert] == DivertRules()
            && OwnPrerouting in chains && chains[OwnPrerouting] == PreroutingRules(plan, f)
            && OwnOutput in chains && chains[OwnOutput] == OutputRules(plan, f, mark)
  {
    SetupInstalls(s0, plan, f, mark);
  }

  /** The own chain on the way out: marks exactly what is neither exempt nor of another protocol. */
  lemma OutputWalk(chains: map<Chain, seq<Rule>>, plan: Plan, f: Family, mark: bv32, p: Packet, depth: nat)
    ensures var o := Walk(chains, OutputRules(plan, f, mark), p, depth);
            Resumes(o) && o.mark == if Proxyable(p) && !ExemptOut(plan, f, mark, p) then TPROXY_FWMARK else p.mark
  {
    OutputHeadMatches(f, mark, p);
    HeadAndBypass(OutputHead(f, mark), plan, f, p);
    GuardsFirst(chains, OutputHead(f, mark) + BypassRules(plan, f), OutputTail(), p, depth);
    OutputTailMarks(chains, p, depth);
  }

  /** What becomes of a packet that reaches the incoming hook. */
  function Caught(plan: Plan, f: Family, p: Packet): Outcome {
    if !Proxyable(p) || ExemptIn(plan, f, p) then Passed(p.mark)
    else if p.hasSocket then Accepted(TPROXY_FWMARK)
    else Proxied(TPROXY_PORT, Masked(p.mark, TPROXY_FWMARK, TPROXY_FWMARK))
  }

  /** The own chain on the way in. */
  lemma PreroutingWalk(chains: map<Chain, seq<Rule>>, plan: Plan, f: Family, p: Packet, depth: nat)
    requires Divert in chains && chains[Divert] == DivertRules() && depth > 0
    ensures var o := Walk(chains, PreroutingRules(plan, f), p, depth);
            o == Caught(plan, f, p) || (o == Returned(p.mark) && Caught(plan, f, p) == Passed(p.mark))
  {
    PreroutingHeadMatches(f, p);
    HeadAndBypass(PreroutingHead(f), plan, f, p);
    GuardsFirst(chains, PreroutingHead(f) + BypassRules(plan, f), PreroutingTail(), p, depth);
    PreroutingTailCatches(chains, p, depth);
  }

  // -------------------------------------------------------- the rules of everybody else

  /** Two tables that do not differ on foreign chains, which jump to foreign chains only. */
  ghost predicate SameForeign(a: map<Chain, seq<Rule>>, b: map<Chain, seq<Rule>>) {
    && (forall c: Chain :: c.Foreign? ==> (c in a <==> c in b))
    && (forall c: Chain :: c.Foreign? && c in a ==> a[c] == b[c] && ForeignJumps(a[c]))
  }

  /** Foreign rules do not notice the own chains. */
  lemma {:induction false} ForeignWalk(a: map<Chain, seq<Rule>>, b: map<Chain, seq<Rule>>, rules: seq<Rule>,
                                       p: Packet, depth: nat)
    requires SameForeign(a, b) && ForeignJumps(rules)
    ensures Walk(a, rules, p, depth) == Walk(b, rules, p, depth)
    decreases depth, 1, rules
  {
    if rules != [] {
      var rest := rules[1..];
      assert forall i :: 0 <= i < |rest| ==> rest[i] == rules[i + 1];
      ForeignRule(a, b, rules[0], p, depth);
      var step := OnRule(a, rules[0], p, depth);
      if step.Next? { ForeignWalk(a, b, rest, p.(mark := step.mark), depth); }
    }
  }

  lemma {:induction false} ForeignRule(a: map<Chain, seq<Rule>>, b: map<Chain, seq<Rule>>, r: Rule, p: Packet, depth: nat)
    requires SameForeign(a, b) && (r.target.Jump? ==> r.target.chain.Foreign?)
    ensures OnRule(a, r, p, depth) == OnRule(b, r, p, depth)
    decreases depth, 0, 0
  {
    if r.target.Jump? && r.target.chain in a && depth > 0 {
      ForeignWalk(a, b, a[r.target.chain], p, depth - 1);
    }
  }

  /** Rules behind others are met exactly by what passes those. */
  lemma {:induction false} WalkAppend(chains: map<Chain, seq<Rule>>, rules: seq<Rule>, tail: seq<Rule>,
                                      p: Packet, depth: nat)
    ensures var o := Walk(chains, rules, p, depth);
            Walk(chains, rules + tail, p, depth) ==
              if o.Passed? then Walk(chains, tail, p.(mark := o.mark), depth) else o
    decreases rules
  {
    if rules == [] {
      SameMark(p);
      assert rules + tail == tail;
    } else {
      assert (rules + tail)[0] == rules[0] && (rules + tail)[1..] == rules[1..] + tail;
      var step := OnRule(chains, rules[0], p, depth);
      if step.Next? { WalkAppend(chains, rules[1..], tail, p.(mark := step.mark), depth); }
    }
  }

  // ------------------------------------------------------------------- main results

  lemma ForeignUntouched(s0: Side, plan: Plan, f: Family, mark: bv32)
    requires Pristine(s0)
    ensures SameForeign(s0.chains, After(s0, plan, f, mark).chains)
  {
  }

  lemma HooksInstalled(s0: Side, plan: Plan, f: Family, mark: bv32)
    requires Pristine(s0)
    ensures var chains := After(s0, plan, f, mark).chains;
            && Output in chains && chains[Output] == [HOOK_OUT] + s0.chains[Output]
            && Prerouting in chains && chains[Prerouting] == s0.chains[Prerouting] + [HOOK_IN]
  {
  }

  /** The mark with which a packet leaves the outgoing hook. */
  function MarkedOut(plan: Plan, f: Family, mark: bv32, p: Packet): Packet {
    if p.outInterface == ROUTE_IFACE && Proxyable(p) && !ExemptOut(plan, f, mark, p)
    then p.(mark := TPROXY_FWMARK) else p
  }

  lemma HookOutWalk(chains: map<Chain, seq<Rule>>, rest: seq<Rule>, plan: Plan, f: Family, mark: bv32,
                    p: Packet, depth: nat)
    requires OwnOutput in chains && chains[OwnOutput] == OutputRules(plan, f, mark) && depth > 0
    ensures Walk(chains, [HOOK_OUT] + rest, p, depth) == Walk(chains, rest, MarkedOut(plan, f, mark, p), depth)
  {
    OutputWalk(chains, plan, f, mark, p, depth - 1);
    WalkOn(chains, HOOK_OUT, rest, p, depth);
    SameMark(p);
  }

  lemma HookInWalk(chains: map<Chain, seq<Rule>>, plan: Plan, f: Family, p: Packet, depth: nat)
    requires OwnPrerouting in chains && chains[OwnPrerouting] == PreroutingRules(plan, f)
    requires Divert in chains && chains[Divert] == DivertRules() && depth > 1
    ensures Walk(chains, [HOOK_IN], p, depth) == Caught(plan, f, p)
  {
    PreroutingWalk(chains, plan, f, p, depth - 1);
    WalkOn(chains, HOOK_IN, [], p, depth);
    assert [HOOK_IN] + [] == [HOOK_IN];
  }

  /** What happens to a packet in OUTPUT after setup is what happened to it before, but
      that a TCP or UDP packet which goes out on `lo` and is not exempt bears the proxy
      mark from the start. Every other packet is treated exactly as before: in
      particular the proxy's own traffic, which bears the outbound mark, traffic to an
      excluded network, and all that goes out on another interface. */
  lemma OutputMarks(s0: Side, plan: Plan, f: Family, mark: bv32, p: Packet, depth: nat)
    requires Pristine(s0) && depth > 0
    ensures var chains := Run(s0, FamilySetup(plan, f, mark)).chains;
            && Output in chains
            && Walk(chains, chains[Output], p, depth) ==
                 Walk(s0.chains, s0.chains[Output], MarkedOut(plan, f, mark, p), depth)
  {
    var chains := After(s0, plan, f, mark).chains;
    SetupInstalls(s0, plan, f, mark);
    InstalledChains(s0, plan, f, mark);
    HooksInstalled(s0, plan, f, mark);
    HookOutWalk(chains, s0.chains[Output], plan, f, mark, p, depth);
    ForeignUntouched(s0, plan, f, mark);
    ForeignWalk(s0.chains, chains, s0.chains[Output], MarkedOut(plan, f, mark, p), depth);
  }

  /** What happens to a packet in PREROUTING after setup is what happened to it before;
      only a packet that passed all rules of the host comes to the hook, and there
      exactly the TCP and UDP packets that are not exempt are caught: those of a known
      socket are diverted, the others handed to the proxy's port. */
  lemma PreroutingCatches(s0: Side, plan: Plan, f: Family, mark: bv32, p: Packet, depth: nat)
    requires Pristine(s0) && depth > 1
    ensures var chains := Run(s0, FamilySetup(plan, f, mark)).chains;
            var before := Walk(s0.chains, s0.chains[Prerouting], p, depth);
            && Prerouting in chains
            && Walk(chains, chains[Prerouting], p, depth) ==
                 if before.Passed? then Caught(plan, f, p.(mark := before.mark)) else before
  {
    var chains := After(s0, plan, f, mark).chains;
    SetupInstalls(s0, plan, f, mark);
    InstalledChains(s0, plan, f, mark);
    HooksInstalled(s0, plan, f, mark);
    ForeignUntouched(s0, plan, f, mark);
    ForeignWalk(s0.chains, chains, s0.chains[Prerouting], p, depth);
    var before := Walk(s0.chains, s0.chains[Prerouting], p, depth);
    WalkAppend(chains, s0.chains[Prerouting], [HOOK_IN], p, depth);
    if before.Passed? { HookInWalk(chains, plan, f, p.(mark := before.mark), depth); }
  }
}
