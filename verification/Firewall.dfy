/** The part of a packet filter the TPROXY command lists drive, for one address family:
    the mangle table's chains, one policy rule and one route. Chains of other owners
    may hold anything. */
module Firewall {
  import opened Wrappers

  /** The two hooks, the proxy's own three chains, and everybody else's. */
  datatype Chain = Prerouting | Output | Divert | OwnPrerouting | OwnOutput | Foreign(name: string)

  predicate Own(c: Chain) {
    c.Divert? || c.OwnPrerouting? || c.OwnOutput?
  }

  datatype Protocol = Tcp | Udp | OtherProtocol

  datatype Match =
    | Always
    | Source(cidr: string)
    | Destination(cidr: string)
    | LocalDestination
    | BroadcastDestination
    | Marked(mark: bv32)
    | Proto(protocol: Protocol)
    | SocketOf(protocol: Protocol)
    | OutInterface(name: string)

  datatype Target =
    | Return
    | Accept
    | Drop
    | SetMark(mark: bv32)
    | Tproxy(port: nat, mark: bv32, mask: bv32)
    | Jump(chain: Chain)

  datatype Rule = Rule(when: Match, target: Target)

  datatype Side = Side(chains: map<Chain, seq<Rule>>, rule: bool, route: bool)

  datatype Command =
    | RuleAdd
    | RuleDel
    | RouteAdd
    | RouteDel
    | New(chain: Chain)
    | Flush(chain: Chain)
    | Remove(chain: Chain)
    | Append(chain: Chain, what: Rule)
    | Insert(chain: Chain, what: Rule)
    | Delete(chain: Chain, what: Rule)

  predicate Mentions(rules: seq<Rule>, c: Chain) {
    exists i :: 0 <= i < |rules| && rules[i].target == Jump(c)
  }

  predicate Referenced(chains: map<Chain, seq<Rule>>, c: Chain) {
    exists d :: d in chains && Mentions(chains[d], c)
  }

  function WithoutFirst(rules: seq<Rule>, r: Rule): seq<Rule> {
    if rules == [] then [] else if rules[0] == r then rules[1..] else [rules[0]] + WithoutFirst(rules[1..], r)
  }

  /** Only an existing chain can be jumped to, and never a hook. */
  predicate CanJump(chains: map<Chain, seq<Rule>>, r: Rule) {
    r.target.Jump? ==> r.target.chain in chains && !r.target.chain.Prerouting? && !r.target.chain.Output?
  }

  /** The state after a command, or nothing if it fails. */
  function Execute(s: Side, c: Command): Option<Side> {
    match c
    case RuleAdd => if s.rule then None else Some(s.(rule := true))
    case RuleDel => if s.rule then Some(s.(rule := false)) else None
    case RouteAdd => if s.route then None else Some(s.(route := true))
    case RouteDel => if s.route then Some(s.(route := false)) else None
    case New(d) => if d in s.chains then None else Some(s.(chains := s.chains[d := []]))
    case Flush(d) => if d in s.chains then Some(s.(chains := s.chains[d := []])) else None
    case Remove(d) =>
      if d in s.chains && s.chains[d] == [] && !Referenced(s.chains, d) then Some(s.(chains := s.chains - {d}))
      else None
    case Append(d, r) =>
      if d in s.chains && CanJump(s.chains, r) then Some(s.(chains := s.chains[d := s.chains[d] + [r]])) else None
    case Insert(d, r) =>
      if d in s.chains && CanJump(s.chains, r) then Some(s.(chains := s.chains[d := [r] + s.chains[d]])) else None
    case Delete(d, r) =>
      if d in s.chains && r in s.chains[d] then Some(s.(chains := s.chains[d := WithoutFirst(s.chains[d], r)]))
      else None
  }

  /** A command whose failure is ignored. */
  function Attempt(s: Side, c: Command): Side {
    if Execute(s, c).Some? then Execute(s, c).value else s
  }

  function Run(s: Side, cs: seq<Command>): Side
    decreases cs
  {
    if cs == [] then s else Run(Attempt(s, cs[0]), cs[1..])
  }

  predicate AllSucceed(s: Side, cs: seq<Command>)
    decreases cs
  {
    cs == [] || (Execute(s, cs[0]).Some? && AllSucceed(Attempt(s, cs[0]), cs[1..]))
  }

  lemma {:induction false} RunAppend(s: Side, xs: seq<Command>, ys: seq<Command>)
    ensures Run(s, xs + ys) == Run(Run(s, xs), ys)
    ensures AllSucceed(s, xs + ys) <==> AllSucceed(s, xs) && AllSucceed(Run(s, xs), ys)
    decreases xs
  {
    if xs == [] {
      assert xs + ys == ys;
    } else {
      assert (xs + ys)[1..] == xs[1..] + ys;
      RunAppend(Attempt(s, xs[0]), xs[1..], ys);
    }
  }

  lemma RunOne(s: Side, c: Command)
    ensures Run(s, [c]) == Attempt(s, c)
    ensures AllSucceed(s, [c]) <==> Execute(s, c).Some?
  {
    assert [c][1..] == [];
  }

  lemma RunTwo(s: Side, c: Command, d: Command)
    ensures Run(s, [c, d]) == Attempt(Attempt(s, c), d)
    ensures AllSucceed(s, [c, d]) <==> Execute(s, c).Some? && Execute(Attempt(s, c), d).Some?
  {
    assert [c, d] == [c] + [d];
    RunAppend(s, [c], [d]);
    RunOne(s, c);
    RunOne(Attempt(s, c), d);
  }

  function Appends(c: Chain, rules: seq<Rule>): seq<Command> {
    if rules == [] then [] else [Append(c, rules[0])] + Appends(c, rules[1..])
  }

  function With(s: Side, c: Chain, rules: seq<Rule>): Side {
    s.(chains := s.chains[c := rules])
  }

  predicate CanAllJump(s: Side, rules: seq<Rule>) {
    forall r :: r in rules ==> CanJump(s.chains, r)
  }

  lemma AppendOne(s: Side, c: Chain, rules: seq<Rule>)
    requires c in s.chains && rules != [] && CanAllJump(s, rules)
    ensures Execute(s, Append(c, rules[0])) == Some(With(s, c, s.chains[c] + [rules[0]]))
    ensures CanAllJump(With(s, c, s.chains[c] + [rules[0]]), rules[1..])
  {
    var s' := With(s, c, s.chains[c] + [rules[0]]);
    assert rules[0] in rules;
    forall r | r in rules[1..] ensures CanJump(s'.chains, r) {
      assert r in rules;
    }
  }

  lemma WithTwice(s: Side, c: Chain, a: seq<Rule>, b: seq<Rule>)
    ensures With(With(s, c, a), c, b) == With(s, c, b)
  {
    assert s.chains[c := a][c := b] == s.chains[c := b];
  }

  predicate AppendsAll(s: Side, c: Chain, rules: seq<Rule>)
    requires c in s.chains
  {
    AllSucceed(s, Appends(c, rules)) && Run(s, Appends(c, rules)) == With(s, c, s.chains[c] + rules)
  }

  lemma AppendNone(s: Side, c: Chain)
    requires c in s.chains
    ensures AppendsAll(s, c, [])
  {
    assert s.chains[c] + [] == s.chains[c];
    assert s.chains[c := s.chains[c]] == s.chains;
  }

  lemma Regroup(x: seq<Rule>, rules: seq<Rule>)
    requires rules != []
    ensures (x + [rules[0]]) + rules[1..] == x + rules
  {
  }

  lemma RunCons(s: Side, c: Command, cs: seq<Command>)
    ensures Run(s, [c] + cs) == Run(Attempt(s, c), cs)
    ensures AllSucceed(s, [c] + cs) <==> Execute(s, c).Some? && AllSucceed(Attempt(s, c), cs)
  {
    assert ([c] + cs)[1..] == cs;
  }

  lemma AppendStep(s: Side, c: Chain, rules: seq<Rule>)
    requires c in s.chains && rules != []
    requires var s' := With(s, c, s.chains[c] + [rules[0]]);
             Execute(s, Append(c, rules[0])) == Some(s') && AppendsAll(s', c, rules[1..])
    ensures AppendsAll(s, c, rules)
  {
    var a := s.chains[c] + [rules[0]];
    RunCons(s, Append(c, rules[0]), Appends(c, rules[1..]));
    WithTwice(s, c, a, a + rules[1..]);
    Regroup(s.chains[c], rules);
  }

  lemma {:induction false} AppendAll(s: Side, c: Chain, rules: seq<Rule>)
    requires c in s.chains && CanAllJump(s, rules)
    ensures AppendsAll(s, c, rules)
    decreases rules
  {
    if rules == [] {
      AppendNone(s, c);
    } else {
      AppendOne(s, c, rules);
      AppendAll(With(s, c, s.chains[c] + [rules[0]]), c, rules[1..]);
      AppendStep(s, c, rules);
    }
  }

  lemma {:induction false} WithoutFirstAbsent(rules: seq<Rule>, r: Rule)
    requires r !in rules
    ensures WithoutFirst(rules + [r], r) == rules
  {
    if rules == [] {
      assert rules + [r] == [r];
    } else {
      assert (rules + [r])[1..] == rules[1..] + [r];
      WithoutFirstAbsent(rules[1..], r);
    }
  }
}
