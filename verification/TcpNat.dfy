/** The TCP NAT port table (crates/core-capture/src/tcp_nat.rs): a port allocator
    with two indexes that must stay inverse, scanned from a 16-bit cursor.

    Each method is one atomic step; the clock reading is a parameter.
 */
module TcpNatTable {
  import opened Bytes
  import opened Wrappers

  const PORT_START: nat := 30000
  const PORT_END: nat := 65535
  const PORT_SPAN: nat := 35536
  const U16: nat := 65536

  datatype Key = Key(source: SocketAddr, destination: SocketAddr)

  datatype Session = Session(key: Key, lastSeen: int)

  // ---------------------------------------------------------- the port scan

  /** Wrapping subtraction, then the remainder. */
  function PortInRange(raw: nat): (port: u16)
    requires raw < U16
    ensures PORT_START <= port <= PORT_END
  {
    PORT_START + ((raw + U16 - PORT_START) % U16) % PORT_SPAN
  }

  /** The port tried at step `i` of a scan that starts at cursor `c`. */
  function PortTried(c: nat, i: nat): u16 {
    PortInRange((c + i) % U16)
  }

  predicate Visited(c: nat, port: nat) {
    exists i: nat :: i < PORT_SPAN && PortTried(c, i) == port
  }

  /** The ports a full scan visits, in closed form. Cursors below the range miss the
      top ports; cursors above 60000 miss the ports from 60000 up to the cursor. */
  predicate Reachable(c: nat, port: nat) {
    && PORT_START <= port <= PORT_END
    && if c < PORT_START then port <= 59999 || port <= c + 35535
       else port <= 59999 || port >= c || c <= 60000
  }

  lemma PortInRangeCases(raw: nat)
    requires raw < U16
    ensures raw >= PORT_START ==> PortInRange(raw) == raw
    ensures raw < PORT_START ==> PortInRange(raw) == raw + PORT_START
  {
  }

  lemma ScanReaches(c: nat, i: nat)
    requires c < U16 && i < PORT_SPAN
    ensures Reachable(c, PortTried(c, i))
  {
    PortInRangeCases((c + i) % U16);
  }

  /** The step at which a reachable port is tried. */
  function StepOf(c: nat, port: nat): nat
    requires c < U16 && Reachable(c, port)
  {
    if c < PORT_START then
      if port <= c + 35535 then port - c else port - PORT_START - c
    else if port >= c then port - c
    else port - PORT_START + U16 - c
  }

  /** A scan visits exactly the reachable ports. */
  lemma ScanIsExact(c: nat, port: nat)
    requires c < U16
    ensures Visited(c, port) <==> Reachable(c, port)
  {
    if Reachable(c, port) {
      var i := StepOf(c, port);
      PortInRangeCases((c + i) % U16);
      assert PortTried(c, i) == port;
    }
    if Visited(c, port) {
      var i: nat :| i < PORT_SPAN && PortTried(c, i) == port;
      ScanReaches(c, i);
    }
  }

  /** Every scan visits the lower 30000 ports; it visits the whole range exactly
      when the cursor is between 30000 and 60000. */
  lemma ScanCoverage(c: nat)
    requires c < U16
    ensures forall port :: PORT_START <= port <= 59999 ==> Reachable(c, port)
    ensures (forall port :: PORT_START <= port <= PORT_END ==> Reachable(c, port)) <==> PORT_START <= c <= 60000
  {
    if c < PORT_START {
      assert !Reachable(c, PORT_END);
    } else if c > 60000 {
      assert !Reachable(c, 60000);
    }
  }

  // -------------------------------------------------------------- the table

  datatype Table = Table(cursor: nat, byPort: map<u16, Session>, byKey: map<Key, u16>)

  const EMPTY := Table(PORT_START, map[], map[])

  /** The two indexes are inverse, and every port is in range. */
  predicate Wf(t: Table) {
    && t.cursor < U16
    && (forall p :: p in t.byPort ==>
          PORT_START <= p <= PORT_END && t.byPort[p].key in t.byKey && t.byKey[t.byPort[p].key] == p)
    && (forall k :: k in t.byKey ==> t.byKey[k] in t.byPort && t.byPort[t.byKey[k]].key == k)
  }

  /** The first step of the scan, from step `i` on, that finds a free port. */
  function FirstFree(t: Table, i: nat): (r: Option<nat>)
    decreases PORT_SPAN - i
  {
    if i >= PORT_SPAN then None
    else if PortTried(t.cursor, i) !in t.byPort then Some(i)
    else FirstFree(t, i + 1)
  }

  lemma {:induction false} FirstFreeFound(t: Table, i: nat)
    ensures var r := FirstFree(t, i);
            && (r.Some? ==> i <= r.value < PORT_SPAN && PortTried(t.cursor, r.value) !in t.byPort)
            && (r.None? ==> forall j: nat :: i <= j < PORT_SPAN ==> PortTried(t.cursor, j) in t.byPort)
    decreases PORT_SPAN - i
  {
    if i < PORT_SPAN { FirstFreeFound(t, i + 1); }
  }

  lemma CursorStep(c: nat, i: nat)
    ensures ((c + i) % U16 + 1) % U16 == (c + i + 1) % U16
  {
  }

  function Touch(t: Table, port: u16, now: int): Table
    requires port in t.byPort
  {
    t.(byPort := t.byPort[port := Session(t.byPort[port].key, now)])
  }

  function Allocate(t: Table, key: Key, now: int): (Table, Option<u16>) {
    match FirstFree(t, 0)
    case None => (t.(cursor := (t.cursor + PORT_SPAN) % U16), None)
    case Some(i) =>
      var port := PortTried(t.cursor, i);
      (Table((t.cursor + i + 1) % U16, t.byPort[port := Session(key, now)], t.byKey[key := port]), Some(port))
  }

  function LookedUp(t: Table, key: Key, now: int): (Table, Option<u16>) {
    if key in t.byKey && t.byKey[key] in t.byPort then (Touch(t, t.byKey[key], now), Some(t.byKey[key]))
    else Allocate(t.(byKey := t.byKey - {key}), key, now)
  }

  function LookedBack(t: Table, port: u16, now: int): (Table, Option<Key>) {
    if port in t.byPort then (Touch(t, port, now), Some(t.byPort[port].key)) else (t, None)
  }

  predicate Expired(s: Session, now: int, timeout: nat) {
    now - s.lastSeen > timeout
  }

  /** The table without the sessions on `dead` ports. */
  function Without(t: Table, dead: set<u16>): Table {
    t.(byPort := t.byPort - dead,
       byKey := map k | k in t.byKey && t.byKey[k] !in dead :: t.byKey[k])
  }

  function Victims(t: Table, now: int, timeout: nat): set<u16> {
    set p | p in t.byPort && Expired(t.byPort[p], now, timeout)
  }

  function Purged(t: Table, now: int, timeout: nat): Table {
    Without(t, Victims(t, now, timeout))
  }

  function Removed(t: Table, port: u16): Table {
    if port in t.byPort then t.(byPort := t.byPort - {port}, byKey := t.byKey - {t.byPort[port].key}) else t
  }

  // -------------------------------------------------------- every operation

  lemma LookupKeeps(t: Table, key: Key, now: int)
    requires Wf(t)
    ensures Wf(LookedUp(t, key, now).0)
  {
    FirstFreeFound(t.(byKey := t.byKey - {key}), 0);
    if key !in t.byKey {
      assert t.byKey - {key} == t.byKey;
    }
  }

  lemma OthersKeep(t: Table, port: u16, now: int, timeout: nat)
    requires Wf(t)
    ensures Wf(LookedBack(t, port, now).0)
    ensures Wf(Purged(t, now, timeout))
    ensures Wf(Removed(t, port))
  {
  }

  /** A new flow gets the first free port in scan order, and the cursor moves behind it; if
      there is none, the cursor has gone once through the scan. */
  lemma ScanOrder(t: Table, key: Key, now: int)
    requires key !in t.byKey
    ensures var (t', r) := LookedUp(t, key, now);
            match r
            case Some(port) =>
              exists i: nat :: i < PORT_SPAN && port == PortTried(t.cursor, i) && port !in t.byPort
                && t'.cursor == (t.cursor + i + 1) % U16
                && forall j: nat :: j < i ==> PortTried(t.cursor, j) in t.byPort
            case None => t'.cursor == (t.cursor + PORT_SPAN) % U16
  {
    assert t.byKey - {key} == t.byKey;
    FirstFreeIsFirst(t, 0);
  }

  lemma {:induction false} FirstFreeIsFirst(t: Table, i: nat)
    ensures var r := FirstFree(t, i);
            && (r.Some? ==> i <= r.value < PORT_SPAN && PortTried(t.cursor, r.value) !in t.byPort)
            && (r.Some? ==> forall j: nat :: i <= j < r.value ==> PortTried(t.cursor, j) in t.byPort)
    decreases PORT_SPAN - i
  {
    if i < PORT_SPAN { FirstFreeIsFirst(t, i + 1); }
  }

  /** Exactly the sessions not used for longer than the timeout go, with their flows, and
      the others stay as they are. */
  lemma PurgeIsExact(t: Table, now: int, timeout: nat)
    requires Wf(t)
    ensures var t' := Purged(t, now, timeout);
            && (forall p :: p in t'.byPort <==> p in t.byPort && now - t.byPort[p].lastSeen <= timeout)
            && (forall p :: p in t'.byPort ==> t'.byPort[p] == t.byPort[p])
            && (forall k :: k in t'.byKey <==> k in t.byKey && now - t.byPort[t.byKey[k]].lastSeen <= timeout)
            && (forall k :: k in t'.byKey ==> t'.byKey[k] == t.byKey[k])
            && t'.cursor == t.cursor
  {
  }

  /** A look-back answers with the session's flow and refreshes it, and touches no other. */
  lemma BackAnswers(t: Table, port: u16, now: int)
    ensures var (t', r) := LookedBack(t, port, now);
            && (port !in t.byPort ==> r == None && t' == t)
            && (port in t.byPort ==>
                  && r == Some(t.byPort[port].key) && t'.byPort.Keys == t.byPort.Keys && t'.byKey == t.byKey
                  && t'.byPort[port] == Session(t.byPort[port].key, now)
                  && forall p :: p in t.byPort && p != port ==> t'.byPort[p] == t.byPort[p])
            && t'.cursor == t.cursor
  {
  }

  /** Removing a session frees its port and its flow and nothing else. */
  lemma RemoveIsExact(t: Table, port: u16)
    requires Wf(t)
    ensures var t' := Removed(t, port);
            && (forall p :: p in t'.byPort <==> p in t.byPort && p != port)
            && (forall p :: p in t'.byPort ==> t'.byPort[p] == t.byPort[p])
            && (forall k :: k in t'.byKey <==> k in t.byKey && t.byKey[k] != port)
            && (forall k :: k in t'.byKey ==> t'.byKey[k] == t.byKey[k])
            && t'.cursor == t.cursor
  {
  }

  lemma RemoveOneMore(t: Table, dead: set<u16>, port: u16)
    requires Wf(t) && port in t.byPort && port !in dead
    ensures Removed(Without(t, dead), port) == Without(t, dead + {port})
  {
  }

  /** A new flow is refused exactly when every port its scan can reach is taken. */
  lemma RefusalIsExact(t: Table, key: Key, now: int)
    requires Wf(t) && key !in t.byKey
    ensures LookedUp(t, key, now).1.None? <==> forall p :: Reachable(t.cursor, p) ==> p in t.byPort
  {
    assert t.byKey - {key} == t.byKey;
    var found := FirstFree(t, 0);
    FirstFreeFound(t, 0);
    if found.None? {
      forall p | Reachable(t.cursor, p)
        ensures p in t.byPort
      {
        ScanIsExact(t.cursor, p);
        var i: nat :| i < PORT_SPAN && PortTried(t.cursor, i) == p;
      }
    } else {
      ScanReaches(t.cursor, found.value);
    }
  }

  /** A flow that is known keeps its port; one that is new gets a free one. */
  lemma LookupAnswers(t: Table, key: Key, now: int)
    requires Wf(t)
    ensures var (t', r) := LookedUp(t, key, now);
            && (key in t.byKey ==> r == Some(t.byKey[key]) && t'.byPort.Keys == t.byPort.Keys)
            && (r.Some? ==> r.value in t'.byPort && t'.byPort[r.value] == Session(key, now))
            && (key !in t.byKey && r.Some? ==> r.value !in t.byPort && t'.byPort.Keys == t.byPort.Keys + {r.value})
            && (r.None? ==> t'.byPort == t.byPort)
            && (forall p :: p in t.byPort && r != Some(p) ==> p in t'.byPort && t'.byPort[p] == t.byPort[p])
  {
    FirstFreeFound(t.(byKey := t.byKey - {key}), 0);
  }

  lemma {:induction false} IntervalSize(lo: int, hi: int, s: set<int>)
    requires lo <= hi && forall p :: lo <= p < hi ==> p in s
    ensures |s| >= hi - lo
    decreases hi - lo
  {
    if lo < hi {
      IntervalSize(lo, hi - 1, s - {hi - 1});
    }
  }

  /** With fewer than 30000 live sessions no flow is refused. */
  lemma FewSessionsAlwaysServed(t: Table, key: Key, now: int)
    requires Wf(t) && |t.byPort| < 30000
    ensures LookedUp(t, key, now).1.Some?
  {
    if key !in t.byKey && LookedUp(t, key, now).1.None? {
      RefusalIsExact(t, key, now);
      ScanCoverage(t.cursor);
      var taken: set<int> := set p | p in t.byPort.Keys;
      assert taken == t.byPort.Keys;
      IntervalSize(PORT_START, 60000, taken);
    }
  }

  predicate Full(t: Table) {
    forall p :: PORT_START <= p <= PORT_END ==> p in t.byPort
  }

  /** Refusal means exhaustion, as the source says it does, for all tables exactly
      when the cursor is between 30000 and 60000. */
  lemma RefusalMeansFull(c: nat)
    requires c < U16
    ensures (forall t: Table, key, now ::
              Wf(t) && t.cursor == c && key !in t.byKey && LookedUp(t, key, now).1.None? ==> Full(t))
            <==> PORT_START <= c <= 60000
  {
    ScanCoverage(c);
    if PORT_START <= c <= 60000 {
      forall t: Table, key, now | Wf(t) && t.cursor == c && key !in t.byKey && LookedUp(t, key, now).1.None?
        ensures Full(t)
      {
        RefusalIsExact(t, key, now);
      }
    } else {
      var t := Saturated(c);
      SaturatedIsWf(c);
      var newFlow := Key(SocketAddr([0, 0, 0, 0], 0), SocketAddr([0, 0, 0, 0], 1));
      assert newFlow !in t.byKey;
      RefusalIsExact(t, newFlow, 0);
      assert !Full(t);
    }
  }

  function FlowFor(port: u16): Key {
    Key(SocketAddr([0, 0, 0, 0], port), SocketAddr([0, 0, 0, 0], 0))
  }

  /** Every port that a scan from `c` can reach is taken, and no other. */
  function Saturated(c: nat): Table {
    Table(c,
          map p: u16 | PORT_START <= p <= PORT_END && Reachable(c, p) :: Session(FlowFor(p), 0),
          map p: u16 | PORT_START <= p <= PORT_END && Reachable(c, p) :: FlowFor(p) := p)
  }

  lemma SaturatedIsWf(c: nat)
    requires c < U16
    ensures Wf(Saturated(c))
    ensures forall p: nat :: p in Saturated(c).byPort <==> Reachable(c, p)
  {
  }

  // ------------------------------------------------------------------- runs

  datatype Op =
    | LookupOp(key: Key, now: int)
    | BackOp(port: u16, now: int)
    | PurgeOp(now: int, timeout: nat)
    | RemoveOp(port: u16)

  function Step(t: Table, op: Op): Table {
    match op
    case LookupOp(key, now) => LookedUp(t, key, now).0
    case BackOp(port, now) => LookedBack(t, port, now).0
    case PurgeOp(now, timeout) => Purged(t, now, timeout)
    case RemoveOp(port) => Removed(t, port)
  }

  function Run(t: Table, ops: seq<Op>): Table
    decreases ops
  {
    if ops == [] then t else Run(Step(t, ops[0]), ops[1..])
  }

  lemma StepKeeps(t: Table, op: Op)
    requires Wf(t)
    ensures Wf(Step(t, op))
  {
    match op
    case LookupOp(key, now) => LookupKeeps(t, key, now);
    case BackOp(port, now) => OthersKeep(t, port, now, 0);
    case PurgeOp(now, timeout) => OthersKeep(t, 0, now, timeout);
    case RemoveOp(port) => OthersKeep(t, port, 0, 0);
  }

  /** In every run from the empty table the indexes stay inverse. */
  lemma {:induction false} RunKeeps(t: Table, ops: seq<Op>)
    requires Wf(t)
    ensures Wf(Run(t, ops))
    decreases ops
  {
    if ops != [] {
      StepKeeps(t, ops[0]);
      RunKeeps(Step(t, ops[0]), ops[1..]);
    }
  }

  /** The session on `port` is there after every step of the run. */
  predicate Survives(t: Table, ops: seq<Op>, port: u16)
    decreases ops
  {
    port in t.byPort && (ops == [] || Survives(Step(t, ops[0]), ops[1..], port))
  }

  /** As long as it is not removed, a session belongs to the same flow. */
  lemma {:induction false} SessionIsStable(t: Table, ops: seq<Op>, port: u16)
    requires Wf(t) && Survives(t, ops, port)
    ensures port in Run(t, ops).byPort && Run(t, ops).byPort[port].key == t.byPort[port].key
    decreases ops
  {
    if ops != [] {
      var t' := Step(t, ops[0]);
      StepKeeps(t, ops[0]);
      if ops[0].LookupOp? { LookupAnswers(t, ops[0].key, ops[0].now); }
      assert t'.byPort[port].key == t.byPort[port].key;
      SessionIsStable(t', ops[1..], port);
    }
  }

  /** The clock does not go back behind `at`, a purge comes at most its timeout after `at`,
      and the port is not removed. */
  predicate Spares(op: Op, port: u16, at: int) {
    match op
    case LookupOp(_, now) => now >= at
    case BackOp(_, now) => now >= at
    case PurgeOp(now, timeout) => now - at <= timeout
    case RemoveOp(p) => p != port
  }

  lemma StepSpares(t: Table, op: Op, port: u16, at: int)
    requires Wf(t) && port in t.byPort && t.byPort[port].lastSeen >= at && Spares(op, port, at)
    ensures port in Step(t, op).byPort && Step(t, op).byPort[port].lastSeen >= at
  {
    match op
    case LookupOp(key, now) => LookupAnswers(t, key, now);
    case BackOp(p, now) => BackAnswers(t, p, now);
    case PurgeOp(now, timeout) => PurgeIsExact(t, now, timeout);
    case RemoveOp(p) => RemoveIsExact(t, p);
  }

  /** A session in use is never purged: used at `at` or later, it survives every run whose
      purges come within their timeout of `at`, unless it is removed. */
  lemma {:induction false} UsedSessionSurvives(t: Table, ops: seq<Op>, port: u16, at: int)
    requires Wf(t) && port in t.byPort && t.byPort[port].lastSeen >= at
    requires forall op :: op in ops ==> Spares(op, port, at)
    ensures Survives(t, ops, port)
    decreases ops
  {
    if ops != [] {
      assert ops[0] in ops;
      StepSpares(t, ops[0], port, at);
      StepKeeps(t, ops[0]);
      UsedSessionSurvives(Step(t, ops[0]), ops[1..], port, at);
    }
  }

  /** Distinct live flows have distinct ports. */
  lemma PortsAreDistinct(t: Table, ops: seq<Op>, k1: Key, k2: Key)
    requires Wf(t)
    ensures var e := Run(t, ops);
            k1 in e.byKey && k2 in e.byKey && k1 != k2 ==> e.byKey[k1] != e.byKey[k2]
  {
    RunKeeps(t, ops);
  }

  lemma {:induction false} RunAppend(t: Table, ops: seq<Op>, op: Op)
    ensures Run(t, ops + [op]) == Step(Run(t, ops), op)
    decreases ops
  {
    if ops == [] {
      assert Run(t, [op]) == Run(Step(t, op), [op][1..]);
    } else {
      assert (ops + [op])[1..] == ops[1..] + [op];
      RunAppend(Step(t, ops[0]), ops[1..], op);
    }
  }

  /** The table after the first `n` flows of `FlowFor` have come. */
  function Filled(n: nat): Table
    requires n <= PORT_SPAN
  {
    Table((PORT_START + n) % U16,
          map p: u16 | PORT_START <= p < PORT_START + n :: Session(FlowFor(p), 0),
          map p: u16 | PORT_START <= p < PORT_START + n :: FlowFor(p) := p)
  }

  lemma FilledGrows(n: nat, port: u16)
    requires 0 < n <= PORT_SPAN && port == PORT_START + n - 1
    ensures Filled(n - 1).byPort[port := Session(FlowFor(port), 0)] == Filled(n).byPort
  {
  }

  lemma FilledKnows(n: nat, port: u16)
    requires 0 < n <= PORT_SPAN && port == PORT_START + n - 1
    ensures Filled(n - 1).byKey[FlowFor(port) := port] == Filled(n).byKey
    ensures FlowFor(port) !in Filled(n - 1).byKey
  {
  }

  lemma FilledCursor(n: nat, port: u16)
    requires 0 < n <= PORT_SPAN && port == PORT_START + n - 1
    ensures PortTried(Filled(n - 1).cursor, 0) == port
    ensures FirstFree(Filled(n - 1), 0) == Some(0)
    ensures (Filled(n - 1).cursor + 1) % U16 == Filled(n).cursor
  {
    PortInRangeCases(port);
  }

  lemma FillStep(n: nat)
    requires 0 < n <= PORT_SPAN
    ensures LookedUp(Filled(n - 1), FlowFor(PORT_START + n - 1), 0).0 == Filled(n)
  {
    var t := Filled(n - 1);
    var port: u16 := PORT_START + n - 1;
    FilledCursor(n, port);
    FilledGrows(n, port);
    FilledKnows(n, port);
    assert t.(byKey := t.byKey - {FlowFor(port)}) == t;
  }

  lemma {:induction false} FillUp(n: nat) returns (ops: seq<Op>)
    requires n <= PORT_SPAN
    ensures Run(EMPTY, ops) == Filled(n)
  {
    if n == 0 {
      ops := [];
    } else {
      var before := FillUp(n - 1);
      var op := LookupOp(FlowFor(PORT_START + n - 1), 0);
      ops := before + [op];
      RunAppend(EMPTY, before, op);
      FillStep(n);
    }
  }

  /** A run from the empty table after which a new flow is refused although a port
      is free: fill the range, then give back its last port. */
  lemma RefusedWithAPortFree()
    ensures exists ops, key :: var t := Run(EMPTY, ops);
              key !in t.byKey && LookedUp(t, key, 0).1.None? && !Full(t)
  {
    var fill := FillUp(PORT_SPAN);
    var ops := fill + [RemoveOp(PORT_END)];
    RunAppend(EMPTY, fill, RemoveOp(PORT_END));
    var t := Run(EMPTY, ops);
    assert Wf(EMPTY);
    RunKeeps(EMPTY, ops);
    var key := Key(SocketAddr([0, 0, 0, 0], 0), SocketAddr([0, 0, 0, 0], 1));
    assert t == Removed(Filled(PORT_SPAN), PORT_END);
    assert t.cursor == 0 && key !in t.byKey && PORT_END !in t.byPort;
    forall p | Reachable(0, p)
      ensures p in t.byPort
    {
    }
    RefusalIsExact(t, key, 0);
    assert !Full(t);
  }

  // ------------------------------------------------------------- the object

  class TcpNat {
    const timeout: nat
    var nextPort: nat
    var byPort: map<u16, Session>
    var byKey: map<Key, u16>

    ghost function View(): Table
      reads this
    {
      Table(nextPort, byPort, byKey)
    }

    constructor (timeout: nat)
      ensures View() == EMPTY && this.timeout == timeout
    {
      this.timeout := timeout;
      nextPort, byPort, byKey := PORT_START, map[], map[];
    }

    method Lookup(key: Key, now: int) returns (r: Option<u16>)
      requires nextPort < U16
      modifies this
      ensures (View(), r) == LookedUp(old(View()), key, now)
      ensures old(Wf(View())) ==> Wf(View())
    {
      if Wf(View()) { LookupKeeps(View(), key, now); }
      if key in byKey {
        var port := byKey[key];
        if port in byPort {
          byPort := byPort[port := Session(byPort[port].key, now)];
          return Some(port);
        }
        byKey := byKey - {key};
      }
      assert byKey == old(byKey) - {key};
      r := AllocatePort(key, now);
    }

    /** The scan: at most one turn over the range. */
    method AllocatePort(key: Key, now: int) returns (r: Option<u16>)
      requires nextPort < U16
      modifies this
      ensures (View(), r) == Allocate(old(View()), key, now)
    {
      ghost var start := View();
      var i := 0;
      while i < PORT_SPAN
        invariant i <= PORT_SPAN
        invariant byPort == start.byPort && byKey == start.byKey
        invariant nextPort == (start.cursor + i) % U16
        invariant FirstFree(start, 0) == FirstFree(start, i)
      {
        var port := PortInRange(nextPort);
        nextPort := (nextPort + 1) % U16;
        CursorStep(start.cursor, i);
        if port !in byPort {
          byPort, byKey := byPort[port := Session(key, now)], byKey[key := port];
          assert FirstFree(start, 0) == Some(i) && port == PortTried(start.cursor, i);
          return Some(port);
        }
        i := i + 1;
      }
      assert FirstFree(start, 0) == None;
      return None;
    }

    method LookupBack(port: u16, now: int) returns (r: Option<Key>)
      modifies this
      ensures (View(), r) == LookedBack(old(View()), port, now)
    {
      if port !in byPort {
        return None;
      }
      byPort := byPort[port := Session(byPort[port].key, now)];
      return Some(byPort[port].key);
    }

    /** Collects the expired sessions, then removes each from both indexes. */
    method PurgeExpired(now: int) returns (removed: nat)
      requires Wf(View())
      modifies this
      ensures Wf(View())
      ensures View() == Purged(old(View()), now, timeout)
      ensures removed == |old(byPort)| - |byPort|
    {
      OthersKeep(View(), 0, now, timeout);
      var victims := set p | p in byPort && Expired(byPort[p], now, timeout);
      removed := |victims|;
      RemoveAll(victims);
      assert byPort.Keys == old(byPort).Keys - victims;
    }

    method RemoveAll(victims: set<u16>)
      requires Wf(View()) && victims <= byPort.Keys
      modifies this
      ensures View() == Without(old(View()), victims)
    {
      ghost var start := View();
      ghost var gone: set<u16> := {};
      var left := victims;
      assert Without(start, {}) == start;
      while left != {}
        invariant left <= victims && gone == victims - left
        invariant View() == Without(start, gone)
        decreases left
      {
        var port :| port in left;
        RemoveOneMore(start, gone, port);
        RemoveByPort(port);
        left, gone := left - {port}, gone + {port};
      }
      assert gone == victims;
    }

    method RemoveByPort(port: u16)
      modifies this
      ensures View() == Removed(old(View()), port)
    {
      if port in byPort {
        var key := byPort[port].key;
        byPort := byPort - {port};
        byKey := byKey - {key};
      }
    }
  }
}
