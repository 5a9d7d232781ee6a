/** The flow table of crates/core-capture/src/nat.rs, shared by any number of threads.

    A call is a sequence of steps, each one access to one of the two maps or to the
    id counter. `by_flow.entry(key)` takes the lock of that key and keeps it to the
    end of the call (or, in `purge`, of the candidate). What callers see of flows is the
    map from flows to their id and entry, and `StepRefines` shows that every call acts on
    that map in a single atomic step. */
module NatTable {
  import opened Bytes
  import opened Wrappers

  const U64 := 0x1_0000_0000_0000_0000

  datatype FlowKey = FlowKey(network: string, src: SocketAddr, dst: SocketAddr)

  datatype Entry = Entry(key: FlowKey, fakeHost: Option<string>, createdAt: int, lastSeen: int)

  /** What an update keeps: the earliest creation, the latest use, a known host. */
  function Merge(current: Entry, e: Entry): Entry {
    Entry(current.key,
          if e.fakeHost.Some? then e.fakeHost else current.fakeHost,
          if e.createdAt < current.createdAt then e.createdAt else current.createdAt,
          if e.lastSeen > current.lastSeen then e.lastSeen else current.lastSeen)
  }

  /** An update is seen, whatever came before: the times do not depend on the order of
      updates, and neither does whether a host is known. */
  lemma UpdatesCommute(current: Entry, a: Entry, b: Entry)
    ensures var x, y := Merge(Merge(current, a), b), Merge(Merge(current, b), a);
            && x.key == y.key == current.key && x.createdAt == y.createdAt && x.lastSeen == y.lastSeen
            && x.fakeHost.Some? == y.fakeHost.Some?
    ensures var x := Merge(current, a);
            && x.createdAt <= current.createdAt && x.createdAt <= a.createdAt
            && x.lastSeen >= current.lastSeen && x.lastSeen >= a.lastSeen
            && (a.fakeHost.Some? ==> x.fakeHost == a.fakeHost) && (a.fakeHost.None? ==> x.fakeHost == current.fakeHost)
  {
  }

  predicate Expired(e: Entry, now: int, ttl: nat) {
    (if now < e.lastSeen then 0 else now - e.lastSeen) >= ttl
  }

  /** The two maps and the id counter. The id after `n` allocations is `1 + n` as a
      64-bit number. `owner` is history: the flow each id was issued for. */
  datatype Shared = Shared(entries: map<nat, Entry>, index: map<FlowKey, nat>, issued: nat,
                           owner: map<nat, FlowKey>)

  const EMPTY := Shared(map[], map[], 0, map[])

  function IdOf(n: nat): nat {
    (1 + n) % U64
  }

  /** The number of allocations before an id is first handed out. */
  function Rank(id: nat): nat {
    if id == 0 then U64 - 1 else id - 1
  }

  datatype Op =
    | Insert(entry: Entry)
    | Touch(id: nat)
    | LookupFlow(key: FlowKey)
    | Remove(id: nat)
    | Purge

  datatype Reply = Id(id: nat) | Found(entry: Option<Entry>) | Nothing

  datatype Candidate = Candidate(id: nat, key: FlowKey)

  /** Where a thread stands. The states named `…Held`, `InsertNumbered`,
      `InsertStored`, `Unlink` and `Purge…` from `PurgeHeld` on hold a key's lock. */
  datatype Pc =
    | Idle
    | Called(op: Op)
    | InsertHeld(entry: Entry)
    | InsertNumbered(entry: Entry, id: nat)
    | InsertStored(entry: Entry, id: nat)
    | UpdateHeld(entry: Entry, id: nat)
    | TouchKnown(what: Candidate)
    | TouchHeld(what: Candidate)
    | LookupHeld(what: Candidate)
    | RemoveKnown(what: Candidate)
    | RemoveHeld(what: Candidate, occupied: bool)
    | RemoveUnlink(what: Candidate, gone: Option<Entry>)
    | Collecting(now: int, todo: seq<Candidate>)
    | Purging(now: int, todo: seq<Candidate>)
    | PurgeHeld(now: int, what: Candidate, occupied: bool, todo: seq<Candidate>)
    | PurgeDoomed(now: int, what: Candidate, occupied: bool, todo: seq<Candidate>)
    | PurgeUnlink(now: int, what: Candidate, todo: seq<Candidate>)
    | Done(reply: Reply)

  function Holds(pc: Pc): Option<FlowKey> {
    match pc
    case InsertHeld(e) => Some(e.key)
    case InsertNumbered(e, _) => Some(e.key)
    case InsertStored(e, _) => Some(e.key)
    case UpdateHeld(e, _) => Some(e.key)
    case TouchHeld(what) => Some(what.key)
    case LookupHeld(what) => Some(what.key)
    case RemoveHeld(what, _) => Some(what.key)
    case RemoveUnlink(what, _) => Some(what.key)
    case PurgeHeld(_, what, _, _) => Some(what.key)
    case PurgeDoomed(_, what, _, _) => Some(what.key)
    case PurgeUnlink(_, what, _) => Some(what.key)
    case _ => None
  }

  /** `now` is the clock reading of the step; `pick` the entry a purge looks at. */
  datatype Action = Call(op: Op) | Next(now: int) | Visit(pick: nat) | EndVisit

  // ------------------------------------------------------------- one thread's step

  function Seen(e: Entry, now: int): Entry {
    e.(lastSeen := now)
  }

  /** The first step of a call, up to its first lock or map access. */
  function Begin(sh: Shared, op: Op, busy: set<FlowKey>, now: int): (Shared, Pc) {
    match op
    case Insert(e) =>
      if e.key in busy then (sh, Called(op))
      else if e.key in sh.index then (sh, UpdateHeld(e, sh.index[e.key]))
      else (sh, InsertHeld(e))
    case Touch(id) =>
      (sh, if id in sh.entries then TouchKnown(Candidate(id, sh.entries[id].key)) else Done(Nothing))
    case LookupFlow(k) =>
      if k in busy then (sh, Called(op))
      else if k in sh.index then (sh, LookupHeld(Candidate(sh.index[k], k)))
      else (sh, Done(Found(None)))
    case Remove(id) =>
      (sh, if id in sh.entries then RemoveKnown(Candidate(id, sh.entries[id].key)) else Done(Found(None)))
    case Purge => (sh, Collecting(now, []))
  }

  function Unlinked(sh: Shared, what: Candidate): Shared {
    if what.key in sh.index && sh.index[what.key] == what.id then sh.(index := sh.index - {what.key}) else sh
  }

  function Stored(sh: Shared, id: nat, e: Entry): Shared {
    sh.(entries := sh.entries[id := e])
  }

  function Erased(sh: Shared, id: nat): Shared {
    sh.(entries := sh.entries - {id})
  }

  predicate Inserting(pc: Pc) {
    pc.InsertHeld? || pc.InsertNumbered? || pc.InsertStored? || pc.UpdateHeld?
  }

  predicate Using(pc: Pc) {
    pc.TouchKnown? || pc.TouchHeld? || pc.LookupHeld?
  }

  predicate Removing(pc: Pc) {
    pc.RemoveKnown? || pc.RemoveHeld? || pc.RemoveUnlink?
  }

  predicate Sweeping(pc: Pc) {
    pc.Purging? || pc.PurgeHeld? || pc.PurgeDoomed? || pc.PurgeUnlink?
  }

  function InsertStep(sh: Shared, pc: Pc): (Shared, Pc)
    requires Inserting(pc)
  {
    match pc
    case InsertHeld(e) =>
      var id := IdOf(sh.issued);
      (sh.(issued := sh.issued + 1, owner := sh.owner[id := e.key]), InsertNumbered(e, id))
    case InsertNumbered(e, id) => (Stored(sh, id, e), InsertStored(e, id))
    case InsertStored(e, id) => (sh.(index := sh.index[e.key := id]), Done(Id(id)))
    case UpdateHeld(e, id) =>
      (Stored(sh, id, if id in sh.entries then Merge(sh.entries[id], e) else e), Done(Id(id)))
  }

  function UseStep(sh: Shared, pc: Pc, busy: set<FlowKey>, now: int): (Shared, Pc)
    requires Using(pc)
  {
    match pc
    case TouchKnown(what) =>
      if what.key in busy then (sh, pc)
      else if what.key in sh.index && sh.index[what.key] == what.id then (sh, TouchHeld(what))
      else (sh, Done(Nothing))
    case TouchHeld(what) =>
      (if what.id in sh.entries then Stored(sh, what.id, Seen(sh.entries[what.id], now)) else sh, Done(Nothing))
    case LookupHeld(what) =>
      if what.id in sh.entries then
        var e := Seen(sh.entries[what.id], now);
        (Stored(sh, what.id, e), Done(Found(Some(e))))
      else (sh.(index := sh.index - {what.key}), Done(Found(None)))
  }

  function RemoveStep(sh: Shared, pc: Pc, busy: set<FlowKey>): (Shared, Pc)
    requires Removing(pc)
  {
    match pc
    case RemoveKnown(what) =>
      if what.key in busy then (sh, pc) else (sh, RemoveHeld(what, what.key in sh.index))
    case RemoveHeld(what, occupied) =>
      var gone := if what.id in sh.entries then Some(sh.entries[what.id]) else None;
      (Erased(sh, what.id), if occupied then RemoveUnlink(what, gone) else Done(Found(gone)))
    case RemoveUnlink(what, gone) => (Unlinked(sh, what), Done(Found(gone)))
  }

  function PurgeStep(sh: Shared, pc: Pc, busy: set<FlowKey>, ttl: nat): (Shared, Pc)
    requires Sweeping(pc)
  {
    match pc
    case Purging(at, todo) =>
      if todo == [] then (sh, Done(Nothing))
      else if todo[0].key in busy then (sh, pc)
      else (sh, PurgeHeld(at, todo[0], todo[0].key in sh.index, todo[1..]))
    case PurgeHeld(at, what, occupied, todo) =>
      if what.id in sh.entries && Expired(sh.entries[what.id], at, ttl)
      then (sh, PurgeDoomed(at, what, occupied, todo))
      else (sh, Purging(at, todo))
    case PurgeDoomed(at, what, occupied, todo) =>
      (Erased(sh, what.id),
       if what.id in sh.entries && occupied then PurgeUnlink(at, what, todo) else Purging(at, todo))
    case PurgeUnlink(at, what, todo) => (Unlinked(sh, what), Purging(at, todo))
  }

  /** The next map access, lock or allocation of a call. */
  function Go(sh: Shared, pc: Pc, busy: set<FlowKey>, ttl: nat, now: int): (Shared, Pc) {
    if pc.Called? then Begin(sh, pc.op, busy, now)
    else if Inserting(pc) then InsertStep(sh, pc)
    else if Using(pc) then UseStep(sh, pc, busy, now)
    else if Removing(pc) then RemoveStep(sh, pc, busy)
    else if Sweeping(pc) then PurgeStep(sh, pc, busy, ttl)
    else (sh, pc)
  }

  /** One step of a thread at `pc`, when the other threads hold the locks of `busy`.
      A step that is not possible changes nothing. */
  function Step(sh: Shared, pc: Pc, busy: set<FlowKey>, ttl: nat, a: Action): (Shared, Pc) {
    match a
    case Call(op) => (sh, if pc.Idle? || pc.Done? then Called(op) else pc)
    case Next(now) => Go(sh, pc, busy, ttl, now)
    case Visit(id) =>
      (sh, if pc.Collecting? && id in sh.entries && Expired(sh.entries[id], pc.now, ttl)
       then Collecting(pc.now, pc.todo + [Candidate(id, sh.entries[id].key)]) else pc)
    case EndVisit => (sh, if pc.Collecting? then Purging(pc.now, pc.todo) else pc)
  }

  // ---------------------------------------------------------------- the invariant

  /** Ids are not reused and an id belongs to one flow. */
  predicate Wf(sh: Shared) {
    && (forall id :: id in sh.owner ==> id < U64 && Rank(id) < sh.issued)
    && (forall id :: id in sh.entries ==> id in sh.owner && sh.owner[id] == sh.entries[id].key)
    && (forall k :: k in sh.index ==> sh.index[k] in sh.owner && sh.owner[sh.index[k]] == k)
  }

  /** No entry of flow `k` other than, possibly, `id`. */
  predicate OnlyEntry(sh: Shared, k: FlowKey, id: nat) {
    forall i :: i in sh.entries && sh.entries[i].key == k ==> i == id
  }

  predicate NoEntry(sh: Shared, k: FlowKey) {
    forall i :: i in sh.entries ==> sh.entries[i].key != k
  }

  /** The index and the key-of-entry relation are inverse at `k`. */
  predicate Clean(sh: Shared, k: FlowKey) {
    if k in sh.index then sh.index[k] in sh.entries && OnlyEntry(sh, k, sh.index[k])
    else NoEntry(sh, k)
  }

  predicate Known(sh: Shared, what: Candidate) {
    what.id in sh.owner && sh.owner[what.id] == what.key
  }

  predicate AllKnown(sh: Shared, todo: seq<Candidate>) {
    forall i :: 0 <= i < |todo| ==> Known(sh, todo[i])
  }

  predicate Linked(sh: Shared, k: FlowKey, id: nat) {
    k in sh.index && sh.index[k] == id && Clean(sh, k)
  }

  /** After the entry is gone and before the index is. */
  predicate Unlinking(sh: Shared, what: Candidate) {
    && Known(sh, what) && what.key in sh.index && what.id !in sh.entries
    && if sh.index[what.key] == what.id then NoEntry(sh, what.key) else Clean(sh, what.key)
  }

  /** What a thread may rely on, given the lock it holds. */
  predicate Local(sh: Shared, pc: Pc, ttl: nat) {
    match pc
    case InsertHeld(e) => e.key !in sh.index && NoEntry(sh, e.key)
    case InsertNumbered(e, id) =>
      Known(sh, Candidate(id, e.key)) && e.key !in sh.index && NoEntry(sh, e.key)
    case InsertStored(e, id) =>
      && Known(sh, Candidate(id, e.key)) && e.key !in sh.index
      && id in sh.entries && sh.entries[id] == e && OnlyEntry(sh, e.key, id)
    case UpdateHeld(e, id) => Linked(sh, e.key, id)
    case TouchKnown(what) => Known(sh, what)
    case TouchHeld(what) => Linked(sh, what.key, what.id)
    case LookupHeld(what) => Linked(sh, what.key, what.id)
    case RemoveKnown(what) => Known(sh, what)
    case RemoveHeld(what, occupied) =>
      Known(sh, what) && Clean(sh, what.key) && occupied == (what.key in sh.index)
    case RemoveUnlink(what, _) => Unlinking(sh, what)
    case Collecting(_, todo) => AllKnown(sh, todo)
    case Purging(_, todo) => AllKnown(sh, todo)
    case PurgeHeld(_, what, occupied, todo) =>
      AllKnown(sh, todo) && Known(sh, what) && Clean(sh, what.key) && occupied == (what.key in sh.index)
    case PurgeDoomed(at, what, occupied, todo) =>
      && AllKnown(sh, todo) && Known(sh, what) && Clean(sh, what.key) && occupied == (what.key in sh.index)
      && what.id in sh.entries && Expired(sh.entries[what.id], at, ttl)
    case PurgeUnlink(_, what, todo) => AllKnown(sh, todo) && Unlinking(sh, what)
    case _ => true
  }

  /** `sh'` differs from `sh` only at flow `k`; history only grows. */
  predicate Frame(sh: Shared, sh': Shared, k: Option<FlowKey>) {
    && (forall id :: id in sh.owner ==> id in sh'.owner && sh'.owner[id] == sh.owner[id])
    && (forall j :: j in sh.index && Some(j) != k ==> j in sh'.index && sh'.index[j] == sh.index[j])
    && (forall j :: j in sh'.index && Some(j) != k ==> j in sh.index)
    && (forall id :: id in sh.entries && Some(sh.entries[id].key) != k ==>
          id in sh'.entries && sh'.entries[id] == sh.entries[id])
    && (forall id :: id in sh'.entries && Some(sh'.entries[id].key) != k ==>
          id in sh.entries && sh'.entries[id] == sh.entries[id])
  }

  lemma FrameKeepsKnown(sh: Shared, sh': Shared, k: Option<FlowKey>, what: Candidate, todo: seq<Candidate>)
    requires Frame(sh, sh', k)
    ensures Known(sh, what) ==> Known(sh', what)
    ensures AllKnown(sh, todo) ==> AllKnown(sh', todo)
  {
  }

  lemma FrameKeepsClean(sh: Shared, sh': Shared, k: Option<FlowKey>, j: FlowKey)
    requires Wf(sh) && Frame(sh, sh', k) && Some(j) != k && Clean(sh, j)
    ensures Clean(sh', j)
  {
  }

  /** The threads at one of these places, if they do not hold `k`, are not disturbed. */
  lemma FrameKeepsInsert(sh: Shared, sh': Shared, k: Option<FlowKey>, pc: Pc, ttl: nat)
    requires Wf(sh) && Wf(sh') && Frame(sh, sh', k) && Local(sh, pc, ttl) && Inserting(pc) && Holds(pc) != k
    ensures Local(sh', pc, ttl)
  {
    if pc.UpdateHeld? { FrameKeepsClean(sh, sh', k, pc.entry.key); }
  }

  lemma FrameKeepsUse(sh: Shared, sh': Shared, k: Option<FlowKey>, pc: Pc, ttl: nat)
    requires Wf(sh) && Wf(sh') && Frame(sh, sh', k) && Local(sh, pc, ttl) && Using(pc)
    requires Holds(pc) == None || Holds(pc) != k
    ensures Local(sh', pc, ttl)
  {
    if !pc.TouchKnown? { FrameKeepsClean(sh, sh', k, pc.what.key); }
  }

  lemma FrameKeepsUnlinking(sh: Shared, sh': Shared, k: Option<FlowKey>, what: Candidate)
    requires Wf(sh) && Wf(sh') && Frame(sh, sh', k) && Unlinking(sh, what) && Some(what.key) != k
    ensures Unlinking(sh', what)
  {
    if sh.index[what.key] != what.id { FrameKeepsClean(sh, sh', k, what.key); }
  }

  lemma FrameKeepsRemove(sh: Shared, sh': Shared, k: Option<FlowKey>, pc: Pc, ttl: nat)
    requires Wf(sh) && Wf(sh') && Frame(sh, sh', k) && Local(sh, pc, ttl) && Removing(pc)
    requires Holds(pc) == None || Holds(pc) != k
    ensures Local(sh', pc, ttl)
  {
    match pc
    case RemoveKnown(_) =>
    case RemoveHeld(what, _) => FrameKeepsClean(sh, sh', k, what.key);
    case RemoveUnlink(what, _) => FrameKeepsUnlinking(sh, sh', k, what);
  }

  lemma FrameKeepsSweep(sh: Shared, sh': Shared, k: Option<FlowKey>, pc: Pc, ttl: nat)
    requires Wf(sh) && Wf(sh') && Frame(sh, sh', k) && Local(sh, pc, ttl) && Sweeping(pc)
    requires Holds(pc) == None || Holds(pc) != k
    ensures Local(sh', pc, ttl)
  {
    match pc
    case Purging(_, _) =>
    case PurgeHeld(_, what, _, todo) =>
      FrameKeepsKnown(sh, sh', k, what, todo);
      FrameKeepsClean(sh, sh', k, what.key);
    case PurgeDoomed(_, what, _, todo) =>
      FrameKeepsKnown(sh, sh', k, what, todo);
      FrameKeepsClean(sh, sh', k, what.key);
    case PurgeUnlink(_, what, todo) =>
      FrameKeepsKnown(sh, sh', k, what, todo);
      FrameKeepsUnlinking(sh, sh', k, what);
  }

  /** A thread that does not hold `k` is not disturbed by a change at `k`. */
  lemma FrameKeepsLocal(sh: Shared, sh': Shared, k: Option<FlowKey>, pc: Pc, ttl: nat)
    requires Wf(sh) && Wf(sh') && Frame(sh, sh', k) && Local(sh, pc, ttl) && (Holds(pc) == None || Holds(pc) != k)
    ensures Local(sh', pc, ttl)
  {
    if Inserting(pc) { FrameKeepsInsert(sh, sh', k, pc, ttl); }
    else if Using(pc) { FrameKeepsUse(sh, sh', k, pc, ttl); }
    else if Removing(pc) { FrameKeepsRemove(sh, sh', k, pc, ttl); }
    else if Sweeping(pc) { FrameKeepsSweep(sh, sh', k, pc, ttl); }
  }

  /** Every key whose lock is free is clean. */
  ghost predicate RestClean(sh: Shared, busy: set<FlowKey>, mine: Option<FlowKey>) {
    forall k :: k !in busy && Some(k) != mine ==> Clean(sh, k)
  }

  lemma FrameKeepsRest(sh: Shared, sh': Shared, busy: set<FlowKey>, k: Option<FlowKey>)
    requires Wf(sh) && Frame(sh, sh', k) && RestClean(sh, busy, k)
    ensures RestClean(sh', busy, k)
    ensures (k.Some? ==> Clean(sh', k.value)) ==> RestClean(sh', busy, None)
  {
    forall j | j !in busy && Some(j) != k ensures Clean(sh', j) {
      FrameKeepsClean(sh, sh', k, j);
    }
  }

  // ------------------------------------------------- what each map access keeps

  lemma IssueKeeps(sh: Shared, k: FlowKey, sh': Shared)
    requires Wf(sh) && sh.issued < U64
    requires sh' == sh.(issued := sh.issued + 1, owner := sh.owner[IdOf(sh.issued) := k])
    ensures IdOf(sh.issued) !in sh.owner && Wf(sh') && Frame(sh, sh', Some(k))
  {
    assert Rank(IdOf(sh.issued)) == sh.issued;
  }

  lemma StoreKeeps(sh: Shared, id: nat, e: Entry)
    requires Wf(sh) && Known(sh, Candidate(id, e.key))
    ensures Wf(Stored(sh, id, e)) && Frame(sh, Stored(sh, id, e), Some(e.key))
    ensures NoEntry(sh, e.key) || OnlyEntry(sh, e.key, id) ==> OnlyEntry(Stored(sh, id, e), e.key, id)
  {
  }

  lemma EraseKeeps(sh: Shared, what: Candidate)
    requires Wf(sh) && Known(sh, what)
    ensures Wf(Erased(sh, what.id)) && Frame(sh, Erased(sh, what.id), Some(what.key))
    ensures OnlyEntry(sh, what.key, what.id) ==> NoEntry(Erased(sh, what.id), what.key)
    ensures what.id !in sh.entries ==> Erased(sh, what.id) == sh
  {
  }

  lemma UnlinkKeeps(sh: Shared, what: Candidate)
    requires Wf(sh) && Unlinking(sh, what)
    ensures Wf(Unlinked(sh, what)) && Frame(sh, Unlinked(sh, what), Some(what.key))
    ensures Clean(Unlinked(sh, what), what.key)
  {
  }

  lemma PublishKeeps(sh: Shared, k: FlowKey, id: nat)
    requires Wf(sh) && Known(sh, Candidate(id, k)) && id in sh.entries && OnlyEntry(sh, k, id)
    ensures var sh' := sh.(index := sh.index[k := id]);
            Wf(sh') && Frame(sh, sh', Some(k)) && Clean(sh', k)
  {
  }

  /** At a clean key, erasing an entry leaves the index to be unlinked, or nothing to do. */
  lemma EraseAtClean(sh: Shared, what: Candidate)
    requires Wf(sh) && Known(sh, what) && Clean(sh, what.key)
    ensures var sh' := Erased(sh, what.id);
            if what.key in sh.index then Unlinking(sh', what) else sh' == sh
  {
    EraseKeeps(sh, what);
  }

  // -------------------------------------------------------- what each step keeps

  ghost predicate Kept(sh: Shared, pc: Pc, busy: set<FlowKey>, ttl: nat, sh': Shared, pc': Pc) {
    && Wf(sh') && Local(sh', pc', ttl) && RestClean(sh', busy, Holds(pc')) && Frame(sh, sh', Holds(pc))
    && (Holds(pc').Some? ==> Holds(pc').value !in busy)
  }

  ghost predicate Ready(sh: Shared, pc: Pc, busy: set<FlowKey>, ttl: nat) {
    && Wf(sh) && Local(sh, pc, ttl) && RestClean(sh, busy, Holds(pc))
    && (Holds(pc).Some? ==> Holds(pc).value !in busy)
  }

  /** A step that only moves its thread, and may take or release a lock. */
  lemma StayKeeps(sh: Shared, pc: Pc, pc': Pc, busy: set<FlowKey>, ttl: nat)
    requires Ready(sh, pc, busy, ttl) && Local(sh, pc', ttl)
    requires Holds(pc').Some? ==> Holds(pc').value !in busy
    requires Holds(pc).Some? ==> Holds(pc') == Holds(pc) || (Holds(pc').None? && Clean(sh, Holds(pc).value))
    ensures Kept(sh, pc, busy, ttl, sh, pc')
  {
  }

  /** A step that changes the maps at the key it holds, and may release the lock. */
  lemma ChangeKeeps(sh: Shared, sh': Shared, pc: Pc, pc': Pc, busy: set<FlowKey>, ttl: nat)
    requires Ready(sh, pc, busy, ttl) && Wf(sh') && Frame(sh, sh', Holds(pc)) && Local(sh', pc', ttl)
    requires Holds(pc).Some?
    requires Holds(pc') == Holds(pc) || (Holds(pc').None? && Clean(sh', Holds(pc).value))
    ensures Kept(sh, pc, busy, ttl, sh', pc')
  {
    FrameKeepsRest(sh, sh', busy, Holds(pc));
  }

  lemma FreeIsClean(sh: Shared, pc: Pc, busy: set<FlowKey>, ttl: nat, k: FlowKey)
    requires Ready(sh, pc, busy, ttl) && Holds(pc).None? && k !in busy
    ensures Clean(sh, k)
  {
  }

  lemma BeginKeeps(sh: Shared, op: Op, busy: set<FlowKey>, ttl: nat, now: int)
    requires Ready(sh, Called(op), busy, ttl)
    ensures var (sh', pc') := Begin(sh, op, busy, now); Kept(sh, Called(op), busy, ttl, sh', pc')
  {
    var pc' := Begin(sh, op, busy, now).1;
    assert Local(sh, pc', ttl) by {
      if Holds(pc').Some? { FreeIsClean(sh, Called(op), busy, ttl, Holds(pc').value); }
    }
    StayKeeps(sh, Called(op), pc', busy, ttl);
  }

  lemma IssueStepKeeps(sh: Shared, pc: Pc, busy: set<FlowKey>, ttl: nat)
    requires Ready(sh, pc, busy, ttl) && pc.InsertHeld? && InsertStep(sh, pc).0.issued <= U64
    ensures var (sh', pc') := InsertStep(sh, pc); Kept(sh, pc, busy, ttl, sh', pc')
  {
    var (sh', pc') := InsertStep(sh, pc);
    IssueKeeps(sh, pc.entry.key, sh');
    ChangeKeeps(sh, sh', pc, pc', busy, ttl);
  }

  lemma StoreStepKeeps(sh: Shared, pc: Pc, busy: set<FlowKey>, ttl: nat)
    requires Ready(sh, pc, busy, ttl) && pc.InsertNumbered?
    ensures var (sh', pc') := InsertStep(sh, pc); Kept(sh, pc, busy, ttl, sh', pc')
  {
    var (sh', pc') := InsertStep(sh, pc);
    StoreKeeps(sh, pc.id, pc.entry);
    ChangeKeeps(sh, sh', pc, pc', busy, ttl);
  }

  lemma PublishStepKeeps(sh: Shared, pc: Pc, busy: set<FlowKey>, ttl: nat)
    requires Ready(sh, pc, busy, ttl) && pc.InsertStored?
    ensures var (sh', pc') := InsertStep(sh, pc); Kept(sh, pc, busy, ttl, sh', pc')
  {
    var (sh', pc') := InsertStep(sh, pc);
    PublishKeeps(sh, pc.entry.key, pc.id);
    ChangeKeeps(sh, sh', pc, pc', busy, ttl);
  }

  /** Writing a new version of a linked entry. */
  lemma RenewKeeps(sh: Shared, pc: Pc, pc': Pc, id: nat, e: Entry, busy: set<FlowKey>, ttl: nat)
    requires Ready(sh, pc, busy, ttl) && Holds(pc) == Some(e.key) && Linked(sh, e.key, id)
    requires Holds(pc').None? && pc'.Done?
    ensures Kept(sh, pc, busy, ttl, Stored(sh, id, e), pc')
  {
    StoreKeeps(sh, id, e);
    ChangeKeeps(sh, Stored(sh, id, e), pc, pc', busy, ttl);
  }

  lemma InsertKeeps(sh: Shared, pc: Pc, busy: set<FlowKey>, ttl: nat)
    requires Ready(sh, pc, busy, ttl) && Inserting(pc) && InsertStep(sh, pc).0.issued <= U64
    ensures var (sh', pc') := InsertStep(sh, pc); Kept(sh, pc, busy, ttl, sh', pc')
  {
    match pc
    case InsertHeld(_) => IssueStepKeeps(sh, pc, busy, ttl);
    case InsertNumbered(_, _) => StoreStepKeeps(sh, pc, busy, ttl);
    case InsertStored(_, _) => PublishStepKeeps(sh, pc, busy, ttl);
    case UpdateHeld(e, id) => RenewKeeps(sh, pc, Done(Id(id)), id, Merge(sh.entries[id], e), busy, ttl);
  }

  lemma TouchLockKeeps(sh: Shared, pc: Pc, busy: set<FlowKey>, ttl: nat, now: int)
    requires Ready(sh, pc, busy, ttl) && pc.TouchKnown?
    ensures var (sh', pc') := UseStep(sh, pc, busy, now); Kept(sh, pc, busy, ttl, sh', pc')
  {
    var pc' := UseStep(sh, pc, busy, now).1;
    if pc'.TouchHeld? { FreeIsClean(sh, pc, busy, ttl, pc.what.key); }
    StayKeeps(sh, pc, pc', busy, ttl);
  }

  lemma UseKeeps(sh: Shared, pc: Pc, busy: set<FlowKey>, ttl: nat, now: int)
    requires Ready(sh, pc, busy, ttl) && Using(pc)
    ensures var (sh', pc') := UseStep(sh, pc, busy, now); Kept(sh, pc, busy, ttl, sh', pc')
  {
    if pc.TouchKnown? {
      TouchLockKeeps(sh, pc, busy, ttl, now);
    } else {
      var e := Seen(sh.entries[pc.what.id], now);
      RenewKeeps(sh, pc, UseStep(sh, pc, busy, now).1, pc.what.id, e, busy, ttl);
    }
  }

  /** Erasing the entry of a candidate at its clean key; then the index is to be unlinked. */
  lemma EraseStepKeeps(sh: Shared, pc: Pc, pc': Pc, what: Candidate, busy: set<FlowKey>, ttl: nat)
    requires Ready(sh, pc, busy, ttl) && Holds(pc) == Some(what.key) && Known(sh, what) && Clean(sh, what.key)
    requires if what.key in sh.index then Holds(pc') == Some(what.key) else Holds(pc').None?
    requires what.key in sh.index && Unlinking(Erased(sh, what.id), what) ==> Local(Erased(sh, what.id), pc', ttl)
    requires what.key !in sh.index ==> Local(sh, pc', ttl)
    ensures Kept(sh, pc, busy, ttl, Erased(sh, what.id), pc')
  {
    EraseKeeps(sh, what);
    EraseAtClean(sh, what);
    ChangeKeeps(sh, Erased(sh, what.id), pc, pc', busy, ttl);
  }

  lemma UnlinkStepKeeps(sh: Shared, pc: Pc, pc': Pc, what: Candidate, busy: set<FlowKey>, ttl: nat)
    requires Ready(sh, pc, busy, ttl) && Holds(pc) == Some(what.key) && Unlinking(sh, what) && Holds(pc').None?
    requires Frame(sh, Unlinked(sh, what), Some(what.key)) ==> Local(Unlinked(sh, what), pc', ttl)
    ensures Kept(sh, pc, busy, ttl, Unlinked(sh, what), pc')
  {
    UnlinkKeeps(sh, what);
    ChangeKeeps(sh, Unlinked(sh, what), pc, pc', busy, ttl);
  }

  lemma RemoveLockKeeps(sh: Shared, pc: Pc, busy: set<FlowKey>, ttl: nat)
    requires Ready(sh, pc, busy, ttl) && pc.RemoveKnown?
    ensures var (sh', pc') := RemoveStep(sh, pc, busy); Kept(sh, pc, busy, ttl, sh', pc')
  {
    var pc' := RemoveStep(sh, pc, busy).1;
    if pc'.RemoveHeld? { FreeIsClean(sh, pc, busy, ttl, pc.what.key); }
    StayKeeps(sh, pc, pc', busy, ttl);
  }

  lemma RemoveKeeps(sh: Shared, pc: Pc, busy: set<FlowKey>, ttl: nat)
    requires Ready(sh, pc, busy, ttl) && Removing(pc)
    ensures var (sh', pc') := RemoveStep(sh, pc, busy); Kept(sh, pc, busy, ttl, sh', pc')
  {
    match pc
    case RemoveKnown(_) => RemoveLockKeeps(sh, pc, busy, ttl);
    case RemoveHeld(what, _) => EraseStepKeeps(sh, pc, RemoveStep(sh, pc, busy).1, what, busy, ttl);
    case RemoveUnlink(what, _) => UnlinkStepKeeps(sh, pc, RemoveStep(sh, pc, busy).1, what, busy, ttl);
  }

  /** The lock of the next candidate is taken. */
  lemma SweepLockKeeps(sh: Shared, pc: Pc, busy: set<FlowKey>, ttl: nat)
    requires Ready(sh, pc, busy, ttl) && pc.Purging?
    ensures var (sh', pc') := PurgeStep(sh, pc, busy, ttl); Kept(sh, pc, busy, ttl, sh', pc')
  {
    var pc' := PurgeStep(sh, pc, busy, ttl).1;
    if pc'.PurgeHeld? {
      assert Known(sh, pc.todo[0]);
      FreeIsClean(sh, pc, busy, ttl, pc.todo[0].key);
    }
    StayKeeps(sh, pc, pc', busy, ttl);
  }

  /** The candidate is checked once more. */
  lemma SweepCheckKeeps(sh: Shared, pc: Pc, busy: set<FlowKey>, ttl: nat)
    requires Ready(sh, pc, busy, ttl) && pc.PurgeHeld?
    ensures var (sh', pc') := PurgeStep(sh, pc, busy, ttl); Kept(sh, pc, busy, ttl, sh', pc')
  {
    StayKeeps(sh, pc, PurgeStep(sh, pc, busy, ttl).1, busy, ttl);
  }

  /** A frame keeps what a purge still has to do. */
  lemma TodoKept(sh: Shared, sh': Shared, k: Option<FlowKey>, todo: seq<Candidate>)
    requires Frame(sh, sh', k) && AllKnown(sh, todo)
    ensures AllKnown(sh', todo)
  {
  }

  lemma SweepEraseKeeps(sh: Shared, pc: Pc, busy: set<FlowKey>, ttl: nat)
    requires Ready(sh, pc, busy, ttl) && pc.PurgeDoomed?
    ensures var (sh', pc') := PurgeStep(sh, pc, busy, ttl); Kept(sh, pc, busy, ttl, sh', pc')
  {
    var (sh', pc') := PurgeStep(sh, pc, busy, ttl);
    EraseKeeps(sh, pc.what);
    TodoKept(sh, sh', Some(pc.what.key), pc.todo);
    EraseStepKeeps(sh, pc, pc', pc.what, busy, ttl);
  }

  lemma SweepUnlinkKeeps(sh: Shared, pc: Pc, busy: set<FlowKey>, ttl: nat)
    requires Ready(sh, pc, busy, ttl) && pc.PurgeUnlink?
    ensures var (sh', pc') := PurgeStep(sh, pc, busy, ttl); Kept(sh, pc, busy, ttl, sh', pc')
  {
    var (sh', pc') := PurgeStep(sh, pc, busy, ttl);
    UnlinkKeeps(sh, pc.what);
    TodoKept(sh, sh', Some(pc.what.key), pc.todo);
    UnlinkStepKeeps(sh, pc, pc', pc.what, busy, ttl);
  }

  lemma PurgeKeeps(sh: Shared, pc: Pc, busy: set<FlowKey>, ttl: nat)
    requires Ready(sh, pc, busy, ttl) && Sweeping(pc)
    ensures var (sh', pc') := PurgeStep(sh, pc, busy, ttl); Kept(sh, pc, busy, ttl, sh', pc')
  {
    match pc
    case Purging(_, _) => SweepLockKeeps(sh, pc, busy, ttl);
    case PurgeHeld(_, _, _, _) => SweepCheckKeeps(sh, pc, busy, ttl);
    case PurgeDoomed(_, _, _, _) => SweepEraseKeeps(sh, pc, busy, ttl);
    case PurgeUnlink(_, _, _) => SweepUnlinkKeeps(sh, pc, busy, ttl);
  }

  lemma GoKeeps(sh: Shared, pc: Pc, busy: set<FlowKey>, ttl: nat, now: int)
    requires Ready(sh, pc, busy, ttl) && Go(sh, pc, busy, ttl, now).0.issued <= U64
    ensures var (sh', pc') := Go(sh, pc, busy, ttl, now); Kept(sh, pc, busy, ttl, sh', pc')
  {
    if pc.Called? { BeginKeeps(sh, pc.op, busy, ttl, now); }
    else if Inserting(pc) { InsertKeeps(sh, pc, busy, ttl); }
    else if Using(pc) { UseKeeps(sh, pc, busy, ttl, now); }
    else if Removing(pc) { RemoveKeeps(sh, pc, busy, ttl); }
    else if Sweeping(pc) { PurgeKeeps(sh, pc, busy, ttl); }
    else { StayKeeps(sh, pc, pc, busy, ttl); }
  }

  lemma StepKeeps(sh: Shared, pc: Pc, busy: set<FlowKey>, ttl: nat, a: Action)
    requires Ready(sh, pc, busy, ttl) && Step(sh, pc, busy, ttl, a).0.issued <= U64
    ensures var (sh', pc') := Step(sh, pc, busy, ttl, a); Kept(sh, pc, busy, ttl, sh', pc')
  {
    if a.Next? {
      GoKeeps(sh, pc, busy, ttl, a.now);
    } else {
      StayKeeps(sh, pc, Step(sh, pc, busy, ttl, a).1, busy, ttl);
    }
  }
}
