/** The frame-format cache of crates/core-capture/src/frame_cache.rs: which prefix the
    device used for a flow, so that replies are written in the same format.

    Every method runs under the cache's mutex; clock readings are parameters. */
module FrameCache {
  import opened Bytes
  import opened Wrappers
  import opened Packet
  import opened Sets
  import Udp = UdpForwarder

  datatype FlowKey = FlowKey(protocol: nat, src: SocketAddr, dst: SocketAddr)

  function KeyOf(p: Parsed): Option<FlowKey> {
    match p.l4
    case Tcp(s, d, _, _) => Some(FlowKey(6, SocketAddr(p.ip.src, s), SocketAddr(p.ip.dst, d)))
    case Udp(s, d, _, _) => Some(FlowKey(17, SocketAddr(p.ip.src, s), SocketAddr(p.ip.dst, d)))
    case Other(_) => None
  }

  function Reverse(k: FlowKey): FlowKey {
    FlowKey(k.protocol, k.dst, k.src)
  }

  /** Same transport protocol, TCP or UDP. */
  predicate SameProtocol(p: Parsed, q: Parsed) {
    (p.l4.Tcp? && q.l4.Tcp?) || (p.l4.Udp? && q.l4.Udp?)
  }

  /** Two packets have the same key exactly if they are of one protocol and have the same
      addresses and ports, and reversed keys exactly if one may answer the other. */
  lemma KeysTellFlows(p: Parsed, q: Parsed)
    ensures KeyOf(p).Some? <==> p.l4.Tcp? || p.l4.Udp?
    ensures KeyOf(p).Some? ==> KeyOf(p).value.protocol == if p.l4.Tcp? then 6 else 17
    ensures KeyOf(p).Some? && KeyOf(q).Some? ==>
              && (KeyOf(q) == KeyOf(p) <==>
                    && SameProtocol(p, q) && q.ip.src == p.ip.src && q.ip.dst == p.ip.dst
                    && q.l4.srcPort == p.l4.srcPort && q.l4.dstPort == p.l4.dstPort)
              && (KeyOf(q).value == Reverse(KeyOf(p).value) <==> IsReply(p, q))
  {
  }

  /** From the addressee of `p` to its sender. */
  predicate IsReply(p: Parsed, q: Parsed) {
    && SameProtocol(p, q) && q.ip.src == p.ip.dst && q.ip.dst == p.ip.src
    && q.l4.srcPort == p.l4.dstPort && q.l4.dstPort == p.l4.srcPort
  }

  datatype Entry = Entry(format: FrameFormat, updatedAt: int)

  type Table = map<FlowKey, Entry>

  function Age(e: Entry, now: int): nat {
    if now < e.updatedAt then 0 else now - e.updatedAt
  }

  // -------------------------------------------------------------- what was observed

  datatype Observation = Observation(key: FlowKey, format: FrameFormat)

  /** The format last observed for a flow, in either direction. */
  function LastObserved(log: seq<Observation>, k: FlowKey): Option<FrameFormat> {
    if log == [] then None
    else
      var o := log[|log| - 1];
      if o.key == k || o.key == Reverse(k) then Some(o.format) else LastObserved(log[..|log| - 1], k)
  }

  lemma {:induction false} ObservedBothWays(log: seq<Observation>, k: FlowKey)
    ensures LastObserved(log, Reverse(k)) == LastObserved(log, k)
  {
    if log != [] { ObservedBothWays(log[..|log| - 1], k); }
  }

  /** After a packet was observed in a format, that is the format last observed for it and
      for every reply to it. */
  lemma ReplyIsObserved(log: seq<Observation>, p: Parsed, q: Parsed, format: FrameFormat)
    requires KeyOf(p).Some? && (IsReply(p, q) || q == p)
    ensures KeyOf(q).Some?
    ensures LastObserved(log + [Observation(KeyOf(p).value, format)], KeyOf(q).value) == Some(format)
  {
  }

  /** So the answer built for an observed datagram `a -> b` is looked up under a key whose
      format is the observed one. */
  lemma BuiltReplyIsObserved(log: seq<Observation>, p: Parsed, a: SocketAddr, b: SocketAddr, payload: seq<byte>,
                             format: FrameFormat)
    requires p.l4.Udp? && p.ip.src == a.octets && p.ip.dst == b.octets && p.l4.srcPort == a.port && p.l4.dstPort == b.port
    requires Udp.Buildable(b, a, payload)
    ensures var q := ParseIpPacket(Udp.Built(b, a, payload).value);
            && q.Ok? && KeyOf(q.value).Some?
            && LastObserved(log + [Observation(KeyOf(p).value, format)], KeyOf(q.value).value) == Some(format)
  {
    Udp.BuiltVerifies(b, a, payload);
    ReplyIsObserved(log, p, ParseIpPacket(Udp.Built(b, a, payload).value).value, format);
  }

  /** The table holds nothing but what was last observed. */
  predicate Agrees(t: Table, log: seq<Observation>) {
    forall k :: k in t ==> LastObserved(log, k) == Some(t[k].format)
  }

  /** The two directions of a flow never disagree. */
  lemma DirectionsAgree(t: Table, log: seq<Observation>, k: FlowKey)
    requires Agrees(t, log) && k in t && Reverse(k) in t
    ensures t[k].format == t[Reverse(k)].format
  {
    ObservedBothWays(log, k);
  }

  // -------------------------------------------------------------------- eviction

  /** `after` is `before` without its oldest entries. */
  predicate DropsOldest(before: Table, after: Table) {
    && (forall k :: k in after ==> k in before && after[k] == before[k])
    && (forall k, d :: k in after && d in before && d !in after ==> before[d].updatedAt <= before[k].updatedAt)
  }

  function Retained(t: Table, now: int, ttl: nat): Table {
    map k | k in t && Age(t[k], now) <= ttl :: t[k]
  }

  /** Retained is what was written or used within the last `ttl`. */
  lemma RetainedIsYoung(t: Table, now: int, ttl: nat, k: FlowKey)
    ensures k in Retained(t, now, ttl) <==> k in t && now - t[k].updatedAt <= ttl
    ensures k in Retained(t, now, ttl) ==> Retained(t, now, ttl)[k] == t[k]
  {
  }

  predicate SortedByAge(t: Table, keys: seq<FlowKey>)
    requires forall k :: k in keys ==> k in t
  {
    forall i, j :: 0 <= i < j < |keys| ==> t[keys[i]].updatedAt <= t[keys[j]].updatedAt
  }

  /** Exactly the keys of the table, each once. */
  ghost predicate Lists(t: Table, keys: seq<FlowKey>) {
    && (forall k :: k in keys <==> k in t)
    && (forall i, j :: 0 <= i < j < |keys| ==> keys[i] != keys[j])
  }

  /** The place of a new key: after all keys that are not newer. */
  method PlaceFor(t: Table, keys: seq<FlowKey>, k: FlowKey) returns (i: nat)
    requires k in t && (forall x :: x in keys ==> x in t) && SortedByAge(t, keys)
    ensures i <= |keys|
    ensures forall j :: 0 <= j < i ==> t[keys[j]].updatedAt <= t[k].updatedAt
    ensures forall j :: i <= j < |keys| ==> t[k].updatedAt < t[keys[j]].updatedAt
  {
    i := |keys|;
    while i > 0 && t[k].updatedAt < t[keys[i - 1]].updatedAt
      invariant i <= |keys|
      invariant forall j :: i <= j < |keys| ==> t[k].updatedAt < t[keys[j]].updatedAt
    {
      i := i - 1;
    }
  }

  function InsertedAt(keys: seq<FlowKey>, k: FlowKey, i: nat): (r: seq<FlowKey>)
    requires i <= |keys|
    ensures |r| == |keys| + 1 && r[i] == k
    ensures forall j :: 0 <= j < i ==> r[j] == keys[j]
    ensures forall j :: i < j < |r| ==> r[j] == keys[j - 1]
    ensures forall x :: x in r <==> x in keys || x == k
  {
    assert keys == keys[..i] + keys[i..];
    keys[..i] + [k] + keys[i..]
  }

  lemma InsertedIsSorted(t: Table, keys: seq<FlowKey>, k: FlowKey, i: nat)
    requires k in t && (forall x :: x in keys ==> x in t) && SortedByAge(t, keys) && i <= |keys|
    requires forall j :: 0 <= j < i ==> t[keys[j]].updatedAt <= t[k].updatedAt
    requires forall j :: i <= j < |keys| ==> t[k].updatedAt < t[keys[j]].updatedAt
    ensures SortedByAge(t, InsertedAt(keys, k, i))
  {
    var r := InsertedAt(keys, k, i);
    forall a, b | 0 <= a < b < |r| ensures t[r[a]].updatedAt <= t[r[b]].updatedAt {
      var a', b' := if a < i then a else a - 1, if b < i then b else b - 1;
      assert a != i && b != i ==> t[keys[a']].updatedAt <= t[keys[b']].updatedAt;
    }
  }

  /** The keys from the oldest entry to the newest. */
  method ByAge(t: Table) returns (keys: seq<FlowKey>)
    ensures Lists(t, keys) && |keys| == |t| && SortedByAge(t, keys)
  {
    keys := [];
    var todo := t.Keys;
    while todo != {}
      invariant todo <= t.Keys && |keys| + |todo| == |t|
      invariant forall k :: k in keys <==> k in t && k !in todo
      invariant forall i, j :: 0 <= i < j < |keys| ==> keys[i] != keys[j]
      invariant SortedByAge(t, keys)
      decreases |todo|
    {
      var k :| k in todo;
      var i := PlaceFor(t, keys, k);
      InsertedIsSorted(t, keys, k, i);
      keys := InsertedAt(keys, k, i);
      todo := todo - {k};
    }
  }

  function Without(t: Table, keys: seq<FlowKey>): Table {
    map k | k in t && k !in keys :: t[k]
  }

  lemma WithoutOneMore(t: Table, keys: seq<FlowKey>, i: nat)
    requires Lists(t, keys) && i < |keys|
    ensures keys[i] in Without(t, keys[..i])
    ensures Without(t, keys[..i + 1]) == Without(t, keys[..i]) - {keys[i]}
  {
    assert keys[i] in keys;
    assert forall m :: 0 <= m < i ==> keys[..i][m] != keys[i];
    assert keys[..i + 1] == keys[..i] + [keys[i]];
  }

  method RemoveAll(t: Table, keys: seq<FlowKey>, n: nat) returns (after: Table)
    requires Lists(t, keys) && n <= |keys|
    ensures after == Without(t, keys[..n]) && |after| == |t| - n
  {
    after := t;
    assert Without(t, keys[..0]) == t;
    for i := 0 to n
      invariant after == Without(t, keys[..i]) && |after| == |t| - i
    {
      WithoutOneMore(t, keys, i);
      after := after - {keys[i]};
    }
  }

  lemma OldestDropped(t: Table, keys: seq<FlowKey>, n: nat)
    requires Lists(t, keys) && SortedByAge(t, keys) && n <= |keys|
    ensures DropsOldest(t, Without(t, keys[..n]))
  {
    var after := Without(t, keys[..n]);
    assert forall m :: 0 <= m < n ==> keys[m] in keys[..n];
    forall k, d | k in after && d in t && d !in after ensures t[d].updatedAt <= t[k].updatedAt {
      var i :| 0 <= i < n && keys[i] == d;
      var j :| 0 <= j < |keys| && keys[j] == k;
    }
  }

  lemma DropsCompose(a: Table, b: Table, c: Table, now: int, ttl: nat)
    requires b == Retained(a, now, ttl) && DropsOldest(b, c)
    ensures DropsOldest(a, c)
  {
    forall k, d | k in c && d in a && d !in c ensures a[d].updatedAt <= a[k].updatedAt {
      assert k in b;
    }
  }

  /** The entries that are at least as new as `at`. */
  function AsNew(t: Table, at: int): set<FlowKey> {
    set j | j in t && t[j].updatedAt >= at
  }

  /** Eviction spares an entry if those at least as new as it, itself included, all fit. */
  lemma NewestSurvive(before: Table, after: Table, k: FlowKey, max: nat)
    requires DropsOldest(before, after) && |after| == max && k in before
    requires |AsNew(before, before[k].updatedAt)| <= max
    ensures k in after
  {
    if k !in after {
      var all := AsNew(before, before[k].updatedAt);
      forall j | j in after ensures j in all - {k} {
        assert before[k].updatedAt <= before[j].updatedAt;
      }
      SubsetCardinality(after.Keys, all - {k});
    }
  }

  lemma ObserveAgrees(t: Table, log: seq<Observation>, k: FlowKey, format: FrameFormat, now: int)
    requires Agrees(t, log)
    ensures Agrees(WithPair(t, k, Entry(format, now)), log + [Observation(k, format)])
  {
    var log' := log + [Observation(k, format)];
    assert log'[..|log'| - 1] == log;
  }

  function WithPair(t: Table, k: FlowKey, e: Entry): Table {
    t[k := e][Reverse(k) := e]
  }

  /** What an observation leaves of a table: the pair is written, the size is bounded
      at the cost of the oldest entries, and the new pair survives if the entries that are
      as new fit. */
  ghost predicate Observed(t: Table, after: Table, k: FlowKey, e: Entry, max: nat) {
    var with := WithPair(t, k, e);
    && |after| <= max && DropsOldest(with, after)
    && (|with| <= max ==> after == with)
    && (|AsNew(with, e.updatedAt)| <= max ==> k in after && Reverse(k) in after)
  }

  lemma ObservedPruned(t: Table, after: Table, k: FlowKey, e: Entry, ttl: nat, max: nat)
    requires var with := WithPair(t, k, e);
             && |with| > max && |after| <= max && DropsOldest(with, after)
             && (after == Retained(with, e.updatedAt, ttl) || |after| == max)
    ensures Observed(t, after, k, e, max)
  {
    if |AsNew(WithPair(t, k, e), e.updatedAt)| <= max {
      Survivors(WithPair(t, k, e), after, k, e.updatedAt, ttl, max);
    }
  }

  lemma StillAgrees(t: Table, after: Table, log: seq<Observation>)
    requires Agrees(t, log) && DropsOldest(t, after)
    ensures Agrees(after, log)
  {
  }

  // ------------------------------------------------------------------- the cache

  class TunFrameFormatCache {
    const ttl: nat
    const maxEntries: nat
    var inner: Table
    ghost var log: seq<Observation>

    ghost predicate Valid()
      reads this
    {
      Agrees(inner, log)
    }

    constructor (ttl: nat, maxEntries: nat)
      ensures Valid() && this.ttl == ttl && this.maxEntries == maxEntries && inner == map[] && log == []
    {
      this.ttl := ttl;
      this.maxEntries := maxEntries;
      inner := map[];
      log := [];
    }

    /** Drops what is too old and then, if that is not enough, the oldest. */
    method Prune(now: int)
      modifies `inner
      ensures DropsOldest(old(inner), inner) && |inner| <= maxEntries
      ensures inner == Retained(old(inner), now, ttl) || |inner| == maxEntries
    {
      var young := Retained(inner, now, ttl);
      DropsCompose(inner, young, young, now, ttl);
      if |young| <= maxEntries {
        inner := young;
        return;
      }
      var overflow := |young| - maxEntries;
      var byAge := ByAge(young);
      var kept := RemoveAll(young, byAge, overflow);
      OldestDropped(young, byAge, overflow);
      DropsCompose(inner, young, kept, now, ttl);
      inner := kept;
    }

    method Observe(packet: Parsed, format: FrameFormat, now: int)
      requires Valid()
      modifies this
      ensures Valid()
      ensures KeyOf(packet).None? ==> inner == old(inner) && log == old(log)
      ensures KeyOf(packet).Some? ==>
                var k := KeyOf(packet).value;
                && log == old(log) + [Observation(k, format)]
                && Observed(old(inner), inner, k, Entry(format, now), maxEntries)
    {
      var key := KeyOf(packet);
      if key.None? {
        return;
      }
      var k, e := key.value, Entry(format, now);
      inner := inner[k := e];
      inner := inner[Reverse(k) := e];
      ghost var with := inner;
      log := log + [Observation(k, format)];
      ObserveAgrees(old(inner), old(log), k, format, now);
      if |inner| > maxEntries {
        Prune(now);
        ObservedPruned(old(inner), inner, k, e, ttl, maxEntries);
        StillAgrees(with, inner, log);
      }
    }

    /** The format for a packet to be written: the last observed one, or bare. */
    method FormatForIpPacket(p: seq<byte>, now: int) returns (format: FrameFormat)
      requires Valid()
      modifies `inner
      ensures Valid()
      ensures var parsed := ParseIpPacket(p);
              if parsed.Ok? && KeyOf(parsed.value).Some? && KeyOf(parsed.value).value in old(inner) then
                var k := KeyOf(parsed.value).value;
                if now - old(inner)[k].updatedAt <= ttl then
                  && LastObserved(log, k) == Some(format)
                  && inner == old(inner)[k := Entry(format, now)]
                else format == RawIp && inner == old(inner) - {k}
              else format == RawIp && inner == old(inner)
    {
      var parsed := ParseIpPacket(p);
      if parsed.Err? {
        return RawIp;
      }
      var key := KeyOf(parsed.value);
      if key.None? || key.value !in inner {
        return RawIp;
      }
      var entry := inner[key.value];
      if Age(entry, now) > ttl {
        inner := inner - {key.value};
        return RawIp;
      }
      inner := inner[key.value := Entry(entry.format, now)];
      return entry.format;
    }
  }

  lemma Survivors(before: Table, after: Table, k: FlowKey, now: int, ttl: nat, max: nat)
    requires DropsOldest(before, after) && (after == Retained(before, now, ttl) || |after| == max)
    requires k in before && Reverse(k) in before
    requires before[k].updatedAt == now && before[Reverse(k)].updatedAt == now && |AsNew(before, now)| <= max
    ensures k in after && Reverse(k) in after
  {
    if |after| == max {
      NewestSurvive(before, after, k, max);
      NewestSurvive(before, after, Reverse(k), max);
    }
  }
}
