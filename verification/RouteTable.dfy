/** The rollback ledger of crates/core-capture/src/route_table.rs. What the platform
    answers to each call is a parameter; what was asked of it is recorded. */
module RouteTable {

  /** A managed route: destination, gateway, interface, metric and table. */
  datatype Route = Route(dest: string, gateway: string, interface: string, metric: nat, table: nat)

  /** A route in the ledger; `id` tells apart equal routes that were added twice. */
  datatype Item = Item(route: Route, id: nat)

  datatype Answer = Deleted | Absent | Failed

  /** A call to the platform. After a failed deletion the route stays in the ledger
      (`kept`) or, in a best-effort rollback, is given up. */
  datatype Call =
    | Added(route: Route)
    | Refused(route: Route)
    | Ensured(route: Route, ok: bool)
    | Del(item: Item, answer: Answer, kept: bool)

  // ----------------------------------------------------- the ledger, from the record

  function Adds(calls: seq<Call>): nat {
    if calls == [] then 0
    else Adds(calls[..|calls| - 1]) + (if calls[|calls| - 1].Added? then 1 else 0)
  }

  function Without(items: seq<Item>, id: nat): seq<Item> {
    if items == [] then []
    else (if items[0].id == id then [] else [items[0]]) + Without(items[1..], id)
  }

  predicate Removes(c: Call) {
    c.Del? && !(c.answer.Failed? && c.kept)
  }

  /** The routes added and not yet removed or given up, in order of insertion. */
  function Live(calls: seq<Call>): seq<Item> {
    if calls == [] then []
    else
      var before, c := Live(calls[..|calls| - 1]), calls[|calls| - 1];
      if c.Added? then before + [Item(c.route, Adds(calls[..|calls| - 1]))]
      else if Removes(c) then Without(before, c.item.id)
      else before
  }

  /** Call `i`, if it is a deletion, was asked for a route that was live at that moment. */
  predicate LiveAt(calls: seq<Call>, i: nat)
    requires i < |calls|
  {
    calls[i].Del? ==> calls[i].item in Live(calls[..i])
  }

  predicate OnlyLiveDeleted(calls: seq<Call>) {
    forall i :: 0 <= i < |calls| ==> LiveAt(calls, i)
  }

  predicate Ordered(items: seq<Item>) {
    forall i, j :: 0 <= i < j < |items| ==> items[i].id < items[j].id
  }

  lemma OneMore(calls: seq<Call>, c: Call)
    ensures (calls + [c])[..|calls + [c]| - 1] == calls
    ensures Adds(calls + [c]) == Adds(calls) + (if c.Added? then 1 else 0)
    ensures Live(calls + [c]) ==
              if c.Added? then Live(calls) + [Item(c.route, Adds(calls))]
              else if Removes(c) then Without(Live(calls), c.item.id)
              else Live(calls)
    ensures OnlyLiveDeleted(calls) && (c.Del? ==> c.item in Live(calls)) ==> OnlyLiveDeleted(calls + [c])
  {
    var more := calls + [c];
    assert more[..|more| - 1] == calls;
    if OnlyLiveDeleted(calls) && (c.Del? ==> c.item in Live(calls)) {
      forall i | 0 <= i < |more| ensures LiveAt(more, i) {
        assert more[..i] == calls[..i];
        assert i < |calls| ==> LiveAt(calls, i);
      }
    }
  }

  lemma {:induction false} WithoutMembers(items: seq<Item>, id: nat)
    ensures forall x :: x in Without(items, id) <==> x in items && x.id != id
  {
    if items != [] {
      WithoutMembers(items[1..], id);
      assert forall x :: x in items <==> x == items[0] || x in items[1..];
    }
  }

  lemma {:induction false} WithoutOrdered(items: seq<Item>, id: nat)
    requires Ordered(items)
    ensures Ordered(Without(items, id))
  {
    if items != [] {
      WithoutOrdered(items[1..], id);
      WithoutMembers(items[1..], id);
      var rest := Without(items[1..], id);
      assert forall j :: 0 <= j < |rest| ==> rest[j] in items[1..];
    }
  }

  /** The ledger is in order of insertion, and its ids are those of past additions. */
  lemma {:induction false} LiveIsOrdered(calls: seq<Call>)
    ensures Ordered(Live(calls))
    ensures forall x :: x in Live(calls) ==> x.id < Adds(calls)
  {
    if calls != [] {
      var init := calls[..|calls| - 1];
      LiveIsOrdered(init);
      if Removes(calls[|calls| - 1]) {
        WithoutOrdered(Live(init), calls[|calls| - 1].item.id);
        WithoutMembers(Live(init), calls[|calls| - 1].item.id);
      }
    }
  }

  /** A removed id never comes back. */
  lemma {:induction false} GoneStaysGone(calls: seq<Call>, i: nat, j: nat)
    requires i < j <= |calls| && Removes(calls[i]) && calls[i].item.id < Adds(calls[..i])
    ensures NoId(Live(calls[..j]), calls[i].item.id) && calls[i].item.id < Adds(calls[..j])
    decreases j
  {
    assert calls[..j] == calls[..j - 1] + [calls[j - 1]];
    if j == i + 1 {
      OneMore(calls[..i], calls[i]);
      WithoutMembers(Live(calls[..i]), calls[i].item.id);
    } else {
      GoneStaysGone(calls, i, j - 1);
      StillGone(calls[..j - 1], calls[j - 1], calls[i].item.id);
    }
  }

  lemma StillGone(calls: seq<Call>, c: Call, id: nat)
    requires NoId(Live(calls), id) && id < Adds(calls)
    ensures NoId(Live(calls + [c]), id) && id < Adds(calls + [c])
  {
    OneMore(calls, c);
    if Removes(c) { WithoutMembers(Live(calls), c.item.id); }
  }

  predicate NoId(items: seq<Item>, id: nat) {
    forall x :: x in items ==> x.id != id
  }

  /** No route is deleted twice: once a deletion succeeded, found the route absent or
      was given up, the platform is not asked again for that addition. */
  lemma DeletedOnce(calls: seq<Call>, i: nat, j: nat)
    requires OnlyLiveDeleted(calls) && i < j < |calls| && Removes(calls[i]) && calls[j].Del?
    ensures calls[j].item.id != calls[i].item.id
  {
    assert LiveAt(calls, i) && LiveAt(calls, j);
    LiveIsOrdered(calls[..i]);
    GoneStaysGone(calls, i, j);
  }

  // -------------------------------------------------------------- a rollback's order

  function Reversed(items: seq<Item>): seq<Item> {
    if items == [] then [] else [items[|items| - 1]] + Reversed(items[..|items| - 1])
  }

  lemma ReversedOneMore(items: seq<Item>, x: Item)
    ensures Reversed(items + [x]) == [x] + Reversed(items)
  {
    assert (items + [x])[..|items|] == items;
  }

  /** Dropping the item between two parts of an ordered ledger. */
  lemma WithoutMiddle(a: seq<Item>, x: Item, b: seq<Item>)
    requires Ordered(a + [x] + b)
    ensures Without(a + [x] + b, x.id) == a + b
    decreases a
  {
    var all := a + [x] + b;
    if a == [] {
      assert all[0] == x && all[1..] == b && a + b == b;
      WithoutNone(b, x.id);
    } else {
      assert all[0] == a[0] && all[1..] == a[1..] + [x] + b;
      assert all[|a|] == x;
      WithoutMiddle(a[1..], x, b);
      assert a + b == [a[0]] + (a[1..] + b);
    }
  }

  lemma {:induction false} WithoutNone(items: seq<Item>, id: nat)
    requires forall i :: 0 <= i < |items| ==> items[i].id != id
    ensures Without(items, id) == items
  {
    if items != [] { WithoutNone(items[1..], id); }
  }

  /** Walking back over the live routes `todo + kept`: the last of `todo` is tried and,
      unless it must stay, is gone. */
  lemma RevertStep(calls: seq<Call>, todo: seq<Item>, x: Item, kept: seq<Item>, answer: Answer, retain: bool)
    requires OnlyLiveDeleted(calls) && Live(calls) == todo + [x] + kept
    ensures var after := calls + [Del(x, answer, retain)];
            && Live(after) == (if answer.Failed? && retain then todo + ([x] + kept) else todo + kept)
            && OnlyLiveDeleted(after) && Adds(after) == Adds(calls)
  {
    var live := todo + [x] + kept;
    assert live == todo + ([x] + kept) && live[|todo|] == x;
    OneMore(calls, Del(x, answer, retain));
    if !(answer.Failed? && retain) {
      assert Without(live, x.id) == todo + kept by {
        LiveIsOrdered(calls);
        WithoutMiddle(todo, x, kept);
      }
    }
  }

  /** The first `n` calls of a rollback of `items`, the newest first. */
  function Deletions(items: seq<Item>, retain: bool, answer: nat -> Answer, n: nat): seq<Call>
    requires n <= |items|
  {
    if n == 0 then []
    else Deletions(items, retain, answer, n - 1) + [Del(items[|items| - n], answer(n - 1), retain)]
  }

  lemma {:induction false} DeletionAt(items: seq<Item>, retain: bool, answer: nat -> Answer, n: nat, i: nat)
    requires i < n <= |items|
    ensures |Deletions(items, retain, answer, n)| == n
    ensures Deletions(items, retain, answer, n)[i] == Del(items[|items| - 1 - i], answer(i), retain)
  {
    if n > 1 { DeletionAt(items, retain, answer, n - 1, if i < n - 1 then i else i - 1); }
  }

  /** Every rollback, the first or a retry, deletes in reverse order of insertion. */
  lemma NewestFirst(calls: seq<Call>, retain: bool, answer: nat -> Answer, i: nat, j: nat)
    requires i < j < |Live(calls)|
    ensures var ds := Deletions(Live(calls), retain, answer, |Live(calls)|);
            |ds| == |Live(calls)| && ds[i].Del? && ds[j].Del? && ds[i].item.id > ds[j].item.id
  {
    LiveIsOrdered(calls);
    DeletionAt(Live(calls), retain, answer, |Live(calls)|, i);
    DeletionAt(Live(calls), retain, answer, |Live(calls)|, j);
  }

  /** Those of the last `n` items that must be tried again, in order of insertion. */
  function Retained(items: seq<Item>, retain: bool, answer: nat -> Answer, n: nat): seq<Item>
    requires n <= |items|
  {
    if n == 0 then []
    else
      var rest := Retained(items, retain, answer, n - 1);
      if retain && answer(n - 1).Failed? then [items[|items| - n]] + rest else rest
  }

  predicate NoneFailed(answer: nat -> Answer, n: nat) {
    forall i :: 0 <= i < n ==> !answer(i).Failed?
  }

  lemma NoneFailedOneMore(answer: nat -> Answer, n: nat)
    ensures NoneFailed(answer, n + 1) <==> NoneFailed(answer, n) && !answer(n).Failed?
  {
  }

  lemma {:induction false} RetainedIsFailures(items: seq<Item>, retain: bool, answer: nat -> Answer, n: nat)
    requires n <= |items|
    ensures Retained(items, retain, answer, n) == [] <==> !retain || NoneFailed(answer, n)
  {
    if n > 0 { RetainedIsFailures(items, retain, answer, n - 1); }
  }

  /** `after`, which continues `calls`, leaves `live` live and asked for live routes only. */
  predicate CleanTo(calls: seq<Call>, after: seq<Call>, live: seq<Item>) {
    Live(after) == live && OnlyLiveDeleted(after) && Adds(after) == Adds(calls)
  }

  /** What is live after `n` deletions of a rollback of `items`. */
  function LiveAfter(items: seq<Item>, retain: bool, answer: nat -> Answer, n: nat): seq<Item>
    requires n <= |items|
  {
    items[..|items| - n] + Retained(items, retain, answer, n)
  }

  lemma LiveSplit(items: seq<Item>, retain: bool, answer: nat -> Answer, n: nat)
    requires n < |items|
    ensures var m, kept := |items| - n - 1, Retained(items, retain, answer, n);
            LiveAfter(items, retain, answer, n) == items[..m] + [items[m]] + kept
  {
    assert items[..|items| - n] == items[..|items| - n - 1] + [items[|items| - n - 1]];
  }

  lemma RollbackStep(calls: seq<Call>, items: seq<Item>, retain: bool, answer: nat -> Answer, n: nat, before: seq<Call>)
    requires n < |items| && CleanTo(calls, before, LiveAfter(items, retain, answer, n))
    ensures CleanTo(calls, before + [Del(items[|items| - n - 1], answer(n), retain)], LiveAfter(items, retain, answer, n + 1))
  {
    var m := |items| - n - 1;
    LiveSplit(items, retain, answer, n);
    RevertStep(before, items[..m], items[m], Retained(items, retain, answer, n), answer(n), retain);
  }

  lemma RollbackStarts(calls: seq<Call>, items: seq<Item>, retain: bool, answer: nat -> Answer)
    ensures calls + Deletions(items, retain, answer, 0) == calls
    ensures LiveAfter(items, retain, answer, 0) == items
  {
  }

  lemma RollbackGoesOn(calls: seq<Call>, items: seq<Item>, retain: bool, answer: nat -> Answer, n: nat)
    requires n < |items|
    ensures calls + Deletions(items, retain, answer, n + 1) ==
              calls + Deletions(items, retain, answer, n) + [Del(items[|items| - n - 1], answer(n), retain)]
  {
  }

  /** What a rollback leaves live, and that it asks for live routes only. */
  lemma {:induction false} RollbackIsClean(calls: seq<Call>, items: seq<Item>, retain: bool,
                                           answer: nat -> Answer, n: nat)
    requires OnlyLiveDeleted(calls) && items == Live(calls) && n <= |items|
    ensures CleanTo(calls, calls + Deletions(items, retain, answer, n), LiveAfter(items, retain, answer, n))
    decreases n
  {
    if n == 0 {
      RollbackStarts(calls, items, retain, answer);
    } else {
      RollbackIsClean(calls, items, retain, answer, n - 1);
      RollbackStep(calls, items, retain, answer, n - 1, calls + Deletions(items, retain, answer, n - 1));
      RollbackGoesOn(calls, items, retain, answer, n - 1);
    }
  }

  lemma WholeRollback(calls: seq<Call>, items: seq<Item>, retain: bool, answer: nat -> Answer)
    requires OnlyLiveDeleted(calls) && items == Live(calls)
    ensures var after := calls + Deletions(items, retain, answer, |items|);
            && Live(after) == Retained(items, retain, answer, |items|)
            && OnlyLiveDeleted(after) && Adds(after) == Adds(calls)
  {
    RollbackIsClean(calls, items, retain, answer, |items|);
    assert items[..0] + Retained(items, retain, answer, |items|) == Retained(items, retain, answer, |items|);
  }

  /** The calls that assert the ledger's routes again. */
  function Reassertions(items: seq<Item>, answer: nat -> bool, n: nat): seq<Call>
    requires n <= |items|
  {
    if n == 0 then [] else Reassertions(items, answer, n - 1) + [Ensured(items[n - 1].route, answer(n - 1))]
  }

  /** Asserting routes again changes nothing that is live. */
  lemma {:induction false} ReassertKeeps(calls: seq<Call>, items: seq<Item>, answer: nat -> bool, n: nat)
    requires n <= |items| && OnlyLiveDeleted(calls)
    ensures CleanTo(calls, calls + Reassertions(items, answer, n), Live(calls))
    decreases n
  {
    if n == 0 {
      assert calls + [] == calls;
    } else {
      var before, c := calls + Reassertions(items, answer, n - 1), Ensured(items[n - 1].route, answer(n - 1));
      ReassertKeeps(calls, items, answer, n - 1);
      OneMore(before, c);
      ReassertGoesOn(calls, items, answer, n - 1);
    }
  }

  lemma ReassertGoesOn(calls: seq<Call>, items: seq<Item>, answer: nat -> bool, n: nat)
    requires n < |items|
    ensures calls + Reassertions(items, answer, n + 1) ==
              calls + Reassertions(items, answer, n) + [Ensured(items[n].route, answer(n))]
  {
  }

  class RouteTable {
    var ledger: seq<Item>
    /** The number of additions so far, from which ledger items get their ids. */
    var added: nat
    ghost var calls: seq<Call>

    /** Over any run: the ledger is the list of routes not yet removed, and only live
        routes were ever deleted. */
    ghost predicate Valid()
      reads this
    {
      ledger == Live(calls) && OnlyLiveDeleted(calls) && added == Adds(calls)
    }

    constructor ()
      ensures Valid() && ledger == [] && calls == []
    {
      ledger := [];
      added := 0;
      calls := [];
    }

    /** Only a route the platform accepted enters the ledger. */
    method Add(r: Route, accepted: bool) returns (ok: bool)
      requires Valid()
      modifies this
      ensures Valid() && ok == accepted
      ensures calls == old(calls) + [if accepted then Added(r) else Refused(r)]
      ensures ledger == if accepted then old(ledger) + [Item(r, old(added))] else old(ledger)
    {
      ok := accepted;
      OneMore(calls, if accepted then Added(r) else Refused(r));
      calls := calls + [if accepted then Added(r) else Refused(r)];
      if accepted {
        ledger := ledger + [Item(r, added)];
        added := added + 1;
      }
    }

    /** Every route of the ledger is asserted again; the ledger does not change. */
    method ReconcileAll(answer: nat -> bool) returns (ok: bool)
      requires Valid()
      modifies `calls
      ensures Valid()
      ensures calls == old(calls) + Reassertions(ledger, answer, |ledger|)
      ensures ok <==> forall i :: 0 <= i < |ledger| ==> answer(i)
    {
      ghost var was := calls;
      ok := true;
      ReassertKeeps(was, ledger, answer, |ledger|);
      assert was + Reassertions(ledger, answer, 0) == was;
      for n := 0 to |ledger|
        invariant calls == was + Reassertions(ledger, answer, n)
        invariant ok <==> forall i :: 0 <= i < n ==> answer(i)
      {
        ReassertGoesOn(was, ledger, answer, n);
        calls := calls + [Ensured(ledger[n].route, answer(n))];
        ok := ok && answer(n);
      }
    }

    /** Deletes every route once, the newest first. `Ok` means that no deletion failed;
        if failures are retained, that is: exactly if the ledger ends empty. */
    method RevertAll(retain: bool, answer: nat -> Answer) returns (ok: bool)
      requires Valid()
      modifies this
      ensures Valid() && added == old(added)
      ensures calls == old(calls) + Deletions(old(ledger), retain, answer, |old(ledger)|)
      ensures ledger == Retained(old(ledger), retain, answer, |old(ledger)|)
      ensures ok <==> NoneFailed(answer, |old(ledger)|)
      ensures retain ==> (ok <==> ledger == [])
      ensures !retain ==> ledger == []
    {
      ghost var was := calls;
      var routes, failed, errors: nat := ledger, [], 0;
      ledger := [];
      WholeRollback(was, routes, retain, answer);
      RetainedIsFailures(routes, retain, answer, |routes|);
      RollbackStarts(was, routes, retain, answer);
      for n := 0 to |routes|
        invariant ledger == [] && added == old(added)
        invariant calls == was + Deletions(routes, retain, answer, n)
        invariant Reversed(failed) == Retained(routes, retain, answer, n)
        invariant errors == 0 <==> NoneFailed(answer, n)
      {
        var x := routes[|routes| - 1 - n];
        RollbackGoesOn(was, routes, retain, answer, n);
        NoneFailedOneMore(answer, n);
        calls := calls + [Del(x, answer(n), retain)];
        if answer(n).Failed? {
          errors := errors + 1;
          if retain {
            ReversedOneMore(failed, x);
            failed := failed + [x];
          }
        }
      }
      ledger := Reversed(failed);
      ok := errors == 0;
    }
  }
}
