/** Batches over several groups as folds over a map: the drain of the dispatch queue and the batch of target changes. */
module Drains {
  import opened Results
  import opened Sequences
  import opened PumpState
  import opened OrderQueues

  // Draining. `ids[i]` is the id of the group reached through `keys[i]`; two entries may reach one group.

  /** The groups after a drain, what it returned, and the orders it did not reach. */
  datatype Drain<K(==)> = Drain(groups: map<K, GroupState>, left: seq<Order>, count: nat, outcome: Outcome)

  predicate Covers<K(==)>(groups: map<K, GroupState>, ids: seq<string>, keys: seq<K>) {
    |keys| == |ids| && forall k :: k in keys ==> k in groups
  }

  /** What one order does: the changed groups, or the error that stops the drain. */
  function Serving<K(==)>(groups: map<K, GroupState>, ids: seq<string>, keys: seq<K>, order: Order)
    : (map<K, GroupState>, Outcome)
    requires Covers(groups, ids, keys)
  {
    var k := Lookup(ids, order.command.group);
    if k == |ids| then (groups, Err(GroupNotFound))
    else
      var change := Applying(groups[keys[k]], order.command);
      (groups[keys[k] := change.state], change.outcome)
  }

  /** Orders in the given order until one fails. */
  function Draining<K(==)>(groups: map<K, GroupState>, ids: seq<string>, keys: seq<K>, orders: seq<Order>, count: nat)
    : Drain<K>
    requires Covers(groups, ids, keys)
    decreases |orders|
  {
    if orders == [] then Drain(groups, [], count, Done)
    else
      var (after, outcome) := Serving(groups, ids, keys, orders[0]);
      if outcome.Err? then Drain(after, orders[1..], count, outcome)
      else Draining(after, ids, keys, orders[1..], count + 1)
  }

  /** Draining a queue unrolls to serving its best pending order and draining what taking it leaves. */
  lemma {:induction false} DrainUnrolls<K>(
      groups: map<K, GroupState>, ids: seq<string>, keys: seq<K>, q: QueueState, count: nat)
    requires Covers(groups, ids, keys) && Valid(q) && q.cursor < |q.orders|
    ensures var (after, outcome) := Serving(groups, ids, keys, q.orders[Best(q.orders, q.cursor)]);
            Draining(groups, ids, keys, Drained(q), count)
            == if outcome.Err? then Drain(after, Drained(Taking(q)), count, outcome)
               else Draining(after, ids, keys, Drained(Taking(q)), count + 1)
  {
    assert Drained(q)[1..] == Drained(Taking(q));
  }

  /** A command that fails leaves its group as it was. */
  lemma {:induction false} FailedCommandChangesNothing(s: GroupState, command: Command)
    ensures Applying(s, command).outcome.Err? ==> Applying(s, command).state == s
  {
  }

  lemma {:induction false} FailedOrderChangesNothing<K>(
      groups: map<K, GroupState>, ids: seq<string>, keys: seq<K>, order: Order)
    requires Covers(groups, ids, keys)
    ensures Serving(groups, ids, keys, order).1.Err? ==> Serving(groups, ids, keys, order).0 == groups
  {
    var k := Lookup(ids, order.command.group);
    if k < |ids| {
      FailedCommandChangesNothing(groups[keys[k]], order.command);
      assert groups[keys[k] := groups[keys[k]]] == groups;
    }
  }

  /** A drain `d` of some orders applied exactly a first part of them, and accounts for the rest. */
  ghost predicate Accounts<K>(
      groups: map<K, GroupState>, ids: seq<string>, keys: seq<K>, orders: seq<Order>, count: nat, d: Drain<K>)
    requires Covers(groups, ids, keys)
  {
    var n := d.count - count;
    && 0 <= n <= |orders|
    && (d.outcome.Ok? <==> n == |orders|)
    && Draining(groups, ids, keys, orders[..n], count) == Drain(d.groups, [], d.count, Done)
    && Covers(d.groups, ids, keys)
    && (if n == |orders| then d.left == []
        else d.left == orders[n + 1..] && Serving(d.groups, ids, keys, orders[n]) == (d.groups, d.outcome))
  }

  /** One order that succeeds before a drain of the rest. */
  lemma {:induction false} AccountsOneMore<K>(
      groups: map<K, GroupState>, after: map<K, GroupState>, ids: seq<string>, keys: seq<K>, orders: seq<Order>,
      count: nat, d: Drain<K>)
    requires Covers(groups, ids, keys) && Covers(after, ids, keys) && orders != []
    requires Serving(groups, ids, keys, orders[0]).0 == after && Serving(groups, ids, keys, orders[0]).1.Ok?
    requires Accounts(after, ids, keys, orders[1..], count + 1, d)
    ensures Accounts(groups, ids, keys, orders, count, d)
  {
    var n := d.count - count;
    assert Draining(groups, ids, keys, orders[..n], count) == Drain(d.groups, [], d.count, Done) by {
      assert orders[..n][1..] == orders[1..][..n - 1] && orders[..n][0] == orders[0];
    }
    if n < |orders| { assert orders[1..][n..] == orders[n + 1..]; }
  }

  /**
   * Accounting: a drain that fails after `n` orders has applied exactly the first `n`, consumed the next one,
   * which is the one that fails, and left the rest; a drain that succeeds has applied and consumed them all.
   */
  lemma {:induction false} DrainAccounting<K>(
      groups: map<K, GroupState>, ids: seq<string>, keys: seq<K>, orders: seq<Order>, count: nat)
    requires Covers(groups, ids, keys)
    ensures Accounts(groups, ids, keys, orders, count, Draining(groups, ids, keys, orders, count))
    decreases |orders|
  {
    if orders != [] {
      var (after, outcome) := Serving(groups, ids, keys, orders[0]);
      FailedOrderChangesNothing(groups, ids, keys, orders[0]);
      if outcome.Ok? {
        DrainAccounting(after, ids, keys, orders[1..], count + 1);
        AccountsOneMore(groups, after, ids, keys, orders, count, Draining(after, ids, keys, orders[1..], count + 1));
      }
    }
  }

  // Which orders reach a group.

  /** No command fails for want of a group. */
  lemma {:induction false} CommandFindsNoMissingGroup(s: GroupState, command: Command)
    ensures Applying(s, command).outcome != Err(GroupNotFound)
  {
  }

  lemma {:induction false} AttachedIff(ids: seq<string>, id: string)
    ensures id in ids <==> Lookup(ids, id) < |ids|
  {
    if id in ids {
      var i :| 0 <= i < |ids| && ids[i] == id;
    }
  }

  /** An order for a group that is not attached changes nothing and gives the error that no other order gives. */
  lemma {:induction false} ServesAttachedOnly<K>(
      groups: map<K, GroupState>, ids: seq<string>, keys: seq<K>, order: Order)
    requires Covers(groups, ids, keys)
    ensures order.command.group !in ids ==> Serving(groups, ids, keys, order) == (groups, Err(GroupNotFound))
    ensures order.command.group in ids ==> Serving(groups, ids, keys, order).1 != Err(GroupNotFound)
    ensures Covers(Serving(groups, ids, keys, order).0, ids, keys)
  {
    AttachedIff(ids, order.command.group);
    var k := Lookup(ids, order.command.group);
    if k < |ids| { CommandFindsNoMissingGroup(groups[keys[k]], order.command); }
  }

  /** How many of these orders name an attached group. */
  function Reaching(ids: seq<string>, orders: seq<Order>): nat {
    if orders == [] then 0 else (if orders[0].command.group in ids then 1 else 0) + Reaching(ids, orders[1..])
  }

  /**
   * Every counted order reached an attached group, and the count is the number of those; the drain stops with a missing
   * group exactly at an order whose group is not attached, and so succeeds only if every order's group is.
   */
  lemma {:induction false} CountedOrdersReachGroups<K>(
      groups: map<K, GroupState>, ids: seq<string>, keys: seq<K>, orders: seq<Order>, count: nat)
    requires Covers(groups, ids, keys)
    ensures var d := Draining(groups, ids, keys, orders, count); var n := d.count - count;
            && 0 <= n <= |orders| && n == Reaching(ids, orders[..n])
            && (forall i :: 0 <= i < n ==> orders[i].command.group in ids)
            && (d.outcome.Ok? ==> n == |orders|)
            && (d.outcome == Err(GroupNotFound) <==> n < |orders| && orders[n].command.group !in ids)
    decreases |orders|
  {
    if orders != [] {
      ServesAttachedOnly(groups, ids, keys, orders[0]);
      var (after, outcome) := Serving(groups, ids, keys, orders[0]);
      if outcome.Ok? {
        var rest := orders[1..];
        CountedOrdersReachGroups(after, ids, keys, rest, count + 1);
        var n := Draining(after, ids, keys, rest, count + 1).count - count;
        assert orders[..n][1..] == rest[..n - 1] && orders[..n][0] == orders[0];
        forall i | 0 <= i < n ensures orders[i].command.group in ids {
          if i > 0 { assert rest[i - 1] == orders[i]; }
        }
      }
    }
  }

  /** One order changes only the first attached group of its name, as its command does alone. */
  lemma {:induction false} OneOrderLaw<K>(
      groups: map<K, GroupState>, ids: seq<string>, keys: seq<K>, order: Order, k: nat)
    requires Covers(groups, ids, keys) && k < |ids|
    requires ids[k] == order.command.group && forall j :: 0 <= j < k ==> ids[j] != order.command.group
    ensures var d := Draining(groups, ids, keys, [order], 0); var alone := Applying(groups[keys[k]], order.command);
            && d.outcome == (if alone.outcome.Ok? then Done else alone.outcome)
            && d.count == (if alone.outcome.Ok? then 1 else 0) && d.left == []
            && d.groups.Keys == groups.Keys && d.groups[keys[k]] == alone.state
            && forall key :: key in groups && key != keys[k] ==> d.groups[key] == groups[key]
  {
    var f := Lookup(ids, order.command.group);
    assert f == k by { assert f < k || f == k || k < f; }
    assert [order][1..] == [];
  }

  /** The commands that reach group `key`, in order. */
  function CommandsFor<K(==)>(ids: seq<string>, keys: seq<K>, orders: seq<Order>, key: K): seq<Command>
    requires |keys| == |ids|
  {
    if orders == [] then []
    else
      var k := Lookup(ids, orders[0].command.group);
      (if k < |ids| && keys[k] == key then [orders[0].command] else []) + CommandsFor(ids, keys, orders[1..], key)
  }

  /** When no order fails, each group ends as its own commands applied in order, whatever was interleaved. */
  lemma {:induction false} GroupsDrainApart<K>(
      groups: map<K, GroupState>, ids: seq<string>, keys: seq<K>, orders: seq<Order>, count: nat, key: K)
    requires Covers(groups, ids, keys) && key in groups
    requires Draining(groups, ids, keys, orders, count).outcome.Ok?
    ensures var d := Draining(groups, ids, keys, orders, count);
            key in d.groups
            && ApplyingAll(groups[key], CommandsFor(ids, keys, orders, key)) == Change(d.groups[key], Done)
    decreases |orders|
  {
    if orders != [] {
      var (after, outcome) := Serving(groups, ids, keys, orders[0]);
      GroupsDrainApart(after, ids, keys, orders[1..], count + 1, key);
      var mine := CommandsFor(ids, keys, orders, key);
      var rest := CommandsFor(ids, keys, orders[1..], key);
      if mine != rest { assert mine[1..] == rest; }
    }
  }

  /** Two queues with the same distinctly stamped pending orders drain alike: groups, count, error and leftovers. */
  lemma {:induction false} DrainIgnoresArrival<K>(
      groups: map<K, GroupState>, ids: seq<string>, keys: seq<K>, a: QueueState, b: QueueState)
    requires Covers(groups, ids, keys) && Valid(a) && Valid(b)
    requires multiset(Pending(a)) == multiset(Pending(b)) && DistinctIssues(multiset(Pending(a)))
    ensures Draining(groups, ids, keys, Drained(a), 0) == Draining(groups, ids, keys, Drained(b), 0)
  {
    DrainSorts(a);
    DrainSorts(b);
    AscendingUnique(Drained(a), Drained(b));
  }

  lemma {:induction false} SplitAt(orders: seq<Order>, n: nat)
    requires n < |orders|
    ensures multiset(orders) == multiset(orders[..n]) + multiset{orders[n]} + multiset(orders[n + 1..])
  {
    assert orders == orders[..n] + ([orders[n]] + orders[n + 1..]);
    BagConcat(orders[..n], [orders[n]] + orders[n + 1..]);
    BagConcat([orders[n]], orders[n + 1..]);
  }

  /** `a` was issued before `b`, or is the same order enqueued twice. */
  predicate Before(a: Order, b: Order) {
    a.issue < b.issue || a == b
  }

  lemma {:induction false} AscendingBefore(orders: seq<Order>)
    requires Ascending(orders) && DistinctIssues(multiset(orders))
    ensures forall i, j :: 0 <= i < j < |orders| ==> Before(orders[i], orders[j])
  {
    forall i, j | 0 <= i < j < |orders| ensures Before(orders[i], orders[j]) {
      assert orders[i] in multiset(orders) && orders[j] in multiset(orders);
    }
  }

  /** Ascending orders split at any one of them: the smaller before it, the larger after it. */
  lemma {:induction false} SplitsAround(orders: seq<Order>, pending: multiset<Order>, n: nat)
    requires Ascending(orders) && multiset(orders) == pending && DistinctIssues(pending) && n < |orders|
    ensures pending == multiset(orders[..n]) + multiset{orders[n]} + multiset(orders[n + 1..])
    ensures forall o :: o in orders[..n] ==> Before(o, orders[n])
    ensures forall o :: o in orders[n + 1..] ==> Before(orders[n], o)
  {
    SplitAt(orders, n);
    AscendingBefore(orders);
  }

  /** A drain of ascending orders that fails splits them at the failing one. */
  lemma {:induction false} FailureSplits<K>(
      groups: map<K, GroupState>, ids: seq<string>, keys: seq<K>, orders: seq<Order>, pending: multiset<Order>)
    requires Covers(groups, ids, keys) && Draining(groups, ids, keys, orders, 0).outcome.Err?
    requires Ascending(orders) && multiset(orders) == pending && DistinctIssues(pending)
    ensures var d := Draining(groups, ids, keys, orders, 0);
            && d.count < |orders|
            && pending == multiset(orders[..d.count]) + multiset{orders[d.count]} + multiset(d.left)
            && (forall o :: o in orders[..d.count] ==> Before(o, orders[d.count]))
            && (forall o :: o in d.left ==> Before(orders[d.count], o))
  {
    var d := Draining(groups, ids, keys, orders, 0);
    assert d.count < |orders| && d.left == orders[d.count + 1..] by { DrainAccounting(groups, ids, keys, orders, 0); }
    SplitsAround(orders, pending, d.count);
  }

  /** On an error the applied orders are the smaller ones, and precisely the larger ones are left. */
  lemma {:induction false} DrainSplitsByIssue<K>(
      groups: map<K, GroupState>, ids: seq<string>, keys: seq<K>, q: QueueState)
    requires Covers(groups, ids, keys) && Valid(q) && DistinctIssues(multiset(Pending(q)))
    requires Draining(groups, ids, keys, Drained(q), 0).outcome.Err?
    ensures var orders := Drained(q); var d := Draining(groups, ids, keys, orders, 0);
            && d.count < |orders|
            && multiset(Pending(q)) == multiset(orders[..d.count]) + multiset{orders[d.count]} + multiset(d.left)
            && (forall o :: o in orders[..d.count] ==> Before(o, orders[d.count]))
            && (forall o :: o in d.left ==> Before(orders[d.count], o))
  {
    DrainSorts(q);
    FailureSplits(groups, ids, keys, Drained(q), multiset(Pending(q)));
  }

  // A batch of target changes.

  /** One target per listed group until one is refused; a vibrating group is tripped on the way out. */
  function AdjustingAll<K(==)>(groups: map<K, GroupState>, keys: seq<K>, targets: seq<real>)
    : (map<K, GroupState>, Outcome)
    requires |keys| == |targets| && forall k :: k in keys ==> k in groups
    decreases |keys|
  {
    if keys == [] then (groups, Done)
    else
      var change := Adjusting(groups[keys[0]], targets[0]);
      var after := groups[keys[0] := change.state];
      if change.outcome.Err? then (after, change.outcome) else AdjustingAll(after, keys[1..], targets[1..])
  }

  /** Position of the first target its group refuses, or the number of targets. */
  function FirstRefused<K(==)>(groups: map<K, GroupState>, keys: seq<K>, targets: seq<real>): (n: nat)
    requires |keys| == |targets| && forall k :: k in keys ==> k in groups
    ensures n <= |keys|
    ensures forall i :: 0 <= i < n ==> Adjusting(groups[keys[i]], targets[i]).outcome.Ok?
    ensures n < |keys| ==> Adjusting(groups[keys[n]], targets[n]).outcome.Err?
    decreases |keys|
  {
    if keys == [] then 0
    else if Adjusting(groups[keys[0]], targets[0]).outcome.Err? then 0
    else 1 + FirstRefused(groups, keys[1..], targets[1..])
  }

  lemma {:induction false} FirstRefusedElsewhere<K>(
      groups: map<K, GroupState>, key: K, s: GroupState, keys: seq<K>, targets: seq<real>)
    requires |keys| == |targets| && key !in keys && forall k :: k in keys ==> k in groups
    ensures FirstRefused(groups[key := s], keys, targets) == FirstRefused(groups, keys, targets)
    decreases |keys|
  {
    if keys != [] { FirstRefusedElsewhere(groups, key, s, keys[1..], targets[1..]); }
  }

  predicate Distinct<K(==)>(keys: seq<K>) {
    forall i, j :: 0 <= i < j < |keys| ==> keys[i] != keys[j]
  }

  /** A batch leaves alone every group that is not listed up to the first refusal. */
  lemma {:induction false} BatchLeaves<K>(groups: map<K, GroupState>, keys: seq<K>, targets: seq<real>, k: K)
    requires |keys| == |targets| && (forall key :: key in keys ==> key in groups) && Distinct(keys) && k in groups
    requires forall i :: 0 <= i < |keys| && keys[i] == k ==> FirstRefused(groups, keys, targets) < i
    ensures var after := AdjustingAll(groups, keys, targets).0; after.Keys == groups.Keys && after[k] == groups[k]
    decreases |keys|
  {
    if keys != [] && Adjusting(groups[keys[0]], targets[0]).outcome.Ok? {
      var s := Adjusting(groups[keys[0]], targets[0]).state;
      FirstRefusedElsewhere(groups, keys[0], s, keys[1..], targets[1..]);
      BatchLeaves(groups[keys[0] := s], keys[1..], targets[1..], k);
    }
  }

  /** Entry `i` of a batch: set before the first refusal, and at the refusal as its group refuses it. */
  lemma {:induction false} BatchSets<K>(groups: map<K, GroupState>, keys: seq<K>, targets: seq<real>, i: nat)
    requires |keys| == |targets| && (forall key :: key in keys ==> key in groups) && Distinct(keys)
    requires i < |keys| && i <= FirstRefused(groups, keys, targets)
    ensures var (after, outcome) := AdjustingAll(groups, keys, targets);
            && after.Keys == groups.Keys
            && after[keys[i]] == Adjusting(groups[keys[i]], targets[i]).state
            && (i == FirstRefused(groups, keys, targets) ==> outcome == Adjusting(groups[keys[i]], targets[i]).outcome)
    decreases |keys|
  {
    if Adjusting(groups[keys[0]], targets[0]).outcome.Ok? {
      var s := Adjusting(groups[keys[0]], targets[0]).state;
      FirstRefusedElsewhere(groups, keys[0], s, keys[1..], targets[1..]);
      if i == 0 {
        BatchLeaves(groups[keys[0] := s], keys[1..], targets[1..], keys[0]);
      } else {
        BatchSets(groups[keys[0] := s], keys[1..], targets[1..], i - 1);
      }
    }
  }

  lemma {:induction false} BatchSucceedsIff<K>(groups: map<K, GroupState>, keys: seq<K>, targets: seq<real>)
    requires |keys| == |targets| && (forall key :: key in keys ==> key in groups) && Distinct(keys)
    ensures var (after, outcome) := AdjustingAll(groups, keys, targets);
            after.Keys == groups.Keys && (outcome == Done <==> FirstRefused(groups, keys, targets) == |keys|)
    decreases |keys|
  {
    if keys != [] && Adjusting(groups[keys[0]], targets[0]).outcome.Ok? {
      var s := Adjusting(groups[keys[0]], targets[0]).state;
      FirstRefusedElsewhere(groups, keys[0], s, keys[1..], targets[1..]);
      BatchSucceedsIff(groups[keys[0] := s], keys[1..], targets[1..]);
    }
  }

  lemma {:induction false} AdjustKeepsTarget(s: GroupState, mpa: real)
    ensures var change := Adjusting(s, mpa);
            if change.outcome.Ok? then change.state == s.(target := mpa) else change.state.target == s.target
  {
  }

  /** On distinct groups a batch sets exactly the targets before the first refusal and leaves later groups untouched. */
  lemma {:induction false} BatchStopsAtFirstRefusal<K>(groups: map<K, GroupState>, keys: seq<K>, targets: seq<real>)
    requires |keys| == |targets| && (forall k :: k in keys ==> k in groups) && Distinct(keys)
    ensures var n := FirstRefused(groups, keys, targets); var (after, outcome) := AdjustingAll(groups, keys, targets);
            && after.Keys == groups.Keys
            && (forall i :: 0 <= i < n ==> after[keys[i]] == groups[keys[i]].(target := targets[i]))
            && (forall k :: k in groups && (forall i :: 0 <= i < |keys| && keys[i] == k ==> n < i) ==>
                after[k] == groups[k])
            && (outcome == Done <==> n == |keys|)
            && (n < |keys| ==> Change(after[keys[n]], outcome) == Adjusting(groups[keys[n]], targets[n])
                               && after[keys[n]].target == groups[keys[n]].target)
  {
    var n := FirstRefused(groups, keys, targets);
    var (after, outcome) := AdjustingAll(groups, keys, targets);
    BatchSucceedsIff(groups, keys, targets);
    forall i | 0 <= i < n ensures after[keys[i]] == groups[keys[i]].(target := targets[i]) {
      BatchSets(groups, keys, targets, i);
      AdjustKeepsTarget(groups[keys[i]], targets[i]);
    }
    forall k | k in groups && (forall i :: 0 <= i < |keys| && keys[i] == k ==> n < i) ensures after[k] == groups[k] {
      BatchLeaves(groups, keys, targets, k);
    }
    if n < |keys| {
      BatchSets(groups, keys, targets, n);
      AdjustKeepsTarget(groups[keys[n]], targets[n]);
    }
  }
}
