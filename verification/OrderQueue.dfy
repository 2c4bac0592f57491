/** The dispatch queue: a backing sequence, a cursor, and selection of the smallest issue sequence. */
module OrderQueues {
  import opened Results
  import opened PumpState

  datatype Order = Order(id: string, issue: int, command: Command)

  datatype QueueState = QueueState(orders: seq<Order>, cursor: nat)

  const EMPTY := QueueState([], 0)

  predicate Valid(q: QueueState) {
    q.cursor <= |q.orders|
  }

  function Pending(q: QueueState): seq<Order>
    requires Valid(q)
  {
    q.orders[q.cursor..]
  }

  /** The first position in `start..end` that holds a smallest issue sequence. */
  predicate IsBest(orders: seq<Order>, start: nat, end: nat, k: nat) {
    && start <= k < end <= |orders|
    && (forall j :: start <= j < end ==> orders[k].issue <= orders[j].issue)
    && (forall j :: start <= j < k ==> orders[k].issue < orders[j].issue)
  }

  function Best(orders: seq<Order>, start: nat): (k: nat)
    requires start < |orders|
    ensures start <= k < |orders|
    decreases |orders| - start
  {
    if start + 1 == |orders| then start
    else
      var k := Best(orders, start + 1);
      if orders[k].issue < orders[start].issue then k else start
  }

  lemma {:induction false} BestIsBest(orders: seq<Order>, start: nat)
    requires start < |orders|
    ensures IsBest(orders, start, |orders|, Best(orders, start))
    decreases |orders| - start
  {
    if start + 1 < |orders| { BestIsBest(orders, start + 1); }
  }

  lemma {:induction false} BestUnique(orders: seq<Order>, start: nat, k: nat)
    requires IsBest(orders, start, |orders|, k)
    ensures k == Best(orders, start)
  {
    BestIsBest(orders, start);
  }

  function Swap(orders: seq<Order>, i: nat, j: nat): (r: seq<Order>)
    requires i < |orders| && j < |orders|
    ensures |r| == |orders| && r[i] == orders[j] && r[j] == orders[i]
    ensures multiset(r) == multiset(orders)
  {
    orders[i := orders[j]][j := orders[i]]
  }

  function Taking(q: QueueState): (r: QueueState)
    requires q.cursor < |q.orders|
    ensures Valid(r)
  {
    QueueState(Swap(q.orders, q.cursor, Best(q.orders, q.cursor)), q.cursor + 1)
  }

  class OrderQueue {
    var orders: seq<Order>
    var cursor: nat

    function State(): QueueState
      reads this
    {
      QueueState(orders, cursor)
    }

    constructor ()
      ensures State() == EMPTY
    {
      orders, cursor := [], 0;
    }

    method Enqueue(order: Order)
      modifies this
      ensures State() == QueueState(old(orders) + [order], old(cursor))
    {
      orders := orders + [order];
    }

    method Len() returns (n: nat)
      requires Valid(State())
      ensures n == |Pending(State())|
    {
      n := |orders| - cursor;
    }

    /** Scans the pending orders, swaps the smallest to the cursor and serves it. */
    method Next() returns (r: Option<Order>)
      requires Valid(State())
      modifies this
      ensures Valid(State())
      ensures Pending(old(State())) == [] ==> r == None && State() == old(State())
      ensures Pending(old(State())) != [] ==>
                r == Some(old(orders)[Best(old(orders), old(cursor))]) && State() == Taking(old(State()))
    {
      if cursor >= |orders| { return None; }
      var best: nat := cursor;
      for index := cursor + 1 to |orders|
        invariant unchanged(this) && IsBest(orders, cursor, index, best)
      {
        if orders[index].issue < orders[best].issue { best := index; }
      }
      BestUnique(orders, cursor, best);
      orders := orders[cursor := orders[best]][best := orders[cursor]];
      r := Some(orders[cursor]);
      cursor := cursor + 1;
    }

    method Reset()
      modifies this
      ensures State() == EMPTY
    {
      orders, cursor := [], 0;
    }
  }

  // Every interleaving of enqueues, takes and resets.

  datatype Event = Put(order: Order) | Take | Clear

  /** The queue after these events, from an empty queue. */
  function After(events: seq<Event>): (q: QueueState)
    ensures Valid(q)
  {
    if events == [] then EMPTY
    else
      var q := After(events[..|events| - 1]);
      match events[|events| - 1]
      case Put(order) => QueueState(q.orders + [order], q.cursor)
      case Take => if q.cursor < |q.orders| then Taking(q) else q
      case Clear => EMPTY
  }

  /** What was enqueued since the last reset. */
  function Enqueued(events: seq<Event>): seq<Order> {
    if events == [] then []
    else
      match events[|events| - 1]
      case Put(order) => Enqueued(events[..|events| - 1]) + [order]
      case Take => Enqueued(events[..|events| - 1])
      case Clear => []
  }

  /** What was served since the last reset. */
  function Served(events: seq<Event>): seq<Order> {
    if events == [] then []
    else
      var before := events[..|events| - 1];
      var q := After(before);
      match events[|events| - 1]
      case Put(_) => Served(before)
      case Take =>
        if q.cursor < |q.orders| then Served(before) + [q.orders[Best(q.orders, q.cursor)]] else Served(before)
      case Clear => []
  }

  /** A bag of waiting orders, known from the history alone. */
  function Waiting(events: seq<Event>): multiset<Order> {
    multiset(Enqueued(events)) - multiset(Served(events))
  }

  lemma {:induction false} PendingSplits(q: QueueState)
    requires Valid(q)
    ensures multiset(Pending(q)) == multiset(q.orders) - multiset(q.orders[..q.cursor])
  {
    assert q.orders == q.orders[..q.cursor] + q.orders[q.cursor..];
  }

  lemma {:induction false} TakePrefix(q: QueueState)
    requires q.cursor < |q.orders|
    ensures Taking(q).orders[..q.cursor + 1] == q.orders[..q.cursor] + [q.orders[Best(q.orders, q.cursor)]]
  {
  }

  /** The backing sequence is a permutation of everything enqueued and its prefix is what was served. */
  lemma {:induction false} QueueKeepsHistory(events: seq<Event>)
    ensures var q := After(events);
            && multiset(q.orders) == multiset(Enqueued(events))
            && q.orders[..q.cursor] == Served(events)
            && multiset(Pending(q)) == Waiting(events)
  {
    if events != [] {
      var before := events[..|events| - 1];
      var q := After(before);
      QueueKeepsHistory(before);
      match events[|events| - 1]
      case Put(order) => assert (q.orders + [order])[..q.cursor] == q.orders[..q.cursor];
      case Take => if q.cursor < |q.orders| { TakePrefix(q); }
      case Clear =>
    }
    PendingSplits(After(events));
  }

  lemma {:induction false} BestLeadsPending(q: QueueState)
    requires q.cursor < |q.orders|
    ensures var order := q.orders[Best(q.orders, q.cursor)];
            order in Pending(q) && forall other :: other in Pending(q) ==> order.issue <= other.issue
  {
    var k := Best(q.orders, q.cursor);
    BestIsBest(q.orders, q.cursor);
    assert Pending(q)[k - q.cursor] == q.orders[k];
    forall other | other in Pending(q) ensures q.orders[k].issue <= other.issue {
      var j :| 0 <= j < |Pending(q)| && Pending(q)[j] == other;
      assert q.orders[q.cursor + j] == other;
    }
  }

  /** A waiting order of least issue sequence. */
  predicate Least(order: Order, waiting: multiset<Order>) {
    order in waiting && forall other :: other in waiting ==> order.issue <= other.issue
  }

  /**
   * The queue is a priority queue: a take serves a waiting order of least issue sequence, or nothing when none waits.
   */
  lemma {:induction false} TakeServesLeast(events: seq<Event>)
    ensures Waiting(events) == multiset{} ==> Served(events + [Take]) == Served(events)
    ensures Waiting(events) != multiset{} ==>
              exists order :: Least(order, Waiting(events)) && Served(events + [Take]) == Served(events) + [order]
                              && Waiting(events + [Take]) == Waiting(events) - multiset{order}
  {
    var q := After(events);
    var after := events + [Take];
    assert after[..|after| - 1] == events;
    QueueKeepsHistory(events);
    if q.cursor < |q.orders| {
      var order := q.orders[Best(q.orders, q.cursor)];
      BestLeadsPending(q);
      assert order in multiset(Pending(q));
      assert forall other :: other in multiset(Pending(q)) ==> other in Pending(q);
      assert Least(order, Waiting(events));
      assert Served(after) == Served(events) + [order];
      assert multiset(Served(after)) == multiset(Served(events)) + multiset{order};
    } else {
      assert Pending(q) == [];
    }
  }

  // Draining: the order in which the pending orders are served.

  function Drained(q: QueueState): seq<Order>
    requires Valid(q)
    decreases |q.orders| - q.cursor
  {
    if q.cursor == |q.orders| then []
    else [q.orders[Best(q.orders, q.cursor)]] + Drained(Taking(q))
  }

  function Fresh(orders: seq<Order>): (q: QueueState)
    ensures Valid(q) && Pending(q) == orders
  {
    QueueState(orders, 0)
  }

  predicate Ascending(orders: seq<Order>) {
    forall i, j :: 0 <= i < j < |orders| ==> orders[i].issue <= orders[j].issue
  }

  lemma {:induction false} BagCancel(p: multiset<Order>, x: multiset<Order>, y: multiset<Order>)
    requires p + x == p + y
    ensures x == y
  {
    assert (p + x) - p == x && (p + y) - p == y;
  }

  lemma {:induction false} BagConcat(a: seq<Order>, b: seq<Order>)
    ensures multiset(a + b) == multiset(a) + multiset(b)
  {
  }

  lemma {:induction false} BagTail(a: seq<Order>)
    requires a != []
    ensures multiset(a) == multiset{a[0]} + multiset(a[1..])
  {
    assert a == [a[0]] + a[1..];
  }

  lemma {:induction false} TakeSplitsPending(q: QueueState)
    requires q.cursor < |q.orders|
    ensures multiset(Pending(q)) == multiset{q.orders[Best(q.orders, q.cursor)]} + multiset(Pending(Taking(q)))
  {
    var t := Taking(q);
    var best := q.orders[Best(q.orders, q.cursor)];
    var prefix := q.orders[..q.cursor];
    TakePrefix(q);
    assert t.orders == prefix + ([best] + Pending(t));
    assert q.orders == prefix + Pending(q);
    BagConcat(prefix, [best] + Pending(t));
    BagConcat(prefix, Pending(q));
    BagConcat([best], Pending(t));
    BagCancel(multiset(prefix), multiset([best] + Pending(t)), multiset(Pending(q)));
  }

  /** Putting a least order before the rest in ascending order sorts them all. */
  lemma {:induction false} LeastFirst(order: Order, rest: seq<Order>, left: multiset<Order>, all: seq<Order>)
    requires multiset(rest) == left && Ascending(rest) && multiset(all) == multiset{order} + left
    requires forall other :: other in all ==> order.issue <= other.issue
    ensures multiset([order] + rest) == multiset(all) && Ascending([order] + rest)
  {
    BagConcat([order], rest);
    forall j | 0 <= j < |rest| ensures order.issue <= rest[j].issue {
      assert rest[j] in multiset(rest);
      assert rest[j] in multiset(all);
    }
  }

  /** Draining serves exactly the pending orders, by ascending issue sequence. */
  lemma {:induction false} DrainSorts(q: QueueState)
    requires Valid(q)
    ensures multiset(Drained(q)) == multiset(Pending(q)) && Ascending(Drained(q))
    decreases |q.orders| - q.cursor
  {
    if q.cursor < |q.orders| {
      var t := Taking(q);
      DrainSorts(t);
      TakeSplitsPending(q);
      BestLeadsPending(q);
      LeastFirst(q.orders[Best(q.orders, q.cursor)], Drained(t), multiset(Pending(t)), Pending(q));
    }
  }

  /** No two different orders share an issue sequence. */
  predicate DistinctIssues(orders: multiset<Order>) {
    forall a, b :: a in orders && b in orders && a.issue == b.issue ==> a == b
  }

  lemma {:induction false} HeadsAgree(a: seq<Order>, b: seq<Order>)
    requires multiset(a) == multiset(b) && Ascending(a) && Ascending(b) && DistinctIssues(multiset(a)) && a != []
    ensures b != [] && a[0] == b[0]
  {
    assert a[0] in multiset(b);
    var i :| 0 <= i < |b| && b[i] == a[0];
    assert b[0] in multiset(a);
    var j :| 0 <= j < |a| && a[j] == b[0];
    assert a[0].issue <= a[j].issue && b[0].issue <= b[i].issue;
  }

  lemma {:induction false} TailsAgree(a: seq<Order>, b: seq<Order>)
    requires a != [] && b != [] && a[0] == b[0] && multiset(a) == multiset(b)
    ensures multiset(a[1..]) == multiset(b[1..])
  {
    BagTail(a);
    BagTail(b);
    BagCancel(multiset{a[0]}, multiset(a[1..]), multiset(b[1..]));
  }

  lemma {:induction false} TailDistinct(a: seq<Order>)
    requires a != [] && DistinctIssues(multiset(a))
    ensures DistinctIssues(multiset(a[1..]))
  {
    BagTail(a);
  }

  lemma {:induction false} EmptyBag(b: seq<Order>)
    requires multiset(b) == multiset{}
    ensures b == []
  {
    assert |multiset(b)| == |b|;
  }

  lemma {:induction false} Rejoin(a: seq<Order>, b: seq<Order>)
    requires a != [] && b != [] && a[0] == b[0] && a[1..] == b[1..]
    ensures a == b
  {
    assert a == [a[0]] + a[1..] && b == [b[0]] + b[1..];
  }

  lemma {:induction false} AscendingUnique(a: seq<Order>, b: seq<Order>)
    requires multiset(a) == multiset(b) && Ascending(a) && Ascending(b) && DistinctIssues(multiset(a))
    ensures a == b
  {
    if a == [] {
      EmptyBag(b);
    } else {
      HeadsAgree(a, b);
      TailsAgree(a, b);
      TailDistinct(a);
      AscendingUnique(a[1..], b[1..]);
      Rejoin(a, b);
    }
  }

  /** Taking from ascending pending orders serves the first one where it stands. */
  lemma {:induction false} TakeLeaves(q: QueueState)
    requires q.cursor < |q.orders| && Ascending(Pending(q))
    ensures var t := Taking(q);
            && Best(q.orders, q.cursor) == q.cursor
            && Pending(q) == [q.orders[q.cursor]] + Pending(t)
            && Ascending(Pending(t))
  {
    var k, t := Best(q.orders, q.cursor), Taking(q);
    BestIsBest(q.orders, q.cursor);
    assert Pending(q)[0].issue <= Pending(q)[k - q.cursor].issue;
    assert t.orders == q.orders;
    assert forall i :: 0 <= i < |Pending(t)| ==> Pending(t)[i] == Pending(q)[i + 1];
  }

  /** Orders already ascending are served as they stand, whatever their ties. */
  lemma {:induction false} AscendingDrainsInPlace(q: QueueState)
    requires Valid(q) && Ascending(Pending(q))
    ensures Drained(q) == Pending(q)
    decreases |q.orders| - q.cursor
  {
    if q.cursor < |q.orders| {
      var t := Taking(q);
      TakeLeaves(q);
      AscendingDrainsInPlace(t);
    }
  }

  /** Arrival order does not matter exactly when no two different pending orders share an issue sequence. */
  lemma {:induction false} ArrivalOrderIrrelevantIff(arrived: seq<Order>)
    ensures (forall other :: multiset(other) == multiset(arrived) ==> Drained(Fresh(other)) == Drained(Fresh(arrived)))
            <==> DistinctIssues(multiset(arrived))
  {
    DrainSorts(Fresh(arrived));
    var served := Drained(Fresh(arrived));
    if DistinctIssues(multiset(arrived)) {
      forall other | multiset(other) == multiset(arrived) ensures Drained(Fresh(other)) == served {
        DrainSorts(Fresh(other));
        AscendingUnique(Drained(Fresh(other)), served);
      }
    } else {
      var a, b :| a in multiset(arrived) && b in multiset(arrived) && a.issue == b.issue && a != b;
      TieReordered(arrived, a, b);
    }
  }

  lemma {:induction false} SwapTieDrains(served: seq<Order>, i: nat, j: nat)
    requires i < |served| && j < |served| && Ascending(served) && served[i].issue == served[j].issue
    ensures Drained(Fresh(Swap(served, i, j))) == Swap(served, i, j)
  {
    var swapped := Swap(served, i, j);
    assert forall k :: 0 <= k < |served| ==> swapped[k].issue == served[k].issue;
    AscendingDrainsInPlace(Fresh(swapped));
  }

  lemma {:induction false} TieReordered(arrived: seq<Order>, a: Order, b: Order)
    requires a in multiset(arrived) && b in multiset(arrived) && a.issue == b.issue && a != b
    ensures exists other :: multiset(other) == multiset(arrived) && Drained(Fresh(other)) != Drained(Fresh(arrived))
  {
    DrainSorts(Fresh(arrived));
    var served := Drained(Fresh(arrived));
    assert a in multiset(served) && b in multiset(served);
    var i :| 0 <= i < |served| && served[i] == a;
    var j :| 0 <= j < |served| && served[j] == b;
    SwapTieDrains(served, i, j);
  }

  /** Orders carrying the numbers 1, 2, ... that the console hands out, in that order. */
  function Stamped(commands: seq<Command>): (orders: seq<Order>)
    ensures |orders| == |commands|
  {
    seq(|commands|, i requires 0 <= i < |commands| => Order("", i + 1, commands[i]))
  }

  /** However stamped commands arrive, they are served in the order their numbers were issued. */
  lemma {:induction false} StampedServedInIssueOrder(commands: seq<Command>, arrived: seq<Order>)
    requires multiset(arrived) == multiset(Stamped(commands))
    ensures Drained(Fresh(arrived)) == Stamped(commands)
  {
    var issued := Stamped(commands);
    forall a: Order, b: Order | a in multiset(issued) && b in multiset(issued) && a.issue == b.issue ensures a == b {
      var i :| 0 <= i < |issued| && issued[i] == a;
      var j :| 0 <= j < |issued| && issued[j] == b;
    }
    DrainSorts(Fresh(arrived));
    AscendingUnique(Drained(Fresh(arrived)), issued);
  }
}
