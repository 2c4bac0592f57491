/** A station: its groups, the live and the cached view of their units, and operations over many groups. */
module Stations {
  import opened Results
  import opened Sequences
  import opened PumpState
  import opened PumpGroup
  import opened PumpSafety
  import opened OrderQueues
  import opened Drains

  /** The statuses of all groups, later groups winning a shared id. */
  function LiveView(groups: seq<GroupState>): View {
    if groups == [] then map[]
    else LiveView(groups[..|groups| - 1]) + Statuses(groups[|groups| - 1].units)
  }

  /** Units with one id show one status, in particular when ids are distinct station-wide. */
  predicate SharedIdsAgree(groups: seq<GroupState>) {
    forall g, h, u, v :: g in groups && h in groups && u in g.units && v in h.units && u.id == v.id
                         ==> u.status == v.status
  }

  predicate ShowsEveryUnit(groups: seq<GroupState>, view: View) {
    forall g, u :: g in groups && u in g.units ==> Seen(view, u.id) == u.status
  }

  /** Some unit of these groups has this id, and this status. */
  predicate SomeUnit(groups: seq<GroupState>, id: string, status: Status) {
    exists g, u :: g in groups && u in g.units && u.id == id && u.status == status
  }

  /** Group `i` is the last that has this id. */
  predicate LastWith(groups: seq<GroupState>, id: string, i: int) {
    && 0 <= i < |groups| && id in Statuses(groups[i].units)
    && forall j :: i < j < |groups| ==> id !in Statuses(groups[j].units)
  }

  /** The station reports each id as the last group that has it does, and no other id. */
  lemma {:induction false} LiveViewLaw(groups: seq<GroupState>, id: string)
    ensures id in LiveView(groups) <==> exists i :: LastWith(groups, id, i)
    ensures forall i :: LastWith(groups, id, i) ==>
              id in LiveView(groups) && LiveView(groups)[id] == Statuses(groups[i].units)[id]
  {
    if groups != [] {
      var n := |groups| - 1;
      LiveViewLaw(groups[..n], id);
      if id in Statuses(groups[n].units) {
        assert LastWith(groups, id, n);
      } else {
        forall i ensures LastWith(groups, id, i) <==> LastWith(groups[..n], id, i) {
          assert 0 <= i < n ==> groups[..n][i] == groups[i];
        }
      }
    }
  }

  lemma {:induction false} StatusesFromUnits(units: seq<UnitState>)
    ensures forall u :: u in units ==> u.id in Statuses(units)
    ensures forall id :: id in Statuses(units) ==> exists u ::
        u in units && u.id == id && u.status == Statuses(units)[id]
  {
    if units != [] {
      var n := |units| - 1;
      StatusesFromUnits(units[..n]);
      assert units == units[..n] + [units[n]];
    }
  }

  lemma {:induction false} LiveViewFromUnits(groups: seq<GroupState>)
    ensures forall g, u :: g in groups && u in g.units ==> u.id in LiveView(groups)
    ensures forall id :: id in LiveView(groups) ==> SomeUnit(groups, id, LiveView(groups)[id])
  {
    if groups != [] {
      var n := |groups| - 1;
      var last := groups[n];
      LiveViewFromUnits(groups[..n]);
      StatusesFromUnits(last.units);
      assert groups == groups[..n] + [last];
      forall id | id in LiveView(groups) ensures SomeUnit(groups, id, LiveView(groups)[id]) {
        if id in Statuses(last.units) {
          var u :| u in last.units && u.id == id && u.status == Statuses(last.units)[id];
          assert last in groups;
        } else {
          assert SomeUnit(groups[..n], id, LiveView(groups[..n])[id]);
        }
      }
    }
  }

  /** The live view shows every unit's own status exactly when units sharing an id share a status. */
  lemma {:induction false} LiveViewCoherentIff(groups: seq<GroupState>)
    ensures ShowsEveryUnit(groups, LiveView(groups)) <==> SharedIdsAgree(groups)
  {
    LiveViewFromUnits(groups);
    if SharedIdsAgree(groups) {
      forall g, u | g in groups && u in g.units ensures Seen(LiveView(groups), u.id) == u.status {
        assert SomeUnit(groups, u.id, LiveView(groups)[u.id]);
      }
    }
  }

  /** On a view that shows every unit, failover of a station's group is the live failover. */
  lemma {:induction false} CoherentViewIsLive(groups: seq<GroupState>, view: View, s: GroupState)
    requires ShowsEveryUnit(groups, view) && s in groups && DistinctIds(s)
    ensures FailingOver(s, view) == FailingOverLive(s)
    ensures Choice(s.units, view) == Choice(s.units, Statuses(s.units))
  {
    LiveShowsStatus(s.units);
    forall i | 0 <= i < |s.units| ensures Seen(view, s.units[i].id) == Seen(Statuses(s.units), s.units[i].id) {
      assert s.units[i] in s.units;
    }
    ChoiceFollowsUnits(s.units, view, Statuses(s.units));
  }

  function Members(groups: seq<Group>): set<Group> {
    set g | g in groups
  }

  function States(groups: seq<Group>): seq<GroupState>
    reads groups, Parts(Members(groups))
  {
    seq(|groups|, i requires 0 <= i < |groups| reads groups, Parts(Members(groups)) =>
      assert groups[i] in Members(groups);
      groups[i].State())
  }

  function Ids(groups: seq<Group>): seq<string>
    reads groups
  {
    seq(|groups|, i requires 0 <= i < |groups| reads groups => groups[i].id)
  }

  class Station {
    const id: string
    var groups: seq<Group>
    var cached: View

    constructor (id: string)
      ensures this.id == id && groups == [] && cached == map[]
    {
      this.id, groups, cached := id, [], map[];
    }

    ghost predicate Valid()
      reads this, groups
    {
      Separate(Members(groups))
    }

    method AttachGroup(group: Group) returns (r: Outcome)
      modifies this
      ensures r == if group.station == id then Done else Err(StationMismatch)
      ensures groups == if r.Ok? then old(groups) + [group] else old(groups)
      ensures cached == old(cached)
    {
      if group.station != id { return Err(StationMismatch); }
      groups := groups + [group];
      r := Done;
    }

    /** Reads every attached group. */
    method PumpStatuses() returns (view: View)
      ensures view == LiveView(States(groups))
    {
      ghost var s := States(groups);
      view := map[];
      for i := 0 to |groups|
        invariant view == LiveView(s[..i]) && States(groups) == s
      {
        assert s[..i + 1][..i] == s[..i];
        assert groups[i] in Members(groups) && s[i] == groups[i].State();
        var statuses := groups[i].Statuses();
        view := view + statuses;
      }
      assert s[..|groups|] == s;
    }

    method CachedPumpStatuses() returns (view: View)
      ensures view == cached
    {
      view := cached;
    }

    /** The cache is replaced even when persisting the station then fails. */
    method Refresh(saved: Outcome) returns (r: Outcome)
      modifies this`cached
      ensures States(groups) == old(States(groups)) && cached == LiveView(States(groups)) && r == saved
    {
      ghost var s := States(groups);
      var view := PumpStatuses();
      assert States(groups) == s;
      cached := view;
      assert States(groups) == s;
      r := saved;
    }

    method FindGroup(id: string) returns (k: nat)
      ensures k == Lookup(Ids(groups), id)
    {
      k := 0;
      ghost var ids := Ids(groups);
      while k < |groups|
        invariant k <= |groups|
        invariant Lookup(ids, id) == k + Lookup(ids[k..], id)
      {
        if groups[k].id == id { return; }
        k := k + 1;
      }
    }

    /** Failover of one group as the code runs it: on the cached view. */
    method Failover(group: Group) returns (r: Result<string>)
      requires group.Valid()
      modifies group, group.units
      ensures group.Valid() && group.units == old(group.units)
      ensures group.State() == FailingOver(old(group.State()), cached).state
      ensures r == if FailingOver(old(group.State()), cached).outcome.Ok?
          then Ok(Choice(old(group.State()).units, cached))
                   else Err(NoHealthyUnit)
    {
      var view := CachedPumpStatuses();
      r := group.Failover(view);
    }

    /** Applies one order to the group it names. */
    method Serve(order: Order) returns (r: Outcome)
      requires Valid()
      modifies groups, Parts(Members(groups))
      ensures Valid() && Ids(groups) == old(Ids(groups))
      ensures forall g :: g in groups ==> g.units == old(g.units)
      ensures (Snapshot(Members(groups)), r)
              == Serving(old(Snapshot(Members(groups))), old(Ids(groups)), groups, order)
    {
      ghost var all := Members(groups);
      var k := FindGroup(order.command.group);
      if k == |groups| {
        r := Err(GroupNotFound);
      } else {
        var group := groups[k];
        assert group in all;
        r := ApplyAmong(all, group, order.command);
      }
    }

    /** Takes the next order, if any, and serves it. */
    method ServeNext(queue: OrderQueue) returns (more: bool, r: Outcome)
      requires Valid() && OrderQueues.Valid(queue.State())
      modifies queue, groups, Parts(Members(groups))
      ensures Valid() && OrderQueues.Valid(queue.State()) && Ids(groups) == old(Ids(groups))
      ensures forall g :: g in groups ==> g.units == old(g.units)
      ensures var q := old(queue.State()); more <==> q.cursor < |q.orders|
      ensures !more ==> queue.State() == old(queue.State())
                        && Snapshot(Members(groups)) == old(Snapshot(Members(groups))) && r == Done
      ensures more ==>
                var q := old(queue.State());
                && queue.State() == Taking(q)
                && (Snapshot(Members(groups)), r)
                   == Serving(old(Snapshot(Members(groups))), old(Ids(groups)), groups,
                              q.orders[Best(q.orders, q.cursor)])
    {
      ghost var ids, snapshot := Ids(groups), Snapshot(Members(groups));
      var order := queue.Next();
      assert Ids(groups) == ids && Snapshot(Members(groups)) == snapshot;
      if order == None { return false, Done; }
      more := true;
      ghost var q := queue.State();
      r := Serve(order.value);
      assert queue.State() == q;
    }

    /** One turn of the drain, as a step of the fold over the pending orders. */
    method DrainNext(queue: OrderQueue, ghost count: nat) returns (more: bool, r: Outcome)
      requires Valid() && OrderQueues.Valid(queue.State())
      modifies queue, groups, Parts(Members(groups))
      ensures Valid() && OrderQueues.Valid(queue.State()) && Ids(groups) == old(Ids(groups))
      ensures forall g :: g in groups ==> g.units == old(g.units)
      ensures more ==> |queue.orders| - queue.cursor < old(|queue.orders| - queue.cursor)
      ensures more || r.Ok?
      ensures Draining(old(Snapshot(Members(groups))), old(Ids(groups)), groups, Drained(old(queue.State())), count)
              == if more && r.Ok? then
                   Draining(Snapshot(Members(groups)), old(Ids(groups)), groups, Drained(queue.State()), count + 1)
                 else Drain(Snapshot(Members(groups)), Drained(queue.State()), count, r)
    {
      ghost var q, snapshot := queue.State(), Snapshot(Members(groups));
      more, r := ServeNext(queue);
      if more { DrainUnrolls(snapshot, Ids(groups), groups, q, count); }
    }

    /** Drains the queue onto the groups, stopping at the first error. */
    method ApplyDispatch(queue: OrderQueue) returns (count: nat, r: Outcome)
      requires Valid() && OrderQueues.Valid(queue.State())
      modifies queue, groups, Parts(Members(groups))
      ensures Valid() && OrderQueues.Valid(queue.State())
      ensures Ids(groups) == old(Ids(groups))
      ensures Drain(Snapshot(Members(groups)), Drained(queue.State()), count, r)
              == Draining(old(Snapshot(Members(groups))), old(Ids(groups)), groups, Drained(old(queue.State())), 0)
    {
      ghost var all, ids := Members(groups), Ids(groups);
      ghost var goal := Draining(Snapshot(all), ids, groups, Drained(queue.State()), 0);
      count := 0;
      while true
        invariant Valid() && OrderQueues.Valid(queue.State()) && Ids(groups) == ids
        invariant forall g :: g in groups ==> g.units == old(g.units)
        invariant Draining(Snapshot(all), ids, groups, Drained(queue.State()), count) == goal
        decreases |queue.orders| - queue.cursor
      {
        var more;
        more, r := DrainNext(queue, count);
        if !more || r.Err? { return; }
        count := count + 1;
      }
    }

    method DispatchCommand(queue: OrderQueue, issue: int, command: Command)
      modifies queue
      ensures queue.State() == QueueState(old(queue.orders) + [Order("", issue, command)], old(queue.cursor))
    {
      queue.Enqueue(Order("", issue, command));
    }
  }

  /** Targets for several groups, one after the other; a group may be listed more than once. */
  method AdjustBatch(groups: seq<Group>, targets: seq<real>) returns (r: Outcome)
    requires Separate(Members(groups))
    modifies groups, Parts(Members(groups))
    ensures Separate(Members(groups))
    ensures |groups| != |targets| ==>
              r == Err(CountMismatch) && Snapshot(Members(groups)) == old(Snapshot(Members(groups)))
    ensures |groups| == |targets| ==>
              (Snapshot(Members(groups)), r) == AdjustingAll(old(Snapshot(Members(groups))), groups, targets)
  {
    if |groups| != |targets| { return Err(CountMismatch); }
    ghost var all := Members(groups);
    ghost var goal := AdjustingAll(Snapshot(all), groups, targets);
    for i := 0 to |groups|
      invariant Separate(all)
      invariant forall g :: g in groups ==> g.units == old(g.units)
      invariant AdjustingAll(Snapshot(all), groups[i..], targets[i..]) == goal
    {
      assert groups[i] in all;
      assert groups[i..][1..] == groups[i + 1..] && targets[i..][1..] == targets[i + 1..];
      r := AdjustAmong(all, groups[i], targets[i]);
      if r.Err? { return; }
    }
    r := Done;
  }
}
