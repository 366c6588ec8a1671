/**
 * Writes as steps of the reporting machine: what the notification code runs for one write is a
 * run of `Change` steps, one for each call and with the `pmin` that the call was tested with, so
 * that what is proved about whole runs covers it.
 */
module WriteSteps {
  import opened Wrappers
  import opened Bits
  import opened Lists
  import opened TlvValues
  import opened Attributes
  import opened Scheduler
  import opened Reporting
  import opened ReportingTimes
  import opened ObjectTree
  import opened Notifying
  import opened Merging
  import opened Setting

  // ---------------------------------------------------------------- calls are steps

  ghost function TasksOf(log: seq<Firing<SchedulerTask>>): seq<SchedulerTask> {
    seq(|log|, k requires 0 <= k < |log| => log[k].task)
  }

  /** The machine is in the state that the notification code sees, and its log has the calls so far. */
  ghost predicate Shows(s: State<SchedulerTask>, seen: Seen, now: int) {
    && WellFormed(s.sched)
    && s.sched.now == now && s.sched.info == seen.info && s.sched.sleeper == seen.sleeper
    && TasksOf(s.log) == seen.calls
  }

  function Changes(fired: seq<SchedulerTask>, limits: seq<Option<int>>): seq<Step<SchedulerTask>>
    requires |limits| == |fired|
  {
    seq(|fired|, k requires 0 <= k < |fired| => Change(fired[k].node, fired[k].server, limits[k]))
  }

  /** Each task is the one that the machine finds for its server at its node. */
  ghost predicate AreObservers(s: State<SchedulerTask>, fired: seq<SchedulerTask>) {
    forall t :: t in fired ==> Lookup(Observers(s, t.node), t.server) == Some(t)
  }

  /** What is seen after one call of `t`. */
  ghost function Called(before: Seen, t: SchedulerTask, now: int): Seen
    requires t in before.info
  {
    Seen(before.info[t := Executed(before.info[t], now)],
         if before.sleeper.Blocked? then before.sleeper.(signalled := true) else before.sleeper,
         before.calls + [t])
  }

  /** The other calls ran from there. */
  lemma RanRest(before: Seen, after: Seen, fired: seq<SchedulerTask>, now: int)
    requires Ran(before, after, fired, now) && fired != []
    ensures fired[0] in before.info && Ran(Called(before, fired[0], now), after, fired[1..], now)
  {
    var t, rest := fired[0], fired[1..];
    assert fired == [t] + rest && t in fired;
    assert (before.calls + [t]) + rest == before.calls + fired;
  }

  lemma StepShows(s: State<SchedulerTask>, before: Seen, t: SchedulerTask, limit: Option<int>, now: int)
    requires Shows(s, before, now) && !before.sleeper.Exited? && t in before.info
    requires Lookup(Observers(s, t.node), t.server) == Some(t)
    requires FulfillsPmin(limit, before.info[t].last, now)
    ensures var step := Change(t.node, t.server, limit);
      && Enabled(s, step) && Shows(Next(s, step), Called(before, t, now), now)
      && Next(s, step).observers == s.observers
  {
    var n := Next(s, Change(t.node, t.server, limit));
    assert TasksOf(n.log) == TasksOf(s.log) + [t];
  }

  /** The calls after the first one passed in the state that it left. */
  lemma PassesAfterOne(before: Seen, middle: Seen, now: int, fired: seq<SchedulerTask>, limits: seq<Option<int>>)
    requires fired != [] && Passes(before, now, fired, limits) && middle.info.Keys == before.info.Keys
    requires forall t :: t in before.info ==>
               middle.info[t].last == if t == fired[0] then now else before.info[t].last
    ensures Passes(middle, now, fired[1..], limits[1..])
  {
    hide FulfillsPmin;
    var rest := fired[1..];
    forall j | 0 <= j < |rest|
      ensures rest[j] in middle.info && FulfillsPmin(limits[1..][j], LastAt(middle, rest[..j], rest[j], now), now)
    {
      assert fired[..j + 1] == [fired[0]] + rest[..j];
      assert FulfillsPmin(limits[j + 1], LastAt(before, fired[..j + 1], fired[j + 1], now), now);
    }
  }

  lemma OneChange(s: State<SchedulerTask>, before: Seen, after: Seen, fired: seq<SchedulerTask>,
                  limits: seq<Option<int>>, now: int)
    returns (middle: Seen)
    requires Shows(s, before, now) && Ran(before, after, fired, now) && !before.sleeper.Exited?
    requires fired != [] && AreObservers(s, fired) && Passes(before, now, fired, limits)
    ensures var step := Change(fired[0].node, fired[0].server, limits[0]);
      && Enabled(s, step)
      && var n := Next(s, step);
        && Shows(n, middle, now) && !middle.sleeper.Exited?
        && Ran(middle, after, fired[1..], now)
        && AreObservers(n, fired[1..]) && Passes(middle, now, fired[1..], limits[1..])
  {
    var t := fired[0];
    assert fired[..0] == [] && t in fired;
    RanRest(before, after, fired, now);
    hide Ran, FulfillsPmin;
    middle := Called(before, t, now);
    StepShows(s, before, t, limits[0], now);
    PassesAfterOne(before, middle, now, fired, limits);
    hide Enabled, Next, Shows, Passes;
    var n := Next(s, Change(t.node, t.server, limits[0]));
    forall x | x in fired[1..] ensures Lookup(Observers(n, x.node), x.server) == Some(x) {
      assert x in fired && Observers(n, x.node) == Observers(s, x.node);
    }
  }

  lemma NoChange(s: State<SchedulerTask>, before: Seen, after: Seen, fired: seq<SchedulerTask>, now: int)
    requires Shows(s, before, now) && Ran(before, after, fired, now) && fired == []
    ensures Shows(s, after, now)
  {
    assert before.calls + fired == before.calls;
    assert after.info == before.info;
  }

  lemma NoSteps()
    ensures Changes([], []) == []
  {
  }

  lemma ChangesFirst(fired: seq<SchedulerTask>, limits: seq<Option<int>>)
    requires |limits| == |fired| > 0
    ensures Changes(fired, limits) ==
            [Change(fired[0].node, fired[0].server, limits[0])] + Changes(fired[1..], limits[1..])
  {
  }

  /** What `execute` ran for is a run of changes, and the machine then shows what the code sees. */
  lemma {:induction false} CallsAreChanges(s: State<SchedulerTask>, before: Seen, after: Seen,
                                           fired: seq<SchedulerTask>, limits: seq<Option<int>>, now: int)
    requires Shows(s, before, now) && Ran(before, after, fired, now) && !before.sleeper.Exited?
    requires AreObservers(s, fired) && Passes(before, now, fired, limits)
    ensures Runs(s, Changes(fired, limits)) && Shows(After(s, Changes(fired, limits)), after, now)
    decreases |fired|
  {
    assert |limits| == |fired|;
    hide Enabled, Next, Shows, Ran, AreObservers, Passes, Changes;
    if fired == [] {
      NoChange(s, before, after, fired, now);
      NoSteps();
    } else {
      var middle := OneChange(s, before, after, fired, limits, now);
      ChangesFirst(fired, limits);
      var step, rest := Change(fired[0].node, fired[0].server, limits[0]), Changes(fired[1..], limits[1..]);
      CallsAreChanges(Next(s, step), middle, after, fired[1..], limits[1..], now);
      FirstStep(s, step, rest);
    }
  }

  // ---------------------------------------------------------------- what every write then keeps

  /** The invariants of every reachable state. */
  ghost predicate Reached(s: State<SchedulerTask>) {
    SchedInv(s) && TimesInv(s)
  }

  lemma ReachableIsReached(s: State<SchedulerTask>, steps: seq<Step<SchedulerTask>>)
    requires Initial(s) && Runs(s, steps)
    ensures Reached(After(s, steps))
  {
    InitialInv(s);
    RunKeepsSchedInv(s, steps);
    RunKeepsTimes(s, steps);
  }

  /**
   * A write from what is seen in `before` is a run of changes to what is seen in `after`, one for
   * each call, and after it, as after any run, all notifications are as far apart as they should be.
   */
  ghost predicate IsWrite(s: State<SchedulerTask>, after: Seen, now: int,
                          fired: seq<SchedulerTask>, limits: seq<Option<int>>) {
    && |limits| == |fired| && Runs(s, Changes(fired, limits))
    && var e := After(s, Changes(fired, limits));
      && Shows(e, after, now)
      && (Reached(s) ==> Reached(e) && Spaced(e))
  }

  lemma CallsAreWrite(s: State<SchedulerTask>, before: Seen, after: Seen, fired: seq<SchedulerTask>,
                      limits: seq<Option<int>>, now: int)
    requires Shows(s, before, now) && Ran(before, after, fired, now) && !before.sleeper.Exited?
    requires AreObservers(s, fired) && Passes(before, now, fired, limits)
    ensures IsWrite(s, after, now, fired, limits)
  {
    hide Shows, Ran, AreObservers, SchedInv, LogKnown, LastIsKept, Spaced, Punctual;
    CallsAreChanges(s, before, after, fired, limits, now);
    if Reached(s) {
      RunKeepsSchedInv(s, Changes(fired, limits));
      RunKeepsTimes(s, Changes(fired, limits));
    }
  }

  // ---------------------------------------------------------------- setting a value

  /** What `set_value` tests a task of the resource, the object or the instance with. */
  ghost function SetLimit(i: Instance, r: Resource, servers: seq<Binding<Server>>, t: SchedulerTask): Option<int>
    requires AllHaveDefaults(servers)
    reads *
  {
    LookupMembers(servers);
    var found := Lookup(servers, t.server);
    if found.None? then None
    else if t.node == ObjectNode(i.parent.id) then ObjectLimit(found.value, i)
    else if t.node == InstanceNode(i.parent.id, i.id) then InstanceLimit(found.value, i)
    else ResourceLimit(found.value, i, r)
  }

  /** The limits of several tasks, in their order. */
  ghost function SetLimits(i: Instance, r: Resource, servers: seq<Binding<Server>>, fired: seq<SchedulerTask>)
    : (limits: seq<Option<int>>)
    requires AllHaveDefaults(servers)
    reads *
    ensures |limits| == |fired|
    ensures forall j :: 0 <= j < |fired| ==> limits[j] == SetLimit(i, r, servers, fired[j])
  {
    if fired == [] then [] else [SetLimit(i, r, servers, fired[0])] + SetLimits(i, r, servers, fired[1..])
  }

  /** The limit is that of the task's level for its server. */
  lemma SetLimitIs(i: Instance, r: Resource, servers: seq<Binding<Server>>, b: Binding<Server>, t: SchedulerTask)
    requires AllHaveDefaults(servers) && ServersKeyed(servers) && b in servers && b.key == t.server
    ensures SetLimit(i, r, servers, t) ==
            match t.node
            case ObjectNode(o) => if o == i.parent.id then ObjectLimit(b.value, i) else ResourceLimit(b.value, i, r)
            case InstanceNode(o, n) =>
              if o == i.parent.id && n == i.id then InstanceLimit(b.value, i) else ResourceLimit(b.value, i, r)
            case _ => ResourceLimit(b.value, i, r)
  {
    LookupMember(servers, t.server);
    hide ObjectLimit, InstanceLimit, ResourceLimit;
  }

  /** A level's verdict on a server whose task ran: it passed the limit. */
  lemma ReportPassed(observers: seq<Binding<SchedulerTask>>, node: Node, told: bool, limit: Option<int>,
                     before: Seen, now: int, fired: seq<SchedulerTask>, t: SchedulerTask)
    requires t in fired && AtNode(node, observers, t)
    requires ReportedOnce(observers, t.server, told, limit, before, now, fired)
    ensures t in before.info && FulfillsPmin(limit, before.info[t].last, now)
  {
  }

  /**
   * `set_value` makes a run of `Change` steps, one for each call and with the limits as they are
   * when it returns, and keeps the distances between notifications.
   */
  method SetValueSteps(i: Instance, r: Resource, value: Option<Value>, servers: seq<Binding<Server>>,
                       dbl: seq<byte> -> real, sched: TaskScheduler, now: int, ghost s: State<SchedulerTask>)
    returns (fired: seq<SchedulerTask>)
    requires sched.Valid() && ServersKeyed(servers) && AllHaveDefaults(servers)
    requires HoldsTasks(r.observers, ResourceNode(i.parent.id, i.id, r.id), sched.tasks)
    requires HoldsTasks(i.parent.observers, ObjectNode(i.parent.id), sched.tasks)
    requires HoldsTasks(i.observers, InstanceNode(i.parent.id, i.id), sched.tasks)
    requires forall b :: b in servers ==>
               Comparable(r.attributes.For(b.key), r.kind, Replaced(r.kind, r.value, value), value)
    requires Shows(s, See(sched), now) && !sched.sleeper.Exited?
    requires Observers(s, ResourceNode(i.parent.id, i.id, r.id)) == r.observers
    requires Observers(s, ObjectNode(i.parent.id)) == i.parent.observers
    requires Observers(s, InstanceNode(i.parent.id, i.id)) == i.observers
    modifies r`value, sched`sleeper, sched`calls, sched.tasks
    ensures IsWrite(s, See(sched), now, fired, SetLimits(i, r, servers, fired))
  {
    hide HoldsTasks, ReportedOnce, Concerned, Comparable, StoredValue, Replaced, ResourceLimit, ObjectLimit,
      InstanceLimit, Shows, Ran, TaskScheduler.Valid, SetLimit, SetLimits, FulfillsPmin, IsWrite, Distinct;
    ghost var before := See(sched);
    fired := SetValue(i, r, value, servers, dbl, sched, now);
    ghost var limits := SetLimits(i, r, servers, fired);
    forall j | 0 <= j < |fired|
      ensures fired[j] in before.info && FulfillsPmin(limits[j], before.info[fired[j]].last, now)
      ensures Lookup(Observers(s, fired[j].node), fired[j].server) == Some(fired[j])
    {
      ghost var t := fired[j];
      assert t in fired;
      ghost var b :| b in servers && b.key == t.server &&
        Concerned(old(r.attributes.For(b.key)), r.kind, Replaced(r.kind, old(r.value), value), value, dbl);
      SetLimitIs(i, r, servers, b, t);
      if AtNode(ResourceNode(i.parent.id, i.id, r.id), r.observers, t) {
        ReportPassed(r.observers, t.node, true, limits[j], before, now, fired, t);
      } else if AtNode(ObjectNode(i.parent.id), i.parent.observers, t) {
        ReportPassed(i.parent.observers, t.node, true, limits[j], before, now, fired, t);
      } else {
        ReportPassed(i.observers, t.node, true, limits[j], before, now, fired, t);
      }
    }
    DistinctPasses(before, now, fired, limits);
    CallsAreWrite(s, before, See(sched), fired, limits, now);
  }

  // ---------------------------------------------------------------- writing an instance

  /** The machine has the observers of the instance, its object and its resources. */
  ghost predicate ObserversShown(s: State<SchedulerTask>, m: Merge)
    requires Sound(m)
    reads m.i`observers, m.i.parent`observers
  {
    && Observers(s, ObjectNode(m.i.parent.id)) == m.i.parent.observers
    && Observers(s, InstanceNode(m.i.parent.id, m.i.id)) == m.i.observers
    && (forall id :: m.i.Has(id) ==> Observers(s, NodeOf(m, id)) == m.observers[id])
  }

  /** What a write calls, the machine finds. */
  lemma CallObserved(s: State<SchedulerTask>, m: Merge, t: SchedulerTask, limit: Option<int>)
    requires Sound(m) && ObserversShown(s, m)
    requires WriteCall(m, m.i.parent.observers, m.i.observers, t, limit)
    ensures Lookup(Observers(s, t.node), t.server) == Some(t)
  {
    hide ConcernedByAny, RoundConcerns, RoundLimit, ObjectLimit, InstanceLimit;
    if ResourceCall(m, |m.news|, t, limit) {
      var k :| 0 <= k < |m.news| && RoundCall(m, k, t, limit);
      assert m.i.Has(m.news[k].key);
    }
  }

  /**
   * `merge_resources` makes a run of `Change` steps, one for each call and with the limit of that
   * call, however often the payload gives a resource, and keeps the distances between
   * notifications.
   */
  method MergeResourcesSteps(i: Instance, news: seq<Binding<Option<Value>>>, servers: seq<Binding<Server>>,
                             dbl: seq<byte> -> real, sched: TaskScheduler, now: int, ghost m: Merge,
                             ghost s: State<SchedulerTask>)
    returns (fired: seq<SchedulerTask>, ghost limits: seq<Option<int>>)
    requires m.i == i && m.news == news && m.servers == servers && m.dbl == dbl && m.now == now
    requires sched.Valid() && i.Observed(sched.tasks) && Sound(m) && Describes(m, sched)
    requires forall k, b :: 0 <= k < |news| && b in servers ==> RoundComparable(m, k, b)
    requires Shows(s, m.before, now) && !sched.sleeper.Exited? && ObserversShown(s, m)
    modifies (set b | b in i.resources :: b.value)`value, sched`sleeper, sched`calls, sched.tasks
    ensures |limits| == |fired|
    ensures forall j :: 0 <= j < |fired| ==> WriteCall(m, i.parent.observers, i.observers, fired[j], limits[j])
    ensures IsWrite(s, See(sched), now, fired, limits)
  {
    assert m.before == See(sched);
    hide Sound, HoldsTasks, ReportedOnce, ObjectLimit, InstanceLimit, Shows, Ran, AtNode, TaskScheduler.Valid,
      ConcernedByAny, RoundsOnce, ValuesAt, Describes, RoundComparable, Instance.Observed, Instance.Values,
      DistinctKeys, ServersKeyed, WriteCall, IsWrite, FulfillsPmin;
    fired, limits := MergeResources(i, news, servers, dbl, sched, now, m);
    forall t | t in fired ensures Lookup(Observers(s, t.node), t.server) == Some(t) {
      ghost var j :| 0 <= j < |fired| && fired[j] == t;
      CallObserved(s, m, t, limits[j]);
    }
    CallsAreWrite(s, m.before, See(sched), fired, limits, now);
  }
}
