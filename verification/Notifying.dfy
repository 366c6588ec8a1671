/**
 * Which servers a value change concerns, and the reports it causes at each level of the tree.
 *
 * A report is made by the block that the notification code repeats for every level: find the
 * server's task among the level's observers, test it against the level's `pmin`, execute it.
 * The test and the execution are one step.
 */
module Notifying {
  import opened Wrappers
  import opened Bits
  import opened Lists
  import opened TlvValues
  import opened Attributes
  import opened Scheduler
  import opened Reporting
  import opened ObjectTree

  // ---------------------------------------------------------------- whom a change concerns

  predicate Numeric(kind: ValueType) {
    kind == INTEGER || kind == DOUBLE
  }

  predicate IsNumber(v: Option<Value>) {
    v.Some? && (v.value.IntValue? || v.value.DoubleValue?)
  }

  /** The number in a numeric value; `dbl` reads a double from its bytes. */
  function Number(v: Option<Value>, dbl: seq<byte> -> real): real
    requires IsNumber(v)
  {
    if v.value.IntValue? then v.value.i as real else dbl(v.value.bytes)
  }

  predicate HasLimits(limits: Option<Attributes>) {
    limits.Some? && (limits.value.gt.Some? || limits.value.lt.Some? || limits.value.stp.Some?)
  }

  /** No limit is tested on NULL: the tests would follow the pointer. */
  predicate Comparable(limits: Option<Attributes>, kind: ValueType, before: Option<Value>, after: Option<Value>) {
    Numeric(kind) && HasLimits(limits) && before.Some? == after.Some? ==> IsNumber(before) && IsNumber(after)
  }

  /**
   * Whether a change concerns a server with these attributes on the resource: it sets or
   * clears the value, or the value meets every limit the server wrote.
   */
  predicate Concerned(limits: Option<Attributes>, kind: ValueType, before: Option<Value>, after: Option<Value>,
                      dbl: seq<byte> -> real)
  {
    || before.Some? != after.Some?
    || !Numeric(kind) || !HasLimits(limits)
    || (IsNumber(before) && IsNumber(after) &&
        var was, now, a := Number(before, dbl), Number(after, dbl), limits.value;
        && (a.gt.Some? ==> now > a.gt.value)
        && (a.lt.Some? ==> now < a.lt.value)
        && (a.stp.Some? ==> was - now > a.stp.value || now - was > a.stp.value))
  }

  /**
   * Whom a change of an integer concerns: a server that wrote no limits, and one whose limits are
   * all met, the new value above `gt`, below `lt`, and away from the old one by more than `stp`.
   */
  lemma IntegerChangeConcerns(a: Attributes, was: int, now: int, dbl: seq<byte> -> real)
    ensures Concerned(None, INTEGER, Some(IntValue(was)), Some(IntValue(now)), dbl)
    ensures Concerned(Some(a), INTEGER, Some(IntValue(was)), Some(IntValue(now)), dbl) <==>
            && (a.gt.Some? ==> now as real > a.gt.value)
            && (a.lt.Some? ==> now as real < a.lt.value)
            && (a.stp.Some? ==> (if was < now then now - was else was - now) as real > a.stp.value)
  {
  }

  /** The same of doubles, by the numbers that their bytes stand for. */
  lemma DoubleChangeConcerns(a: Attributes, was: seq<byte>, now: seq<byte>, dbl: seq<byte> -> real)
    ensures Concerned(None, DOUBLE, Some(DoubleValue(was)), Some(DoubleValue(now)), dbl)
    ensures Concerned(Some(a), DOUBLE, Some(DoubleValue(was)), Some(DoubleValue(now)), dbl) <==>
            && (a.gt.Some? ==> dbl(now) > a.gt.value)
            && (a.lt.Some? ==> dbl(now) < a.lt.value)
            && (a.stp.Some? ==>
                  (if dbl(was) < dbl(now) then dbl(now) - dbl(was) else dbl(was) - dbl(now)) > a.stp.value)
  {
  }

  /** Setting or clearing a value concerns everyone, and so does any change of what is no number. */
  lemma OtherChangesConcern(limits: Option<Attributes>, kind: ValueType, before: Option<Value>, after: Option<Value>,
                            dbl: seq<byte> -> real)
    requires before.Some? != after.Some? || (kind != INTEGER && kind != DOUBLE)
    ensures Concerned(limits, kind, before, after, dbl)
  {
  }

  function FulfillsGT(gt: real, after: Option<Value>, dbl: seq<byte> -> real): bool
    requires IsNumber(after)
  {
    gt < Number(after, dbl)
  }

  function FulfillsLT(lt: real, after: Option<Value>, dbl: seq<byte> -> real): bool
    requires IsNumber(after)
  {
    lt > Number(after, dbl)
  }

  function FulfillsSTP(stp: real, before: Option<Value>, after: Option<Value>, dbl: seq<byte> -> real): bool
    requires IsNumber(before) && IsNumber(after)
  {
    var step := Number(before, dbl) - Number(after, dbl);
    stp < if step < 0.0 then -step else step
  }

  predicate Distinct<T(==)>(s: seq<T>) {
    forall i, j :: 0 <= i < j < |s| ==> s[i] != s[j]
  }

  /** The context's server list: each server under its own short id, no id twice. */
  ghost predicate ServersKeyed(servers: seq<Binding<Server>>) {
    DistinctKeys(servers) && forall b :: b in servers ==> b.key == b.value.shortId
  }

  /** `should_notify`: the servers a change concerns. */
  method ShouldNotify(resource: Resource, before: Option<Value>, after: Option<Value>,
                      servers: seq<Binding<Server>>, dbl: seq<byte> -> real)
    returns (notify: seq<Binding<Server>>)
    requires ServersKeyed(servers)
    requires forall b :: b in servers ==> Comparable(resource.attributes.For(b.key), resource.kind, before, after)
    ensures ServersKeyed(notify)
    ensures forall b :: b in notify <==>
              b in servers && Concerned(resource.attributes.For(b.key), resource.kind, before, after, dbl)
  {
    notify := [];
    for i := 0 to |servers|
      invariant ServersKeyed(notify)
      invariant forall b :: b in notify ==> b in servers[..i]
      invariant forall b :: b in servers[..i] ==>
                  (b in notify <==> Concerned(resource.attributes.For(b.key), resource.kind, before, after, dbl))
    {
      var server := servers[i].value;
      assert servers[i] in servers && servers[i].key == server.shortId;
      assert servers[..i + 1] == servers[..i] + [servers[i]];
      assert servers[i] !in servers[..i];
      if after.None? && before.Some? {
        notify := [Binding(server.shortId, server)] + notify;
        continue;
      }
      if after.Some? && before.None? {
        notify := [Binding(server.shortId, server)] + notify;
        continue;
      }
      if resource.kind == INTEGER || resource.kind == DOUBLE {
        var limits := resource.attributes.For(server.shortId);
        var gt := if limits.None? then None else limits.value.gt;
        var lt := if limits.None? then None else limits.value.lt;
        var stp := if limits.None? then None else limits.value.stp;
        if gt.Some? && !FulfillsGT(gt.value, after, dbl) {
          continue;
        }
        if lt.Some? && !FulfillsLT(lt.value, after, dbl) {
          continue;
        }
        if stp.Some? && !FulfillsSTP(stp.value, before, after, dbl) {
          continue;
        }
      }
      notify := [Binding(server.shortId, server)] + notify;
    }
    assert servers[..|servers|] == servers;
  }

  // ---------------------------------------------------------------- one report

  /**
   * What the notification code can change of the scheduler: its tasks and whether its thread
   * wakes; and every call of a task's function so far.
   */
  datatype Seen = Seen(info: map<SchedulerTask, TaskInfo>, sleeper: Sleeper, calls: seq<SchedulerTask>)

  ghost function See(sched: TaskScheduler): Seen
    reads sched`tasks, sched`sleeper, sched`calls, sched.tasks
  {
    Seen(map t | t in sched.tasks :: t.Info(), sched.sleeper, sched.calls)
  }

  /** `execute` ran at `now` for the tasks of `fired`, in that order and as often as they occur, and for no other. */
  ghost predicate Ran(before: Seen, after: Seen, fired: seq<SchedulerTask>, now: int) {
    && after.calls == before.calls + fired
    && after.info.Keys == before.info.Keys
    && (forall t :: t in fired ==> t in before.info)
    && (forall t :: t in before.info ==>
          after.info[t] == if t in fired then Executed(before.info[t], now) else before.info[t])
    && after.sleeper == (
         if fired != [] && before.sleeper.Blocked? then before.sleeper.(signalled := true) else before.sleeper)
  }

  lemma RanAgain(a: Seen, b: Seen, c: Seen, first: seq<SchedulerTask>, second: seq<SchedulerTask>, now: int)
    requires Ran(a, b, first, now) && Ran(b, c, second, now)
    ensures Ran(a, c, first + second, now)
  {
    assert (a.calls + first) + second == a.calls + (first + second);
  }

  lemma NothingRan(before: Seen, now: int)
    ensures Ran(before, before, [], now) && Distinct<SchedulerTask>([]) && InLevelOrder([])
  {
    assert before.calls + [] == before.calls;
  }

  /** When a task last ran, seen by its next call at `now` after the calls of `earlier`. */
  ghost function LastAt(before: Seen, earlier: seq<SchedulerTask>, t: SchedulerTask, now: int): int
    requires t in before.info
  {
    if t in earlier then now else before.info[t].last
  }

  /** Each call passed the `pmin` that it was tested with, at the time of its test. */
  ghost predicate Passes(before: Seen, now: int, fired: seq<SchedulerTask>, limits: seq<Option<int>>) {
    && |limits| == |fired|
    && forall j :: 0 <= j < |fired| ==>
         && fired[j] in before.info
         && FulfillsPmin(limits[j], LastAt(before, fired[..j], fired[j], now), now)
  }

  /** Calls that passed in the state that earlier ones have left passed after them. */
  lemma PassesAgain(before: Seen, middle: Seen, now: int, fired: seq<SchedulerTask>, more: seq<SchedulerTask>,
                    limits: seq<Option<int>>, others: seq<Option<int>>)
    requires Ran(before, middle, fired, now)
    requires Passes(before, now, fired, limits) && Passes(middle, now, more, others)
    ensures Passes(before, now, fired + more, limits + others)
  {
    hide FulfillsPmin;
    var all, both := fired + more, limits + others;
    forall j | 0 <= j < |all|
      ensures all[j] in before.info && FulfillsPmin(both[j], LastAt(before, all[..j], all[j], now), now)
    {
      if j < |fired| {
        assert all[..j] == fired[..j];
      } else {
        assert all[..j] == fired + more[..j - |fired|];
        assert FulfillsPmin(others[j - |fired|], LastAt(middle, more[..j - |fired|], all[j], now), now);
      }
    }
  }

  /** Calls of different tasks need only pass as if each came first. */
  lemma DistinctPasses(before: Seen, now: int, fired: seq<SchedulerTask>, limits: seq<Option<int>>)
    requires Distinct(fired) && |limits| == |fired|
    requires forall j :: 0 <= j < |fired| ==>
               fired[j] in before.info && FulfillsPmin(limits[j], before.info[fired[j]].last, now)
    ensures Passes(before, now, fired, limits)
  {
  }

  /**
   * One level's verdict on one server: its task, if it observes there, is in `fired` exactly
   * if it passes the level's `pmin`.
   */
  ghost predicate Judged(observers: seq<Binding<SchedulerTask>>, key: int, limit: Option<int>, before: Seen, now: int,
                         fired: seq<SchedulerTask>) {
    var found := Lookup(observers, key);
    found.Some? ==>
      && found.value in before.info
      && (found.value in fired <==> FulfillsPmin(limit, before.info[found.value].last, now))
  }

  /** `t` is the task that its server has among the observers of the node. */
  ghost predicate AtNode(node: Node, observers: seq<Binding<SchedulerTask>>, t: SchedulerTask) {
    t.node == node && Lookup(observers, t.server) == Some(t)
  }

  /** Where a node's level comes in the reports of one change. */
  function Rank(node: Node): nat {
    match node
    case ResourceNode(_, _, _) => 0
    case ObjectNode(_) => 1
    case InstanceNode(_, _) => 2
  }

  /** To each server the resource reports before the object, and the object before the instance. */
  ghost predicate InLevelOrder(fired: seq<SchedulerTask>) {
    forall j, k :: 0 <= j < k < |fired| && fired[j].server == fired[k].server ==>
      Rank(fired[j].node) <= Rank(fired[k].node)
  }

  /** The calls for another server, or those on higher levels, may come after what is in order. */
  lemma OrderNext(fired: seq<SchedulerTask>, more: seq<SchedulerTask>)
    requires InLevelOrder(fired) && InLevelOrder(more)
    requires forall t, u :: t in fired && u in more && t.server == u.server ==> Rank(t.node) <= Rank(u.node)
    ensures InLevelOrder(fired + more)
  {
    assert forall k :: 0 <= k < |fired| ==> fired[k] in fired;
    assert forall k :: 0 <= k < |more| ==> more[k] in more;
  }

  method Report(sched: TaskScheduler, observers: seq<Binding<SchedulerTask>>, node: Node, key: int,
                limit: Option<int>, now: int)
    returns (fired: seq<SchedulerTask>)
    requires sched.Valid() && HoldsTasks(observers, node, sched.tasks)
    modifies sched`sleeper, sched`calls, sched.tasks
    ensures sched.Valid() && sched.tasks == old(sched.tasks)
    ensures Ran(old(See(sched)), See(sched), fired, now)
    ensures |fired| <= 1 && forall t :: t in fired ==> t.server == key && AtNode(node, observers, t)
    ensures Judged(observers, key, limit, old(See(sched)), now, fired)
  {
    fired := [];
    var task := Lookup(observers, key);
    LookupMember(observers, key);
    if task.Some? {
      if limit.None? || FulfillsPmin(limit, task.value.lastWakingTime, now) {
        ghost var before := sched.State(now);
        sched.ExecuteTask(task.value, now);
        assert sched.State(now).info == Execute(before, task.value).info;
        fired := [task.value];
      }
    }
  }

  // ---------------------------------------------------------------- `pmin` at each level

  /** What one server has at the levels of an instance, and at a resource if one is given. */
  function LevelsOf(server: Server, i: Instance, own: Option<Attributes>): Levels
    requires server.HasDefaults()
    reads server.PminResource()`value, server.PmaxResource()`value
    reads i.parent.attributes, i.parent.attributes.RecordOf(server.shortId)
    reads i.attributes, i.attributes.RecordOf(server.shortId)
  {
    Levels(own, i.attributes.For(server.shortId), i.parent.attributes.For(server.shortId),
           server.DefaultPmin(), server.DefaultPmax())
  }

  predicate AllHaveDefaults(servers: seq<Binding<Server>>) {
    forall b :: b in servers ==> b.value.HasDefaults()
  }

  /**
   * A server's limits stay as long as values and attributes do, as when tasks run; `at` is the
   * server, the instance, and an attribute list to look at.
   */
  twostate lemma LimitsStand(at: (Server, Instance, AttributeList))
    requires at.0.HasDefaults()
    requires forall r: Resource :: old(allocated(r)) ==> r.value == old(r.value)
    requires forall a: AttributeList :: old(allocated(a)) ==> a.l == old(a.l)
    requires forall a: Stored :: old(allocated(a)) ==> a.Value() == old(a.Value())
    ensures LevelsOf(at.0, at.1, None) == old(LevelsOf(at.0, at.1, None))
    ensures at.2.For(at.0.shortId) == old(at.2.For(at.0.shortId))
  {
    var (server, i, own) := at;
    LookupMember(server.serverInstance.resources, DEFAULT_PMIN_RES);
    LookupMember(server.serverInstance.resources, DEFAULT_PMAX_RES);
    LookupMember(own.l, server.shortId);
    LookupMember(i.attributes.l, server.shortId);
    LookupMember(i.parent.attributes.l, server.shortId);
  }

  function ResourceLimit(server: Server, i: Instance, r: Resource): Option<int>
    requires server.HasDefaults()
    reads server.PminResource()`value, server.PmaxResource()`value
    reads i.parent.attributes, i.parent.attributes.RecordOf(server.shortId)
    reads i.attributes, i.attributes.RecordOf(server.shortId)
    reads r.attributes, r.attributes.RecordOf(server.shortId)
  {
    ResourcePmin(LevelsOf(server, i, r.attributes.For(server.shortId)), LOOKUP_FULL)
  }

  // ---------------------------------------------------------------- reports to a list of servers

  /** The reports to the next server disturb no verdict so far, and are judged as if they came first. */
  lemma JudgeNext(observers: seq<Binding<SchedulerTask>>, node: Node, tasks: set<SchedulerTask>,
                  key: int, limit: Option<int>, before: Seen, middle: Seen, now: int,
                  fired: seq<SchedulerTask>, more: seq<SchedulerTask>)
    requires HoldsTasks(observers, node, tasks) && before.info.Keys == tasks
    requires Ran(before, middle, fired, now)
    requires forall t :: t in more ==> t.server == key
    requires forall t :: t in fired ==> t.server != key
    requires Judged(observers, key, limit, middle, now, more)
    ensures Judged(observers, key, limit, before, now, fired + more)
    ensures forall k, l :: k != key && Judged(observers, k, l, before, now, fired) ==>
              Judged(observers, k, l, before, now, fired + more)
  {
    LookupMember(observers, key);
    forall k, l | k != key && Judged(observers, k, l, before, now, fired)
      ensures Judged(observers, k, l, before, now, fired + more)
    {
      LookupMember(observers, k);
    }
  }

  lemma DistinctNext(fired: seq<SchedulerTask>, more: seq<SchedulerTask>, key: int)
    requires Distinct(fired) && Distinct(more)
    requires forall t :: t in fired ==> t.server != key
    requires forall t :: t in more ==> t.server == key
    ensures Distinct(fired + more)
  {
    assert forall k :: 0 <= k < |fired| ==> fired[k] in fired;
    assert forall k :: 0 <= k < |more| ==> more[k] in more;
  }

  /** The reports of `merge_resource`, on the level of the resource itself. */
  method NotifyResource(i: Instance, r: Resource, servers: seq<Binding<Server>>, sched: TaskScheduler, now: int)
    returns (fired: seq<SchedulerTask>)
    requires sched.Valid() && ServersKeyed(servers) && AllHaveDefaults(servers)
    requires HoldsTasks(r.observers, ResourceNode(i.parent.id, i.id, r.id), sched.tasks)
    modifies sched`sleeper, sched`calls, sched.tasks
    ensures sched.Valid() && sched.tasks == old(sched.tasks)
    ensures Ran(old(See(sched)), See(sched), fired, now) && Distinct(fired)
    ensures forall t :: t in fired ==>
              HasKey(servers, t.server) && AtNode(ResourceNode(i.parent.id, i.id, r.id), r.observers, t)
    ensures forall k :: 0 <= k < |servers| ==>
              Judged(r.observers, servers[k].key, old(ResourceLimit(servers[k].value, i, r)),
                     old(See(sched)), now, fired)
  {
    hide Judged, Ran, ResourcePmin, Distinct, TaskScheduler.Valid;
    ghost var before := See(sched);
    var node := ResourceNode(i.parent.id, i.id, r.id);
    var observers := r.observers;
    fired := [];
    NothingRan(before, now);
    for k := 0 to |servers|
      invariant sched.Valid() && sched.tasks == old(sched.tasks)
      invariant Ran(before, See(sched), fired, now) && Distinct(fired)
      invariant forall t :: t in fired ==>
                  && HasKey(servers, t.server) && AtNode(node, observers, t)
                  && forall j :: k <= j < |servers| ==> servers[j].key != t.server
      invariant forall j :: 0 <= j < k ==>
                  Judged(observers, servers[j].key, old(ResourceLimit(servers[j].value, i, r)), before, now, fired)
    {
      var server := servers[k].value;
      assert servers[k] in servers;
      ghost var middle := See(sched);
      var pmin := ResourceLimit(server, i, r);
      LimitsStand((server, i, r.attributes));
      assert pmin == old(ResourceLimit(server, i, r));
      var more := Report(sched, observers, node, server.shortId, pmin, now);
      JudgeNext(observers, node, sched.tasks, server.shortId, pmin, before, middle, now, fired, more);
      DistinctNext(fired, more, server.shortId);
      RanAgain(before, middle, See(sched), fired, more, now);
      fired := fired + more;
    }
  }

  // ---------------------------------------------------------------- the two levels above a resource

  function InstanceLimit(server: Server, i: Instance): Option<int>
    requires server.HasDefaults()
    reads server.PminResource()`value, server.PmaxResource()`value
    reads i.parent.attributes, i.parent.attributes.RecordOf(server.shortId)
    reads i.attributes, i.attributes.RecordOf(server.shortId)
  {
    InstancePmin(LevelsOf(server, i, None), LOOKUP_FULL)
  }

  function ObjectLimit(server: Server, i: Instance): Option<int>
    requires server.HasDefaults()
    reads server.PminResource()`value, server.PmaxResource()`value
    reads i.parent.attributes, i.parent.attributes.RecordOf(server.shortId)
    reads i.attributes, i.attributes.RecordOf(server.shortId)
  {
    ObjectPmin(LevelsOf(server, i, None), LOOKUP_FULL)
  }

  /** A server's defaults are the integers in resources 2 and 3 of its own instance, if they hold any. */
  lemma DefaultsAre(server: Server, d: int)
    requires server.HasDefaults()
    ensures var pmin, pmax := Lookup(server.serverInstance.resources, 2).value,
                              Lookup(server.serverInstance.resources, 3).value;
      && (pmin.value == Some(IntValue(d)) ==> server.DefaultPmin() == Some(d))
      && (pmin.value == None ==> server.DefaultPmin() == None)
      && (pmax.value == Some(IntValue(d)) ==> server.DefaultPmax() == Some(d))
      && (pmax.value == None ==> server.DefaultPmax() == None)
  {
  }

  /**
   * Which number each level's reports are tested with: at a resource the `pmin` that the server
   * wrote there, else at an instance the one it wrote there, else the `pmax` it wrote at the object,
   * else its default.
   */
  lemma LimitsAre(server: Server, i: Instance, r: Resource)
    requires server.HasDefaults()
    ensures var own, instance, above := r.attributes.For(server.shortId), i.attributes.For(server.shortId),
                                        i.parent.attributes.For(server.shortId);
      var atObject := if above.Some? && above.value.pmax.Some? then above.value.pmax else server.DefaultPmin();
      var atInstance := if instance.Some? && instance.value.pmin.Some? then instance.value.pmin else atObject;
      && ObjectLimit(server, i) == atObject
      && InstanceLimit(server, i) == atInstance
      && ResourceLimit(server, i, r) == if own.Some? && own.value.pmin.Some? then own.value.pmin else atInstance
  {
  }

  /** And the period of a new observation: the first `pmax` on the way up from its node, or the default. */
  lemma PeriodsAre(server: Server, i: Instance, r: Resource)
    requires server.HasDefaults()
    ensures var own, instance, above := r.attributes.For(server.shortId), i.attributes.For(server.shortId),
                                        i.parent.attributes.For(server.shortId);
      var l := LevelsOf(server, i, own);
      var atObject := if above.Some? && above.value.pmax.Some? then above.value.pmax else server.DefaultPmax();
      var atInstance := if instance.Some? && instance.value.pmax.Some? then instance.value.pmax else atObject;
      && ObjectPmax(l, 2) == atObject
      && InstancePmax(l, 2) == atInstance
      && ResourcePmax(l, 2) == if own.Some? && own.value.pmax.Some? then own.value.pmax else atInstance
  {
  }

  /** A report on one level leaves the verdict of another level as it is. */
  lemma JudgeBoth(above: seq<Binding<SchedulerTask>>, aboveNode: Node, own: seq<Binding<SchedulerTask>>, ownNode: Node,
                  tasks: set<SchedulerTask>, key: int, aboveLimit: Option<int>, ownLimit: Option<int>,
                  before: Seen, middle: Seen, now: int, first: seq<SchedulerTask>, second: seq<SchedulerTask>)
    requires HoldsTasks(above, aboveNode, tasks) && HoldsTasks(own, ownNode, tasks) && aboveNode != ownNode
    requires Ran(before, middle, first, now) && before.info.Keys == tasks
    requires |first| <= 1 && forall t :: t in first ==> t.node == aboveNode
    requires |second| <= 1 && forall t :: t in second ==> t.node == ownNode
    requires Judged(above, key, aboveLimit, before, now, first) && Judged(own, key, ownLimit, middle, now, second)
    ensures Judged(above, key, aboveLimit, before, now, first + second)
    ensures Judged(own, key, ownLimit, before, now, first + second)
    ensures Distinct(first + second)
  {
    LookupMember(above, key);
    LookupMember(own, key);
    assert first != [] ==> first[0] in first;
    assert second != [] ==> second[0] in second;
  }

  /** The body of the loop in `notify_instance_object`: the object's observers first. */
  method NotifyServer(i: Instance, server: Server, sched: TaskScheduler, now: int) returns (fired: seq<SchedulerTask>)
    requires sched.Valid() && server.HasDefaults()
    requires HoldsTasks(i.parent.observers, ObjectNode(i.parent.id), sched.tasks)
    requires HoldsTasks(i.observers, InstanceNode(i.parent.id, i.id), sched.tasks)
    modifies sched`sleeper, sched`calls, sched.tasks
    ensures sched.Valid() && sched.tasks == old(sched.tasks)
    ensures Ran(old(See(sched)), See(sched), fired, now) && Distinct(fired) && InLevelOrder(fired)
    ensures forall t :: t in fired ==>
              && t.server == server.shortId
              && (|| AtNode(ObjectNode(i.parent.id), i.parent.observers, t)
                  || AtNode(InstanceNode(i.parent.id, i.id), i.observers, t))
    ensures Judged(i.parent.observers, server.shortId, old(ObjectLimit(server, i)), old(See(sched)), now, fired)
    ensures Judged(i.observers, server.shortId, old(InstanceLimit(server, i)), old(See(sched)), now, fired)
  {
    hide ObjectPmin, InstancePmin, FulfillsPmin, Judged, Ran, Distinct;
    ghost var before := See(sched);
    ghost var above, own := i.parent.observers, i.observers;
    ghost var aboveLimit := ObjectLimit(server, i);
    var first := Report(sched, i.parent.observers, ObjectNode(i.parent.id), server.shortId,
                        ObjectLimit(server, i), now);
    ghost var middle := See(sched);
    var limit := InstanceLimit(server, i);
    LimitsStand((server, i, i.attributes));
    assert limit == old(InstanceLimit(server, i));
    var second := Report(sched, i.observers, InstanceNode(i.parent.id, i.id), server.shortId, limit, now);
    RanAgain(before, middle, See(sched), first, second, now);
    JudgeBoth(above, ObjectNode(i.parent.id), own, InstanceNode(i.parent.id, i.id), sched.tasks, server.shortId,
              aboveLimit, limit, before, middle, now, first, second);
    OrderNext(first, second);
    fired := first + second;
  }

  /** `notify_instance_object`. */
  method NotifyInstanceObject(i: Instance, servers: seq<Binding<Server>>, sched: TaskScheduler, now: int)
    returns (fired: seq<SchedulerTask>)
    requires sched.Valid() && ServersKeyed(servers) && AllHaveDefaults(servers)
    requires HoldsTasks(i.parent.observers, ObjectNode(i.parent.id), sched.tasks)
    requires HoldsTasks(i.observers, InstanceNode(i.parent.id, i.id), sched.tasks)
    modifies sched`sleeper, sched`calls, sched.tasks
    ensures sched.Valid() && sched.tasks == old(sched.tasks)
    ensures Ran(old(See(sched)), See(sched), fired, now) && Distinct(fired) && InLevelOrder(fired)
    ensures forall t :: t in fired ==>
              && HasKey(servers, t.server)
              && (|| AtNode(ObjectNode(i.parent.id), i.parent.observers, t)
                  || AtNode(InstanceNode(i.parent.id, i.id), i.observers, t))
    ensures forall k :: 0 <= k < |servers| ==>
              && Judged(i.parent.observers, servers[k].key, old(ObjectLimit(servers[k].value, i)),
                        old(See(sched)), now, fired)
              && Judged(i.observers, servers[k].key, old(InstanceLimit(servers[k].value, i)),
                        old(See(sched)), now, fired)
  {
    hide Judged, Ran, ObjectPmin, InstancePmin, Distinct, InLevelOrder, TaskScheduler.Valid;
    ghost var before := See(sched);
    ghost var above, own := i.parent.observers, i.observers;
    ghost var objectNode, instanceNode := ObjectNode(i.parent.id), InstanceNode(i.parent.id, i.id);
    fired := [];
    NothingRan(before, now);
    for k := 0 to |servers|
      invariant sched.Valid() && sched.tasks == old(sched.tasks)
      invariant Ran(before, See(sched), fired, now) && Distinct(fired) && InLevelOrder(fired)
      invariant forall t :: t in fired ==>
                  && HasKey(servers, t.server)
                  && (AtNode(objectNode, above, t) || AtNode(instanceNode, own, t))
                  && forall j :: k <= j < |servers| ==> servers[j].key != t.server
      invariant forall j :: 0 <= j < k ==>
                  && Judged(above, servers[j].key, old(ObjectLimit(servers[j].value, i)), before, now, fired)
                  && Judged(own, servers[j].key, old(InstanceLimit(servers[j].value, i)), before, now, fired)
    {
      var server := servers[k].value;
      assert servers[k] in servers;
      ghost var middle := See(sched);
      ghost var objectLimit, instanceLimit := ObjectLimit(server, i), InstanceLimit(server, i);
      LimitsStand((server, i, i.attributes));
      assert objectLimit == old(ObjectLimit(server, i)) && instanceLimit == old(InstanceLimit(server, i));
      var more := NotifyServer(i, server, sched, now);
      JudgeNext(above, objectNode, sched.tasks, server.shortId, objectLimit, before, middle, now, fired, more);
      JudgeNext(own, instanceNode, sched.tasks, server.shortId, instanceLimit, before, middle, now, fired, more);
      DistinctNext(fired, more, server.shortId);
      OrderNext(fired, more);
      RanAgain(before, middle, See(sched), fired, more, now);
      fired := fired + more;
    }
  }

  // ---------------------------------------------------------------- once or not at all

  lemma SameServer(servers: seq<Binding<Server>>, a: Binding<Server>, b: Binding<Server>)
    requires DistinctKeys(servers) && a in servers && b in servers && a.key == b.key
    ensures a == b
  {
    var i :| 0 <= i < |servers| && servers[i] == a;
    var j :| 0 <= j < |servers| && servers[j] == b;
  }

  /** A server's task at a level ran once if the change concerns the server and the task passes, else not at all. */
  ghost predicate ReportedOnce(observers: seq<Binding<SchedulerTask>>, key: int, told: bool, limit: Option<int>,
                               before: Seen, now: int, fired: seq<SchedulerTask>) {
    var found := Lookup(observers, key);
    found.Some? ==>
      && found.value in before.info
      && multiset(fired)[found.value] ==
         if told && FulfillsPmin(limit, before.info[found.value].last, now) then 1 else 0
  }

  /**
   * So a server's task at a level is called once if the change concerns the server and there is no
   * limit, or the task never ran, or it last ran more than the limit ago; and else not at all.
   */
  lemma CalledExactly(observers: seq<Binding<SchedulerTask>>, key: int, told: bool, limit: Option<int>,
                      before: Seen, now: int, fired: seq<SchedulerTask>, t: SchedulerTask)
    requires Lookup(observers, key) == Some(t)
    requires ReportedOnce(observers, key, told, limit, before, now, fired)
    ensures t in before.info
    ensures var last := before.info[t].last;
      multiset(fired)[t] == if told && (limit.None? || last == 0 || now - last > limit.value) then 1 else 0
  {
  }

  /** At an instance, then, the server's own `pmin` there counts, before anything written at the object. */
  lemma InstanceReportedUnder(server: Server, i: Instance, told: bool, before: Seen, now: int,
                              fired: seq<SchedulerTask>, t: SchedulerTask, p: int)
    requires server.HasDefaults() && Lookup(i.observers, server.shortId) == Some(t)
    requires ReportedOnce(i.observers, server.shortId, told, InstanceLimit(server, i), before, now, fired)
    ensures t in before.info
    ensures var instance, above := i.attributes.For(server.shortId), i.parent.attributes.For(server.shortId);
      var last := before.info[t].last;
      || (instance.Some? && instance.value.pmin == Some(p))
      || ((instance.None? || instance.value.pmin.None?) && above.Some? && above.value.pmax == Some(p))
      || ((instance.None? || instance.value.pmin.None?) && (above.None? || above.value.pmax.None?)
          && server.DefaultPmin() == Some(p))
      ==> multiset(fired)[t] == if told && (last == 0 || now - last > p) then 1 else 0
  {
    CalledExactly(i.observers, server.shortId, told, InstanceLimit(server, i), before, now, fired, t);
  }

  /** At an object only what the server wrote for `pmax` there, or its default. */
  lemma ObjectReportedUnder(server: Server, i: Instance, told: bool, before: Seen, now: int,
                            fired: seq<SchedulerTask>, t: SchedulerTask, p: int)
    requires server.HasDefaults() && Lookup(i.parent.observers, server.shortId) == Some(t)
    requires ReportedOnce(i.parent.observers, server.shortId, told, ObjectLimit(server, i), before, now, fired)
    ensures t in before.info
    ensures var above, last := i.parent.attributes.For(server.shortId), before.info[t].last;
      || (above.Some? && above.value.pmax == Some(p))
      || ((above.None? || above.value.pmax.None?) && server.DefaultPmin() == Some(p))
      ==> multiset(fired)[t] == if told && (last == 0 || now - last > p) then 1 else 0
  {
    CalledExactly(i.parent.observers, server.shortId, told, ObjectLimit(server, i), before, now, fired, t);
  }

  lemma {:induction false} DistinctCount(fired: seq<SchedulerTask>, t: SchedulerTask)
    requires Distinct(fired)
    ensures multiset(fired)[t] == if t in fired then 1 else 0
  {
    if fired != [] {
      assert fired == [fired[0]] + fired[1..];
      DistinctCount(fired[1..], t);
    }
  }

  /** One server at one level, from the verdict on it or from its not being notified. */
  lemma OnceAtLevel(observers: seq<Binding<SchedulerTask>>, node: Node, tasks: set<SchedulerTask>,
                    servers: seq<Binding<Server>>, notify: seq<Binding<Server>>, b: Binding<Server>, limit: Option<int>,
                    before: Seen, middle: Seen, now: int, first: seq<SchedulerTask>, second: seq<SchedulerTask>)
    requires HoldsTasks(observers, node, tasks) && before.info.Keys == tasks
    requires Ran(before, middle, first, now) && forall t :: t in first ==> t.node != node
    requires Distinct(second) && forall t :: t in second ==> HasKey(notify, t.server)
    requires ServersKeyed(servers) && b in servers && forall c :: c in notify ==> c in servers
    requires b in notify ==> Judged(observers, b.key, limit, middle, now, second)
    ensures ReportedOnce(observers, b.key, b in notify, limit, before, now, first + second)
  {
    hide FulfillsPmin;
    LookupMember(observers, b.key);
    if Lookup(observers, b.key).Some? {
      var t := Lookup(observers, b.key).value;
      assert t !in first;
      assert multiset(first + second)[t] == multiset(first)[t] + multiset(second)[t];
      DistinctCount(second, t);
      if t in second && b !in notify {
        var k :| 0 <= k < |notify| && notify[k].key == t.server;
        assert notify[k] in notify;
        SameServer(servers, notify[k], b);
        assert false;
      }
    }
  }

  /** Later reports to other nodes do not count. */
  lemma OnceStands(observers: seq<Binding<SchedulerTask>>, node: Node, tasks: set<SchedulerTask>, key: int, told: bool,
                   limit: Option<int>, before: Seen, now: int, first: seq<SchedulerTask>, second: seq<SchedulerTask>)
    requires HoldsTasks(observers, node, tasks) && forall t :: t in second ==> t.node != node
    requires ReportedOnce(observers, key, told, limit, before, now, first)
    ensures ReportedOnce(observers, key, told, limit, before, now, first + second)
  {
    hide FulfillsPmin;
    LookupMember(observers, key);
    if Lookup(observers, key).Some? {
      var t := Lookup(observers, key).value;
      assert multiset(first + second)[t] == multiset(first)[t] + multiset(second)[t];
    }
  }
}
