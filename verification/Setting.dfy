/**
 * Setting a value from the application: every server the change concerns gets its reports at
 * once, from the resource, the object and the instance in that order.
 */
module Setting {
  import opened Wrappers
  import opened Bits
  import opened Lists
  import opened TlvValues
  import opened Attributes
  import opened Scheduler
  import opened Reporting
  import opened ObjectTree
  import opened Notifying
  import opened Merging

  /** A report on one level leaves the verdicts of the levels reported next as they are, and they its own. */
  lemma JudgeAside(observers: seq<Binding<SchedulerTask>>, node: Node, tasks: set<SchedulerTask>, key: int,
                   limit: Option<int>, before: Seen, middle: Seen, now: int,
                   first: seq<SchedulerTask>, second: seq<SchedulerTask>)
    requires HoldsTasks(observers, node, tasks) && before.info.Keys == tasks && Ran(before, middle, first, now)
    ensures (forall t :: t in first ==> t.node != node) && Judged(observers, key, limit, middle, now, second) ==>
              Judged(observers, key, limit, before, now, first + second)
    ensures (forall t :: t in second ==> t.node != node) && Judged(observers, key, limit, before, now, first) ==>
              Judged(observers, key, limit, before, now, first + second)
  {
    hide FulfillsPmin;
    LookupMember(observers, key);
  }

  /** `t` is its server's task at the resource, the object or the instance. */
  ghost predicate AtLevels(i: Instance, r: Resource, t: SchedulerTask)
    reads r`observers, i`observers, i.parent`observers
  {
    || AtNode(ResourceNode(i.parent.id, i.id, r.id), r.observers, t)
    || AtNode(ObjectNode(i.parent.id), i.parent.observers, t)
    || AtNode(InstanceNode(i.parent.id, i.id), i.observers, t)
  }

  /** The three verdicts on one server. */
  ghost predicate JudgedEverywhere(i: Instance, r: Resource, server: Server, resourceLimit: Option<int>,
                                   objectLimit: Option<int>, instanceLimit: Option<int>,
                                   before: Seen, now: int, fired: seq<SchedulerTask>)
    reads r`observers, i`observers, i.parent`observers
  {
    && Judged(r.observers, server.shortId, resourceLimit, before, now, fired)
    && Judged(i.parent.observers, server.shortId, objectLimit, before, now, fired)
    && Judged(i.observers, server.shortId, instanceLimit, before, now, fired)
  }

  /** The body of the loop in `set_value`. */
  method NotifyEverywhere(i: Instance, r: Resource, server: Server, sched: TaskScheduler, now: int)
    returns (fired: seq<SchedulerTask>)
    requires sched.Valid() && server.HasDefaults()
    requires HoldsTasks(r.observers, ResourceNode(i.parent.id, i.id, r.id), sched.tasks)
    requires HoldsTasks(i.parent.observers, ObjectNode(i.parent.id), sched.tasks)
    requires HoldsTasks(i.observers, InstanceNode(i.parent.id, i.id), sched.tasks)
    modifies sched`sleeper, sched`calls, sched.tasks
    ensures sched.Valid() && sched.tasks == old(sched.tasks)
    ensures Ran(old(See(sched)), See(sched), fired, now) && Distinct(fired) && InLevelOrder(fired)
    ensures forall t :: t in fired ==> t.server == server.shortId && AtLevels(i, r, t)
    ensures JudgedEverywhere(i, r, server, old(ResourceLimit(server, i, r)), old(ObjectLimit(server, i)),
                             old(InstanceLimit(server, i)), old(See(sched)), now, fired)
  {
    hide Judged, Ran, ResourcePmin, ObjectPmin, InstancePmin, Distinct;
    ghost var before := See(sched);
    ghost var objectLimit, instanceLimit := ObjectLimit(server, i), InstanceLimit(server, i);
    var resourceNode := ResourceNode(i.parent.id, i.id, r.id);
    var limit := ResourceLimit(server, i, r);
    var first := Report(sched, r.observers, resourceNode, server.shortId, limit, now);
    LimitsStand((server, i, i.attributes));
    assert objectLimit == ObjectLimit(server, i) && instanceLimit == InstanceLimit(server, i);
    ghost var middle := See(sched);
    var second := NotifyServer(i, server, sched, now);
    JudgeAside(r.observers, resourceNode, sched.tasks, server.shortId, limit, before, middle, now, first, second);
    JudgeAside(i.parent.observers, ObjectNode(i.parent.id), sched.tasks, server.shortId, objectLimit,
               before, middle, now, first, second);
    JudgeAside(i.observers, InstanceNode(i.parent.id, i.id), sched.tasks, server.shortId, instanceLimit,
               before, middle, now, first, second);
    RanAgain(before, middle, See(sched), first, second, now);
    DistinctNodes(first, second);
    assert InLevelOrder(first);
    OrderNext(first, second);
    fired := first + second;
  }

  lemma DistinctNodes(first: seq<SchedulerTask>, second: seq<SchedulerTask>)
    requires |first| <= 1 && Distinct(second)
    requires forall t :: t in first ==> t.node.ResourceNode?
    requires forall t :: t in second ==> !t.node.ResourceNode?
    ensures Distinct(first + second)
  {
    assert first != [] ==> first[0] in first;
    assert forall k :: 0 <= k < |second| ==> second[k] in second;
  }

  /** The limits at the three levels stay as long as values and attributes do. */
  twostate lemma AllLimitsStand(at: (Server, Instance, Resource))
    requires at.0.HasDefaults()
    requires forall r: Resource :: old(allocated(r)) ==> r.value == old(r.value)
    requires forall a: AttributeList :: old(allocated(a)) ==> a.l == old(a.l)
    requires forall a: Stored :: old(allocated(a)) ==> a.Value() == old(a.Value())
    ensures ResourceLimit(at.0, at.1, at.2) == old(ResourceLimit(at.0, at.1, at.2))
    ensures ObjectLimit(at.0, at.1) == old(ObjectLimit(at.0, at.1))
    ensures InstanceLimit(at.0, at.1) == old(InstanceLimit(at.0, at.1))
  {
    LimitsStand((at.0, at.1, at.2.attributes));
    hide ResourcePmin, ObjectPmin, InstancePmin;
  }

  /** The loop of `set_value`. */
  method NotifyAll(i: Instance, r: Resource, servers: seq<Binding<Server>>, sched: TaskScheduler, now: int)
    returns (fired: seq<SchedulerTask>)
    requires sched.Valid() && ServersKeyed(servers) && AllHaveDefaults(servers)
    requires HoldsTasks(r.observers, ResourceNode(i.parent.id, i.id, r.id), sched.tasks)
    requires HoldsTasks(i.parent.observers, ObjectNode(i.parent.id), sched.tasks)
    requires HoldsTasks(i.observers, InstanceNode(i.parent.id, i.id), sched.tasks)
    modifies sched`sleeper, sched`calls, sched.tasks
    ensures sched.Valid() && sched.tasks == old(sched.tasks)
    ensures Ran(old(See(sched)), See(sched), fired, now) && Distinct(fired) && InLevelOrder(fired)
    ensures forall t :: t in fired ==> HasKey(servers, t.server) && AtLevels(i, r, t)
    ensures forall k :: 0 <= k < |servers| ==>
              var server := servers[k].value;
              JudgedEverywhere(i, r, server, old(ResourceLimit(server, i, r)), old(ObjectLimit(server, i)),
                               old(InstanceLimit(server, i)), old(See(sched)), now, fired)
  {
    hide Judged, JudgedEverywhere, Ran, ResourcePmin, ObjectPmin, InstancePmin, Distinct, InLevelOrder,
      TaskScheduler.Valid, HasKey, ResourceLimit, ObjectLimit, InstanceLimit;
    ghost var before := See(sched);
    fired := [];
    NothingRan(before, now);
    for k := 0 to |servers|
      invariant sched.Valid() && sched.tasks == old(sched.tasks)
      invariant Ran(before, See(sched), fired, now)
      invariant Distinct(fired) && InLevelOrder(fired)
      invariant forall t :: t in fired ==>
                  && HasKey(servers, t.server) && AtLevels(i, r, t)
                  && forall j :: k <= j < |servers| ==> servers[j].key != t.server
      invariant forall j :: 0 <= j < k ==>
                  JudgedEverywhere(i, r, servers[j].value, old(ResourceLimit(servers[j].value, i, r)),
                                   old(ObjectLimit(servers[j].value, i)), old(InstanceLimit(servers[j].value, i)),
                                   before, now, fired)
    {
      var server := servers[k].value;
      assert servers[k] in servers;
      ghost var middle := See(sched);
      ghost var a, b, c := ResourceLimit(server, i, r), ObjectLimit(server, i), InstanceLimit(server, i);
      AllLimitsStand((server, i, r));
      var more := NotifyEverywhere(i, r, server, sched, now);
      JudgeNextEverywhere(i, r, sched.tasks, server, a, b, c, before, middle, now, fired, more);
      DistinctNext(fired, more, server.shortId);
      OrderNext(fired, more);
      RanAgain(before, middle, See(sched), fired, more, now);
      assert HasKey(servers, server.shortId) by {
        KeyAt(servers, k);
      }
      fired := fired + more;
    }
  }

  lemma KeyAt(servers: seq<Binding<Server>>, k: nat)
    requires k < |servers|
    ensures HasKey(servers, servers[k].key)
  {
  }

  lemma JudgeNextEverywhere(i: Instance, r: Resource, tasks: set<SchedulerTask>, server: Server,
                            a: Option<int>, b: Option<int>, c: Option<int>, before: Seen, middle: Seen, now: int,
                            fired: seq<SchedulerTask>, more: seq<SchedulerTask>)
    requires HoldsTasks(r.observers, ResourceNode(i.parent.id, i.id, r.id), tasks)
    requires HoldsTasks(i.parent.observers, ObjectNode(i.parent.id), tasks)
    requires HoldsTasks(i.observers, InstanceNode(i.parent.id, i.id), tasks)
    requires before.info.Keys == tasks && Ran(before, middle, fired, now)
    requires forall t :: t in more ==> t.server == server.shortId
    requires forall t :: t in fired ==> t.server != server.shortId
    requires JudgedEverywhere(i, r, server, a, b, c, middle, now, more)
    ensures JudgedEverywhere(i, r, server, a, b, c, before, now, fired + more)
    ensures forall s: Server, x, y, z ::
              s.shortId != server.shortId && JudgedEverywhere(i, r, s, x, y, z, before, now, fired) ==>
              JudgedEverywhere(i, r, s, x, y, z, before, now, fired + more)
  {
    hide Judged, Ran;
    var key := server.shortId;
    JudgeNext(r.observers, ResourceNode(i.parent.id, i.id, r.id), tasks, key, a, before, middle, now, fired, more);
    JudgeNext(i.parent.observers, ObjectNode(i.parent.id), tasks, key, b, before, middle, now, fired, more);
    JudgeNext(i.observers, InstanceNode(i.parent.id, i.id), tasks, key, c, before, middle, now, fired, more);
  }

  /** The same reports, with the limits as setting the value has left them. */
  method ReportEverywhere(i: Instance, r: Resource, notify: seq<Binding<Server>>, sched: TaskScheduler, now: int)
    returns (fired: seq<SchedulerTask>)
    requires sched.Valid() && ServersKeyed(notify) && AllHaveDefaults(notify)
    requires HoldsTasks(r.observers, ResourceNode(i.parent.id, i.id, r.id), sched.tasks)
    requires HoldsTasks(i.parent.observers, ObjectNode(i.parent.id), sched.tasks)
    requires HoldsTasks(i.observers, InstanceNode(i.parent.id, i.id), sched.tasks)
    modifies sched`sleeper, sched`calls, sched.tasks
    ensures sched.Valid() && sched.tasks == old(sched.tasks)
    ensures Ran(old(See(sched)), See(sched), fired, now) && Distinct(fired) && InLevelOrder(fired)
    ensures forall t :: t in fired ==> HasKey(notify, t.server) && AtLevels(i, r, t)
    ensures forall k :: 0 <= k < |notify| ==>
              var server := notify[k].value;
              JudgedEverywhere(i, r, server, ResourceLimit(server, i, r), ObjectLimit(server, i),
                               InstanceLimit(server, i), old(See(sched)), now, fired)
  {
    hide Judged, JudgedEverywhere, Ran, ResourcePmin, ObjectPmin, InstancePmin, Distinct, InLevelOrder,
      HoldsTasks, HasKey, TaskScheduler.Valid, See;
    fired := NotifyAll(i, r, notify, sched, now);
    forall k | 0 <= k < |notify|
      ensures ResourceLimit(notify[k].value, i, r) == old(ResourceLimit(notify[k].value, i, r))
      ensures ObjectLimit(notify[k].value, i) == old(ObjectLimit(notify[k].value, i))
      ensures InstanceLimit(notify[k].value, i) == old(InstanceLimit(notify[k].value, i))
    {
      var server := notify[k].value;
      assert notify[k] in notify;
      LimitsStand((server, i, r.attributes));
    }
  }

  /**
   * `set_value`: the resource holds the value, and for each server the resource's, the object's
   * and the instance's task ran exactly once if the change concerns the server and the task
   * passes that level's `pmin`, and not at all otherwise. Nothing else ran. For each server the
   * three are called in that order.
   */
  method SetValue(i: Instance, r: Resource, value: Option<Value>, servers: seq<Binding<Server>>,
                  dbl: seq<byte> -> real, sched: TaskScheduler, now: int)
    returns (fired: seq<SchedulerTask>)
    requires sched.Valid() && ServersKeyed(servers) && AllHaveDefaults(servers)
    requires HoldsTasks(r.observers, ResourceNode(i.parent.id, i.id, r.id), sched.tasks)
    requires HoldsTasks(i.parent.observers, ObjectNode(i.parent.id), sched.tasks)
    requires HoldsTasks(i.observers, InstanceNode(i.parent.id, i.id), sched.tasks)
    requires forall b :: b in servers ==>
               Comparable(r.attributes.For(b.key), r.kind, Replaced(r.kind, r.value, value), value)
    modifies r`value, sched`sleeper, sched`calls, sched.tasks
    ensures sched.Valid() && sched.tasks == old(sched.tasks)
    ensures r.value == StoredValue(r.kind, old(r.value), value)
    ensures Ran(old(See(sched)), See(sched), fired, now) && Distinct(fired) && InLevelOrder(fired)
    ensures forall b :: b in servers ==>
              var replaced := Replaced(r.kind, old(r.value), value);
              var told := Concerned(old(r.attributes.For(b.key)), r.kind, replaced, value, dbl);
              && ReportedOnce(r.observers, b.key, told, ResourceLimit(b.value, i, r), old(See(sched)), now, fired)
              && ReportedOnce(i.parent.observers, b.key, told, ObjectLimit(b.value, i), old(See(sched)), now, fired)
              && ReportedOnce(i.observers, b.key, told, InstanceLimit(b.value, i), old(See(sched)), now, fired)
    ensures forall t :: t in fired ==>
              && AtLevels(i, r, t)
              && exists b :: b in servers && b.key == t.server &&
                   Concerned(old(r.attributes.For(b.key)), r.kind, Replaced(r.kind, old(r.value), value), value, dbl)
  {
    hide Judged, Ran, Distinct, InLevelOrder, HoldsTasks, HasKey, ReportedOnce, Concerned, Comparable,
      StoredValue, Replaced, ResourceLimit, ObjectLimit, InstanceLimit;
    ghost var before := See(sched);
    ghost var tasks := sched.tasks;
    var notify := ChangeValue(r, value, servers, dbl);
    fired := ReportEverywhere(i, r, notify, sched, now);
    NothingRan(before, now);
    assert [] + fired == fired;
    forall t | t in fired ensures exists b :: b in notify && b.key == t.server {
      KeyBinding(notify, t.server);
    }
    forall b | b in servers
      ensures ReportedOnce(r.observers, b.key, b in notify, ResourceLimit(b.value, i, r), before, now, fired)
      ensures ReportedOnce(i.parent.observers, b.key, b in notify, ObjectLimit(b.value, i), before, now, fired)
      ensures ReportedOnce(i.observers, b.key, b in notify, InstanceLimit(b.value, i), before, now, fired)
    {
      if b in notify {
        var k :| 0 <= k < |notify| && notify[k] == b;
      }
      OnceAtLevel(r.observers, ResourceNode(i.parent.id, i.id, r.id), tasks, servers, notify, b,
                  ResourceLimit(b.value, i, r), before, before, now, [], fired);
      OnceAtLevel(i.parent.observers, ObjectNode(i.parent.id), tasks, servers, notify, b,
                  ObjectLimit(b.value, i), before, before, now, [], fired);
      OnceAtLevel(i.observers, InstanceNode(i.parent.id, i.id), tasks, servers, notify, b,
                  InstanceLimit(b.value, i), before, before, now, [], fired);
    }
  }

  lemma KeyBinding(servers: seq<Binding<Server>>, key: int)
    requires HasKey(servers, key)
    ensures exists b :: b in servers && b.key == key
  {
    var k :| 0 <= k < |servers| && servers[k].key == key;
    assert servers[k] in servers;
  }
}
