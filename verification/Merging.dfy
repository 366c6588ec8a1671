/**
 * Writing an instance: parsed resources are merged into the stored ones one by one, each
 * reporting on its own level; the servers that any of them concerns are collected, and the
 * instance and its object report once at the end.
 */
module Merging {
  import opened Wrappers
  import opened Bits
  import opened Lists
  import opened TlvValues
  import opened Attributes
  import opened Scheduler
  import opened Reporting
  import opened ObjectTree
  import opened Notifying

  // ---------------------------------------------------------------- one resource

  /** The loops that collect servers: those of `more` whose id is not yet collected. */
  method AddMissing(collected: seq<Binding<Server>>, more: seq<Binding<Server>>, ghost servers: seq<Binding<Server>>)
    returns (all: seq<Binding<Server>>)
    requires ServersKeyed(servers) && ServersKeyed(collected)
    requires forall b :: b in collected || b in more ==> b in servers
    ensures ServersKeyed(all)
    ensures forall b :: b in all <==> b in collected || b in more
  {
    all := collected;
    for k := 0 to |more|
      invariant ServersKeyed(all)
      invariant forall b :: b in all <==> b in collected || b in more[..k]
    {
      assert more[..k + 1] == more[..k] + [more[k]];
      assert more[k] in more && more[k] in servers;
      if !HasKey(all, more[k].key) {
        all := [more[k]] + all;
      } else {
        var j :| 0 <= j < |all| && all[j].key == more[k].key;
        assert all[j] in all && all[j] in servers;
        SameServer(servers, all[j], more[k]);
      }
    }
    assert more[..|more|] == more;
  }

  /** Sets the value and finds the servers that the change concerns, for a write and for the application alike. */
  method ChangeValue(r: Resource, new_: Option<Value>, servers: seq<Binding<Server>>, dbl: seq<byte> -> real)
    returns (concerned: seq<Binding<Server>>)
    requires ServersKeyed(servers)
    requires forall b :: b in servers ==>
               Comparable(r.attributes.For(b.key), r.kind, Replaced(r.kind, r.value, new_), new_)
    modifies r`value
    ensures r.value == StoredValue(r.kind, old(r.value), new_)
    ensures ServersKeyed(concerned)
    ensures forall b :: b in concerned ==> b in servers
    ensures forall b :: b in servers ==>
              (b in concerned <==>
               Concerned(old(r.attributes.For(b.key)), r.kind, Replaced(r.kind, old(r.value), new_), new_, dbl))
  {
    var before := r.SetValue(new_);
    forall b | b in servers ensures r.attributes.For(b.key) == old(r.attributes.For(b.key)) {
      LookupMember(r.attributes.l, b.key);
    }
    concerned := ShouldNotify(r, before, new_, servers, dbl);
    forall b | b in servers
      ensures b in concerned <==> Concerned(old(r.attributes.For(b.key)), r.kind, before, new_, dbl)
    {
      LookupMember(r.attributes.l, b.key);
      assert r.attributes.For(b.key) == old(r.attributes.For(b.key));
    }
  }

  /** The resource's own reports, with the limits as the merge has left them. */
  method ReportResource(i: Instance, r: Resource, notify: seq<Binding<Server>>, sched: TaskScheduler, now: int)
    returns (fired: seq<SchedulerTask>)
    requires sched.Valid() && ServersKeyed(notify) && AllHaveDefaults(notify)
    requires HoldsTasks(r.observers, ResourceNode(i.parent.id, i.id, r.id), sched.tasks)
    modifies sched`sleeper, sched`calls, sched.tasks
    ensures sched.Valid() && sched.tasks == old(sched.tasks)
    ensures Ran(old(See(sched)), See(sched), fired, now) && Distinct(fired)
    ensures forall t :: t in fired ==>
              HasKey(notify, t.server) && AtNode(ResourceNode(i.parent.id, i.id, r.id), r.observers, t)
    ensures forall k :: 0 <= k < |notify| ==>
              Judged(r.observers, notify[k].key, ResourceLimit(notify[k].value, i, r), old(See(sched)), now, fired)
  {
    hide Judged, Ran, AtNode, Distinct, ResourcePmin, HoldsTasks, HasKey, TaskScheduler.Valid, See;
    fired := NotifyResource(i, r, notify, sched, now);
    forall k | 0 <= k < |notify|
      ensures ResourceLimit(notify[k].value, i, r) == old(ResourceLimit(notify[k].value, i, r))
    {
      var server := notify[k].value;
      assert notify[k] in notify;
      LimitsStand((server, i, r.attributes));
    }
  }

  /** `merge_resource` on a single-valued resource; `notify` are the servers it concerns. */
  method MergeResource(i: Instance, r: Resource, new_: Option<Value>, servers: seq<Binding<Server>>,
                       dbl: seq<byte> -> real, sched: TaskScheduler, now: int)
    returns (notify: seq<Binding<Server>>, fired: seq<SchedulerTask>)
    requires sched.Valid() && ServersKeyed(servers) && AllHaveDefaults(servers)
    requires HoldsTasks(r.observers, ResourceNode(i.parent.id, i.id, r.id), sched.tasks)
    requires forall b :: b in servers ==>
               Comparable(r.attributes.For(b.key), r.kind, Replaced(r.kind, r.value, new_), new_)
    modifies r`value, sched`sleeper, sched`calls, sched.tasks
    ensures sched.Valid() && sched.tasks == old(sched.tasks)
    ensures r.value == StoredValue(r.kind, old(r.value), new_)
    ensures ServersKeyed(notify)
    ensures forall b :: b in notify ==> b in servers
    ensures forall b :: b in servers ==>
              (b in notify <==>
               Concerned(old(r.attributes.For(b.key)), r.kind, Replaced(r.kind, old(r.value), new_), new_, dbl))
    ensures Ran(old(See(sched)), See(sched), fired, now) && Distinct(fired)
    ensures forall t :: t in fired ==>
              HasKey(notify, t.server) && AtNode(ResourceNode(i.parent.id, i.id, r.id), r.observers, t)
    ensures forall k :: 0 <= k < |notify| ==>
              Judged(r.observers, notify[k].key, ResourceLimit(notify[k].value, i, r), old(See(sched)), now, fired)
  {
    hide Judged, Ran, Concerned, Comparable, AtNode, Distinct, ResourcePmin, HoldsTasks, StoredValue, Replaced;
    var concerned := ChangeValue(r, new_, servers, dbl);
    notify := AddMissing([], concerned, servers);
    fired := ReportResource(i, r, notify, sched, now);
  }

  // ---------------------------------------------------------------- a whole instance

  ghost function ResourceOf(i: Instance, id: int): Resource
    requires i.Has(id)
  {
    Lookup(i.resources, id).value
  }

  /** Every new resource is one of the instance's. */
  ghost predicate Matches(i: Instance, news: seq<Binding<Option<Value>>>) {
    forall k :: 0 <= k < |news| ==> i.Has(news[k].key)
  }

  /** The values after merging `news` in order into an instance that held `vals`. */
  ghost function MergedValues(i: Instance, vals: map<int, Option<Value>>, news: seq<Binding<Option<Value>>>)
    : (merged: map<int, Option<Value>>)
    requires Matches(i, news)
    requires forall id :: i.Has(id) ==> id in vals
    ensures merged.Keys == vals.Keys
  {
    if news == [] then vals
    else
      var n := news[|news| - 1];
      var before := MergedValues(i, vals, news[..|news| - 1]);
      before[n.key := StoredValue(ResourceOf(i, n.key).kind, before[n.key], n.value)]
  }

  /** What server `key` wrote as the attributes of resource `id`. */
  ghost function LimitsFor(i: Instance, id: int, key: int): Option<Attributes>
    requires i.Has(id)
    reads ResourceOf(i, id).attributes, ResourceOf(i, id).attributes.RecordOf(key)
  {
    ResourceOf(i, id).attributes.For(key)
  }

  /** Merged into an instance that holds `vals`, new resource `n` concerns a server with these attributes. */
  ghost predicate ConcernedBy(i: Instance, vals: map<int, Option<Value>>, n: Binding<Option<Value>>,
                              limits: Option<Attributes>, dbl: seq<byte> -> real)
    requires i.Has(n.key) && n.key in vals
  {
    var kind := ResourceOf(i, n.key).kind;
    Concerned(limits, kind, Replaced(kind, vals[n.key], n.value), n.value, dbl)
  }

  /** No limit of that server will be tested on NULL. */
  ghost predicate ComparableIn(i: Instance, vals: map<int, Option<Value>>, n: Binding<Option<Value>>,
                               limits: Option<Attributes>)
    requires i.Has(n.key) && n.key in vals
  {
    var kind := ResourceOf(i, n.key).kind;
    Comparable(limits, kind, Replaced(kind, vals[n.key], n.value), n.value)
  }

  lemma MergedNext(i: Instance, vals: map<int, Option<Value>>, news: seq<Binding<Option<Value>>>, k: nat)
    requires Matches(i, news) && k < |news|
    requires forall id :: i.Has(id) ==> id in vals
    ensures var before, n := MergedValues(i, vals, news[..k]), news[k];
      MergedValues(i, vals, news[..k + 1]) ==
      before[n.key := StoredValue(ResourceOf(i, n.key).kind, before[n.key], n.value)]
  {
    assert news[..k + 1][..k] == news[..k];
  }

  /** With each resource given once, every given resource holds its new value and no other changes. */
  lemma {:induction false} MergedHoldsNew(i: Instance, vals: map<int, Option<Value>>, news: seq<Binding<Option<Value>>>)
    requires Matches(i, news) && DistinctKeys(news)
    requires forall id :: i.Has(id) ==> id in vals
    ensures forall k :: 0 <= k < |news| ==>
              var n := news[k];
              MergedValues(i, vals, news)[n.key] == StoredValue(ResourceOf(i, n.key).kind, vals[n.key], n.value)
    ensures forall id :: id in vals && !HasKey(news, id) ==> MergedValues(i, vals, news)[id] == vals[id]
  {
    if news != [] {
      var n := |news| - 1;
      var init := news[..n];
      MergedHoldsNew(i, vals, init);
      assert forall k :: 0 <= k < n ==> init[k] == news[k];
      assert !HasKey(init, news[n].key);
      forall id | id in vals && !HasKey(news, id) ensures MergedValues(i, vals, news)[id] == vals[id] {
        assert news[n].key != id && !HasKey(init, id);
      }
    }
  }

  /** A resource of a type holds what it was given; one of no type keeps what it had, unless it is cleared. */
  lemma MergedByType(i: Instance, vals: map<int, Option<Value>>, news: seq<Binding<Option<Value>>>, k: nat)
    requires Matches(i, news) && DistinctKeys(news) && k < |news|
    requires forall id :: i.Has(id) ==> id in vals
    ensures var merged, kind := MergedValues(i, vals, news)[news[k].key], ResourceOf(i, news[k].key).kind;
      && (kind != NONE || news[k].value.None? ==> merged == news[k].value)
      && (kind == NONE && news[k].value.Some? ==> merged == vals[news[k].key])
  {
    MergedHoldsNew(i, vals, news);
  }

  lemma ValuesOf(i: Instance, id: int)
    requires i.Keyed() && i.Has(id)
    ensures id in i.Values() && i.Values()[id] == ResourceOf(i, id).value
    ensures ResourceOf(i, id).id == id && Binding(id, ResourceOf(i, id)) in i.resources
  {
    LookupMember(i.resources, id);
  }

  /** `merge_resource` on the resource that a new one names. */
  method MergeInto(i: Instance, n: Binding<Option<Value>>, servers: seq<Binding<Server>>,
                   dbl: seq<byte> -> real, sched: TaskScheduler, now: int)
    returns (notify: seq<Binding<Server>>, fired: seq<SchedulerTask>)
    requires sched.Valid() && ServersKeyed(servers) && AllHaveDefaults(servers)
    requires i.Keyed() && i.Has(n.key)
    requires HoldsTasks(ResourceOf(i, n.key).observers, ResourceNode(i.parent.id, i.id, n.key), sched.tasks)
    requires forall b :: b in servers ==>
               ComparableIn(i, i.Values(), n, LimitsFor(i, n.key, b.key))
    modifies ResourceOf(i, n.key)`value, sched`sleeper, sched`calls, sched.tasks
    ensures sched.Valid() && sched.tasks == old(sched.tasks)
    ensures i.Values() ==
            old(i.Values())[n.key := StoredValue(ResourceOf(i, n.key).kind, old(i.Values())[n.key], n.value)]
    ensures ServersKeyed(notify)
    ensures forall b :: b in notify ==> b in servers
    ensures forall b :: b in servers ==>
              (b in notify <==>
               ConcernedBy(i, old(i.Values()), n, old(LimitsFor(i, n.key, b.key)), dbl))
    ensures Ran(old(See(sched)), See(sched), fired, now) && Distinct(fired)
    ensures forall t :: t in fired ==>
              && HasKey(notify, t.server)
              && AtNode(ResourceNode(i.parent.id, i.id, n.key), ResourceOf(i, n.key).observers, t)
    ensures forall k :: 0 <= k < |notify| ==>
              Judged(ResourceOf(i, n.key).observers, notify[k].key,
                     ResourceLimit(notify[k].value, i, ResourceOf(i, n.key)), old(See(sched)), now, fired)
  {
    hide Judged, Ran, Concerned, Comparable, Distinct, ResourcePmin, StoredValue, Replaced, ResourceLimit, AtNode,
      HasKey, HoldsTasks;
    ValuesOf(i, n.key);
    var r := Lookup(i.resources, n.key).value;
    notify, fired := MergeResource(i, r, n.value, servers, dbl, sched, now);
    forall b | b in i.resources ensures b.key != n.key ==> b.value != r {
    }
  }

  // ---------------------------------------------------------------- limits while an instance is written

  /** What every server has at every resource of the instance, before anything is merged. */
  ghost predicate Before(i: Instance, servers: seq<Binding<Server>>, table: map<(int, int), Levels>)
    requires AllHaveDefaults(servers)
    reads set b | b in servers :: b.value.PminResource()
    reads set b | b in servers :: b.value.PmaxResource()
    reads i.parent.attributes, set s, x | s in servers && x in i.parent.attributes.RecordOf(s.value.shortId) :: x
    reads i.attributes, set s, x | s in servers && x in i.attributes.RecordOf(s.value.shortId) :: x
    reads set b | b in i.resources :: b.value.attributes
    reads set b, s, x | b in i.resources && s in servers && x in b.value.attributes.RecordOf(s.key) :: x
  {
    LookupMembers(i.resources);
    forall id, s :: i.Has(id) && s in servers ==>
      (id, s.key) in table && table[(id, s.key)] == LevelsOf(s.value, i, LimitsFor(i, id, s.key))
  }

  /** The default `pmin` once the instance holds `vals`: it may be one of the values written. */
  ghost function DefaultAfter(server: Server, i: Instance, before: Option<int>, vals: map<int, Option<Value>>)
    : Option<int>
    requires server.HasDefaults()
  {
    var r := server.PminResource();
    if Binding(r.id, r) in i.resources && r.id in vals then AsInteger(vals[r.id]) else before
  }

  /** The limit of a resource's report once the instance holds `vals`. */
  ghost function LimitAfter(server: Server, i: Instance, before: Levels, vals: map<int, Option<Value>>): Option<int>
    requires server.HasDefaults()
  {
    ResourcePmin(before.(pmin := DefaultAfter(server, i, before.pmin, vals)), LOOKUP_FULL)
  }

  /** Merging into an instance moves a limit only by the default it may write. */
  twostate lemma LimitsMove(at: (Server, Instance, Resource))
    requires at.0.HasDefaults() && at.1.Keyed()
    requires forall r: Resource :: old(allocated(r)) && Binding(r.id, r) !in at.1.resources ==> r.value == old(r.value)
    requires forall a: AttributeList :: old(allocated(a)) ==> a.l == old(a.l)
    requires forall a: Stored :: old(allocated(a)) ==> a.Value() == old(a.Value())
    ensures at.2.attributes.For(at.0.shortId) == old(at.2.attributes.For(at.0.shortId))
    ensures ResourceLimit(at.0, at.1, at.2) ==
            LimitAfter(at.0, at.1, old(LevelsOf(at.0, at.1, at.2.attributes.For(at.0.shortId))), at.1.Values())
  {
    var (server, i, r) := at;
    LookupMember(server.serverInstance.resources, DEFAULT_PMIN_RES);
    LookupMember(server.serverInstance.resources, DEFAULT_PMAX_RES);
    LookupMember(r.attributes.l, server.shortId);
    LookupMember(i.attributes.l, server.shortId);
    LookupMember(i.parent.attributes.l, server.shortId);
  }

  // ---------------------------------------------------------------- what one write should do

  /**
   * One call of `merge_resources`: what it is given, and, as it finds them, the values, what the
   * servers have at the resources' levels, the resources' observers, and the tasks.
   */
  datatype Merge = Merge(
    i: Instance, news: seq<Binding<Option<Value>>>, servers: seq<Binding<Server>>, dbl: seq<byte> -> real, now: int,
    vals: map<int, Option<Value>>, table: map<(int, int), Levels>,
    observers: map<int, seq<Binding<SchedulerTask>>>, before: Seen)

  ghost predicate Sound(m: Merge) {
    && m.i.Keyed() && Matches(m.i, m.news) && ServersKeyed(m.servers) && AllHaveDefaults(m.servers)
    && (forall id :: m.i.Has(id) ==> id in m.vals && id in m.observers)
    && (forall id, b :: m.i.Has(id) && b in m.servers ==> (id, b.key) in m.table)
    && (forall id :: m.i.Has(id) ==> HoldsTasks(m.observers[id], NodeOf(m, id), m.before.info.Keys))
  }

  function NodeOf(m: Merge, id: int): Node {
    ResourceNode(m.i.parent.id, m.i.id, id)
  }

  /** The values after the first `k` rounds. */
  ghost function ValuesAt(m: Merge, k: nat): map<int, Option<Value>>
    requires Sound(m) && k <= |m.news|
  {
    MergedValues(m.i, m.vals, m.news[..k])
  }

  /** New resource `k` concerns server `b`. */
  ghost predicate RoundConcerns(m: Merge, k: nat, b: Binding<Server>)
    requires Sound(m) && k < |m.news| && b in m.servers
  {
    ConcernedBy(m.i, ValuesAt(m, k), m.news[k], m.table[(m.news[k].key, b.key)].resource, m.dbl)
  }

  ghost predicate RoundComparable(m: Merge, k: nat, b: Binding<Server>)
    requires Sound(m) && k < |m.news| && b in m.servers
  {
    ComparableIn(m.i, ValuesAt(m, k), m.news[k], m.table[(m.news[k].key, b.key)].resource)
  }

  /** One of the first `n` new resources concerns the server. */
  ghost predicate ConcernedByAny(m: Merge, n: nat, b: Binding<Server>)
    requires Sound(m) && n <= |m.news| && b in m.servers
  {
    exists k :: 0 <= k < n && RoundConcerns(m, k, b)
  }

  /** Round `k` reported to the server once on the level of its resource, or not at all. */
  ghost predicate RoundOnce(m: Merge, k: nat, b: Binding<Server>, fired: seq<SchedulerTask>)
    requires Sound(m) && k < |m.news| && b in m.servers
  {
    var id := m.news[k].key;
    ReportedOnce(m.observers[id], b.key, RoundConcerns(m, k, b),
                 LimitAfter(b.value, m.i, m.table[(id, b.key)], ValuesAt(m, k + 1)), m.before, m.now, fired)
  }

  /** `t` is the task of a server that round `k` concerns, on the level of its resource. */
  ghost predicate RoundTask(m: Merge, k: nat, t: SchedulerTask)
    requires Sound(m) && k < |m.news|
  {
    && AtNode(NodeOf(m, m.news[k].key), m.observers[m.news[k].key], t)
    && exists b :: b in m.servers && b.key == t.server && RoundConcerns(m, k, b)
  }

  /** What round `k` tests the task of server `b` with. */
  ghost function RoundLimit(m: Merge, k: nat, b: Binding<Server>): Option<int>
    requires Sound(m) && k < |m.news| && b in m.servers
  {
    var id := m.news[k].key;
    LimitAfter(b.value, m.i, m.table[(id, b.key)], ValuesAt(m, k + 1))
  }

  /** Round `k` tests such a task with `limit`. */
  ghost predicate RoundCall(m: Merge, k: nat, t: SchedulerTask, limit: Option<int>)
    requires Sound(m) && k < |m.news|
  {
    && AtNode(NodeOf(m, m.news[k].key), m.observers[m.news[k].key], t)
    && exists b :: b in m.servers && b.key == t.server && RoundConcerns(m, k, b) && limit == RoundLimit(m, k, b)
  }

  ghost predicate ResourceCall(m: Merge, n: nat, t: SchedulerTask, limit: Option<int>)
    requires Sound(m) && n <= |m.news|
  {
    exists k :: 0 <= k < n && RoundCall(m, k, t, limit)
  }

  ghost predicate ResourceCalls(m: Merge, n: nat, fired: seq<SchedulerTask>, limits: seq<Option<int>>)
    requires Sound(m) && n <= |m.news|
  {
    |limits| == |fired| && forall j :: 0 <= j < |fired| ==> ResourceCall(m, n, fired[j], limits[j])
  }

  /** `t` is such a task of one of the first `n` rounds. */
  ghost predicate ResourceTask(m: Merge, n: nat, t: SchedulerTask)
    requires Sound(m) && n <= |m.news|
  {
    exists k :: 0 <= k < n && RoundTask(m, k, t)
  }

  lemma RoundsNext(m: Merge, n: nat)
    requires Sound(m) && n < |m.news|
    ensures forall b :: b in m.servers ==>
              (ConcernedByAny(m, n + 1, b) <==> ConcernedByAny(m, n, b) || RoundConcerns(m, n, b))
    ensures forall t :: ResourceTask(m, n, t) || RoundTask(m, n, t) ==> ResourceTask(m, n + 1, t)
    ensures var id := m.news[n].key;
      ValuesAt(m, n + 1) ==
      ValuesAt(m, n)[id := StoredValue(ResourceOf(m.i, id).kind, ValuesAt(m, n)[id], m.news[n].value)]
  {
    MergedNext(m.i, m.vals, m.news, n);
    hide RoundConcerns, RoundTask, MergedValues, Sound;
  }

  lemma NoRounds(m: Merge)
    requires Sound(m)
    ensures forall b :: b in m.servers ==> !ConcernedByAny(m, 0, b)
    ensures ValuesAt(m, 0) == m.vals
  {
  }

  /** With each resource given once, no earlier round has reported where a later one does. */
  lemma EarlierElsewhere(m: Merge, n: nat, fired: seq<SchedulerTask>)
    requires Sound(m) && n < |m.news| && DistinctKeys(m.news)
    requires forall t :: t in fired ==> ResourceTask(m, n, t)
    ensures forall t :: t in fired ==> t.node != NodeOf(m, m.news[n].key)
  {
    hide Sound, RoundConcerns;
    forall t | t in fired ensures t.node != NodeOf(m, m.news[n].key) {
      var k :| 0 <= k < n && RoundTask(m, k, t);
    }
  }

  /** The reports of round `n`, judged server by server. */
  lemma RoundDone(m: Merge, n: nat, middle: Seen, notify: seq<Binding<Server>>,
                  fired: seq<SchedulerTask>, more: seq<SchedulerTask>)
    requires Sound(m) && n < |m.news| && Ran(m.before, middle, fired, m.now) && Distinct(more)
    requires forall b :: b in notify ==> b in m.servers
    requires forall b :: b in m.servers ==> (b in notify <==> RoundConcerns(m, n, b))
    requires var id := m.news[n].key;
      && (forall t :: t in more ==> HasKey(notify, t.server) && AtNode(NodeOf(m, id), m.observers[id], t))
      && (forall b :: b in notify ==>
            Judged(m.observers[id], b.key, LimitAfter(b.value, m.i, m.table[(id, b.key)], ValuesAt(m, n + 1)),
                   middle, m.now, more))
    ensures forall t :: t in more ==> RoundTask(m, n, t) && t.node == NodeOf(m, m.news[n].key)
    ensures (forall t :: t in fired ==> t.node != NodeOf(m, m.news[n].key)) ==>
              forall b :: b in m.servers ==> RoundOnce(m, n, b, fired + more)
  {
    hide Judged, LimitAfter, RoundConcerns, ValuesAt, ReportedOnce, Ran, ServersKeyed, Distinct;
    var id := m.news[n].key;
    forall t | t in more ensures RoundTask(m, n, t) {
      var k :| 0 <= k < |notify| && notify[k].key == t.server;
      assert notify[k] in notify;
    }
    if forall t :: t in fired ==> t.node != NodeOf(m, id) {
      forall b | b in m.servers ensures RoundOnce(m, n, b, fired + more) {
        OnceAtLevel(m.observers[id], NodeOf(m, id), m.before.info.Keys, m.servers, notify, b,
                    LimitAfter(b.value, m.i, m.table[(id, b.key)], ValuesAt(m, n + 1)),
                    m.before, middle, m.now, fired, more);
      }
    }
  }

  /** Reports to other nodes leave a round's reports as they are. */
  lemma RoundStands(m: Merge, k: nat, b: Binding<Server>, fired: seq<SchedulerTask>, more: seq<SchedulerTask>)
    requires Sound(m) && k < |m.news| && b in m.servers && RoundOnce(m, k, b, fired)
    requires forall t :: t in more ==> t.node != NodeOf(m, m.news[k].key)
    ensures RoundOnce(m, k, b, fired + more)
  {
    hide LimitAfter, RoundConcerns, ValuesAt, ReportedOnce;
    var id := m.news[k].key;
    OnceStands(m.observers[id], NodeOf(m, id), m.before.info.Keys, b.key, RoundConcerns(m, k, b),
               LimitAfter(b.value, m.i, m.table[(id, b.key)], ValuesAt(m, k + 1)), m.before, m.now, fired, more);
  }

  /** All rounds so far reported once, or not at all. */
  ghost predicate RoundsOnce(m: Merge, n: nat, fired: seq<SchedulerTask>)
    requires Sound(m) && n <= |m.news|
  {
    forall k, b :: 0 <= k < n && b in m.servers ==> RoundOnce(m, k, b, fired)
  }

  lemma RoundsOnceNext(m: Merge, n: nat, fired: seq<SchedulerTask>, more: seq<SchedulerTask>)
    requires Sound(m) && n < |m.news| && DistinctKeys(m.news) && RoundsOnce(m, n, fired)
    requires forall t :: t in more ==> t.node == NodeOf(m, m.news[n].key)
    requires forall b :: b in m.servers ==> RoundOnce(m, n, b, fired + more)
    ensures RoundsOnce(m, n + 1, fired + more)
  {
    hide Sound, RoundOnce;
    forall k, b | 0 <= k < n + 1 && b in m.servers ensures RoundOnce(m, k, b, fired + more) {
      if k < n {
        RoundStands(m, k, b, fired, more);
      }
    }
  }

  // ---------------------------------------------------------------- the rounds

  /** `m` describes the tree and the scheduler as they are. */
  ghost predicate Describes(m: Merge, sched: TaskScheduler)
    requires Sound(m)
    reads sched`tasks, sched`sleeper, sched`calls, sched.tasks
    reads (set b | b in m.i.resources :: b.value)`value, (set b | b in m.i.resources :: b.value)`observers
    reads set b | b in m.servers :: b.value.PminResource()
    reads set b | b in m.servers :: b.value.PmaxResource()
    reads m.i.parent.attributes, set s, x | s in m.servers && x in m.i.parent.attributes.RecordOf(s.value.shortId) :: x
    reads m.i.attributes, set s, x | s in m.servers && x in m.i.attributes.RecordOf(s.value.shortId) :: x
    reads set b | b in m.i.resources :: b.value.attributes
    reads set b, s, x | b in m.i.resources && s in m.servers && x in b.value.attributes.RecordOf(s.key) :: x
  {
    LookupMembers(m.i.resources);
    && m.vals == m.i.Values() && m.before == See(sched)
    && (forall id :: m.i.Has(id) ==> m.observers[id] == ResourceOf(m.i, id).observers)
    && Before(m.i, m.servers, m.table)
  }

  /** Round `n` as a whole. */
  lemma RoundAdded(m: Merge, n: nat, middle: Seen, after: Seen, notify: seq<Binding<Server>>,
                   fired: seq<SchedulerTask>, more: seq<SchedulerTask>)
    requires Sound(m) && n < |m.news|
    requires Ran(m.before, middle, fired, m.now) && Ran(middle, after, more, m.now) && Distinct(more)
    requires forall b :: b in notify ==> b in m.servers
    requires forall b :: b in m.servers ==> (b in notify <==> RoundConcerns(m, n, b))
    requires var id := m.news[n].key;
      && (forall t :: t in more ==> HasKey(notify, t.server) && AtNode(NodeOf(m, id), m.observers[id], t))
      && (forall b :: b in notify ==>
            Judged(m.observers[id], b.key, LimitAfter(b.value, m.i, m.table[(id, b.key)], ValuesAt(m, n + 1)),
                   middle, m.now, more))
    requires forall t :: t in fired ==> ResourceTask(m, n, t)
    requires DistinctKeys(m.news) ==> RoundsOnce(m, n, fired)
    ensures Ran(m.before, after, fired + more, m.now)
    ensures forall t :: t in fired + more ==> ResourceTask(m, n + 1, t)
    ensures DistinctKeys(m.news) ==> RoundsOnce(m, n + 1, fired + more)
  {
    hide Sound, Judged, Ran, RoundConcerns, RoundTask, RoundOnce, ResourceTask, RoundsOnce, ValuesAt, LimitAfter,
      HasKey, AtNode, DistinctKeys, Distinct;
    RanAgain(m.before, middle, after, fired, more, m.now);
    RoundDone(m, n, middle, notify, fired, more);
    RoundsNext(m, n);
    if DistinctKeys(m.news) {
      EarlierElsewhere(m, n, fired);
      RoundsOnceNext(m, n, fired, more);
    }
  }

  /** The calls of round `n` and what each was tested with, after those before. */
  lemma RoundPasses(m: Merge, n: nat, middle: Seen, notify: seq<Binding<Server>>,
                    fired: seq<SchedulerTask>, more: seq<SchedulerTask>, limits: seq<Option<int>>)
    returns (all: seq<Option<int>>)
    requires Sound(m) && n < |m.news| && Ran(m.before, middle, fired, m.now) && Distinct(more)
    requires forall b :: b in notify ==> b in m.servers
    requires forall b :: b in m.servers ==> (b in notify <==> RoundConcerns(m, n, b))
    requires var id := m.news[n].key;
      && (forall t :: t in more ==> HasKey(notify, t.server) && AtNode(NodeOf(m, id), m.observers[id], t))
      && (forall b :: b in notify ==>
            Judged(m.observers[id], b.key, LimitAfter(b.value, m.i, m.table[(id, b.key)], ValuesAt(m, n + 1)),
                   middle, m.now, more))
    requires Passes(m.before, m.now, fired, limits) && ResourceCalls(m, n, fired, limits)
    ensures Passes(m.before, m.now, fired + more, all) && ResourceCalls(m, n + 1, fired + more, all)
  {
    hide Ran, RoundConcerns, LimitAfter, ValuesAt, FulfillsPmin;
    var others := RoundLimits(m, n, middle, notify, more);
    hide Sound, Passes, Judged, RoundCall;
    PassesAgain(m.before, middle, m.now, fired, more, limits, others);
    all := limits + others;
    forall j | 0 <= j < |fired + more| ensures ResourceCall(m, n + 1, (fired + more)[j], all[j]) {
      if j < |fired| {
        assert ResourceCall(m, n, fired[j], limits[j]);
        var k :| 0 <= k < n && RoundCall(m, k, fired[j], limits[j]);
      } else {
        assert RoundCall(m, n, more[j - |fired|], others[j - |fired|]);
      }
    }
  }

  lemma RoundLimits(m: Merge, n: nat, middle: Seen, notify: seq<Binding<Server>>, more: seq<SchedulerTask>)
    returns (limits: seq<Option<int>>)
    requires Sound(m) && n < |m.news| && Distinct(more)
    requires forall b :: b in notify ==> b in m.servers && RoundConcerns(m, n, b)
    requires var id := m.news[n].key;
      && (forall t :: t in more ==> HasKey(notify, t.server) && AtNode(NodeOf(m, id), m.observers[id], t))
      && (forall b :: b in notify ==> Judged(m.observers[id], b.key, RoundLimit(m, n, b), middle, m.now, more))
    ensures Passes(middle, m.now, more, limits)
    ensures |limits| == |more| && forall j :: 0 <= j < |more| ==> RoundCall(m, n, more[j], limits[j])
  {
    hide Sound, RoundConcerns, RoundLimit, FulfillsPmin, Distinct;
    limits := seq(|more|, j requires 0 <= j < |more| => CallLimit(m, n, notify, more[j]));
    forall j | 0 <= j < |more|
      ensures more[j] in middle.info && FulfillsPmin(limits[j], middle.info[more[j]].last, m.now)
      ensures RoundCall(m, n, more[j], limits[j])
    {
      assert more[j] in more;
      LookupIsTop(notify, more[j].server);
      LookupMember(notify, more[j].server);
    }
    DistinctPasses(middle, m.now, more, limits);
  }

  ghost function CallLimit(m: Merge, n: nat, notify: seq<Binding<Server>>, t: SchedulerTask): Option<int>
    requires Sound(m) && n < |m.news| && forall b :: b in notify ==> b in m.servers
  {
    LookupMember(notify, t.server);
    var found := Lookup(notify, t.server);
    if found.Some? then RoundLimit(m, n, Binding(t.server, found.value)) else None
  }

  ghost function Entry(i: Instance, servers: seq<Binding<Server>>, at: (int, int)): Levels
    requires IsEntry(i, servers, at)
    reads *
  {
    LevelsOf(Lookup(servers, at.1).value, i, LimitsFor(i, at.0, at.1))
  }

  ghost predicate IsEntry(i: Instance, servers: seq<Binding<Server>>, at: (int, int)) {
    i.Has(at.0) && Lookup(servers, at.1).Some? && Lookup(servers, at.1).value.HasDefaults()
  }

  /** What the servers have at the resources' levels can be tabulated. */
  lemma TableExists(i: Instance, servers: seq<Binding<Server>>) returns (table: map<(int, int), Levels>)
    requires i.Keyed() && ServersKeyed(servers) && AllHaveDefaults(servers)
    ensures Before(i, servers, table)
  {
    var keys := set b, s | b in i.resources && s in servers :: (b.key, s.key);
    table := Tabulated(i, servers, set at | at in keys && IsEntry(i, servers, at));
    forall id, s | i.Has(id) && s in servers
      ensures (id, s.key) in table && table[(id, s.key)] == LevelsOf(s.value, i, LimitsFor(i, id, s.key))
    {
      LookupMember(i.resources, id);
      LookupMember(servers, s.key);
      assert Binding(id, ResourceOf(i, id)) in i.resources && (id, s.key) in keys;
      assert Entry(i, servers, (id, s.key)) == LevelsOf(s.value, i, LimitsFor(i, id, s.key));
      hide LevelsOf, LimitsFor, Entry;
    }
    hide LevelsOf, LimitsFor;
  }

  ghost function Tabulated(i: Instance, servers: seq<Binding<Server>>, keys: set<(int, int)>): map<(int, int), Levels>
    requires forall at :: at in keys ==> IsEntry(i, servers, at)
    reads *
  {
    map at | at in keys :: Entry(i, servers, at)
  }

  lemma ObserversExist(i: Instance) returns (observers: map<int, seq<Binding<SchedulerTask>>>)
    requires i.Keyed()
    ensures forall id :: i.Has(id) ==> id in observers && observers[id] == ResourceOf(i, id).observers
  {
    LookupMembers(i.resources);
    observers := map b | b in i.resources :: b.key := b.value.observers;
    forall id | i.Has(id) ensures id in observers && observers[id] == ResourceOf(i, id).observers {
      assert Binding(id, ResourceOf(i, id)) in i.resources;
    }
  }

  /** Every write can be described. */
  lemma Describe(i: Instance, news: seq<Binding<Option<Value>>>, servers: seq<Binding<Server>>, dbl: seq<byte> -> real,
                 sched: TaskScheduler, now: int)
    returns (m: Merge)
    requires i.Keyed() && Matches(i, news) && ServersKeyed(servers) && AllHaveDefaults(servers)
    requires i.Observed(sched.tasks)
    ensures m.i == i && m.news == news && m.servers == servers && m.dbl == dbl && m.now == now
    ensures Sound(m) && Describes(m, sched)
  {
    var table := TableExists(i, servers);
    var observers := ObserversExist(i);
    m := Merge(i, news, servers, dbl, now, i.Values(), table, observers, See(sched));
    SeeTasks(sched);
    LookupMembers(i.resources);
    forall id | i.Has(id) ensures HoldsTasks(observers[id], NodeOf(m, id), sched.tasks) {
      assert Binding(id, ResourceOf(i, id)) in i.resources;
    }
    hide LevelsOf, LimitsFor, See, HoldsTasks;
  }

  /** The observers are as described, and the limits as described but for the values merged so far. */
  ghost predicate Standing(m: Merge)
    requires Sound(m)
    reads *
  {
    && (forall id :: m.i.Has(id) ==> ResourceOf(m.i, id).observers == m.observers[id])
    && (forall id, b :: m.i.Has(id) && b in m.servers ==> LimitStands(m, id, b))
  }

  ghost predicate LimitStands(m: Merge, id: int, b: Binding<Server>)
    requires Sound(m) && m.i.Has(id) && b in m.servers
    reads *
  {
    && LimitsFor(m.i, id, b.key) == m.table[(id, b.key)].resource
    && ResourceLimit(b.value, m.i, ResourceOf(m.i, id)) ==
       LimitAfter(b.value, m.i, m.table[(id, b.key)], m.i.Values())
  }

  /** While only tasks and the instance's values change, what was described keeps standing. */
  twostate lemma KeepsStanding(at: (Merge, TaskScheduler))
    requires Sound(at.0) && old(Describes(at.0, at.1))
    requires forall r: Resource :: old(allocated(r)) ==> r.observers == old(r.observers)
    requires forall r: Resource :: old(allocated(r)) && Binding(r.id, r) !in at.0.i.resources ==>
               r.value == old(r.value)
    requires forall a: AttributeList :: old(allocated(a)) ==> a.l == old(a.l)
    requires forall a: Stored :: old(allocated(a)) ==> a.Value() == old(a.Value())
    ensures Standing(at.0)
  {
    var m := at.0;
    hide LimitAfter, ResourceLimit, HoldsTasks, Instance.Values;
    forall id | m.i.Has(id) ensures ResourceOf(m.i, id).observers == m.observers[id] {
      LookupMember(m.i.resources, id);
    }
    forall id, b | m.i.Has(id) && b in m.servers ensures LimitStands(m, id, b) {
      LookupMember(m.i.resources, id);
      LimitsMove((b.value, m.i, ResourceOf(m.i, id)));
    }
  }

  /** One round: new resource `k`, into what the rounds before have left. */
  method MergeRound(i: Instance, news: seq<Binding<Option<Value>>>, k: nat, servers: seq<Binding<Server>>,
                    dbl: seq<byte> -> real, sched: TaskScheduler, now: int, ghost m: Merge)
    returns (notify: seq<Binding<Server>>, fired: seq<SchedulerTask>)
    requires m.i == i && m.news == news && m.servers == servers && m.dbl == dbl && m.now == now
    requires sched.Valid() && Sound(m) && k < |news| && sched.tasks == m.before.info.Keys
    requires Standing(m) && i.Values() == ValuesAt(m, k)
    requires forall b :: b in servers ==> RoundComparable(m, k, b)
    modifies ResourceOf(i, news[k].key)`value, sched`sleeper, sched`calls, sched.tasks
    ensures sched.Valid() && sched.tasks == old(sched.tasks)
    ensures i.Values() == ValuesAt(m, k + 1)
    ensures ServersKeyed(notify)
    ensures forall b :: b in notify ==> b in servers
    ensures forall b :: b in servers ==> (b in notify <==> RoundConcerns(m, k, b))
    ensures Ran(old(See(sched)), See(sched), fired, now) && Distinct(fired)
    ensures forall t :: t in fired ==>
              HasKey(notify, t.server) && AtNode(NodeOf(m, news[k].key), m.observers[news[k].key], t)
    ensures forall j :: 0 <= j < |notify| ==>
              Judged(m.observers[news[k].key], notify[j].key,
                     ResourceLimit(notify[j].value, i, ResourceOf(i, news[k].key)), old(See(sched)), now, fired)
  {
    hide Ran, ConcernedBy, ComparableIn, Instance.Values, HasKey, See, TaskScheduler.Valid, ResourceOf, ResourceLimit,
      LimitAfter, Judged, Distinct, AtNode, StoredValue, MergedValues, HoldsTasks, ServersKeyed;
    RoundsNext(m, k);
    ghost var r := ResourceOf(i, news[k].key);
    ValuesOf(i, news[k].key);
    assert r.observers == m.observers[news[k].key];
    forall b | b in servers ensures ComparableIn(i, i.Values(), news[k], LimitsFor(i, news[k].key, b.key)) {
      assert LimitStands(m, news[k].key, b) && RoundComparable(m, k, b);
    }
    forall b | b in servers ensures LimitsFor(i, news[k].key, b.key) == m.table[(news[k].key, b.key)].resource {
      assert LimitStands(m, news[k].key, b);
    }
    notify, fired := MergeInto(i, news[k], servers, dbl, sched, now);
    assert r.observers == m.observers[news[k].key];
  }

  /** The loop of `merge_resources`. */
  method MergeAll(i: Instance, news: seq<Binding<Option<Value>>>, servers: seq<Binding<Server>>,
                  dbl: seq<byte> -> real, sched: TaskScheduler, now: int, ghost m: Merge)
    returns (notify: seq<Binding<Server>>, fired: seq<SchedulerTask>, ghost limits: seq<Option<int>>)
    requires m.i == i && m.news == news && m.servers == servers && m.dbl == dbl && m.now == now
    requires sched.Valid() && Sound(m) && Describes(m, sched)
    requires forall k, b :: 0 <= k < |news| && b in servers ==> RoundComparable(m, k, b)
    modifies (set b | b in i.resources :: b.value)`value, sched`sleeper, sched`calls, sched.tasks
    ensures sched.Valid() && sched.tasks == old(sched.tasks)
    ensures i.Values() == ValuesAt(m, |news|)
    ensures ServersKeyed(notify)
    ensures forall b :: b in notify ==> b in servers
    ensures forall b :: b in servers ==> (b in notify <==> ConcernedByAny(m, |news|, b))
    ensures Ran(m.before, See(sched), fired, now)
    ensures forall t :: t in fired ==> ResourceTask(m, |news|, t)
    ensures Passes(m.before, now, fired, limits) && ResourceCalls(m, |news|, fired, limits)
    ensures DistinctKeys(news) ==> RoundsOnce(m, |news|, fired)
  {
    hide Ran, RoundConcerns, RoundComparable, ConcernedByAny, ResourceTask, RoundTask, RoundsOnce, RoundOnce, ValuesAt,
      Instance.Values, HasKey, HoldsTasks, See, TaskScheduler.Valid, ResourceOf, LimitAfter, ResourceLimit, Judged,
      DistinctKeys, Distinct, AtNode, StoredValue, Before, AllHaveDefaults, Standing, LimitStands, Passes,
      ResourceCalls;
    notify, fired, limits := [], [], [];
    NothingRan(m.before, now);
    NoRounds(m);
    NoReports(m);
    SeeTasks(sched);
    for k := 0 to |news|
      invariant sched.Valid() && sched.tasks == old(sched.tasks)
      invariant i.Values() == ValuesAt(m, k)
      invariant ServersKeyed(notify)
      invariant forall b :: b in notify ==> b in servers
      invariant forall b :: b in servers ==> (b in notify <==> ConcernedByAny(m, k, b))
      invariant Ran(m.before, See(sched), fired, now)
      invariant forall t :: t in fired ==> ResourceTask(m, k, t)
      invariant Passes(m.before, now, fired, limits) && ResourceCalls(m, k, fired, limits)
      invariant DistinctKeys(news) ==> RoundsOnce(m, k, fired)
    {
      ghost var middle := See(sched);
      KeepsStanding((m, sched));
      RoundsNext(m, k);
      ValuesOf(i, news[k].key);
      var concerned, more := MergeRound(i, news, k, servers, dbl, sched, now, m);
      KeepsStanding((m, sched));
      RoundJudged(m, k, concerned, middle, more);
      RoundAdded(m, k, middle, See(sched), concerned, fired, more);
      limits := RoundPasses(m, k, middle, concerned, fired, more, limits);
      notify := AddMissing(notify, concerned, servers);
      fired := fired + more;
    }
  }

  lemma RoundJudged(m: Merge, k: nat, notify: seq<Binding<Server>>, middle: Seen, more: seq<SchedulerTask>)
    requires Sound(m) && k < |m.news| && Standing(m) && m.i.Values() == ValuesAt(m, k + 1)
    requires forall b :: b in notify ==> b in m.servers
    requires forall j :: 0 <= j < |notify| ==>
               Judged(m.observers[m.news[k].key], notify[j].key,
                      ResourceLimit(notify[j].value, m.i, ResourceOf(m.i, m.news[k].key)), middle, m.now, more)
    ensures var id := m.news[k].key;
      forall b :: b in notify ==>
        Judged(m.observers[id], b.key, LimitAfter(b.value, m.i, m.table[(id, b.key)], ValuesAt(m, k + 1)),
               middle, m.now, more)
  {
    hide Judged, LimitAfter, ResourceLimit, ValuesAt, Instance.Values;
    var id := m.news[k].key;
    forall b | b in notify
      ensures Judged(m.observers[id], b.key, LimitAfter(b.value, m.i, m.table[(id, b.key)], ValuesAt(m, k + 1)),
                     middle, m.now, more)
    {
      var j :| 0 <= j < |notify| && notify[j] == b;
      assert LimitStands(m, id, b);
    }
  }

  lemma SeeTasks(sched: TaskScheduler)
    ensures See(sched).info.Keys == sched.tasks
  {
  }

  lemma NoReports(m: Merge)
    requires Sound(m)
    ensures RoundsOnce(m, 0, []) && ServersKeyed([])
    ensures Passes(m.before, m.now, [], []) && ResourceCalls(m, 0, [], [])
  {
  }

  // ---------------------------------------------------------------- one write, one report per level

  /** The two levels' reports, with the limits as the merge has left them. */
  method ReportAbove(i: Instance, notify: seq<Binding<Server>>, sched: TaskScheduler, now: int)
    returns (fired: seq<SchedulerTask>)
    requires sched.Valid() && ServersKeyed(notify) && AllHaveDefaults(notify)
    requires HoldsTasks(i.parent.observers, ObjectNode(i.parent.id), sched.tasks)
    requires HoldsTasks(i.observers, InstanceNode(i.parent.id, i.id), sched.tasks)
    modifies sched`sleeper, sched`calls, sched.tasks
    ensures sched.Valid() && sched.tasks == old(sched.tasks)
    ensures Ran(old(See(sched)), See(sched), fired, now) && Distinct(fired) && InLevelOrder(fired)
    ensures forall t :: t in fired ==>
              && HasKey(notify, t.server)
              && (|| AtNode(ObjectNode(i.parent.id), i.parent.observers, t)
                  || AtNode(InstanceNode(i.parent.id, i.id), i.observers, t))
    ensures forall k :: 0 <= k < |notify| ==>
              && Judged(i.parent.observers, notify[k].key, ObjectLimit(notify[k].value, i), old(See(sched)), now, fired)
              && Judged(i.observers, notify[k].key, InstanceLimit(notify[k].value, i), old(See(sched)), now, fired)
  {
    hide Judged, Ran, Distinct, InLevelOrder, AtNode, ObjectPmin, InstancePmin, HoldsTasks, HasKey,
      TaskScheduler.Valid, See;
    fired := NotifyInstanceObject(i, notify, sched, now);
    forall k | 0 <= k < |notify|
      ensures ObjectLimit(notify[k].value, i) == old(ObjectLimit(notify[k].value, i))
      ensures InstanceLimit(notify[k].value, i) == old(InstanceLimit(notify[k].value, i))
    {
      var server := notify[k].value;
      assert notify[k] in notify;
      LimitsStand((server, i, i.attributes));
    }
  }

  /** `t` is the task of a server that some new resource concerns, on the object's or the instance's level. */
  ghost predicate AboveTask(m: Merge, above: seq<Binding<SchedulerTask>>, own: seq<Binding<SchedulerTask>>,
                            t: SchedulerTask)
    requires Sound(m)
  {
    && (AtNode(ObjectNode(m.i.parent.id), above, t) || AtNode(InstanceNode(m.i.parent.id, m.i.id), own, t))
    && exists b :: b in m.servers && b.key == t.server && ConcernedByAny(m, |m.news|, b)
  }

  /** The write tests such a task, of a resource, the object or the instance, with `limit`. */
  ghost predicate WriteCall(m: Merge, above: seq<Binding<SchedulerTask>>, own: seq<Binding<SchedulerTask>>,
                            t: SchedulerTask, limit: Option<int>)
    requires Sound(m)
    reads *
  {
    || ResourceCall(m, |m.news|, t, limit)
    || (exists b :: b in m.servers && b.key == t.server && ConcernedByAny(m, |m.news|, b)
          && AboveCall(m.i, above, own, b.value, t, limit))
  }

  ghost predicate AboveCall(i: Instance, above: seq<Binding<SchedulerTask>>, own: seq<Binding<SchedulerTask>>,
                            server: Server, t: SchedulerTask, limit: Option<int>)
    requires server.HasDefaults()
    reads *
  {
    || (AtNode(ObjectNode(i.parent.id), above, t) && limit == ObjectLimit(server, i))
    || (AtNode(InstanceNode(i.parent.id, i.id), own, t) && limit == InstanceLimit(server, i))
  }

  lemma AboveLimits(m: Merge, above: seq<Binding<SchedulerTask>>, own: seq<Binding<SchedulerTask>>,
                    notify: seq<Binding<Server>>, middle: Seen, second: seq<SchedulerTask>)
    returns (limits: seq<Option<int>>)
    requires Sound(m) && Distinct(second) && AllHaveDefaults(notify)
    requires forall b :: b in notify ==> b in m.servers && ConcernedByAny(m, |m.news|, b)
    requires forall t :: t in second ==>
               && HasKey(notify, t.server)
               && (AtNode(ObjectNode(m.i.parent.id), above, t) || AtNode(InstanceNode(m.i.parent.id, m.i.id), own, t))
    requires forall k :: 0 <= k < |notify| ==>
               && Judged(above, notify[k].key, ObjectLimit(notify[k].value, m.i), middle, m.now, second)
               && Judged(own, notify[k].key, InstanceLimit(notify[k].value, m.i), middle, m.now, second)
    ensures Passes(middle, m.now, second, limits)
    ensures |limits| == |second|
    ensures forall j :: 0 <= j < |second| ==> WriteCall(m, above, own, second[j], limits[j])
  {
    hide Sound, ConcernedByAny, ObjectLimit, InstanceLimit, FulfillsPmin, Distinct, ResourceCall;
    var table := map t | t in second :: AboveLimit(m.i, notify, t);
    limits := seq(|second|, j requires 0 <= j < |second| => table[second[j]]);
    forall j | 0 <= j < |second|
      ensures second[j] in middle.info && FulfillsPmin(limits[j], middle.info[second[j]].last, m.now)
      ensures WriteCall(m, above, own, second[j], limits[j])
    {
      var t := second[j];
      assert t in second;
      LookupIsTop(notify, t.server);
      LookupMember(notify, t.server);
      var b := Binding(t.server, Lookup(notify, t.server).value);
      var k :| 0 <= k < |notify| && notify[k] == b;
      assert AboveCall(m.i, above, own, b.value, t, limits[j]);
    }
    DistinctPasses(middle, m.now, second, limits);
  }

  ghost function AboveLimit(i: Instance, notify: seq<Binding<Server>>, t: SchedulerTask): Option<int>
    requires AllHaveDefaults(notify)
    reads *
  {
    LookupMember(notify, t.server);
    var found := Lookup(notify, t.server);
    if found.None? then None
    else if t.node == ObjectNode(i.parent.id) then ObjectLimit(found.value, i)
    else InstanceLimit(found.value, i)
  }

  /**
   * `merge_resources`, notifying: the instance holds the merged values. For each server the
   * object's and the instance's task ran exactly once if some new resource concerns the server
   * and the task passes that level's `pmin`, and not at all otherwise; with each resource
   * given once, the same holds of every given resource and its own change. Nothing else ran, and
   * to each server the resources report before the object, and the object before the instance.
   * However often the payload gives a resource, each call passed the `pmin` of its level, at the
   * time and with the values of its test.
   */
  method MergeResources(i: Instance, news: seq<Binding<Option<Value>>>, servers: seq<Binding<Server>>,
                        dbl: seq<byte> -> real, sched: TaskScheduler, now: int, ghost m: Merge)
    returns (fired: seq<SchedulerTask>, ghost limits: seq<Option<int>>)
    requires m.i == i && m.news == news && m.servers == servers && m.dbl == dbl && m.now == now
    requires sched.Valid() && i.Observed(sched.tasks) && Sound(m) && Describes(m, sched)
    requires forall k, b :: 0 <= k < |news| && b in servers ==> RoundComparable(m, k, b)
    modifies (set b | b in i.resources :: b.value)`value, sched`sleeper, sched`calls, sched.tasks
    ensures sched.Valid() && sched.tasks == old(sched.tasks)
    ensures i.Values() == ValuesAt(m, |news|)
    ensures Ran(m.before, See(sched), fired, now) && InLevelOrder(fired)
    ensures forall b :: b in servers ==>
              var told := ConcernedByAny(m, |news|, b);
              && ReportedOnce(i.parent.observers, b.key, told, ObjectLimit(b.value, i), m.before, now, fired)
              && ReportedOnce(i.observers, b.key, told, InstanceLimit(b.value, i), m.before, now, fired)
    ensures DistinctKeys(news) ==> RoundsOnce(m, |news|, fired)
    ensures forall t :: t in fired ==>
              ResourceTask(m, |news|, t) || AboveTask(m, i.parent.observers, i.observers, t)
    ensures Passes(m.before, now, fired, limits)
    ensures forall j :: 0 <= j < |fired| ==> WriteCall(m, i.parent.observers, i.observers, fired[j], limits[j])
  {
    hide Judged, Ran, Distinct, InLevelOrder, ObjectPmin, InstancePmin, HoldsTasks, HasKey, ReportedOnce,
      ConcernedByAny, ValuesAt, Instance.Values, ObjectLimit, InstanceLimit, AtNode, ResourceTask, AboveTask,
      RoundsOnce, DistinctKeys, Describes, RoundComparable, See, Passes, WriteCall, ResourceCalls;
    ghost var above, own := i.parent.observers, i.observers;
    ghost var earlier;
    var notify, first;
    notify, first, earlier := MergeAll(i, news, servers, dbl, sched, now, m);
    ghost var middle := See(sched);
    SeeTasks(sched);
    var second := ReportAbove(i, notify, sched, now);
    RanAgain(m.before, middle, See(sched), first, second, now);
    fired := first + second;
    RanKeys(m.before, middle, first, now);
    LevelsDone(m, above, own, notify, first, second);
    OrderLevels(first, second);
    limits := WritePasses(m, above, own, notify, middle, first, second, earlier);
    forall b | b in servers
      ensures ReportedOnce(above, b.key, b in notify, ObjectLimit(b.value, i), m.before, now, fired)
      ensures ReportedOnce(own, b.key, b in notify, InstanceLimit(b.value, i), m.before, now, fired)
    {
      if b in notify {
        var k :| 0 <= k < |notify| && notify[k] == b;
      }
      OnceAtLevel(above, ObjectNode(i.parent.id), sched.tasks, servers, notify, b, ObjectLimit(b.value, i),
                  m.before, middle, now, first, second);
      OnceAtLevel(own, InstanceNode(i.parent.id, i.id), sched.tasks, servers, notify, b, InstanceLimit(b.value, i),
                  m.before, middle, now, first, second);
    }
  }

  /** The calls of the rounds and then those above, and what each was tested with. */
  lemma WritePasses(m: Merge, above: seq<Binding<SchedulerTask>>, own: seq<Binding<SchedulerTask>>,
                    notify: seq<Binding<Server>>, middle: Seen, first: seq<SchedulerTask>, second: seq<SchedulerTask>,
                    earlier: seq<Option<int>>)
    returns (limits: seq<Option<int>>)
    requires Sound(m) && Distinct(second) && AllHaveDefaults(notify) && Ran(m.before, middle, first, m.now)
    requires forall b :: b in notify ==> b in m.servers && ConcernedByAny(m, |m.news|, b)
    requires forall t :: t in second ==>
               && HasKey(notify, t.server)
               && (AtNode(ObjectNode(m.i.parent.id), above, t) || AtNode(InstanceNode(m.i.parent.id, m.i.id), own, t))
    requires forall k :: 0 <= k < |notify| ==>
               && Judged(above, notify[k].key, ObjectLimit(notify[k].value, m.i), middle, m.now, second)
               && Judged(own, notify[k].key, InstanceLimit(notify[k].value, m.i), middle, m.now, second)
    requires Passes(m.before, m.now, first, earlier) && ResourceCalls(m, |m.news|, first, earlier)
    ensures Passes(m.before, m.now, first + second, limits)
    ensures |limits| == |first + second|
    ensures forall j :: 0 <= j < |first + second| ==> WriteCall(m, above, own, (first + second)[j], limits[j])
  {
    hide Sound, ConcernedByAny, ObjectLimit, InstanceLimit, Judged, AtNode, HasKey, Distinct, Ran, AllHaveDefaults,
      ResourceCall, AboveCall, Passes;
    var others := AboveLimits(m, above, own, notify, middle, second);
    PassesAgain(m.before, middle, m.now, first, second, earlier, others);
    limits := earlier + others;
  }

  lemma OrderLevels(first: seq<SchedulerTask>, second: seq<SchedulerTask>)
    requires forall t :: t in first ==> t.node.ResourceNode?
    requires InLevelOrder(second)
    ensures InLevelOrder(first + second)
  {
    assert forall k :: 0 <= k < |first| ==> first[k] in first;
    OrderNext(first, second);
  }

  lemma RanKeys(before: Seen, after: Seen, fired: seq<SchedulerTask>, now: int)
    requires Ran(before, after, fired, now)
    ensures before.info.Keys == after.info.Keys
  {
  }

  /** The two parts of what ran, and that they do not touch. */
  lemma LevelsDone(m: Merge, above: seq<Binding<SchedulerTask>>, own: seq<Binding<SchedulerTask>>,
                   notify: seq<Binding<Server>>, first: seq<SchedulerTask>, second: seq<SchedulerTask>)
    requires Sound(m) && forall b :: b in notify ==> b in m.servers
    requires forall b :: b in m.servers ==> (b in notify <==> ConcernedByAny(m, |m.news|, b))
    requires forall t :: t in first ==> ResourceTask(m, |m.news|, t)
    requires forall t :: t in second ==>
               && HasKey(notify, t.server)
               && (AtNode(ObjectNode(m.i.parent.id), above, t) || AtNode(InstanceNode(m.i.parent.id, m.i.id), own, t))
    ensures forall t :: t in first ==> t.node.ResourceNode?
    ensures forall t :: t in second ==> !t.node.ResourceNode?
    ensures forall t :: t in second ==> AboveTask(m, above, own, t)
    ensures DistinctKeys(m.news) && RoundsOnce(m, |m.news|, first) ==> RoundsOnce(m, |m.news|, first + second)
  {
    hide Sound, RoundConcerns, ConcernedByAny, RoundOnce;
    forall t | t in first ensures t.node.ResourceNode? {
      var k :| 0 <= k < |m.news| && RoundTask(m, k, t);
    }
    forall t | t in second ensures AboveTask(m, above, own, t) {
      var k :| 0 <= k < |notify| && notify[k].key == t.server;
      assert notify[k] in notify;
    }
    if RoundsOnce(m, |m.news|, first) {
      forall k, b | 0 <= k < |m.news| && b in m.servers ensures RoundOnce(m, k, b, first + second) {
        RoundStands(m, k, b, first, second);
      }
    }
  }
}
