/**
 * The periodic task scheduler: tasks in a list keyed by task id, one thread that sleeps until
 * one second after the earliest deadline, and operations that change tasks under the mutex
 * and signal the thread.
 *
 * `Sched<T>` is the state an operation sees while it holds the mutex; `T` stands for task
 * pointers. The class works on task objects in place, and each of its methods is proved to
 * compute one function on `Sched`.
 */
module Scheduler {
  import opened Wrappers
  import opened Lists

  /** What a task reports on, as its `arg2` says. */
  datatype Node =
    | ObjectNode(objectId: int)
    | InstanceNode(objectId: int, instanceId: int)
    | ResourceNode(objectId: int, instanceId: int, resourceId: int)

  /** `reports` tells notification tasks from registration updates, which leave `last` alone. */
  datatype TaskInfo = TaskInfo(
    id: int, period: int, waking: int, last: int, reports: bool, server: int, node: Node)

  /**
   * Where the thread is: about to take the mutex and sleep, asleep with the mutex released,
   * woken and about to process, or gone.
   */
  datatype Sleeper =
    | Ready
    | Blocked(deadline: Option<int>, signalled: bool)
    | Woken
    | Exited

  datatype Sched<T> = Sched(
    now: int, stop: bool, sleeper: Sleeper, list: seq<Binding<T>>, info: map<T, TaskInfo>)

  // ---------------------------------------------------------------- operations on the state

  /** Every list entry is a known task, listed under its id, and no task is listed twice; ids may repeat. */
  ghost predicate WellFormed<T>(s: Sched<T>) {
    && (forall i :: 0 <= i < |s.list| ==> s.list[i].value in s.info && s.list[i].key == s.info[s.list[i].value].id)
    && DistinctTasks(s.list)
  }

  ghost predicate DistinctTasks<T>(list: seq<Binding<T>>) {
    forall i, j :: 0 <= i < j < |list| ==> list[i].value != list[j].value
  }

  ghost predicate Listed<T>(list: seq<Binding<T>>, t: T) {
    exists i :: 0 <= i < |list| && list[i].value == t
  }

  /** `pthread_cond_signal`: reaches the thread only while it sleeps. */
  ghost function Signal<T>(s: Sched<T>): Sched<T> {
    if s.sleeper.Blocked? then s.(sleeper := s.sleeper.(signalled := true)) else s
  }

  ghost function Schedule<T>(s: Sched<T>, t: T): Sched<T>
    requires t in s.info
  {
    var i := s.info[t];
    Signal(s.(list := [Binding(i.id, t)] + s.list, info := s.info[t := i.(waking := s.now + i.period)]))
  }

  ghost function Cancel<T>(s: Sched<T>, t: T): Sched<T>
    requires t in s.info
  {
    Signal(s.(list := Unbind(s.list, s.info[t].id)))
  }

  function Executed(i: TaskInfo, now: int): TaskInfo {
    i.(waking := now + i.period, last := now)
  }

  ghost function Execute<T>(s: Sched<T>, t: T): Sched<T>
    requires t in s.info
  {
    Signal(s.(info := s.info[t := Executed(s.info[t], s.now)]))
  }

  function Fired(i: TaskInfo, now: int): TaskInfo {
    i.(waking := now + i.period, last := if i.reports then now else i.last)
  }

  ghost predicate IsDue<T>(s: Sched<T>, t: T)
    requires t in s.info
  {
    s.info[t].waking <= s.now
  }

  /** The due tasks of a list, in list order. */
  ghost function DueTasks<T>(s: Sched<T>, list: seq<Binding<T>>): (due: seq<T>)
    requires forall i :: 0 <= i < |list| ==> list[i].value in s.info
    ensures forall i :: 0 <= i < |due| ==> due[i] in s.info
  {
    if list == [] then []
    else
      (if IsDue(s, list[0].value) then [list[0].value] else []) + DueTasks(s, list[1..])
  }

  /** One pass over the list. */
  ghost function Process<T>(s: Sched<T>): Sched<T> {
    s.(info := map t | t in s.info ::
      if Listed(s.list, t) && IsDue(s, t) then Fired(s.info[t], s.now) else s.info[t])
  }

  ghost predicate IsEarliest<T>(s: Sched<T>, time: int)
    requires WellFormed(s)
  {
    && (exists i :: 0 <= i < |s.list| && s.info[s.list[i].value].waking == time)
    && (forall i :: 0 <= i < |s.list| ==> time <= s.info[s.list[i].value].waking)
  }

  /** The deadline of a wait: none with nothing to do, else one second after the earliest task. */
  ghost predicate IsDeadline<T>(s: Sched<T>, deadline: Option<int>)
    requires WellFormed(s)
  {
    match deadline
    case None => s.list == []
    case Some(d) => IsEarliest(s, d - 1)
  }

  /**
   * What each operation does to the thread and to the task it is about: a sleeping thread is
   * signalled and keeps its deadline, any other is left alone; a task's next deadline is one period
   * from now, and no other task's moves.
   */
  lemma OperationsWake<T>(s: Sched<T>, t: T)
    requires t in s.info
    ensures forall r :: r in [Schedule(s, t), Cancel(s, t), Execute(s, t)] ==>
      && (s.sleeper.Blocked? ==> r.sleeper == Blocked(s.sleeper.deadline, true))
      && (!s.sleeper.Blocked? ==> r.sleeper == s.sleeper)
      && r.now == s.now && r.stop == s.stop && r.info.Keys == s.info.Keys
      && (forall x :: x in s.info && x != t ==> r.info[x] == s.info[x])
    ensures Schedule(s, t).info[t].waking == s.now + s.info[t].period
    ensures Schedule(s, t).info[t].last == s.info[t].last
    ensures Execute(s, t).info[t].waking == s.now + s.info[t].period && Execute(s, t).info[t].last == s.now
    ensures Cancel(s, t).info == s.info && Execute(s, t).list == s.list
    ensures Lookup(Schedule(s, t).list, s.info[t].id) == Some(t) && Unbind(Schedule(s, t).list, s.info[t].id) == s.list
  {
    UnbindUndoesAdd(s.list, s.info[t].id, t);
    assert forall r: Sched<T> :: r in [Schedule(s, t), Cancel(s, t), Execute(s, t)] ==>
      r == Schedule(s, t) || r == Cancel(s, t) || r == Execute(s, t);
  }

  /** A pass sets a due task one period on and notes the time of a notification, not of an update. */
  lemma PassSets<T>(s: Sched<T>, i: nat)
    requires WellFormed(s) && i < |s.list|
    ensures var t := s.list[i].value;
      var before, after := s.info[t], Process(s).info[t];
      && (before.waking > s.now ==> after == before)
      && (before.waking <= s.now ==>
            && after.waking == s.now + before.period
            && after.last == if before.reports then s.now else before.last)
      && after.period == before.period && after.id == before.id && after.reports == before.reports
      && after.server == before.server && after.node == before.node
  {
    assert Listed(s.list, s.list[i].value);
  }

  // ---------------------------------------------------------------- one pass is exact

  lemma {:induction false} DueTasksMembers<T>(s: Sched<T>, list: seq<Binding<T>>)
    requires forall i :: 0 <= i < |list| ==> list[i].value in s.info
    ensures forall t :: t in DueTasks(s, list) <==> Listed(list, t) && IsDue(s, t)
  {
    if list != [] {
      DueTasksMembers(s, list[1..]);
      forall t ensures Listed(list, t) <==> t == list[0].value || Listed(list[1..], t) {
        if Listed(list[1..], t) {
          var i :| 0 <= i < |list[1..]| && list[1..][i].value == t;
          assert list[i + 1].value == t;
        }
      }
    }
  }

  /** Unbinding a key drops the one task its lookup finds. */
  lemma UnbindDropsTask<T>(bs: seq<Binding<T>>, key: int)
    requires DistinctTasks(bs) && Lookup(bs, key).Some?
    ensures var t := Lookup(bs, key).value;
      && DistinctTasks(Unbind(bs, key))
      && (forall x :: Listed(Unbind(bs, key), x) <==> Listed(bs, x) && x != t)
      && (forall k :: 0 <= k < |Unbind(bs, key)| ==> Unbind(bs, key)[k] in bs)
  {
    var i := LookupAt(bs, key);
    UnbindAt(bs, i);
    var u := Unbind(bs, key);
    assert forall k :: 0 <= k < |u| ==> u[k] == bs[if k < i then k else k + 1];
    forall x | Listed(bs, x) && x != bs[i].value ensures Listed(u, x) {
      var k :| 0 <= k < |bs| && bs[k].value == x;
      assert u[if k < i then k else k - 1] == bs[k];
    }
  }

  /** Unbinding an id keeps every entry but the newest of that id. */
  lemma UnbindKeepsTasks<T>(bs: seq<Binding<T>>, key: int)
    requires DistinctTasks(bs)
    ensures var u := Unbind(bs, key);
      && DistinctTasks(u)
      && (forall x :: Listed(u, x) <==> Listed(bs, x) && Lookup(bs, key) != Some(x))
      && (forall k :: 0 <= k < |u| ==> u[k] in bs)
  {
    if Lookup(bs, key).Some? {
      UnbindDropsTask(bs, key);
    } else {
      LookupIsTop(bs, key);
      UnbindAbsent(bs, key);
    }
  }

  /** Run order: `due` is what is left of the list when the tasks that are not due go. */
  ghost predicate InListOrder<T>(due: seq<T>, list: seq<Binding<T>>) {
    if due == [] then true
    else if list == [] then false
    else if list[0].value == due[0] then InListOrder(due[1..], list[1..])
    else InListOrder(due, list[1..])
  }

  lemma {:induction false} DueTasksOrdered<T>(s: Sched<T>, list: seq<Binding<T>>)
    requires forall i :: 0 <= i < |list| ==> list[i].value in s.info
    requires DistinctTasks(list)
    ensures InListOrder(DueTasks(s, list), list)
  {
    if list != [] {
      var t, rest := list[0].value, list[1..];
      var due := DueTasks(s, rest);
      DueTasksOrdered(s, rest);
      if IsDue(s, t) {
        assert ([t] + due)[1..] == due;
      } else {
        DueTasksMembers(s, rest);
        assert [] + due == due;
        assert t !in due;
      }
    }
  }

  lemma {:induction false} DueTasksDistinct<T>(s: Sched<T>, list: seq<Binding<T>>)
    requires forall i :: 0 <= i < |list| ==> list[i].value in s.info
    requires DistinctTasks(list)
    ensures forall i, j :: 0 <= i < j < |DueTasks(s, list)| ==> DueTasks(s, list)[i] != DueTasks(s, list)[j]
  {
    if list != [] {
      DueTasksDistinct(s, list[1..]);
      DueTasksMembers(s, list[1..]);
      assert !Listed(list[1..], list[0].value);
    }
  }

  /**
   * A pass runs every due task exactly once and no other, in list order. It leaves nothing due
   * behind if and only if no due task has a period of 0 or less.
   */
  lemma ProcessIsExact<T>(s: Sched<T>)
    requires WellFormed(s)
    ensures var due := DueTasks(s, s.list);
      && (forall t :: t in due <==> Listed(s.list, t) && IsDue(s, t))
      && (forall i, j :: 0 <= i < j < |due| ==> due[i] != due[j])
      && InListOrder(due, s.list)
    ensures (forall i :: 0 <= i < |s.list| ==> Process(s).info[s.list[i].value].waking > s.now) <==>
            (forall t :: t in DueTasks(s, s.list) ==> s.info[t].period >= 1)
    ensures forall t :: t in s.info && t !in DueTasks(s, s.list) ==> Process(s).info[t] == s.info[t]
  {
    DueTasksMembers(s, s.list);
    DueTasksOrdered(s, s.list);
    DueTasksDistinct(s, s.list);
    var due, info := DueTasks(s, s.list), Process(s).info;
    forall i | 0 <= i < |s.list| ensures info[s.list[i].value].waking <= s.now <==>
                                         s.list[i].value in due && s.info[s.list[i].value].period <= 0 {
      assert Listed(s.list, s.list[i].value);
    }
    forall t | t in due ensures exists i :: 0 <= i < |s.list| && s.list[i].value == t {
    }
  }

  lemma DueTasksNext<T>(s: Sched<T>, list: seq<Binding<T>>, i: nat, done: seq<T>)
    requires i < |list| && forall k :: 0 <= k < |list| ==> list[k].value in s.info
    ensures (done + if IsDue(s, list[i].value) then [list[i].value] else []) + DueTasks(s, list[i + 1..]) ==
            done + DueTasks(s, list[i..])
  {
    assert list[i..][1..] == list[i + 1..];
  }

  lemma ListedNext<T>(list: seq<Binding<T>>, i: nat)
    requires i < |list| && DistinctTasks(list)
    ensures forall t :: Listed(list[..i + 1], t) <==> t == list[i].value || Listed(list[..i], t)
    ensures !Listed(list[..i], list[i].value)
  {
    forall t | Listed(list[..i + 1], t) && t != list[i].value ensures Listed(list[..i], t) {
      var k :| 0 <= k < |list[..i + 1]| && list[..i + 1][k].value == t;
      assert list[..i][k].value == t;
    }
    forall t | Listed(list[..i], t) ensures Listed(list[..i + 1], t) {
      var k :| 0 <= k < |list[..i]| && list[..i][k].value == t;
      assert list[..i + 1][k].value == t;
    }
    assert Listed(list[..i + 1], list[i].value) by {
      assert list[..i + 1][i].value == list[i].value;
    }
  }

  lemma NoneListed<T>(list: seq<Binding<T>>)
    ensures forall t :: !Listed(list[..0], t)
  {
  }

  lemma NoneDueAtEnd<T>(s: Sched<T>, list: seq<Binding<T>>, done: seq<T>)
    requires forall k :: 0 <= k < |list| ==> list[k].value in s.info
    ensures done + DueTasks(s, list[|list|..]) == done
  {
  }

  lemma ProcessInfo<T>(s: Sched<T>)
    ensures Process(s) == s.(info := Process(s).info) && Process(s).info.Keys == s.info.Keys
    ensures forall t :: t in s.info ==>
      Process(s).info[t] == if Listed(s.list, t) && IsDue(s, t) then Fired(s.info[t], s.now) else s.info[t]
  {
  }

  // ---------------------------------------------------------------- the scheduler itself

  class SchedulerTask {
    const id: int
    const period: int
    const reports: bool
    const server: int
    const node: Node
    var wakingTime: int
    var lastWakingTime: int

    constructor (id: int, period: int, reports: bool, server: int, node: Node)
      ensures this.id == id && this.period == period && this.reports == reports
      ensures this.server == server && this.node == node && lastWakingTime == 0
    {
      this.id := id;
      this.period := period;
      this.reports := reports;
      this.server := server;
      this.node := node;
      this.lastWakingTime := 0;
      this.wakingTime := 0;
    }

    function Info(): TaskInfo
      reads this
    {
      TaskInfo(id, period, wakingTime, lastWakingTime, reports, server, node)
    }

  }

  class TaskScheduler {
    var l: seq<Binding<SchedulerTask>>
    var stop: bool
    var sleeper: Sleeper
    /** Every task ever handed to the scheduler. */
    ghost var tasks: set<SchedulerTask>
    /** Every call of a task's function so far, in order. */
    ghost var calls: seq<SchedulerTask>

    ghost predicate Valid()
      reads this, tasks
    {
      && (forall i :: 0 <= i < |l| ==> l[i].value in tasks && l[i].key == l[i].value.id)
      && DistinctTasks(l)
    }

    ghost function State(now: int): Sched<SchedulerTask>
      reads this, tasks
    {
      Sched(now, stop, sleeper, l, map t | t in tasks :: t.Info())
    }

    constructor ()
      ensures Valid() && l == [] && !stop && sleeper == Ready && tasks == {} && calls == []
    {
      l := [];
      stop := false;
      sleeper := Ready;
      tasks := {};
      calls := [];
    }

    /** The one place that calls a task's function; a notification notes its time. */
    method Call(task: SchedulerTask, now: int)
      modifies task, `calls
      ensures calls == old(calls) + [task]
      ensures task.Info() == old(task.Info()).(last := if task.reports then now else old(task.lastWakingTime))
    {
      if task.reports {
        task.lastWakingTime := now;
      }
      calls := calls + [task];
    }

    method SignalThread(ghost now: int)
      modifies `sleeper
      ensures State(now) == Signal(old(State(now)))
    {
      if sleeper.Blocked? {
        sleeper := sleeper.(signalled := true);
      }
    }

    /** The body of `execute`. */
    method RunNow(task: SchedulerTask, now: int)
      modifies task, `calls
      ensures calls == old(calls) + [task] && task.Info() == Executed(old(task.Info()), now)
    {
      Call(task, now);
      task.wakingTime := now + task.period;
      task.lastWakingTime := now;
    }

    method ScheduleTask(task: SchedulerTask, now: int)
      requires Valid() && !Listed(l, task)
      modifies this, task
      ensures Valid() && tasks == old(tasks) + {task} && calls == old(calls)
      ensures var before := old(State(now));
        State(now) == Schedule(before.(info := before.info[task := old(task.Info())]), task)
    {
      task.wakingTime := now + task.period;
      l := [Binding(task.id, task)] + l;
      tasks := tasks + {task};
      SignalThread(now);
    }

    method CancelTask(task: SchedulerTask, now: int)
      requires Valid() && task in tasks
      modifies this
      ensures Valid() && tasks == old(tasks) && calls == old(calls)
      ensures State(now) == Cancel(old(State(now)), task)
    {
      UnbindKeepsTasks(l, task.id);
      l := Unbind(l, task.id);
      SignalThread(now);
    }

    method ExecuteTask(task: SchedulerTask, now: int)
      requires Valid() && task in tasks
      modifies `sleeper, `calls, task
      ensures Valid() && tasks == old(tasks) && calls == old(calls) + [task]
      ensures State(now) == Execute(old(State(now)), task)
    {
      RunNow(task, now);
      SignalThread(now);
    }

    method StopScheduler(ghost now: int)
      requires Valid()
      modifies `stop, `sleeper
      ensures Valid() && State(now) == Signal(old(State(now)).(stop := true))
    {
      stop := true;
      SignalThread(now);
    }

    method FindEarliestWakingTime(now: int) returns (earliest: int)
      requires Valid() && l != []
      ensures IsEarliest(State(now), earliest)
    {
      ghost var s := State(now);
      earliest := l[0].value.wakingTime;
      ghost var at := 0;
      for i := 0 to |l|
        invariant 0 <= at < |l| && l[at].value.wakingTime == earliest
        invariant forall k :: 0 <= k < i ==> earliest <= l[k].value.wakingTime
      {
        if earliest > l[i].value.wakingTime {
          earliest := l[i].value.wakingTime;
          at := i;
        }
      }
      assert s.info[s.list[at].value].waking == earliest;
    }

    /** The thread takes the mutex and goes to sleep. */
    method Await(now: int)
      requires Valid() && sleeper == Ready
      modifies `sleeper
      ensures Valid() && tasks == old(tasks)
      ensures sleeper.Blocked? && !sleeper.signalled && IsDeadline(old(State(now)), sleeper.deadline)
      ensures State(now) == old(State(now)).(sleeper := sleeper)
    {
      if |l| == 0 {
        sleeper := Blocked(None, false);
      } else {
        var earliest := FindEarliestWakingTime(now);
        sleeper := Blocked(Some(earliest + 1), false);
      }
    }

    /** The body of the loop over the tasks. */
    method RunIfDue(task: SchedulerTask, now: int)
      modifies task, `calls
      ensures calls == old(calls) + if old(task.wakingTime) <= now then [task] else []
      ensures task.Info() ==
              if old(task.wakingTime) <= now then Fired(old(task.Info()), now) else old(task.Info())
    {
      if task.wakingTime <= now {
        Call(task, now);
        task.wakingTime := now + task.period;
      }
    }

    /** Calls each due task once, in list order, and no other. */
    method ProcessTasks(now: int)
      requires Valid()
      modifies tasks, `calls
      ensures Valid() && tasks == old(tasks)
      ensures WellFormed(old(State(now)))
      ensures calls == old(calls) + DueTasks(old(State(now)), l)
      ensures State(now) == Process(old(State(now)))
    {
      hide Listed, Fired, DueTasks, Process;
      ghost var s := State(now);
      ghost var due := DueTasks(s, l);
      ghost var done := [];
      assert done + DueTasks(s, l[0..]) == due && calls == old(calls) + done by {
        assert l[0..] == l;
      }
      NoneListed(l);
      for i := 0 to |l|
        invariant calls == old(calls) + done && done + DueTasks(s, l[i..]) == due
        invariant forall t :: t in tasks ==>
          t.Info() == (if Listed(l[..i], t) && IsDue(s, t) then Fired(s.info[t], now) else s.info[t])
      {
        var task := l[i].value;
        DueTasksNext(s, l, i, done);
        ListedNext(l, i);
        RunIfDue(task, now);
        done := done + if IsDue(s, task) then [task] else [];
      }
      NoneDueAtEnd(s, l, done);
      ProcessInfo(s);
      assert l[..|l|] == l;
    }

    /** The thread has the mutex again after its wait. */
    method Resume(now: int)
      requires Valid() && sleeper == Woken
      modifies `sleeper, `calls, tasks
      ensures Valid() && tasks == old(tasks)
      ensures stop ==> calls == old(calls) && State(now) == old(State(now)).(sleeper := Exited)
      ensures !stop ==> calls == old(calls) + DueTasks(old(State(now)), l)
      ensures !stop ==> State(now) == Process(old(State(now))).(sleeper := Ready)
    {
      if stop {
        sleeper := Exited;
        return;
      }
      ProcessTasks(now);
      sleeper := Ready;
    }
  }
}
