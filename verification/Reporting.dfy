/**
 * Observation and notification over whole runs: every interleaving of observe and cancel
 * requests, value changes, registration updates, the passing of time and the steps of the
 * scheduler thread, each atomic under the scheduler's mutex.
 *
 * Time is counted in seconds and passes only while the thread sleeps with no signal pending
 * and its deadline not reached; the work of a step takes no time.
 */
module Reporting {
  import opened Wrappers
  import opened Lists
  import opened Scheduler

  /** Why a task was called: its deadline had come, or a value changed and the `pmin` test was passed. */
  datatype Cause = Periodic(due: int) | ValueChange(pmin: Option<int>)

  /** One call of a task's function. */
  datatype Firing<T> = Firing(task: T, at: int, cause: Cause)

  /**
   * The scheduler, the observer lists of all nodes (server id to task), when each task was
   * scheduled, and every firing so far.
   */
  datatype State<T> = State(
    sched: Sched<T>,
    observers: map<Node, seq<Binding<T>>>,
    start: map<T, int>,
    log: seq<Firing<T>>)

  datatype Step<T> =
    | Tick
    | Await(deadline: Option<int>)
    | Wake
    | Resume
    | Observe(node: Node, server: int, task: T, id: int, period: int)
    | CancelObserve(node: Node, server: int)
    | Change(node: Node, server: int, pmin: Option<int>)
    | StartUpdate(task: T, id: int, period: int, server: int)
    | StopUpdate(task: T)
    | Stop

  ghost function Observers<T>(s: State<T>, node: Node): seq<Binding<T>> {
    if node in s.observers then s.observers[node] else []
  }

  /** The test a value change must pass; a task that never fired passes any. */
  predicate FulfillsPmin(limit: Option<int>, last: int, now: int) {
    match limit
    case None => true
    case Some(pmin) => last == 0 || pmin < now - last
  }

  // ---------------------------------------------------------------- steps

  /** The task object is new; its id may be one that is in use. */
  ghost predicate NewTask<T>(s: State<T>, task: T) {
    task !in s.sched.info
  }

  /**
   * Whether a step can be taken. Once the thread is gone it holds the mutex for good; a cancel
   * needs a list that is not empty, or the list's guard stays held.
   */
  ghost predicate Enabled<T>(s: State<T>, step: Step<T>) {
    && WellFormed(s.sched)
    && match step
       case Tick =>
         || s.sched.sleeper.Exited?
         || (&& s.sched.sleeper.Blocked? && !s.sched.sleeper.signalled
             && (s.sched.sleeper.deadline.Some? ==> s.sched.now < s.sched.sleeper.deadline.value))
       case Await(deadline) => s.sched.sleeper.Ready? && IsDeadline(s.sched, deadline)
       case Wake => s.sched.sleeper.Blocked?
       case Resume => s.sched.sleeper.Woken?
       case Stop => !s.sched.sleeper.Exited?
       case Observe(_, _, task, _, _) =>
         !s.sched.sleeper.Exited? && NewTask(s, task)
       case StartUpdate(task, _, _, _) =>
         !s.sched.sleeper.Exited? && NewTask(s, task)
       case CancelObserve(node, server) =>
         && !s.sched.sleeper.Exited? && s.sched.list != []
         && var t := Lookup(Observers(s, node), server); t.Some? && t.value in s.sched.info
       case Change(node, server, pmin) =>
         && !s.sched.sleeper.Exited?
         && var t := Lookup(Observers(s, node), server);
           && t.Some? && t.value in s.sched.info
           && FulfillsPmin(pmin, s.sched.info[t.value].last, s.sched.now)
       case StopUpdate(task) =>
         !s.sched.sleeper.Exited? && s.sched.list != [] && task in s.sched.info && !s.sched.info[task].reports
  }

  /** The scheduler after a new task object has been filled in and scheduled. */
  ghost function Started<T>(s: Sched<T>, task: T, filled: TaskInfo): Sched<T> {
    Schedule(s.(info := s.info[task := filled]), task)
  }

  ghost function PeriodicLog<T>(s: Sched<T>, due: seq<T>): seq<Firing<T>>
    requires forall i :: 0 <= i < |due| ==> due[i] in s.info
  {
    seq(|due|, i requires 0 <= i < |due| => Firing(due[i], s.now, Periodic(s.info[due[i]].waking)))
  }

  ghost function Next<T>(s: State<T>, step: Step<T>): State<T>
    requires Enabled(s, step)
  {
    match step
    case Tick => s.(sched := s.sched.(now := s.sched.now + 1))
    case Await(deadline) => s.(sched := s.sched.(sleeper := Blocked(deadline, false)))
    case Wake => s.(sched := s.sched.(sleeper := Woken))
    case Resume =>
      if s.sched.stop then s.(sched := s.sched.(sleeper := Exited))
      else
        s.(sched := Process(s.sched).(sleeper := Ready),
           log := s.log + PeriodicLog(s.sched, DueTasks(s.sched, s.sched.list)))
    case Observe(node, server, task, id, period) =>
      s.(sched := Started(s.sched, task, TaskInfo(id, period, 0, 0, true, server, node)),
         observers := s.observers[node := [Binding(server, task)] + Observers(s, node)],
         start := s.start[task := s.sched.now])
    case CancelObserve(node, server) =>
      s.(sched := Cancel(s.sched, Lookup(Observers(s, node), server).value),
         observers := s.observers[node := Unbind(Observers(s, node), server)])
    case Change(node, server, pmin) =>
      var task := Lookup(Observers(s, node), server).value;
      s.(sched := Execute(s.sched, task), log := s.log + [Firing(task, s.sched.now, ValueChange(pmin))])
    case StartUpdate(task, id, period, server) =>
      s.(sched := Started(s.sched, task, TaskInfo(id, period, 0, 0, false, server, ObjectNode(1))),
         start := s.start[task := s.sched.now])
    case StopUpdate(task) => s.(sched := Cancel(s.sched, task))
    case Stop => s.(sched := Signal(s.sched.(stop := true)))
  }

  ghost predicate Initial<T>(s: State<T>) {
    && s.sched.now >= 1 && !s.sched.stop && s.sched.sleeper.Ready?
    && s.sched.list == [] && s.sched.info == map[]
    && s.observers == map[] && s.start == map[] && s.log == []
  }

  /** `steps` can be taken one after another from `s`. */
  ghost predicate Runs<T>(s: State<T>, steps: seq<Step<T>>)
    decreases |steps|
  {
    steps == [] || (Enabled(s, steps[0]) && Runs(Next(s, steps[0]), steps[1..]))
  }

  ghost function After<T>(s: State<T>, steps: seq<Step<T>>): State<T>
    requires Runs(s, steps)
    decreases |steps|
  {
    if steps == [] then s else After(Next(s, steps[0]), steps[1..])
  }

  /** A run begins with its first step. */
  lemma FirstStep<T>(s: State<T>, step: Step<T>, rest: seq<Step<T>>)
    requires Enabled(s, step) && Runs(Next(s, step), rest)
    ensures Runs(s, [step] + rest) && After(s, [step] + rest) == After(Next(s, step), rest)
  {
    assert ([step] + rest)[1..] == rest;
  }

  /** One run after another is a run. */
  lemma {:induction false} RunOn<T>(s: State<T>, steps: seq<Step<T>>, more: seq<Step<T>>)
    requires Runs(s, steps) && Runs(After(s, steps), more)
    ensures Runs(s, steps + more) && After(s, steps + more) == After(After(s, steps), more)
    decreases |steps|
  {
    hide Enabled, Next;
    if steps == [] {
      assert steps + more == more;
    } else {
      RunOn(Next(s, steps[0]), steps[1..], more);
      assert steps + more == [steps[0]] + (steps[1..] + more);
      FirstStep(s, steps[0], steps[1..] + more);
    }
  }

  // ---------------------------------------------------------------- the scheduler's invariants

  /** The deadline the thread sleeps with reaches every task in time. */
  ghost predicate Covers<T>(s: Sched<T>, deadline: Option<int>)
    requires WellFormed(s)
  {
    match deadline
    case None => s.list == []
    case Some(d) => forall i :: 0 <= i < |s.list| ==> d <= s.info[s.list[i].value].waking + 1
  }

  ghost predicate NoLostWakeUp<T>(s: Sched<T>)
    requires WellFormed(s)
  {
    s.sleeper.Blocked? && !s.sleeper.signalled ==> Covers(s, s.sleeper.deadline)
  }

  /** No task waits longer than a second past its deadline, unless its period sets it further back at once. */
  ghost predicate NoneOverdue<T>(s: Sched<T>)
    requires WellFormed(s)
  {
    !s.sleeper.Exited? ==>
      forall i :: 0 <= i < |s.list| && s.info[s.list[i].value].period >= -1 ==>
        s.now <= s.info[s.list[i].value].waking + 1
  }

  /** No deadline is further off than its task's period. */
  ghost predicate WithinPeriod<T>(s: Sched<T>) {
    forall t :: t in s.info ==> s.info[t].waking <= s.now + s.info[t].period
  }

  ghost predicate Timely<T>(s: Sched<T>) {
    WellFormed(s) && NoLostWakeUp(s) && NoneOverdue(s) && WithinPeriod(s)
  }

  ghost predicate SchedInv<T>(s: State<T>) {
    && Timely(s.sched)
    && s.sched.now >= 1
    && (forall t :: t in s.sched.info ==> t in s.start)
  }

  lemma StartedWellFormed<T>(s: Sched<T>, task: T, filled: TaskInfo)
    requires WellFormed(s) && task !in s.info
    ensures var r := Started(s, task, filled);
      && WellFormed(r)
      && r.list == [Binding(filled.id, task)] + s.list
      && r.info == s.info[task := filled.(waking := s.now + filled.period)]
      && r.now == s.now && r.stop == s.stop
      && (r.sleeper == s.sleeper || (r.sleeper.Blocked? && r.sleeper.signalled))
      && (r.sleeper.Blocked? ==> r.sleeper.signalled) && r.sleeper.Exited? == s.sleeper.Exited?
  {
    var r := Started(s, task, filled);
    forall i, j | 0 <= i < j < |r.list| ensures r.list[i].value != r.list[j].value {
      if i == 0 {
        assert r.list[j] == s.list[j - 1];
      } else {
        assert r.list[i] == s.list[i - 1] && r.list[j] == s.list[j - 1];
      }
    }
  }

  lemma CancelWellFormed<T>(s: Sched<T>, task: T)
    requires WellFormed(s) && task in s.info
    ensures var r := Cancel(s, task);
      && WellFormed(r)
      && r.list == Unbind(s.list, s.info[task].id)
      && (forall i :: 0 <= i < |r.list| ==> r.list[i] in s.list)
      && r.info == s.info && r.now == s.now && r.stop == s.stop
      && (r.sleeper == s.sleeper || (r.sleeper.Blocked? && r.sleeper.signalled))
      && (r.sleeper.Blocked? ==> r.sleeper.signalled) && r.sleeper.Exited? == s.sleeper.Exited?
  {
    UnbindKeepsTasks(s.list, s.info[task].id);
    var r := Cancel(s, task);
    forall i | 0 <= i < |r.list| ensures r.list[i].value in r.info && r.list[i].key == r.info[r.list[i].value].id {
      var k :| 0 <= k < |s.list| && s.list[k] == r.list[i];
    }
  }

  lemma ProcessWellFormed<T>(s: Sched<T>)
    requires WellFormed(s)
    ensures WellFormed(Process(s))
    ensures Process(s) == s.(info := Process(s).info) && Process(s).info.Keys == s.info.Keys
    ensures forall t :: t in s.info ==>
      Process(s).info[t] == if Listed(s.list, t) && IsDue(s, t) then Fired(s.info[t], s.now) else s.info[t]
  {
  }

  lemma StartKeepsTimely<T>(s: Sched<T>, task: T, filled: TaskInfo)
    requires Timely(s)
    requires task !in s.info
    ensures Timely(Started(s, task, filled))
  {
    hide Started, DistinctTasks;
    StartedWellFormed(s, task, filled);
    var r := Started(s, task, filled);
    assert forall i :: 1 <= i < |r.list| ==> r.list[i] == s.list[i - 1];
  }

  lemma CancelKeepsTimely<T>(s: Sched<T>, task: T)
    requires Timely(s) && task in s.info
    ensures Timely(Cancel(s, task))
  {
    hide Cancel, DistinctTasks;
    CancelWellFormed(s, task);
    var r := Cancel(s, task);
    forall i | 0 <= i < |r.list| && !r.sleeper.Exited? && r.info[r.list[i].value].period >= -1
      ensures r.now <= r.info[r.list[i].value].waking + 1 {
      var k :| 0 <= k < |s.list| && s.list[k] == r.list[i];
    }
  }

  lemma ExecuteKeepsTimely<T>(s: Sched<T>, task: T)
    requires Timely(s) && task in s.info
    ensures Timely(Execute(s, task))
  {
  }

  lemma SleeperKeepsTimely<T>(s: State<T>, step: Step<T>)
    requires SchedInv(s) && Enabled(s, step)
    requires step.Tick? || step.Await? || step.Wake? || step.Stop?
    ensures SchedInv(Next(s, step))
  {
    hide DistinctTasks;
  }

  lemma ResumeKeepsSchedInv<T>(s: State<T>)
    requires SchedInv(s) && Enabled(s, Resume)
    ensures SchedInv(Next(s, Resume))
  {
    hide Process, DueTasks, PeriodicLog, DistinctTasks;
    if !s.sched.stop {
      ProcessWellFormed(s.sched);
    }
  }

  /** Every step keeps the scheduler's invariants. */
  lemma StepKeepsSchedInv<T>(s: State<T>, step: Step<T>)
    requires SchedInv(s) && Enabled(s, step)
    ensures SchedInv(Next(s, step))
  {
    hide Timely, WellFormed;
    match step
    case Observe(node, server, task, id, period) =>
      StartKeepsTimely(s.sched, task, TaskInfo(id, period, 0, 0, true, server, node));
    case StartUpdate(task, id, period, server) =>
      StartKeepsTimely(s.sched, task, TaskInfo(id, period, 0, 0, false, server, ObjectNode(1)));
    case CancelObserve(node, server) =>
      CancelKeepsTimely(s.sched, Lookup(Observers(s, node), server).value);
    case StopUpdate(task) => CancelKeepsTimely(s.sched, task);
    case Change(node, server, _) =>
      ExecuteKeepsTimely(s.sched, Lookup(Observers(s, node), server).value);
    case Resume => ResumeKeepsSchedInv(s);
    case _ => SleeperKeepsTimely(s, step);
  }

  // ---------------------------------------------------------------- observers

  /** The lists of observers and the scheduler's list hold the same notification tasks. */
  ghost predicate ObserversInv<T>(s: State<T>)
    requires WellFormed(s.sched)
  {
    && (forall node, i :: 0 <= i < |Observers(s, node)| ==> IsObserver(s, node, Observers(s, node)[i]))
    && (forall node, i, j :: 0 <= i < j < |Observers(s, node)| ==>
          Observers(s, node)[i].value != Observers(s, node)[j].value)
    && (forall i :: 0 <= i < |s.sched.list| && s.sched.info[s.sched.list[i].value].reports ==>
          Listed(Observers(s, s.sched.info[s.sched.list[i].value].node), s.sched.list[i].value))
  }

  /** An observer entry is a scheduled notification task of that server and node. */
  ghost predicate IsObserver<T>(s: State<T>, node: Node, b: Binding<T>) {
    && b.value in s.sched.info
    && s.sched.info[b.value].reports
    && s.sched.info[b.value].server == b.key
    && s.sched.info[b.value].node == node
    && Listed(s.sched.list, b.value)
  }

  lemma ObserveKeepsObservers<T>(s: State<T>, step: Step<T>)
    requires SchedInv(s) && ObserversInv(s) && Enabled(s, step) && step.Observe?
    ensures WellFormed(Next(s, step).sched) && ObserversInv(Next(s, step))
  {
    hide Started, DistinctTasks, NoLostWakeUp, NoneOverdue, Listed;
    var n := Next(s, step);
    var filled := TaskInfo(step.id, step.period, 0, 0, true, step.server, step.node);
    StartedWellFormed(s.sched, step.task, filled);
    ListedCons(Binding(step.id, step.task), s.sched.list);
    var before, after := Observers(s, step.node), Observers(n, step.node);
    ListedCons(Binding(step.server, step.task), before);
    forall node, i | 0 <= i < |Observers(n, node)| ensures IsObserver(n, node, Observers(n, node)[i]) {
      if node != step.node {
        assert IsObserver(s, node, Observers(s, node)[i]);
      } else if i > 0 {
        assert IsObserver(s, node, before[i - 1]);
      }
    }
    forall node, i, j | 0 <= i < j < |Observers(n, node)|
      ensures Observers(n, node)[i].value != Observers(n, node)[j].value
    {
      if node == step.node {
        assert IsObserver(s, node, before[j - 1]) && after[j] == before[j - 1];
        assert i > 0 ==> after[i] == before[i - 1] && before[i - 1].value != before[j - 1].value;
      } else {
        assert Observers(n, node) == Observers(s, node);
      }
    }
    forall i | 0 <= i < |n.sched.list| && n.sched.info[n.sched.list[i].value].reports
      ensures Listed(Observers(n, n.sched.info[n.sched.list[i].value].node), n.sched.list[i].value)
    {
      if i > 0 {
        assert n.sched.list[i] == s.sched.list[i - 1];
      }
    }
  }

  lemma ListedCons<T>(b: Binding<T>, bs: seq<Binding<T>>)
    ensures forall t :: Listed([b] + bs, t) <==> t == b.value || Listed(bs, t)
  {
    assert ([b] + bs)[0] == b;
    forall t | Listed(bs, t) ensures Listed([b] + bs, t) {
      var k :| 0 <= k < |bs| && bs[k].value == t;
      assert ([b] + bs)[k + 1].value == t;
    }
  }

  /**
   * A cancel takes out the newest listed task of an id. It hits if that is the task cancelled,
   * or, when a registration update is cancelled, no notification task.
   */
  ghost predicate Hits<T>(s: State<T>, step: Step<T>) {
    match step
    case CancelObserve(node, server) =>
      var t := Lookup(Observers(s, node), server);
      t.Some? && t.value in s.sched.info ==> Lookup(s.sched.list, s.sched.info[t.value].id) == t
    case StopUpdate(task) =>
      task in s.sched.info ==>
        var t := Lookup(s.sched.list, s.sched.info[task].id);
        t.Some? && t.value in s.sched.info ==> !s.sched.info[t.value].reports
    case _ => true
  }

  /** The task of an observation is the one its observer list finds, and is listed. */
  lemma ObserverFound<T>(s: State<T>, node: Node, server: int)
    requires WellFormed(s.sched) && ObserversInv(s) && Lookup(Observers(s, node), server).Some?
    ensures var t := Lookup(Observers(s, node), server).value;
      && t in s.sched.info && s.sched.info[t].node == node && s.sched.info[t].server == server
      && s.sched.info[t].reports && Listed(s.sched.list, t)
      && Lookup(s.sched.list, s.sched.info[t].id).Some?
      && DistinctTasks(Observers(s, node))
  {
    var t := Lookup(Observers(s, node), server).value;
    var i := LookupAt(Observers(s, node), server);
    assert IsObserver(s, node, Observers(s, node)[i]);
    var k :| 0 <= k < |s.sched.list| && s.sched.list[k].value == t;
    assert HasKey(s.sched.list, s.sched.info[t].id);
    LookupIsTop(s.sched.list, s.sched.info[t].id);
  }

  lemma CancelKeepsObservers<T>(s: State<T>, step: Step<T>)
    requires SchedInv(s) && ObserversInv(s) && Enabled(s, step) && step.CancelObserve? && Hits(s, step)
    ensures WellFormed(Next(s, step).sched) && ObserversInv(Next(s, step))
  {
    hide Cancel, DistinctTasks, HasKey, NoLostWakeUp, NoneOverdue, Listed;
    var n := Next(s, step);
    var before, after := Observers(s, step.node), Observers(n, step.node);
    var t := Lookup(before, step.server).value;
    CancelWellFormed(s.sched, t);
    ObserverFound(s, step.node, step.server);
    UnbindDropsTask(s.sched.list, s.sched.info[t].id);
    UnbindDropsTask(before, step.server);
    assert after == Unbind(before, step.server);
    forall node, i | 0 <= i < |Observers(n, node)| ensures IsObserver(n, node, Observers(n, node)[i]) {
      if node == step.node {
        var k :| 0 <= k < |before| && before[k] == after[i];
        assert IsObserver(s, node, before[k]);
        ListedAt(after, i);
      } else {
        assert IsObserver(s, node, Observers(s, node)[i]);
      }
    }
    forall node, i, j | 0 <= i < j < |Observers(n, node)|
      ensures Observers(n, node)[i].value != Observers(n, node)[j].value
    {
      if node == step.node {
        DistinctAt(after, i, j);
      } else {
        assert Observers(n, node) == Observers(s, node);
      }
    }
    forall i | 0 <= i < |n.sched.list| && n.sched.info[n.sched.list[i].value].reports
      ensures Listed(Observers(n, n.sched.info[n.sched.list[i].value].node), n.sched.list[i].value)
    {
      ListedAt(n.sched.list, i);
      var k :| 0 <= k < |s.sched.list| && s.sched.list[k] == n.sched.list[i];
    }
  }

  lemma DistinctAt<T>(list: seq<Binding<T>>, i: nat, j: nat)
    requires DistinctTasks(list) && i < j < |list|
    ensures list[i].value != list[j].value
  {
  }

  /** A cancel that misses leaves its task scheduled with no observer list holding it. */
  lemma MissedCancelBreaks<T>(s: State<T>, step: Step<T>)
    requires SchedInv(s) && ObserversInv(s) && Enabled(s, step) && step.CancelObserve? && !Hits(s, step)
    ensures WellFormed(Next(s, step).sched) && !ObserversInv(Next(s, step))
    ensures var t := Lookup(Observers(s, step.node), step.server).value;
      Listed(Next(s, step).sched.list, t) && !Listed(Observers(Next(s, step), step.node), t)
  {
    hide Cancel, NoLostWakeUp, NoneOverdue;
    var n := Next(s, step);
    var before := Observers(s, step.node);
    var t := Lookup(before, step.server).value;
    CancelWellFormed(s.sched, t);
    ObserverFound(s, step.node, step.server);
    UnbindKeepsTasks(s.sched.list, s.sched.info[t].id);
    UnbindDropsTask(before, step.server);
    assert Observers(n, step.node) == Unbind(before, step.server);
    var i :| 0 <= i < |n.sched.list| && n.sched.list[i].value == t;
  }

  lemma ListedAt<T>(list: seq<Binding<T>>, i: nat)
    requires i < |list|
    ensures Listed(list, list[i].value)
  {
  }

  /** Steps that move no task between lists and change no task's server, node or kind. */
  lemma SameListsKeepObservers<T>(s: State<T>, n: State<T>)
    requires WellFormed(s.sched) && ObserversInv(s) && WellFormed(n.sched)
    requires n.sched.list == s.sched.list && n.observers == s.observers
    requires n.sched.info.Keys == s.sched.info.Keys
    requires forall t :: t in s.sched.info ==>
      n.sched.info[t] == s.sched.info[t].(waking := n.sched.info[t].waking, last := n.sched.info[t].last)
    ensures ObserversInv(n)
  {
    forall node ensures Observers(n, node) == Observers(s, node) {
    }
    forall node, i | 0 <= i < |Observers(n, node)| ensures IsObserver(n, node, Observers(n, node)[i]) {
      assert IsObserver(s, node, Observers(s, node)[i]);
    }
  }

  lemma StartUpdateKeepsObservers<T>(s: State<T>, step: Step<T>)
    requires SchedInv(s) && ObserversInv(s) && Enabled(s, step) && step.StartUpdate?
    ensures WellFormed(Next(s, step).sched) && ObserversInv(Next(s, step))
  {
    hide Started, DistinctTasks, NoLostWakeUp, NoneOverdue, Listed;
    var n := Next(s, step);
    StartedWellFormed(s.sched, step.task, TaskInfo(step.id, step.period, 0, 0, false, step.server, ObjectNode(1)));
    ListedCons(Binding(step.id, step.task), s.sched.list);
    forall node, i | 0 <= i < |Observers(n, node)| ensures IsObserver(n, node, Observers(n, node)[i]) {
      assert IsObserver(s, node, Observers(s, node)[i]);
    }
    forall node, i, j | 0 <= i < j < |Observers(n, node)|
      ensures Observers(n, node)[i].value != Observers(n, node)[j].value
    {
      assert Observers(n, node) == Observers(s, node);
    }
    forall i | 0 <= i < |n.sched.list| && n.sched.info[n.sched.list[i].value].reports
      ensures Listed(Observers(n, n.sched.info[n.sched.list[i].value].node), n.sched.list[i].value)
    {
      if i > 0 {
        assert n.sched.list[i] == s.sched.list[i - 1];
      }
    }
  }

  lemma StopUpdateKeepsObservers<T>(s: State<T>, step: Step<T>)
    requires SchedInv(s) && ObserversInv(s) && Enabled(s, step) && step.StopUpdate? && Hits(s, step)
    ensures WellFormed(Next(s, step).sched) && ObserversInv(Next(s, step))
  {
    var n, t := Next(s, step), step.task;
    CancelWellFormed(s.sched, t);
    UnbindKeepsTasks(s.sched.list, s.sched.info[t].id);
    hide Cancel, DistinctTasks, HasKey, NoLostWakeUp, NoneOverdue, Listed;
    forall node, i | 0 <= i < |Observers(n, node)| ensures IsObserver(n, node, Observers(n, node)[i]) {
      assert IsObserver(s, node, Observers(s, node)[i]);
    }
    forall node, i, j | 0 <= i < j < |Observers(n, node)|
      ensures Observers(n, node)[i].value != Observers(n, node)[j].value
    {
      assert Observers(n, node) == Observers(s, node);
    }
    forall i | 0 <= i < |n.sched.list| && n.sched.info[n.sched.list[i].value].reports
      ensures Listed(Observers(n, n.sched.info[n.sched.list[i].value].node), n.sched.list[i].value)
    {
      var k :| 0 <= k < |s.sched.list| && s.sched.list[k] == n.sched.list[i];
    }
  }

  /** Cancelling a registration update can take a notification task out of the schedule. */
  lemma MissedStopBreaks<T>(s: State<T>, step: Step<T>)
    requires SchedInv(s) && ObserversInv(s) && Enabled(s, step) && step.StopUpdate? && !Hits(s, step)
    ensures WellFormed(Next(s, step).sched) && !ObserversInv(Next(s, step))
  {
    hide Cancel, NoLostWakeUp, NoneOverdue;
    var n := Next(s, step);
    var t := Lookup(s.sched.list, s.sched.info[step.task].id).value;
    CancelWellFormed(s.sched, step.task);
    UnbindKeepsTasks(s.sched.list, s.sched.info[step.task].id);
    var at := LookupAt(s.sched.list, s.sched.info[step.task].id);
    var node := s.sched.info[t].node;
    var i :| 0 <= i < |Observers(s, node)| && Observers(s, node)[i].value == t;
    assert !IsObserver(n, node, Observers(n, node)[i]);
  }

  /** A step keeps the observer lists and the scheduler's list in agreement exactly if it hits. */
  lemma StepKeepsObservers<T>(s: State<T>, step: Step<T>)
    requires SchedInv(s) && ObserversInv(s) && Enabled(s, step)
    ensures SchedInv(Next(s, step))
    ensures ObserversInv(Next(s, step)) <==> Hits(s, step)
  {
    hide WellFormed, NoLostWakeUp, NoneOverdue, ObserversInv, Process, Execute, DueTasks, Schedule, Cancel;
    StepKeepsSchedInv(s, step);
    match step
    case Observe(_, _, _, _, _) => ObserveKeepsObservers(s, step);
    case StartUpdate(_, _, _, _) => StartUpdateKeepsObservers(s, step);
    case CancelObserve(_, _) =>
      if Hits(s, step) { CancelKeepsObservers(s, step); } else { MissedCancelBreaks(s, step); }
    case StopUpdate(_) =>
      if Hits(s, step) { StopUpdateKeepsObservers(s, step); } else { MissedStopBreaks(s, step); }
    case Change(node, server, _) =>
      ExecuteInfo(s.sched, Lookup(Observers(s, node), server).value);
      SameListsKeepObservers(s, Next(s, step));
    case Resume =>
      if !s.sched.stop {
        ProcessWellFormed(s.sched);
      }
      SameListsKeepObservers(s, Next(s, step));
    case _ => SameListsKeepObservers(s, Next(s, step));
  }

  lemma ExecuteInfo<T>(s: Sched<T>, task: T)
    requires task in s.info
    ensures var r := Execute(s, task);
      r.info == s.info[task := Executed(s.info[task], s.now)] && r.list == s.list && r.now == s.now
  {
  }

  /**
   * What can happen in a well-formed state with the thread not gone: new observations and updates
   * always, a cancel of what is observed or of an update as long as anything is listed, and a stop;
   * and the thread's own steps by where it is.
   */
  lemma StepsCanBeTaken<T>(s: State<T>, node: Node, server: int, task: T, id: int, period: int)
    requires WellFormed(s.sched)
    ensures var alive, z := !s.sched.sleeper.Exited?, s.sched.sleeper;
      && (Enabled(s, Observe(node, server, task, id, period)) <==> alive && task !in s.sched.info)
      && (Enabled(s, StartUpdate(task, id, period, server)) <==> alive && task !in s.sched.info)
      && (Enabled(s, StopUpdate(task)) <==>
          alive && s.sched.list != [] && task in s.sched.info && !s.sched.info[task].reports)
      && (Enabled(s, CancelObserve(node, server)) <==>
          alive && s.sched.list != [] &&
          var t := Lookup(Observers(s, node), server); t.Some? && t.value in s.sched.info)
      && (Enabled(s, Stop) <==> alive)
      && (Enabled(s, Wake) <==> z.Blocked?) && (Enabled(s, Resume) <==> z.Woken?)
      && (Enabled(s, Tick) <==>
          z.Exited? || (z.Blocked? && !z.signalled && (z.deadline.None? || s.sched.now < z.deadline.value)))
  {
  }

  /**
   * A new task is listed at once, due a period from now, and a notification task is its server's
   * newest at its node.
   */
  lemma NewTasksAreListed<T>(s: State<T>, step: Step<T>)
    requires Enabled(s, step) && (step.Observe? || step.StartUpdate?)
    ensures var n := Next(s, step);
      && n.sched.list == [Binding(step.id, step.task)] + s.sched.list && n.log == s.log
      && n.sched.info[step.task].waking == s.sched.now + step.period
      && n.sched.info[step.task].last == 0 && n.sched.info[step.task].period == step.period
      && n.sched.info[step.task].reports == step.Observe?
      && n.start[step.task] == s.sched.now
      && (step.Observe? ==>
            && Lookup(Observers(n, step.node), step.server) == Some(step.task)
            && n.sched.info[step.task].node == step.node && n.sched.info[step.task].server == step.server)
      && (step.StartUpdate? ==> n.observers == s.observers)
  {
    hide WellFormed;
  }

  /** Cancelling an update takes the newest task of its id out of the schedule, and changes no observer list. */
  lemma StoppedUpdateLeaves<T>(s: State<T>, task: T)
    requires Enabled(s, StopUpdate(task))
    ensures var n := Next(s, StopUpdate(task));
      && n.sched.list == Unbind(s.sched.list, s.sched.info[task].id) && n.sched.info == s.sched.info
      && n.observers == s.observers && n.log == s.log
  {
    hide WellFormed;
  }

  // ---------------------------------------------------------------- theorems over whole runs

  lemma InitialInv<T>(s: State<T>)
    requires Initial(s)
    ensures SchedInv(s) && ObserversInv(s)
  {
  }

  /** The scheduler's invariants hold after every run, whatever ids the tasks have. */
  lemma {:induction false} RunKeepsSchedInv<T>(s: State<T>, steps: seq<Step<T>>)
    requires SchedInv(s) && Runs(s, steps)
    ensures SchedInv(After(s, steps))
    decreases |steps|
  {
    hide SchedInv, Enabled, Next;
    if steps != [] {
      StepKeepsSchedInv(s, steps[0]);
      RunKeepsSchedInv(Next(s, steps[0]), steps[1..]);
    }
  }

  /** Every cancel of the run hits. */
  ghost predicate AllHit<T>(s: State<T>, steps: seq<Step<T>>)
    requires Runs(s, steps)
    decreases |steps|
  {
    steps == [] || (Hits(s, steps[0]) && AllHit(Next(s, steps[0]), steps[1..]))
  }

  /** The lists agree before the run and after each of its steps. */
  ghost predicate AgreeThroughout<T>(s: State<T>, steps: seq<Step<T>>)
    requires Runs(s, steps)
    decreases |steps|
  {
    && WellFormed(s.sched) && ObserversInv(s)
    && (steps == [] || AgreeThroughout(Next(s, steps[0]), steps[1..]))
  }

  /** Over whole runs the lists stay in agreement if and only if every cancel hits. */
  lemma {:induction false} RunKeepsObservers<T>(s: State<T>, steps: seq<Step<T>>)
    requires SchedInv(s) && ObserversInv(s) && Runs(s, steps)
    ensures AgreeThroughout(s, steps) <==> AllHit(s, steps)
    ensures SchedInv(After(s, steps))
    ensures AllHit(s, steps) ==> ObserversInv(After(s, steps))
    decreases |steps|
  {
    hide WellFormed, NoLostWakeUp, NoneOverdue, ObserversInv, Enabled, Next, Hits;
    if steps != [] {
      StepKeepsObservers(s, steps[0]);
      if Hits(s, steps[0]) {
        RunKeepsObservers(Next(s, steps[0]), steps[1..]);
      } else {
        RunKeepsSchedInv(Next(s, steps[0]), steps[1..]);
      }
    }
  }

  /** New tasks get ids that no listed task has, and a registration update is cancelled while listed. */
  ghost predicate FreshIds<T>(s: State<T>, steps: seq<Step<T>>)
    requires Runs(s, steps)
    decreases |steps|
  {
    steps == [] ||
    (&& (steps[0].Observe? || steps[0].StartUpdate? ==> !HasKey(s.sched.list, steps[0].id))
     && (steps[0].StopUpdate? ==> Listed(s.sched.list, steps[0].task))
     && FreshIds(Next(s, steps[0]), steps[1..]))
  }

  /** With ids that do not repeat among listed tasks every cancel hits. */
  lemma {:induction false} FreshIdsHit<T>(s: State<T>, steps: seq<Step<T>>)
    requires SchedInv(s) && ObserversInv(s) && DistinctKeys(s.sched.list) && Runs(s, steps) && FreshIds(s, steps)
    ensures AllHit(s, steps)
    decreases |steps|
  {
    hide WellFormed, NoLostWakeUp, NoneOverdue, ObserversInv, Enabled, Next, Hits, DistinctKeys, HasKey;
    if steps != [] {
      FreshStepHits(s, steps[0]);
      StepKeepsObservers(s, steps[0]);
      FreshIdsHit(Next(s, steps[0]), steps[1..]);
    }
  }

  lemma FreshStepHits<T>(s: State<T>, step: Step<T>)
    requires SchedInv(s) && ObserversInv(s) && DistinctKeys(s.sched.list) && Enabled(s, step)
    requires step.Observe? || step.StartUpdate? ==> !HasKey(s.sched.list, step.id)
    requires step.StopUpdate? ==> Listed(s.sched.list, step.task)
    ensures Hits(s, step) && DistinctKeys(Next(s, step).sched.list)
  {
    hide NoLostWakeUp, NoneOverdue, ObserversInv, Process, DueTasks, PeriodicLog, IsDeadline;
    match step
    case CancelObserve(node, server) =>
      var t := Lookup(Observers(s, node), server).value;
      ObserverFound(s, node, server);
      ListedHit(s.sched, t);
      UnbindKeepsDistinct(s.sched.list, s.sched.info[t].id);
    case StopUpdate(task) =>
      ListedHit(s.sched, task);
      UnbindKeepsDistinct(s.sched.list, s.sched.info[task].id);
    case Observe(_, _, task, id, _) => DistinctCons(Binding(id, task), s.sched.list);
    case StartUpdate(task, id, _, _) => DistinctCons(Binding(id, task), s.sched.list);
    case Resume => ProcessWellFormed(s.sched);
    case _ =>
  }

  lemma ListedHit<T>(s: Sched<T>, t: T)
    requires WellFormed(s) && DistinctKeys(s.list) && t in s.info && Listed(s.list, t)
    ensures Lookup(s.list, s.info[t].id) == Some(t)
  {
    var k :| 0 <= k < |s.list| && s.list[k].value == t;
    assert s.list[k] in s.list;
    LookupMember(s.list, s.info[t].id);
  }

  lemma DistinctCons<T>(b: Binding<T>, bs: seq<Binding<T>>)
    requires DistinctKeys(bs) && !HasKey(bs, b.key)
    ensures DistinctKeys([b] + bs)
  {
    var r := [b] + bs;
    forall i, j | 0 <= i < j < |r| ensures r[i].key != r[j].key {
      assert r[j] == bs[j - 1] && (i > 0 ==> r[i] == bs[i - 1]);
    }
  }

  /** Two observations made with one id, and the older one cancelled. */
  function SameIdSteps<T>(first: Node, second: Node, server: int, a: T, b: T, id: int, period: int)
    : (Step<T>, Step<T>, Step<T>)
  {
    (Observe(first, server, a, id, period), Observe(second, server, b, id, period),
     CancelObserve(first, server))
  }

  lemma SameIdCancel<T>(s: State<T>, first: Node, second: Node, server: int, a: T, b: T, id: int, period: int)
    requires Initial(s) && first != second && a != b
    ensures var (o1, o2, c) := SameIdSteps(first, second, server, a, b, id, period);
      && Enabled(s, o1) && Enabled(Next(s, o1), o2) && Enabled(Next(Next(s, o1), o2), c)
      && !Hits(Next(Next(s, o1), o2), c)
      && var e := Next(Next(Next(s, o1), o2), c);
        && Listed(e.sched.list, a) && Observers(e, first) == []
        && !Listed(e.sched.list, b) && Listed(Observers(e, second), b)
  {
    var (o1, o2, c) := SameIdSteps(first, second, server, a, b, id, period);
    var s1 := Next(s, o1);
    assert s1.sched.list == [Binding(id, a)];
    var s2 := Next(s1, o2);
    assert s2.sched.list == [Binding(id, b), Binding(id, a)];
    assert Observers(s2, first) == [Binding(server, a)] && Observers(s2, second) == [Binding(server, b)];
    assert Enabled(s2, c);
    var e := Next(s2, c);
    assert s2.sched.list[1..] == [Binding(id, a)] && [Binding(server, a)][1..] == [];
    assert e.sched.list == [Binding(id, a)] && e.sched.list[0].value == a;
    assert Observers(e, second)[0].value == b;
  }

  /**
   * Ids made in one second are equal, and then a cancel can take the wrong task: after two
   * observations with one id, cancelling the older leaves its task scheduled, observed by
   * nobody, and takes the newer one, still observed, out of the schedule.
   */
  lemma EqualIdsMiss<T>(s: State<T>, first: Node, second: Node, server: int, a: T, b: T, id: int, period: int)
    requires Initial(s) && first != second && a != b
    ensures var (o1, o2, c) := SameIdSteps(first, second, server, a, b, id, period);
      && Runs(s, [o1, o2, c]) && !AllHit(s, [o1, o2, c])
      && var e := After(s, [o1, o2, c]);
        && Listed(e.sched.list, a) && Observers(e, first) == []
        && !Listed(e.sched.list, b) && Listed(Observers(e, second), b)
  {
    hide Enabled, Next, Hits, SameIdSteps, Initial, Listed, Observers;
    SameIdCancel(s, first, second, server, a, b, id, period);
    var (o1, o2, c) := SameIdSteps(first, second, server, a, b, id, period);
    var s1 := Next(s, o1);
    var s2 := Next(s1, o2);
    assert [o1] + ([o2] + ([c] + [])) == [o1, o2, c];
    FirstStep(s2, c, []);
    FirstStep(s1, o2, [c] + []);
    FirstStep(s, o1, [o2] + ([c] + []));
    assert !AllHit(s2, [c] + []);
    assert ([o2] + ([c] + []))[1..] == [c] + [] && [o1, o2, c][1..] == [o2] + ([c] + []);
  }

  /**
   * No lost wake-up, and no task overdue: whatever the interleaving and the periods, a sleeping
   * thread with no signal pending has a deadline at most one second after every task's, and
   * while the thread lives a listed task is no more than a second late exactly if its period is
   * at least -1. With a period below 0 listed, no time passes: the thread does not sleep.
   */
  lemma NoLostWakeUpEver<T>(s: State<T>, steps: seq<Step<T>>)
    requires Initial(s) && Runs(s, steps)
    ensures var e := After(s, steps).sched;
      && WellFormed(e)
      && (e.sleeper.Blocked? && !e.sleeper.signalled ==> Covers(e, e.sleeper.deadline))
      && (!e.sleeper.Exited? ==>
            forall i :: 0 <= i < |e.list| ==>
              var t := e.list[i].value;
              && (e.now <= e.info[t].waking + 1 <==> e.info[t].period >= -1)
              && (Enabled(After(s, steps), Tick) ==> e.info[t].period >= 0))
  {
    InitialInv(s);
    RunKeepsSchedInv(s, steps);
  }

  /** A pass over one task that is due. */
  lemma PassOverOne<T>(s: State<T>, b: Binding<T>)
    requires Enabled(s, Resume) && !s.sched.stop && s.sched.list == [b]
    requires b.value in s.sched.info && IsDue(s.sched, b.value)
    ensures var e, i := Next(s, Resume), s.sched.info[b.value];
      && e.log == s.log + [Firing(b.value, s.sched.now, Periodic(i.waking))]
      && e.sched.list == [b] && e.sched.now == s.sched.now && b.value in e.sched.info
      && e.sched.info[b.value].waking == s.sched.now + i.period
  {
    assert s.sched.list[0].value == b.value && Listed(s.sched.list, b.value);
    assert s.sched.list[1..] == [] && DueTasks(s.sched, s.sched.list) == [b.value] + [];
  }

  /** An observation, and the pass that the thread makes at once if the period is negative. */
  function OverdueSteps<T>(now: int, node: Node, server: int, t: T, id: int, period: int)
    : (Step<T>, Step<T>)
  {
    (Observe(node, server, t, id, period), Await(Some(now + period + 1)))
  }

  lemma OverduePass<T>(s: State<T>, node: Node, server: int, t: T, id: int, period: int)
    requires Initial(s) && period <= -2
    ensures var (o, a) := OverdueSteps(s.sched.now, node, server, t, id, period);
      && Enabled(s, o) && Enabled(Next(s, o), a)
      && var asleep := Next(Next(s, o), a);
        && Enabled(asleep, Wake) && Enabled(Next(asleep, Wake), Resume)
        && var e := Next(Next(asleep, Wake), Resume);
          && e.log == [Firing(t, s.sched.now, Periodic(s.sched.now + period))]
          && Listed(e.sched.list, t) && t in e.sched.info && e.sched.now > e.sched.info[t].waking + 1
  {
    var (o, a) := OverdueSteps(s.sched.now, node, server, t, id, period);
    var s1 := Next(s, o);
    assert s1.sched.list == [Binding(id, t)] && s1.sched.list[0].value == t;
    assert Enabled(s1, a);
    PassOverOne(Next(Next(s1, a), Wake), Binding(id, t));
    ListedAt([Binding(id, t)], 0);
  }

  /** A period of -2 or less, as a written `pmax` of -5 gives, makes a task late from the start. */
  lemma NegativePeriodIsLate<T>(s: State<T>, node: Node, server: int, t: T, id: int, period: int)
    requires Initial(s) && period <= -2
    ensures var (o, a) := OverdueSteps(s.sched.now, node, server, t, id, period);
      && Runs(s, [o, a, Wake, Resume])
      && var e := After(s, [o, a, Wake, Resume]);
        && e.log == [Firing(t, s.sched.now, Periodic(s.sched.now + period))]
        && Listed(e.sched.list, t) && t in e.sched.info && e.sched.now > e.sched.info[t].waking + 1
  {
    hide Next, Enabled, Listed, Initial, OverdueSteps;
    OverduePass(s, node, server, t, id, period);
    var (o, a) := OverdueSteps(s.sched.now, node, server, t, id, period);
    var asleep := Next(Next(s, o), a);
    FirstStep(Next(asleep, Wake), Resume, []);
    FirstStep(asleep, Wake, [Resume]);
    FirstStep(Next(s, o), a, [Wake, Resume]);
    FirstStep(s, o, [a, Wake, Resume]);
  }

  /** How often a task occurs in a list. */
  ghost function Count<T>(bs: seq<Binding<T>>, t: T): nat {
    if bs == [] then 0 else (if bs[0].value == t then 1 else 0) + Count(bs[1..], t)
  }

  lemma {:induction false} CountDistinct<T>(bs: seq<Binding<T>>, t: T)
    requires DistinctTasks(bs)
    ensures Count(bs, t) == if Listed(bs, t) then 1 else 0
  {
    if bs != [] {
      CountDistinct(bs[1..], t);
      ListedCons(bs[0], bs[1..]);
      assert bs == [bs[0]] + bs[1..];
      if bs[0].value == t {
        assert !Listed(bs[1..], t);
      }
    }
  }

  /**
   * Observers agree with the scheduler: after any run whose cancels hit, every notification task occurs in the
   * observer list of its own node as often as in the scheduler's list, at most once, and in
   * no other observer list.
   */
  lemma ObserversAgree<T>(s: State<T>, steps: seq<Step<T>>, t: T, node: Node)
    requires Initial(s) && Runs(s, steps) && AllHit(s, steps)
    requires t in After(s, steps).sched.info && After(s, steps).sched.info[t].reports
    ensures var e := After(s, steps);
      && Count(e.sched.list, t) <= 1
      && Count(Observers(e, node), t) == if node == e.sched.info[t].node then Count(e.sched.list, t) else 0
  {
    InitialInv(s);
    RunKeepsObservers(s, steps);
    var e := After(s, steps);
    CountDistinct(e.sched.list, t);
    CountDistinct(Observers(e, node), t);
    if Listed(Observers(e, node), t) {
      var i :| 0 <= i < |Observers(e, node)| && Observers(e, node)[i].value == t;
      assert IsObserver(e, node, Observers(e, node)[i]);
    }
  }

  /** The observations of one server on one node that a run leaves standing, newest first. */
  ghost function Standing<T>(before: seq<T>, steps: seq<Step<T>>, node: Node, server: int): seq<T>
    decreases |steps|
  {
    if steps == [] then before
    else
      var now :=
        if steps[0].Observe? && steps[0].node == node && steps[0].server == server then [steps[0].task] + before
        else if steps[0] == CancelObserve(node, server) && before != [] then before[1..]
        else before;
      Standing(now, steps[1..], node, server)
  }

  /** The observer list of a node remembers exactly the standing observations of each server. */
  lemma {:induction false} ObserversStand<T>(s: State<T>, steps: seq<Step<T>>, node: Node, server: int)
    requires Runs(s, steps)
    ensures Stack(Observers(After(s, steps), node), server) ==
            Standing(Stack(Observers(s, node), server), steps, node, server)
    decreases |steps|
  {
    hide Enabled;
    if steps != [] {
      StepStands(s, steps[0], node, server);
      ObserversStand(Next(s, steps[0]), steps[1..], node, server);
    }
  }

  lemma StepStands<T>(s: State<T>, step: Step<T>, node: Node, server: int)
    requires Enabled(s, step)
    ensures var before := Stack(Observers(s, node), server);
      Stack(Observers(Next(s, step), node), server) ==
        if step.Observe? && step.node == node && step.server == server then [step.task] + before
        else if step == CancelObserve(node, server) && before != [] then before[1..]
        else before
  {
    hide Process, DueTasks, PeriodicLog, Schedule, Cancel, Execute, WellFormed;
    match step
    case Observe(n, srv, task, _, _) =>
      if n == node {
        assert ([Binding(srv, task)] + Observers(s, node))[1..] == Observers(s, node);
      }
    case CancelObserve(n, srv) =>
      if n == node {
        UnbindPops(Observers(s, node), srv, server);
      }
    case _ =>
  }

  /** Whatever cancels have missed, an observer list holds known tasks, none twice. */
  ghost predicate ObserversKnown<T>(s: State<T>) {
    forall node :: DistinctTasks(Observers(s, node)) &&
      forall i :: 0 <= i < |Observers(s, node)| ==> Observers(s, node)[i].value in s.sched.info
  }

  lemma StepKeepsKnown<T>(s: State<T>, step: Step<T>)
    requires SchedInv(s) && ObserversKnown(s) && Enabled(s, step)
    ensures ObserversKnown(Next(s, step))
  {
    hide Process, DueTasks, PeriodicLog, NoLostWakeUp, NoneOverdue, IsDeadline;
    var n := Next(s, step);
    forall node
      ensures DistinctTasks(Observers(n, node))
      ensures forall i :: 0 <= i < |Observers(n, node)| ==> Observers(n, node)[i].value in n.sched.info
    {
      var before, after := Observers(s, node), Observers(n, node);
      match step
      case Observe(at, server, task, _, _) =>
        if at == node {
          assert forall i :: 1 <= i < |after| ==> after[i] == before[i - 1];
        }
      case CancelObserve(at, server) =>
        if at == node {
          UnbindKeepsTasks(before, server);
          forall i | 0 <= i < |after| ensures after[i].value in n.sched.info {
            var k :| 0 <= k < |before| && before[k] == after[i];
          }
        }
      case Resume => ProcessWellFormed(s.sched);
      case _ =>
    }
  }

  lemma {:induction false} RunKeepsKnown<T>(s: State<T>, steps: seq<Step<T>>)
    requires SchedInv(s) && ObserversKnown(s) && Runs(s, steps)
    ensures ObserversKnown(After(s, steps))
    decreases |steps|
  {
    hide SchedInv, ObserversKnown, Enabled, Next;
    if steps != [] {
      StepKeepsSchedInv(s, steps[0]);
      StepKeepsKnown(s, steps[0]);
      RunKeepsKnown(Next(s, steps[0]), steps[1..]);
    }
  }

  /** What leaves the schedule when the newest task of `t`'s id is taken out. */
  lemma OnlyLeaves<T>(s: Sched<T>, t: T)
    requires WellFormed(s) && t in s.info
    ensures (forall x :: Listed(Unbind(s.list, s.info[t].id), x) <==> Listed(s.list, x) && x != t)
            <==> Lookup(s.list, s.info[t].id) == Some(t) || Lookup(s.list, s.info[t].id) == None
  {
    var id := s.info[t].id;
    UnbindKeepsTasks(s.list, id);
    LookupIsTop(s.list, id);
    if Listed(s.list, t) {
      var k :| 0 <= k < |s.list| && s.list[k].value == t;
      assert HasKey(s.list, id);
    }
    if Lookup(s.list, id).Some? {
      var k := LookupAt(s.list, id);
      assert Listed(s.list, Lookup(s.list, id).value);
    }
  }

  /**
   * A cancel undoes the latest observation of its server and node that still stands. After any
   * run that task, and no other, leaves the node's observers; that task and no other leaves
   * the schedule if and only if no other listed task is the newest of its id.
   */
  lemma CancelUndoesLatest<T>(s: State<T>, steps: seq<Step<T>>, node: Node, server: int)
    requires Initial(s) && Runs(s, steps) && Enabled(After(s, steps), CancelObserve(node, server))
    ensures var e := After(s, steps);
      var n := Next(e, CancelObserve(node, server));
      var standing := Standing([], steps, node, server);
      && standing != [] && standing[0] in e.sched.info
      && Lookup(Observers(e, node), server) == Some(standing[0])
      && (forall t :: Listed(Observers(n, node), t) <==> Listed(Observers(e, node), t) && t != standing[0])
      && (forall other :: other != node ==> Observers(n, other) == Observers(e, other))
      && ((forall t :: Listed(n.sched.list, t) <==> Listed(e.sched.list, t) && t != standing[0])
          <==> var found := Lookup(e.sched.list, e.sched.info[standing[0]].id);
               found == Some(standing[0]) || found == None)
  {
    InitialInv(s);
    RunKeepsSchedInv(s, steps);
    RunKeepsKnown(s, steps);
    ObserversStand(s, steps, node, server);
    var e := After(s, steps);
    LookupIsTop(Observers(e, node), server);
    var t := Lookup(Observers(e, node), server).value;
    CancelWellFormed(e.sched, t);
    OnlyLeaves(e.sched, t);
    UnbindDropsTask(Observers(e, node), server);
    hide Unbind, Stack, Cancel, NoLostWakeUp, NoneOverdue, Listed, DistinctTasks;
  }
}
