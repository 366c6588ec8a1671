/**
 * Stopping the scheduler thread: how long a stop can stay pending, over every run, and when it
 * is lost. On the way, that cancels can always empty the schedule.
 */
module Stopping {
  import opened Wrappers
  import opened Lists
  import opened Scheduler
  import opened Reporting

  /** Some step of the run is the thread's return from a wait with a stop set. */
  ghost predicate ReturnsStopped<T>(s: State<T>, steps: seq<Step<T>>)
    requires Runs(s, steps)
    decreases |steps|
  {
    steps != [] &&
    ((steps[0].Resume? && s.sched.stop) || ReturnsStopped(Next(s, steps[0]), steps[1..]))
  }

  /** Some step of the run is a stop. */
  predicate StopComes<T>(steps: seq<Step<T>>) {
    exists k :: 0 <= k < |steps| && steps[k].Stop?
  }

  /**
   * A run ends with the thread gone if and only if the thread has returned from a wait with a
   * stop set; and it has only after a stop.
   */
  lemma {:induction false} StopHonoured<T>(s: State<T>, steps: seq<Step<T>>)
    requires Runs(s, steps) && !s.sched.sleeper.Exited?
    ensures After(s, steps).sched.sleeper.Exited? <==> ReturnsStopped(s, steps)
    ensures ReturnsStopped(s, steps) ==> s.sched.stop || StopComes(steps)
    decreases |steps|
  {
    if steps != [] {
      var n, rest := Next(s, steps[0]), steps[1..];
      StepMayGo(s, steps[0]);
      hide Enabled, Next;
      if n.sched.sleeper.Exited? {
        RunStaysGone(n, rest);
      } else {
        StopHonoured(n, rest);
        if StopComes(rest) {
          var k :| 0 <= k < |rest| && rest[k].Stop?;
          assert steps[k + 1].Stop?;
        }
      }
    }
  }

  lemma StepMayGo<T>(s: State<T>, step: Step<T>)
    requires Enabled(s, step) && !s.sched.sleeper.Exited?
    ensures Next(s, step).sched.sleeper.Exited? <==> step.Resume? && s.sched.stop
    ensures Next(s, step).sched.stop <==> s.sched.stop || step.Stop?
  {
    hide WellFormed, DueTasks;
  }

  lemma StepStaysGone<T>(s: State<T>, step: Step<T>)
    requires s.sched.sleeper.Exited? && Enabled(s, step)
    ensures Next(s, step).sched.sleeper.Exited?
  {
    hide WellFormed;
  }

  lemma {:induction false} RunStaysGone<T>(s: State<T>, steps: seq<Step<T>>)
    requires Runs(s, steps) && s.sched.sleeper.Exited?
    ensures After(s, steps).sched.sleeper.Exited?
    decreases |steps|
  {
    hide Enabled, Next;
    if steps != [] {
      StepStaysGone(s, steps[0]);
      RunStaysGone(Next(s, steps[0]), steps[1..]);
    }
  }

  // ---------------------------------------------------------------- a stop that is honoured in time

  /** A stop is set, and the thread comes back from its wait at `d` at the latest. */
  ghost predicate StopsBy<T>(s: State<T>, d: int) {
    && s.sched.stop && s.sched.now <= d
    && (|| s.sched.sleeper.Woken?
        || (&& s.sched.sleeper.Blocked?
            && (s.sched.sleeper.signalled || (s.sched.sleeper.deadline.Some? && s.sched.sleeper.deadline.value <= d))))
  }

  lemma StepStopsBy<T>(s: State<T>, step: Step<T>, d: int)
    requires StopsBy(s, d) && Enabled(s, step)
    ensures Next(s, step).sched.sleeper.Exited? || StopsBy(Next(s, step), d)
  {
    hide WellFormed, Process, DueTasks;
  }

  lemma {:induction false} RunStopsBy<T>(s: State<T>, steps: seq<Step<T>>, d: int)
    requires Runs(s, steps) && (s.sched.sleeper.Exited? || StopsBy(s, d))
    ensures After(s, steps).sched.sleeper.Exited? || StopsBy(After(s, steps), d)
    decreases |steps|
  {
    hide Enabled, Next, StopsBy;
    if steps != [] {
      if s.sched.sleeper.Exited? {
        StepStaysGone(s, steps[0]);
      } else {
        StepStopsBy(s, steps[0], d);
      }
      RunStopsBy(Next(s, steps[0]), steps[1..], d);
    }
  }

  /** When the thread comes back from its wait, if it is bound to. */
  function ReturnTime(sleeper: Sleeper, now: int): int {
    match sleeper
    case Blocked(Some(d), false) => if now < d then d else now
    case _ => now
  }

  /**
   * With a stop set and the thread woken, signalled or asleep until a deadline, no run passes
   * that deadline before the thread is gone, whatever steps it has.
   */
  lemma StopInTime<T>(s: State<T>, steps: seq<Step<T>>)
    requires s.sched.stop && Runs(s, steps) && !After(s, steps).sched.sleeper.Exited?
    requires var z := s.sched.sleeper; z.Woken? || (z.Blocked? && (z.signalled || z.deadline.Some?))
    ensures After(s, steps).sched.now <= ReturnTime(s.sched.sleeper, s.sched.now)
  {
    RunStopsBy(s, steps, ReturnTime(s.sched.sleeper, s.sched.now));
  }

  // ---------------------------------------------------------------- cancels can empty the schedule

  ghost predicate Observed<T>(s: State<T>, t: T) {
    t in s.sched.info && Listed(Observers(s, s.sched.info[t].node), t)
  }

  /** Every observer list holds known notification tasks of its node, under their servers, none twice. */
  ghost predicate ObserversOwn<T>(s: State<T>) {
    && ObserversKnown(s)
    && forall node, i :: 0 <= i < |Observers(s, node)| ==> Owns(s, node, Observers(s, node)[i])
  }

  ghost predicate Owns<T>(s: State<T>, node: Node, b: Binding<T>) {
    b.value in s.sched.info && s.sched.info[b.value].node == node && s.sched.info[b.value].server == b.key
  }

  /** The listed tasks, and the observed ones, of one id. */
  ghost function ListedOf<T>(s: State<T>, id: int): set<T> {
    set t | t in s.sched.info && s.sched.info[t].id == id && Listed(s.sched.list, t)
  }

  ghost function ObservedOf<T>(s: State<T>, id: int): set<T> {
    set t | t in s.sched.info && s.sched.info[t].id == id && Observed(s, t)
  }

  ghost predicate HasUpdate<T>(s: State<T>, id: int) {
    exists t :: t in s.sched.info && s.sched.info[t].id == id && !s.sched.info[t].reports
  }

  /** Of each id there are at least as many observations as listed tasks, unless it is an update's too. */
  ghost predicate Enough<T>(s: State<T>) {
    forall id :: HasUpdate(s, id) || |ListedOf(s, id)| <= |ObservedOf(s, id)|
  }

  ghost predicate Cancellable<T>(s: State<T>) {
    SchedInv(s) && ObserversOwn(s) && Enough(s)
  }

  lemma InitialCancellable<T>(s: State<T>)
    requires Initial(s)
    ensures Cancellable(s)
  {
    forall id ensures ListedOf(s, id) == {} {
    }
  }

  lemma OneMore<T>(a: set<T>, t: T)
    requires t !in a
    ensures |a + {t}| == |a| + 1
  {
  }

  /** What a cancel takes out of the listed tasks of an id. */
  lemma CancelListed<T>(s: State<T>, n: State<T>, t: T, id: int)
    requires WellFormed(s.sched) && t in s.sched.info && n.sched.info == s.sched.info
    requires n.sched.list == Unbind(s.sched.list, s.sched.info[t].id)
    ensures ListedOf(n, id) <= ListedOf(s, id)
    ensures id == s.sched.info[t].id && ListedOf(s, id) != {} ==> |ListedOf(n, id)| == |ListedOf(s, id)| - 1
  {
    var key := s.sched.info[t].id;
    UnbindKeepsTasks(s.sched.list, key);
    if id == key && ListedOf(s, id) != {} {
      var x :| x in ListedOf(s, id);
      var k :| 0 <= k < |s.sched.list| && s.sched.list[k].value == x;
      assert HasKey(s.sched.list, key);
      LookupIsTop(s.sched.list, key);
      var at := LookupAt(s.sched.list, key);
      var found := Lookup(s.sched.list, key).value;
      assert s.sched.list[at] == Binding(key, found) && Listed(s.sched.list, found);
      assert ListedOf(n, id) == ListedOf(s, id) - {found};
      assert found in ListedOf(s, id);
    }
  }

  /** A step that changes neither list, nor any task's id, node, server or kind. */
  lemma SameListsKeepEnough<T>(s: State<T>, n: State<T>)
    requires ObserversOwn(s) && Enough(s) && n.sched.list == s.sched.list && n.observers == s.observers
    requires n.sched.info.Keys == s.sched.info.Keys
    requires forall t :: t in s.sched.info ==>
      n.sched.info[t] == s.sched.info[t].(waking := n.sched.info[t].waking, last := n.sched.info[t].last)
    ensures ObserversOwn(n) && Enough(n)
  {
    forall node ensures Observers(n, node) == Observers(s, node) {
    }
    forall node, i | 0 <= i < |Observers(n, node)| ensures Owns(n, node, Observers(n, node)[i]) {
      assert Owns(s, node, Observers(s, node)[i]);
    }
    forall id ensures HasUpdate(n, id) || |ListedOf(n, id)| <= |ObservedOf(n, id)| {
      assert ListedOf(n, id) == ListedOf(s, id);
      assert ObservedOf(n, id) == ObservedOf(s, id);
      if HasUpdate(s, id) {
        var u :| u in s.sched.info && s.sched.info[u].id == id && !s.sched.info[u].reports;
        assert u in n.sched.info && n.sched.info[u].id == id && !n.sched.info[u].reports;
      }
    }
  }

  /** After a new task `t` of id `key` is scheduled, observed or not, and nothing else. */
  ghost predicate Adds<T>(s: State<T>, n: State<T>, t: T, key: int) {
    && t !in s.sched.info && n.sched.info.Keys == s.sched.info.Keys + {t}
    && n.sched.info[t].id == key
    && (forall x :: x in s.sched.info ==> n.sched.info[x] == s.sched.info[x])
    && (forall x :: x in n.sched.info ==> (Listed(n.sched.list, x) <==> x == t || Listed(s.sched.list, x)))
    && (forall x :: x in s.sched.info ==> (Observed(n, x) <==> Observed(s, x)))
  }

  /** The tasks of one id then: one more listed, and one more observed or an update. */
  lemma AddingToId<T>(s: State<T>, n: State<T>, t: T, key: int, id: int)
    requires Adds(s, n, t, key) && (Observed(n, t) || !n.sched.info[t].reports)
    requires HasUpdate(s, id) || |ListedOf(s, id)| <= |ObservedOf(s, id)|
    ensures HasUpdate(n, id) || |ListedOf(n, id)| <= |ObservedOf(n, id)|
  {
    hide Listed, Observed;
    if HasUpdate(s, id) {
      var u :| u in s.sched.info && s.sched.info[u].id == id && !s.sched.info[u].reports;
      assert n.sched.info[u] == s.sched.info[u];
    } else if id != key {
      assert ListedOf(n, id) == ListedOf(s, id) && ObservedOf(n, id) == ObservedOf(s, id);
    } else if n.sched.info[t].reports {
      assert ListedOf(n, id) == ListedOf(s, id) + {t} && ObservedOf(n, id) == ObservedOf(s, id) + {t};
      OneMore(ListedOf(s, id), t);
      OneMore(ObservedOf(s, id), t);
    }
  }

  lemma AddingKeepsEnough<T>(s: State<T>, n: State<T>, t: T, key: int)
    requires Enough(s) && Adds(s, n, t, key) && (Observed(n, t) || !n.sched.info[t].reports)
    ensures Enough(n)
  {
    hide Adds, Observed, HasUpdate, ListedOf, ObservedOf;
    forall id ensures HasUpdate(n, id) || |ListedOf(n, id)| <= |ObservedOf(n, id)| {
      AddingToId(s, n, t, key, id);
    }
  }

  lemma ObserveKeepsEnough<T>(s: State<T>, step: Step<T>)
    requires Cancellable(s) && Enabled(s, step) && step.Observe?
    ensures ObserversOwn(Next(s, step)) && Enough(Next(s, step))
  {
    hide Started, Listed, DistinctTasks, NoLostWakeUp, NoneOverdue, WithinPeriod;
    var n, t := Next(s, step), step.task;
    StepKeepsKnown(s, step);
    StartedWellFormed(s.sched, t, TaskInfo(step.id, step.period, 0, 0, true, step.server, step.node));
    ListedCons(Binding(step.id, t), s.sched.list);
    ListedCons(Binding(step.server, t), Observers(s, step.node));
    forall node, i | 0 <= i < |Observers(n, node)| ensures Owns(n, node, Observers(n, node)[i]) {
      if node != step.node {
        assert Owns(s, node, Observers(s, node)[i]);
      } else if i > 0 {
        assert Owns(s, node, Observers(s, node)[i - 1]);
      }
    }
    forall x | x in s.sched.info ensures Observed(n, x) <==> Observed(s, x) {
      if s.sched.info[x].node != step.node {
        assert Observers(n, s.sched.info[x].node) == Observers(s, s.sched.info[x].node);
      }
    }
    AddingKeepsEnough(s, n, t, step.id);
  }

  lemma StartUpdateKeepsEnough<T>(s: State<T>, step: Step<T>)
    requires Cancellable(s) && Enabled(s, step) && step.StartUpdate?
    ensures ObserversOwn(Next(s, step)) && Enough(Next(s, step))
  {
    hide Started, Listed, DistinctTasks, NoLostWakeUp, NoneOverdue, WithinPeriod;
    var n, t := Next(s, step), step.task;
    StepKeepsKnown(s, step);
    StartedWellFormed(s.sched, t, TaskInfo(step.id, step.period, 0, 0, false, step.server, ObjectNode(1)));
    ListedCons(Binding(step.id, t), s.sched.list);
    forall node ensures Observers(n, node) == Observers(s, node) {
    }
    forall node, i | 0 <= i < |Observers(n, node)| ensures Owns(n, node, Observers(n, node)[i]) {
      assert Owns(s, node, Observers(s, node)[i]);
    }
    AddingKeepsEnough(s, n, t, step.id);
  }

  /** A cancelled observation takes exactly its own task out of the observed ones. */
  lemma CancelObserved<T>(s: State<T>, step: Step<T>)
    requires Cancellable(s) && Enabled(s, step) && step.CancelObserve?
    ensures ObserversOwn(Next(s, step)) && Next(s, step).sched.info == s.sched.info
    ensures var t := Lookup(Observers(s, step.node), step.server).value;
      && Observed(s, t) && Next(s, step).sched.list == Unbind(s.sched.list, s.sched.info[t].id)
      && forall x :: Observed(Next(s, step), x) <==> Observed(s, x) && x != t
  {
    var n, before := Next(s, step), Observers(s, step.node);
    var t := Lookup(before, step.server).value;
    StepKeepsKnown(s, step);
    CancelWellFormed(s.sched, t);
    UnbindKeepsTasks(before, step.server);
    var at := LookupAt(before, step.server);
    assert Owns(s, step.node, before[at]) && Listed(before, t);
    hide Cancel, Unbind, Listed, DistinctTasks, NoLostWakeUp, NoneOverdue, WithinPeriod, Enough;
    assert Observers(n, step.node) == Unbind(before, step.server);
    forall node, i | 0 <= i < |Observers(n, node)| ensures Owns(n, node, Observers(n, node)[i]) {
      var b := Observers(n, node)[i];
      assert b in Observers(s, node);
      var k :| 0 <= k < |Observers(s, node)| && Observers(s, node)[k] == b;
      assert Owns(s, node, Observers(s, node)[k]);
    }
    forall x ensures Observed(n, x) <==> Observed(s, x) && x != t {
      if x in s.sched.info && s.sched.info[x].node != step.node {
        assert Observers(n, s.sched.info[x].node) == Observers(s, s.sched.info[x].node);
      }
    }
  }

  /** The tasks of one id after a cancel: one less observed, and one less listed if there was any. */
  lemma TakingFromId<T>(s: State<T>, n: State<T>, t: T, id: int)
    requires WellFormed(s.sched) && Observed(s, t) && n.sched.info == s.sched.info
    requires n.sched.list == Unbind(s.sched.list, s.sched.info[t].id)
    requires forall x :: Observed(n, x) <==> Observed(s, x) && x != t
    requires HasUpdate(s, id) || |ListedOf(s, id)| <= |ObservedOf(s, id)|
    ensures HasUpdate(n, id) || |ListedOf(n, id)| <= |ObservedOf(n, id)|
  {
    CancelListed(s, n, t, id);
    hide WellFormed, Listed, Observed, Unbind, ListedOf;
    if HasUpdate(s, id) {
      assert HasUpdate(n, id);
    } else {
      assert ObservedOf(n, id) == ObservedOf(s, id) - (if id == s.sched.info[t].id then {t} else {});
      SubsetSize(ListedOf(n, id), ListedOf(s, id));
    }
  }

  lemma TakingKeepsEnough<T>(s: State<T>, n: State<T>, t: T)
    requires WellFormed(s.sched) && Enough(s) && Observed(s, t) && n.sched.info == s.sched.info
    requires n.sched.list == Unbind(s.sched.list, s.sched.info[t].id)
    requires forall x :: Observed(n, x) <==> Observed(s, x) && x != t
    ensures Enough(n)
  {
    hide WellFormed, Observed, Unbind, HasUpdate, ListedOf, ObservedOf;
    forall id ensures HasUpdate(n, id) || |ListedOf(n, id)| <= |ObservedOf(n, id)| {
      TakingFromId(s, n, t, id);
    }
  }

  /** It takes one listed task of its id, too, if there is any. */
  lemma CancelKeepsEnough<T>(s: State<T>, step: Step<T>)
    requires Cancellable(s) && Enabled(s, step) && step.CancelObserve?
    ensures ObserversOwn(Next(s, step)) && Enough(Next(s, step))
  {
    CancelObserved(s, step);
    hide Next, Observed, ObserversOwn, Enough, Unbind, WellFormed;
    TakingKeepsEnough(s, Next(s, step), Lookup(Observers(s, step.node), step.server).value);
  }

  lemma SubsetSize<T>(a: set<T>, b: set<T>)
    requires a <= b
    ensures |a| <= |b|
  {
    assert b == a + (b - a);
  }

  lemma StopUpdateKeepsEnough<T>(s: State<T>, step: Step<T>)
    requires Cancellable(s) && Enabled(s, step) && step.StopUpdate?
    ensures ObserversOwn(Next(s, step)) && Enough(Next(s, step))
    ensures forall x :: Observed(Next(s, step), x) <==> Observed(s, x)
  {
    var n := Next(s, step);
    StepKeepsKnown(s, step);
    CancelWellFormed(s.sched, step.task);
    hide Cancel, Unbind, Listed, DistinctTasks, NoLostWakeUp, NoneOverdue, WithinPeriod;
    forall node ensures Observers(n, node) == Observers(s, node) {
    }
    forall node, i | 0 <= i < |Observers(n, node)| ensures Owns(n, node, Observers(n, node)[i]) {
      assert Owns(s, node, Observers(s, node)[i]);
    }
    forall id ensures HasUpdate(n, id) || |ListedOf(n, id)| <= |ObservedOf(n, id)| {
      if HasUpdate(s, id) {
        assert HasUpdate(n, id);
      } else {
        CancelListed(s, n, step.task, id);
        assert ObservedOf(n, id) == ObservedOf(s, id);
        SubsetSize(ListedOf(n, id), ListedOf(s, id));
      }
    }
  }

  lemma StepKeepsCancellable<T>(s: State<T>, step: Step<T>)
    requires Cancellable(s) && Enabled(s, step)
    ensures Cancellable(Next(s, step))
  {
    hide WellFormed, NoLostWakeUp, NoneOverdue, WithinPeriod, ObserversOwn, Enough, Process, Execute, DueTasks,
      Schedule, Cancel;
    StepKeepsSchedInv(s, step);
    match step
    case Observe(_, _, _, _, _) => ObserveKeepsEnough(s, step);
    case StartUpdate(_, _, _, _) => StartUpdateKeepsEnough(s, step);
    case CancelObserve(_, _) => CancelKeepsEnough(s, step);
    case StopUpdate(_) => StopUpdateKeepsEnough(s, step);
    case Change(node, server, _) =>
      ExecuteInfo(s.sched, Lookup(Observers(s, node), server).value);
      SameListsKeepEnough(s, Next(s, step));
    case Resume =>
      ProcessWellFormed(s.sched);
      SameListsKeepEnough(s, Next(s, step));
    case _ => SameListsKeepEnough(s, Next(s, step));
  }

  lemma {:induction false} RunKeepsCancellable<T>(s: State<T>, steps: seq<Step<T>>)
    requires Cancellable(s) && Runs(s, steps)
    ensures Cancellable(After(s, steps))
    decreases |steps|
  {
    hide Cancellable, Enabled, Next;
    if steps != [] {
      StepKeepsCancellable(s, steps[0]);
      RunKeepsCancellable(Next(s, steps[0]), steps[1..]);
    }
  }

  predicate IsCancel<T>(step: Step<T>) {
    step.CancelObserve? || step.StopUpdate?
  }

  /** What cancels still have to take away. */
  ghost function Work<T>(s: State<T>): nat {
    |s.sched.list| + |set t | t in s.sched.info && Observed(s, t)|
  }

  /** A cancel takes something away and does not stir the thread. */
  ghost predicate Takes<T>(s: State<T>, step: Step<T>) {
    && IsCancel(step) && Enabled(s, step) && Work(Next(s, step)) < Work(s)
    && Next(s, step).sched.sleeper.Exited? == s.sched.sleeper.Exited?
    && Next(s, step).sched.sleeper.Ready? == s.sched.sleeper.Ready?
    && Next(s, step).sched.stop == s.sched.stop && Next(s, step).sched.now == s.sched.now
  }

  lemma StopUpdateTakes<T>(s: State<T>, u: T)
    requires Cancellable(s) && Enabled(s, StopUpdate(u)) && HasKey(s.sched.list, s.sched.info[u].id)
    ensures Takes(s, StopUpdate(u))
  {
    var n := Next(s, StopUpdate(u));
    StopUpdateKeepsEnough(s, StopUpdate(u));
    CancelWellFormed(s.sched, u);
    UnbindPops(s.sched.list, s.sched.info[u].id, 0);
    hide Cancel, Unbind, Observed, ObserversOwn, Enough, HasKey;
    assert (set t | t in n.sched.info && Observed(n, t)) == (set t | t in s.sched.info && Observed(s, t));
  }

  lemma OneObservedLess<T>(s: State<T>, n: State<T>, t: T)
    requires n.sched.info == s.sched.info && Observed(s, t)
    requires forall x :: Observed(n, x) <==> Observed(s, x) && x != t
    requires |n.sched.list| <= |s.sched.list|
    ensures Work(n) < Work(s)
  {
    var before, after := set x | x in s.sched.info && Observed(s, x), set x | x in n.sched.info && Observed(n, x);
    assert after == before - {t};
  }

  lemma CancelTakes<T>(s: State<T>, step: Step<T>)
    requires Cancellable(s) && Enabled(s, step) && step.CancelObserve?
    ensures Takes(s, step)
  {
    var t := Lookup(Observers(s, step.node), step.server).value;
    CancelObserved(s, step);
    CancelWellFormed(s.sched, t);
    UnbindPops(s.sched.list, s.sched.info[t].id, 0);
    hide Cancel, Unbind, Observed, ObserversOwn, Enough, WellFormed, HasKey, Stack, Work;
    OneObservedLess(s, Next(s, step), t);
  }

  /** An observed task's node and server have an observation that can be cancelled. */
  lemma ObservationOf<T>(s: State<T>, t: T) returns (step: Step<T>)
    requires Cancellable(s) && Observed(s, t) && s.sched.list != [] && !s.sched.sleeper.Exited?
    ensures step.CancelObserve? && Enabled(s, step)
  {
    var node := s.sched.info[t].node;
    var i :| 0 <= i < |Observers(s, node)| && Observers(s, node)[i].value == t;
    var server := Observers(s, node)[i].key;
    assert HasKey(Observers(s, node), server);
    LookupIsTop(Observers(s, node), server);
    var at := LookupAt(Observers(s, node), server);
    assert Owns(s, node, Observers(s, node)[at]);
    step := CancelObserve(node, server);
  }

  /** With a task listed, some cancel can be made, and takes something away. */
  lemma SomeCancel<T>(s: State<T>) returns (step: Step<T>)
    requires Cancellable(s) && s.sched.list != [] && !s.sched.sleeper.Exited?
    ensures Takes(s, step)
  {
    hide Takes, ObserversOwn, NoLostWakeUp, NoneOverdue, WithinPeriod, Observed;
    var b := s.sched.list[0];
    if HasUpdate(s, b.key) {
      var u :| u in s.sched.info && s.sched.info[u].id == b.key && !s.sched.info[u].reports;
      step := StopUpdate(u);
      StopUpdateTakes(s, u);
    } else {
      assert Listed(s.sched.list, b.value) && b.value in ListedOf(s, b.key);
      assert |ListedOf(s, b.key)| > 0 && |ObservedOf(s, b.key)| > 0;
      var t :| t in ObservedOf(s, b.key);
      step := ObservationOf(s, t);
      CancelTakes(s, step);
    }
  }

  /** Cancels can empty the schedule: a run of them, and of nothing else, leaves no task listed. */
  lemma {:induction false} EmptyingRun<T>(s: State<T>) returns (steps: seq<Step<T>>)
    requires Cancellable(s) && !s.sched.sleeper.Exited?
    ensures forall k :: 0 <= k < |steps| ==> IsCancel(steps[k])
    ensures Runs(s, steps) && After(s, steps).sched.list == [] && Cancellable(After(s, steps))
    ensures var e := After(s, steps).sched;
      && e.stop == s.sched.stop && e.now == s.sched.now
      && !e.sleeper.Exited? && e.sleeper.Ready? == s.sched.sleeper.Ready?
    decreases Work(s)
  {
    if s.sched.list == [] {
      steps := [];
    } else {
      var step := SomeCancel(s);
      StepKeepsCancellable(s, step);
      hide Cancellable, Enabled, Next, Work, IsCancel;
      var rest := EmptyingRun(Next(s, step));
      FirstStep(s, step, rest);
      steps := [step] + rest;
    }
  }

  /** No reachable schedule is beyond cancelling, whatever ids the tasks have and whatever cancels have missed. */
  lemma ScheduleCanBeEmptied<T>(s: State<T>, before: seq<Step<T>>) returns (steps: seq<Step<T>>)
    requires Initial(s) && Runs(s, before) && !After(s, before).sched.sleeper.Exited?
    ensures forall k :: 0 <= k < |steps| ==> IsCancel(steps[k])
    ensures Runs(s, before + steps) && After(s, before + steps).sched.list == []
  {
    InitialCancellable(s);
    RunKeepsCancellable(s, before);
    steps := EmptyingRun(After(s, before));
    RunOn(s, before, steps);
  }

  // ---------------------------------------------------------------- when a stop is lost

  function Ticks<T>(n: nat): seq<Step<T>> {
    if n == 0 then [] else [Tick] + Ticks(n - 1)
  }

  lemma {:induction false} TickRun<T>(s: State<T>, n: nat)
    requires SchedInv(s) && s.sched.sleeper == Blocked(None, false)
    ensures Runs(s, Ticks<T>(n)) && After(s, Ticks<T>(n)) == s.(sched := s.sched.(now := s.sched.now + n))
    decreases n
  {
    if n > 0 {
      var r := s.(sched := s.sched.(now := s.sched.now + 1));
      SleeperKeepsTimely(s, Tick);
      TickRun(r, n - 1);
      FirstStep(s, Tick, Ticks<T>(n - 1));
    }
  }

  /** A run over at least `n` seconds with the thread not gone at its end. */
  ghost predicate Outlasts<T>(s: State<T>, steps: seq<Step<T>>, n: nat) {
    && Runs(s, steps)
    && !After(s, steps).sched.sleeper.Exited? && After(s, steps).sched.now >= s.sched.now + n
  }

  /** Some run does. */
  ghost predicate CanOutlast<T(!new)>(s: State<T>, n: nat) {
    exists steps :: Outlasts(s, steps, n)
  }

  /** A thread about to sleep can be made to sleep without a deadline, and then time runs free. */
  lemma ReadyOutlasts<T>(s: State<T>, n: nat) returns (steps: seq<Step<T>>)
    requires Cancellable(s) && s.sched.sleeper.Ready?
    ensures Outlasts(s, steps, n)
  {
    var cancels := EmptyingRun(s);
    var e := After(s, cancels);
    var asleep := Next(e, Await(None));
    SleeperKeepsTimely(e, Await(None));
    TickRun(asleep, n);
    FirstStep(e, Await(None), Ticks<T>(n));
    RunOn(s, cancels, [Await(None)] + Ticks<T>(n));
    steps := cancels + ([Await(None)] + Ticks<T>(n));
  }

  /**
   * With a stop set, any length of time can pass before it is honoured, over runs of any steps,
   * if and only if the thread is about to sleep, or asleep with no deadline and no signal.
   */
  lemma StopForeverPending<T(!new)>(s: State<T>, before: seq<Step<T>>)
    requires Initial(s) && Runs(s, before)
    requires After(s, before).sched.stop && !After(s, before).sched.sleeper.Exited?
    ensures var e := After(s, before);
      (forall n: nat :: CanOutlast(e, n)) <==>
      e.sched.sleeper.Ready? || e.sched.sleeper == Blocked(None, false)
  {
    InitialCancellable(s);
    RunKeepsCancellable(s, before);
    PendingExactly(After(s, before));
  }

  lemma PendingExactly<T(!new)>(s: State<T>)
    requires Cancellable(s) && s.sched.stop && !s.sched.sleeper.Exited?
    ensures (forall n: nat :: CanOutlast(s, n)) <==>
            s.sched.sleeper.Ready? || s.sched.sleeper == Blocked(None, false)
  {
    hide Cancellable, Outlasts;
    var z := s.sched.sleeper;
    if z.Ready? || z == Blocked(None, false) {
      forall n: nat ensures CanOutlast(s, n) {
        var steps := LongRun(s, n);
      }
    } else {
      var n: nat := ReturnTime(z, s.sched.now) - s.sched.now + 1;
      forall steps ensures !Outlasts(s, steps, n) {
        NoLongRun(s, steps, n);
      }
      assert !CanOutlast(s, n);
    }
  }

  lemma LongRun<T>(s: State<T>, n: nat) returns (steps: seq<Step<T>>)
    requires Cancellable(s) && (s.sched.sleeper.Ready? || s.sched.sleeper == Blocked(None, false))
    ensures Outlasts(s, steps, n)
  {
    if s.sched.sleeper.Ready? {
      steps := ReadyOutlasts(s, n);
    } else {
      TickRun(s, n);
      steps := Ticks<T>(n);
    }
  }

  lemma NoLongRun<T>(s: State<T>, steps: seq<Step<T>>, n: nat)
    requires s.sched.stop && n > ReturnTime(s.sched.sleeper, s.sched.now) - s.sched.now
    requires var z := s.sched.sleeper; z.Woken? || (z.Blocked? && (z.signalled || z.deadline.Some?))
    ensures !Outlasts(s, steps, n)
  {
    if Outlasts(s, steps, n) {
      StopInTime(s, steps);
    }
  }

  /**
   * A stop may be lost, and any length of time pass before the thread goes, if and only if it
   * comes while the thread is about to sleep: its signal reaches nobody, and whatever is
   * scheduled can be cancelled before the thread looks for a deadline.
   */
  lemma StopLostIfReady<T(!new)>(s: State<T>, before: seq<Step<T>>)
    requires Initial(s) && Runs(s, before) && Enabled(After(s, before), Stop)
    ensures var e := After(s, before);
      (forall n: nat :: CanOutlast(Next(e, Stop), n)) <==> e.sched.sleeper.Ready?
  {
    InitialCancellable(s);
    RunKeepsCancellable(s, before);
    var e := After(s, before);
    StepKeepsCancellable(e, Stop);
    PendingExactly(Next(e, Stop));
  }
}
