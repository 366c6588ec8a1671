/**
 * When notifications are sent: how far apart two notifications of one observation are, and
 * when a periodic task fires, over every run of the reporting machine.
 */
module ReportingTimes {
  import opened Wrappers
  import opened Lists
  import opened Scheduler
  import opened Reporting

  /**
   * A notification `gap` seconds after an earlier one: the period has passed, or on a value
   * change the `pmin` that it was tested with.
   */
  predicate FarEnough(cause: Cause, period: int, gap: int) {
    match cause
    case Periodic(_) => gap >= period
    case ValueChange(pmin) => gap >= 0 && (pmin.Some? ==> gap > pmin.value)
  }

  // ---------------------------------------------------------------- the log and the task fields

  /** Every firing was made by a known task, at a past second. */
  ghost predicate LogKnown<T>(s: State<T>) {
    forall i :: 0 <= i < |s.log| ==> s.log[i].task in s.sched.info && 1 <= s.log[i].at <= s.sched.now
  }

  /** `last` is 0 until the first notification and its time from then on. */
  ghost predicate LastIsKept<T>(s: State<T>) {
    && (forall t :: t in s.sched.info && s.sched.info[t].reports ==>
          && 0 <= s.sched.info[t].last <= s.sched.now
          && (s.sched.info[t].last != 0 ==>
                s.sched.info[t].waking == s.sched.info[t].last + s.sched.info[t].period))
    && (forall i :: 0 <= i < |s.log| && s.log[i].task in s.sched.info && s.sched.info[s.log[i].task].reports ==>
          s.log[i].at <= s.sched.info[s.log[i].task].last)
  }

  /** Two notifications of one observation keep their distance. */
  ghost predicate Spaced<T>(s: State<T>) {
    forall i, j :: 0 <= i < j < |s.log| && s.log[i].task == s.log[j].task ==> Follows(s, s.log[i], s.log[j])
  }

  ghost predicate Follows<T>(s: State<T>, a: Firing<T>, b: Firing<T>) {
    && b.task in s.sched.info
    && (s.sched.info[b.task].reports ==> FarEnough(b.cause, s.sched.info[b.task].period, b.at - a.at))
  }

  /** A firing that a pass makes at `now` for the deadline `due` is never early, and late only with a low period. */
  predicate InTime(due: int, now: int, period: int) {
    due <= now && (now <= due + 1 <==> period >= -1)
  }

  /** A periodic firing comes at its deadline or one second after it, exactly unless the period is -2 or less. */
  ghost predicate Punctual<T>(s: State<T>) {
    forall i :: 0 <= i < |s.log| && s.log[i].cause.Periodic? && s.log[i].task in s.sched.info ==>
      InTime(s.log[i].cause.due, s.log[i].at, s.sched.info[s.log[i].task].period)
  }

  ghost predicate TimesInv<T>(s: State<T>) {
    LogKnown(s) && LastIsKept(s) && Spaced(s) && Punctual(s)
  }

  /** The new firings of a step may each follow every earlier one of their task. */
  ghost predicate MayFollow<T>(s: State<T>, f: Firing<T>)
  {
    && f.task in s.sched.info && f.at == s.sched.now
    && (f.cause.Periodic? ==> InTime(f.cause.due, f.at, s.sched.info[f.task].period))
    && (s.sched.info[f.task].reports && s.sched.info[f.task].last != 0 ==>
          FarEnough(f.cause, s.sched.info[f.task].period, f.at - s.sched.info[f.task].last))
  }

  /** How a step that fires the tasks of `fired` may change the rest of the state. */
  ghost predicate Fires<T>(s: State<T>, n: State<T>, fired: seq<Firing<T>>) {
    && n.log == s.log + fired
    && n.sched.now == s.sched.now
    && n.sched.info.Keys == s.sched.info.Keys
    && (forall k :: 0 <= k < |fired| ==> MayFollow(s, fired[k]))
    && (forall k, l :: 0 <= k < l < |fired| ==> fired[k].task != fired[l].task)
    && (forall t :: t in s.sched.info && s.sched.info[t].reports ==>
          || n.sched.info[t] == Executed(s.sched.info[t], s.sched.now)
          || (n.sched.info[t] == s.sched.info[t] && forall k :: 0 <= k < |fired| ==> fired[k].task != t))
    && (forall t :: t in s.sched.info ==>
          && n.sched.info[t].reports == s.sched.info[t].reports
          && n.sched.info[t].period == s.sched.info[t].period)
  }

  lemma FiringKeepsTimes<T>(s: State<T>, n: State<T>, fired: seq<Firing<T>>)
    requires TimesInv(s) && s.sched.now >= 1 && Fires(s, n, fired)
    ensures TimesInv(n)
  {
    FiringKeepsSpacing(s, n, fired);
    forall i | 0 <= i < |n.log|
      ensures n.log[i].task in n.sched.info && 1 <= n.log[i].at <= n.sched.now
      ensures n.log[i].cause.Periodic? ==>
                InTime(n.log[i].cause.due, n.log[i].at, n.sched.info[n.log[i].task].period)
      ensures n.sched.info[n.log[i].task].reports ==> n.log[i].at <= n.sched.info[n.log[i].task].last
    {
      if i < |s.log| {
        assert n.log[i] == s.log[i];
      } else {
        assert n.log[i] == fired[i - |s.log|];
      }
    }
  }

  lemma FiringKeepsSpacing<T>(s: State<T>, n: State<T>, fired: seq<Firing<T>>)
    requires TimesInv(s) && s.sched.now >= 1 && Fires(s, n, fired)
    ensures Spaced(n)
  {
    forall i, j | 0 <= i < j < |n.log| && n.log[i].task == n.log[j].task
      ensures Follows(n, n.log[i], n.log[j])
    {
      if j < |s.log| {
        assert n.log[i] == s.log[i] && n.log[j] == s.log[j];
        assert Follows(s, s.log[i], s.log[j]);
      } else if i < |s.log| {
        assert n.log[i] == s.log[i] && n.log[j] == fired[j - |s.log|];
        assert MayFollow(s, fired[j - |s.log|]);
      }
    }
  }

  // ---------------------------------------------------------------- steps

  lemma ChangeFires<T>(s: State<T>, step: Step<T>)
    requires SchedInv(s) && TimesInv(s) && Enabled(s, step) && step.Change?
    ensures TimesInv(Next(s, step))
  {
    var task := Lookup(Observers(s, step.node), step.server).value;
    ExecuteInfo(s.sched, task);
    FiringKeepsTimes(s, Next(s, step), [Firing(task, s.sched.now, ValueChange(step.pmin))]);
  }

  /** What a pass over the due tasks puts into the log and the task fields. */
  ghost predicate Pass<T>(s: State<T>, n: State<T>, fired: seq<Firing<T>>) {
    && n.log == s.log + fired && n.sched.now == s.sched.now && n.start == s.start
    && n.sched.info.Keys == s.sched.info.Keys
    && (forall k :: 0 <= k < |fired| ==>
          && fired[k].task in s.sched.info && fired[k].at == s.sched.now
          && fired[k].cause == Periodic(s.sched.info[fired[k].task].waking)
          && InTime(s.sched.info[fired[k].task].waking, s.sched.now, s.sched.info[fired[k].task].period))
    && (forall k, l :: 0 <= k < l < |fired| ==> fired[k].task != fired[l].task)
    && (forall t :: t in s.sched.info ==>
          n.sched.info[t] == if FiredIn(fired, t) then Fired(s.sched.info[t], s.sched.now) else s.sched.info[t])
  }

  ghost predicate FiredIn<T>(fired: seq<Firing<T>>, t: T) {
    exists k :: 0 <= k < |fired| && fired[k].task == t
  }

  /** Exactly the tasks that the pass changes are in its part of the log. */
  lemma DueAreFired<T>(s: Sched<T>)
    requires Timely(s) && !s.sleeper.Exited?
    ensures var due := DueTasks(s, s.list);
      && (forall k :: 0 <= k < |due| ==> InTime(s.info[due[k]].waking, s.now, s.info[due[k]].period))
      && (forall t :: t in s.info ==>
            Process(s).info[t] == if FiredIn(PeriodicLog(s, due), t) then Fired(s.info[t], s.now) else s.info[t])
  {
    var due := DueTasks(s, s.list);
    var fired := PeriodicLog(s, due);
    ProcessIsExact(s);
    ProcessWellFormed(s);
    hide Process, DueTasks, DistinctTasks, NoLostWakeUp;
    forall k | 0 <= k < |due| ensures InTime(s.info[due[k]].waking, s.now, s.info[due[k]].period) {
      assert due[k] in due;
      var i :| 0 <= i < |s.list| && s.list[i].value == due[k];
    }
    forall t ensures FiredIn(fired, t) <==> t in due {
      if t in due {
        var k :| 0 <= k < |due| && due[k] == t;
        assert fired[k].task == t;
      }
    }
  }

  lemma ResumePasses<T>(s: State<T>)
    requires SchedInv(s) && Enabled(s, Resume) && !s.sched.stop
    ensures Pass(s, Next(s, Resume), PeriodicLog(s.sched, DueTasks(s.sched, s.sched.list)))
  {
    DueAreFired(s.sched);
    ProcessIsExact(s.sched);
    ProcessWellFormed(s.sched);
    hide Process, DueTasks, DistinctTasks, Timely, Listed, IsDue, FiredIn, Fired, InListOrder;
  }

  lemma PassKeepsTimes<T>(s: State<T>, n: State<T>, fired: seq<Firing<T>>)
    requires TimesInv(s) && s.sched.now >= 1 && Pass(s, n, fired)
    ensures TimesInv(n)
  {
    forall k | 0 <= k < |fired| ensures MayFollow(s, fired[k]) {
    }
    FiringKeepsTimes(s, n, fired);
  }

  /** Steps that fire nothing: time passes, tasks appear, lists change. */
  lemma QuietKeepsTimes<T>(s: State<T>, n: State<T>)
    requires TimesInv(s) && n.log == s.log && n.sched.now >= s.sched.now
    requires forall t :: t in s.sched.info ==>
      t in n.sched.info && n.sched.info[t] == s.sched.info[t]
    requires forall t :: t in n.sched.info && t !in s.sched.info ==> n.sched.info[t].last == 0
    requires n.sched.now >= 0
    ensures TimesInv(n)
  {
    forall i, j | 0 <= i < j < |n.log| && n.log[i].task == n.log[j].task
      ensures Follows(n, n.log[i], n.log[j])
    {
      assert Follows(s, s.log[i], s.log[j]);
    }
  }

  lemma StepKeepsTimes<T>(s: State<T>, step: Step<T>)
    requires SchedInv(s) && TimesInv(s) && Enabled(s, step)
    ensures TimesInv(Next(s, step))
  {
    hide TimesInv, NoLostWakeUp, NoneOverdue, Pass, Process, Execute, DueTasks, PeriodicLog, Started, Cancel,
         DistinctTasks;
    var n := Next(s, step);
    match step
    case Change(_, _, _) => ChangeFires(s, step);
    case Resume =>
      if s.sched.stop {
        QuietKeepsTimes(s, n);
      } else {
        ResumePasses(s);
        PassKeepsTimes(s, n, PeriodicLog(s.sched, DueTasks(s.sched, s.sched.list)));
      }
    case Observe(node, server, task, id, period) =>
      StartedWellFormed(s.sched, task, TaskInfo(id, period, 0, 0, true, server, node));
      QuietKeepsTimes(s, n);
    case StartUpdate(task, id, period, server) =>
      StartedWellFormed(s.sched, task, TaskInfo(id, period, 0, 0, false, server, ObjectNode(1)));
      QuietKeepsTimes(s, n);
    case CancelObserve(node, server) =>
      CancelWellFormed(s.sched, Lookup(Observers(s, node), server).value);
      QuietKeepsTimes(s, n);
    case StopUpdate(task) =>
      CancelWellFormed(s.sched, task);
      QuietKeepsTimes(s, n);
    case _ => QuietKeepsTimes(s, n);
  }

  lemma {:induction false} RunKeepsTimes<T>(s: State<T>, steps: seq<Step<T>>)
    requires SchedInv(s) && TimesInv(s) && Runs(s, steps)
    ensures TimesInv(After(s, steps))
    decreases |steps|
  {
    hide SchedInv, TimesInv, Enabled, Next;
    if steps != [] {
      StepKeepsSchedInv(s, steps[0]);
      StepKeepsTimes(s, steps[0]);
      RunKeepsTimes(Next(s, steps[0]), steps[1..]);
    }
  }

  /**
   * Notification spacing over whole runs, however often `pmin` changes on the way: a periodic
   * notification of an observation comes at least its period after every earlier one, and one
   * on a value change more than the `pmin` that it was tested with after every earlier one.
   */
  lemma NotificationsAreSpaced<T>(s: State<T>, steps: seq<Step<T>>, i: nat, j: nat, t: T)
    requires Initial(s) && Runs(s, steps)
    requires i < j < |After(s, steps).log|
    requires After(s, steps).log[i].task == After(s, steps).log[j].task == t
    requires t in After(s, steps).sched.info && After(s, steps).sched.info[t].reports
    ensures var e := After(s, steps);
      FarEnough(e.log[j].cause, e.sched.info[t].period, e.log[j].at - e.log[i].at)
  {
    InitialInv(s);
    RunKeepsTimes(s, steps);
    var e := After(s, steps);
    assert Follows(e, e.log[i], e.log[j]);
  }

  /**
   * The firing bound, one half: a task called for its deadline `w` is not called before it, and
   * is called at `w` or at `w + 1` if and only if its period is at least -1.
   */
  lemma FiringsArePunctual<T>(s: State<T>, steps: seq<Step<T>>, i: nat)
    requires Initial(s) && Runs(s, steps) && i < |After(s, steps).log| && After(s, steps).log[i].cause.Periodic?
    ensures var e := After(s, steps);
      var f := e.log[i];
      && f.task in e.sched.info && f.cause.due <= f.at
      && (f.at <= f.cause.due + 1 <==> e.sched.info[f.task].period >= -1)
  {
    InitialInv(s);
    RunKeepsTimes(s, steps);
  }

  // ---------------------------------------------------------------- value changes that are reported

  /** The time of an observation's last notification is in the log. */
  ghost predicate LastIsLogged<T>(s: State<T>) {
    forall t :: t in s.sched.info && s.sched.info[t].reports && s.sched.info[t].last != 0 ==>
      NotifiedAt(s.log, t, s.sched.info[t].last)
  }

  ghost predicate NotifiedAt<T>(log: seq<Firing<T>>, t: T, at: int) {
    exists i :: 0 <= i < |log| && log[i].task == t && log[i].at == at
  }

  lemma LoggedOn<T>(log: seq<Firing<T>>, more: seq<Firing<T>>, t: T, at: int)
    ensures NotifiedAt(log, t, at) || NotifiedAt(more, t, at) ==> NotifiedAt(log + more, t, at)
  {
    if NotifiedAt(log, t, at) {
      var i :| 0 <= i < |log| && log[i].task == t && log[i].at == at;
      assert (log + more)[i] == log[i];
    } else if NotifiedAt(more, t, at) {
      var i :| 0 <= i < |more| && more[i].task == t && more[i].at == at;
      assert (log + more)[|log| + i] == more[i];
    }
  }

  /** Steps that call nothing. */
  lemma QuietKeepsLogged<T>(s: State<T>, n: State<T>)
    requires LastIsLogged(s) && n.log == s.log
    requires forall t :: t in n.sched.info ==>
      n.sched.info[t].last == 0 || (t in s.sched.info && n.sched.info[t] == s.sched.info[t])
    ensures LastIsLogged(n)
  {
  }

  lemma ChangeKeepsLogged<T>(s: State<T>, step: Step<T>)
    requires LastIsLogged(s) && Enabled(s, step) && step.Change?
    ensures LastIsLogged(Next(s, step))
  {
    var task := Lookup(Observers(s, step.node), step.server).value;
    var f := Firing(task, s.sched.now, ValueChange(step.pmin));
    ExecuteInfo(s.sched, task);
    hide Execute, NotifiedAt;
    forall t | t in s.sched.info && s.sched.info[t].reports && Next(s, step).sched.info[t].last != 0
      ensures NotifiedAt(s.log + [f], t, Next(s, step).sched.info[t].last)
    {
      assert NotifiedAt([f], task, s.sched.now) by {
        assert [f][0] == f;
        NotifiedHere(f);
      }
      LoggedOn(s.log, [f], t, Next(s, step).sched.info[t].last);
    }
  }

  lemma NotifiedHere<T>(f: Firing<T>)
    ensures NotifiedAt([f], f.task, f.at)
  {
    assert [f][0] == f;
  }

  lemma PassKeepsLogged<T>(s: State<T>, n: State<T>, fired: seq<Firing<T>>)
    requires LastIsLogged(s) && Pass(s, n, fired)
    ensures LastIsLogged(n)
  {
    hide NotifiedAt;
    forall t | t in n.sched.info && n.sched.info[t].reports && n.sched.info[t].last != 0
      ensures NotifiedAt(n.log, t, n.sched.info[t].last)
    {
      if FiredIn(fired, t) {
        FiredIsNotified(fired, t, s.sched.now);
      }
      LoggedOn(s.log, fired, t, n.sched.info[t].last);
    }
  }

  lemma FiredIsNotified<T>(fired: seq<Firing<T>>, t: T, at: int)
    requires FiredIn(fired, t) && forall k :: 0 <= k < |fired| ==> fired[k].at == at
    ensures NotifiedAt(fired, t, at)
  {
  }

  lemma StepKeepsLogged<T>(s: State<T>, step: Step<T>)
    requires SchedInv(s) && LastIsLogged(s) && Enabled(s, step)
    ensures LastIsLogged(Next(s, step))
  {
    hide LastIsLogged, NoLostWakeUp, NoneOverdue, Pass, Process, Execute, DueTasks, PeriodicLog, Started, Cancel,
         DistinctTasks;
    var n := Next(s, step);
    match step
    case Change(_, _, _) => ChangeKeepsLogged(s, step);
    case Resume =>
      if s.sched.stop {
        QuietKeepsLogged(s, n);
      } else {
        ResumePasses(s);
        PassKeepsLogged(s, n, PeriodicLog(s.sched, DueTasks(s.sched, s.sched.list)));
      }
    case Observe(node, server, task, id, period) =>
      StartedWellFormed(s.sched, task, TaskInfo(id, period, 0, 0, true, server, node));
      QuietKeepsLogged(s, n);
    case StartUpdate(task, id, period, server) =>
      StartedWellFormed(s.sched, task, TaskInfo(id, period, 0, 0, false, server, ObjectNode(1)));
      QuietKeepsLogged(s, n);
    case CancelObserve(node, server) =>
      CancelWellFormed(s.sched, Lookup(Observers(s, node), server).value);
      QuietKeepsLogged(s, n);
    case StopUpdate(task) =>
      CancelWellFormed(s.sched, task);
      QuietKeepsLogged(s, n);
    case _ => QuietKeepsLogged(s, n);
  }

  lemma {:induction false} RunKeepsLogged<T>(s: State<T>, steps: seq<Step<T>>)
    requires SchedInv(s) && LastIsLogged(s) && Runs(s, steps)
    ensures LastIsLogged(After(s, steps))
    decreases |steps|
  {
    hide SchedInv, LastIsLogged, Enabled, Next;
    if steps != [] {
      StepKeepsSchedInv(s, steps[0]);
      StepKeepsLogged(s, steps[0]);
      RunKeepsLogged(Next(s, steps[0]), steps[1..]);
    }
  }

  /**
   * The other side of the spacing: in every reachable state, while the thread lives, a value change
   * is reported to a server exactly if it observes the node and every notification of that
   * observation so far, whatever caused it, is more than the `pmin` ago; and then it is one more.
   */
  lemma ChangeReportedExactly<T>(s: State<T>, steps: seq<Step<T>>, node: Node, server: int, t: T, pmin: Option<int>)
    requires Initial(s) && Runs(s, steps) && !After(s, steps).sched.sleeper.Exited?
    requires t in After(s, steps).sched.info && After(s, steps).sched.info[t].reports
    requires Lookup(Observers(After(s, steps), node), server) == Some(t)
    ensures var e := After(s, steps);
      && (Enabled(e, Change(node, server, pmin)) <==>
          pmin.None? || forall i :: 0 <= i < |e.log| && e.log[i].task == t ==> e.sched.now - e.log[i].at > pmin.value)
      && (Enabled(e, Change(node, server, pmin)) ==>
            Next(e, Change(node, server, pmin)).log == e.log + [Firing(t, e.sched.now, ValueChange(pmin))])
  {
    InitialInv(s);
    RunKeepsSchedInv(s, steps);
    RunKeepsTimes(s, steps);
    RunKeepsLogged(s, steps);
    var e := After(s, steps);
    hide Spaced, Punctual, NoLostWakeUp, NoneOverdue, WithinPeriod, Execute, LastIsLogged;
    if e.sched.info[t].last != 0 {
      LastIs(e, t);
      var i :| 0 <= i < |e.log| && e.log[i].task == t && e.log[i].at == e.sched.info[t].last;
    }
  }

  lemma LastIs<T>(s: State<T>, t: T)
    requires LastIsLogged(s) && t in s.sched.info && s.sched.info[t].reports && s.sched.info[t].last != 0
    ensures NotifiedAt(s.log, t, s.sched.info[t].last)
  {
  }

  /** A server that does not observe the node is not told. */
  lemma UnobservedNotReported<T>(s: State<T>, node: Node, server: int, pmin: Option<int>)
    requires Lookup(Observers(s, node), server).None?
    ensures !Enabled(s, Change(node, server, pmin))
  {
  }

  // ---------------------------------------------------------------- due tasks do fire

  /** The step neither takes the task out of the schedule nor fires it early. */
  ghost predicate Spares<T>(s: State<T>, step: Step<T>, t: T) {
    match step
    case CancelObserve(node, server) =>
      var c := Lookup(Observers(s, node), server);
      c.Some? && c.value in s.sched.info ==> Lookup(s.sched.list, s.sched.info[c.value].id) != Some(t)
    case StopUpdate(task) => task in s.sched.info ==> Lookup(s.sched.list, s.sched.info[task].id) != Some(t)
    case Change(node, server, _) => Lookup(Observers(s, node), server) != Some(t)
    case _ => true
  }

  ghost predicate AllSpare<T>(s: State<T>, steps: seq<Step<T>>, t: T)
    requires Runs(s, steps)
    decreases |steps|
  {
    steps == [] || (Spares(s, steps[0], t) && AllSpare(Next(s, steps[0]), steps[1..], t))
  }

  /** The log has, from `from` on, a firing of `t` for the deadline `w`, made at `w` or `w + 1`. */
  ghost predicate FiredFor<T>(log: seq<Firing<T>>, from: nat, t: T, w: int) {
    exists i :: from <= i < |log| && log[i].task == t && log[i].cause == Periodic(w) && w <= log[i].at <= w + 1
  }

  /** A step that spares a listed task fires it for its deadline or leaves it listed with that deadline. */
  lemma SparedStep<T>(s: State<T>, step: Step<T>, t: T)
    requires SchedInv(s) && Enabled(s, step) && Listed(s.sched.list, t) && t in s.sched.info && Spares(s, step, t)
    requires s.sched.info[t].period >= -1
    ensures var n, w := Next(s, step), s.sched.info[t].waking;
      && s.log <= n.log
      && Listed(n.sched.list, t) && t in n.sched.info && n.sched.info[t].period == s.sched.info[t].period
      && (n.sched.info[t].waking == w || FiredFor(n.log, |s.log|, t, w))
  {
    hide NoLostWakeUp, NoneOverdue, Process, DueTasks, PeriodicLog, Execute, Started, Cancel, DistinctTasks;
    var n := Next(s, step);
    match step
    case Observe(node, server, task, id, period) =>
      StartedWellFormed(s.sched, task, TaskInfo(id, period, 0, 0, true, server, node));
      ListedCons(Binding(id, task), s.sched.list);
    case StartUpdate(task, id, period, server) =>
      StartedWellFormed(s.sched, task, TaskInfo(id, period, 0, 0, false, server, ObjectNode(1)));
      ListedCons(Binding(id, task), s.sched.list);
    case CancelObserve(node, server) =>
      var c := Lookup(Observers(s, node), server).value;
      CancelWellFormed(s.sched, c);
      UnbindKeepsTasks(s.sched.list, s.sched.info[c].id);
    case StopUpdate(task) =>
      CancelWellFormed(s.sched, task);
      UnbindKeepsTasks(s.sched.list, s.sched.info[task].id);
    case Change(node, server, _) =>
      ExecuteInfo(s.sched, Lookup(Observers(s, node), server).value);
    case Resume =>
      if !s.sched.stop {
        ResumePasses(s);
        ProcessWellFormed(s.sched);
        var fired := PeriodicLog(s.sched, DueTasks(s.sched, s.sched.list));
        if FiredIn(fired, t) {
          var k :| 0 <= k < |fired| && fired[k].task == t;
          assert n.log[|s.log| + k] == fired[k];
        }
      }
    case _ =>
  }

  lemma StepGrowsLog<T>(s: State<T>, step: Step<T>)
    requires Enabled(s, step)
    ensures var n := Next(s, step);
      && s.log <= n.log && s.sched.now <= n.sched.now
      && forall i :: |s.log| <= i < |n.log| ==> s.sched.now <= n.log[i].at
  {
    hide DueTasks, WellFormed, Listed;
  }

  /** The log only grows, with time. */
  lemma {:induction false} RunGrowsLog<T>(s: State<T>, steps: seq<Step<T>>)
    requires Runs(s, steps)
    ensures var e := After(s, steps);
      && s.log <= e.log && s.sched.now <= e.sched.now
      && forall i :: |s.log| <= i < |e.log| ==> s.sched.now <= e.log[i].at
    decreases |steps|
  {
    hide Enabled, Next;
    if steps != [] {
      var n := Next(s, steps[0]);
      StepGrowsLog(s, steps[0]);
      RunGrowsLog(n, steps[1..]);
      assert After(s, steps) == After(n, steps[1..]);
    }
  }

  /** Over a run that spares it, a task fires for its deadline or still has it at the end. */
  lemma {:induction false} SparedRun<T>(s: State<T>, steps: seq<Step<T>>, t: T)
    requires SchedInv(s) && Runs(s, steps) && Listed(s.sched.list, t) && t in s.sched.info && AllSpare(s, steps, t)
    requires s.sched.info[t].period >= -1
    ensures var e, w := After(s, steps), s.sched.info[t].waking;
      && Listed(e.sched.list, t) && t in e.sched.info && e.sched.info[t].period == s.sched.info[t].period
      && (e.sched.info[t].waking == w || FiredFor(e.log, |s.log|, t, w))
    decreases |steps|
  {
    hide SchedInv, Enabled, Next, Listed, Spares;
    if steps != [] {
      var n, w := Next(s, steps[0]), s.sched.info[t].waking;
      SparedStep(s, steps[0], t);
      StepKeepsSchedInv(s, steps[0]);
      SparedRun(n, steps[1..], t);
      RunGrowsLog(n, steps[1..]);
      var e := After(s, steps);
      assert e == After(n, steps[1..]);
      if FiredFor(n.log, |s.log|, t, w) {
        var i :| |s.log| <= i < |n.log| && n.log[i].task == t && n.log[i].cause == Periodic(w) &&
          w <= n.log[i].at <= w + 1;
        assert e.log[i] == n.log[i];
      } else if FiredFor(e.log, |n.log|, t, w) {
        var i :| |n.log| <= i < |e.log| && e.log[i].task == t && e.log[i].cause == Periodic(w) &&
          w <= e.log[i].at <= w + 1;
      }
    }
  }

  /**
   * The firing bound, the other half: from any reachable state, a listed task with deadline `w`
   * that no step cancels or fires early does fire for it, at `w` or `w + 1`, once the clock has
   * passed `w + 1` with the thread alive; this holds if and only if the period is at least -1.
   */
  lemma DueTaskFires<T>(s: State<T>, before: seq<Step<T>>, steps: seq<Step<T>>, t: T)
    requires Initial(s) && Runs(s, before) && Runs(After(s, before), steps)
    requires var m := After(s, before); Listed(m.sched.list, t) && t in m.sched.info && AllSpare(m, steps, t)
    requires var m := After(s, before); var e := After(m, steps);
      !e.sched.sleeper.Exited? && e.sched.now > m.sched.info[t].waking + 1
    ensures var m := After(s, before);
      FiredFor(After(m, steps).log, |m.log|, t, m.sched.info[t].waking) <==> m.sched.info[t].period >= -1
  {
    var m := After(s, before);
    var e := After(m, steps);
    InitialInv(s);
    RunKeepsSchedInv(s, before);
    RunKeepsSchedInv(m, steps);
    if m.sched.info[t].period >= -1 {
      SparedRun(m, steps, t);
      ListedInTime(e, t);
    } else {
      RunGrowsLog(m, steps);
    }
  }

  /** While the thread lives no listed task is more than a second late. */
  lemma ListedInTime<T>(s: State<T>, t: T)
    requires SchedInv(s) && Listed(s.sched.list, t) && t in s.sched.info && !s.sched.sleeper.Exited?
    requires s.sched.info[t].period >= -1
    ensures s.sched.now <= s.sched.info[t].waking + 1
  {
    var i :| 0 <= i < |s.sched.list| && s.sched.list[i].value == t;
    assert s.sched.now <= s.sched.info[s.sched.list[i].value].waking + 1;
  }

  // ---------------------------------------------------------------- purely periodic tasks

  /** The seconds at which a task fired. */
  ghost function Times<T>(log: seq<Firing<T>>, t: T): seq<int> {
    if log == [] then []
    else (if log[0].task == t then [log[0].at] else []) + Times(log[1..], t)
  }

  /** The task was never fired by a value change. */
  ghost predicate PurelyPeriodic<T>(log: seq<Firing<T>>, t: T) {
    forall i :: 0 <= i < |log| && log[i].task == t ==> log[i].cause.Periodic?
  }

  lemma {:induction false} TimesConcat<T>(a: seq<Firing<T>>, b: seq<Firing<T>>, t: T)
    ensures Times(a + b, t) == Times(a, t) + Times(b, t)
  {
    if a == [] {
      assert a + b == b;
    } else {
      assert (a + b)[0] == a[0] && (a + b)[1..] == a[1..] + b;
      TimesConcat(a[1..], b, t);
      var first := if a[0].task == t then [a[0].at] else [];
      assert first + (Times(a[1..], t) + Times(b, t)) == (first + Times(a[1..], t)) + Times(b, t);
    }
  }

  lemma {:induction false} TimesOfPass<T>(fired: seq<Firing<T>>, t: T, at: int)
    requires forall k :: 0 <= k < |fired| ==> fired[k].at == at
    requires forall k, l :: 0 <= k < l < |fired| ==> fired[k].task != fired[l].task
    ensures Times(fired, t) == if FiredIn(fired, t) then [at] else []
  {
    if fired != [] {
      var rest := fired[1..];
      TimesOfPass(rest, t, at);
      if FiredIn(rest, t) {
        var k :| 0 <= k < |rest| && rest[k].task == t;
        assert fired[k + 1].task == t;
      }
      if fired[0].task != t && FiredIn(fired, t) {
        var k :| 0 <= k < |fired| && fired[k].task == t;
        assert rest[k - 1].task == t;
      }
    }
  }

  /** `k` periods after the start, with up to a second's delay each. */
  ghost predicate InWindow(at: int, start: int, period: int, k: nat) {
    start + k * period <= at <= start + k * (period + 1)
  }

  /** Where a purely periodic task stands after any prefix of a run. */
  ghost predicate OnSchedule<T>(s: State<T>, t: T)
    requires t in s.sched.info && t in s.start
  {
    var ts, p, t0 := Times(s.log, t), s.sched.info[t].period, s.start[t];
    && (forall k :: 0 <= k < |ts| ==> InWindow(ts[k], t0, p, k + 1))
    && InWindow(s.sched.info[t].waking - p, t0, p, |ts|)
  }

  ghost predicate PeriodicInv<T>(s: State<T>) {
    && (forall t :: t in s.sched.info ==> t in s.start)
    && forall t :: t in s.sched.info && s.sched.info[t].period >= -1 && PurelyPeriodic(s.log, t) ==> OnSchedule(s, t)
  }

  lemma NextWindow(waking: int, at: int, start: int, period: int, k: nat)
    requires InWindow(waking - period, start, period, k) && waking <= at <= waking + 1
    ensures InWindow(at, start, period, k + 1)
  {
    assert (k + 1) * period == k * period + period;
    assert (k + 1) * (period + 1) == k * (period + 1) + period + 1;
  }

  lemma PassKeepsPeriodic<T>(s: State<T>, n: State<T>, fired: seq<Firing<T>>)
    requires PeriodicInv(s) && Pass(s, n, fired)
    ensures PeriodicInv(n)
  {
    forall t | t in n.sched.info && n.sched.info[t].period >= -1 && PurelyPeriodic(n.log, t) ensures OnSchedule(n, t) {
      PassKeepsOnSchedule(s, n, fired, t);
    }
  }

  lemma FiredWaking(i: TaskInfo, now: int)
    ensures Fired(i, now).waking == now + i.period && Fired(i, now).period == i.period
  {
  }

  lemma FiredAt<T>(fired: seq<Firing<T>>, t: T)
    ensures FiredIn(fired, t) <==> exists k :: 0 <= k < |fired| && fired[k].task == t
  {
  }

  lemma PassKeepsOnSchedule<T>(s: State<T>, n: State<T>, fired: seq<Firing<T>>, t: T)
    requires PeriodicInv(s) && Pass(s, n, fired) && t in n.sched.info && PurelyPeriodic(n.log, t)
    requires n.sched.info[t].period >= -1
    ensures OnSchedule(n, t)
  {
    hide InWindow, Times, FiredIn, Fired;
    forall i | 0 <= i < |s.log| && s.log[i].task == t ensures s.log[i].cause.Periodic? {
      assert n.log[i] == s.log[i];
    }
    FiredWaking(s.sched.info[t], s.sched.now);
    assert OnSchedule(s, t);
    TimesConcat(s.log, fired, t);
    TimesOfPass(fired, t, s.sched.now);
    if FiredIn(fired, t) {
      assert exists k :: 0 <= k < |fired| && fired[k].task == t by {
        FiredAt(fired, t);
      }
    }
    hide PurelyPeriodic, PeriodicInv;
    if FiredIn(fired, t) {
      NextWindow(s.sched.info[t].waking, s.sched.now, s.start[t], s.sched.info[t].period, |Times(s.log, t)|);
    } else {
      assert Times(s.log, t) + [] == Times(s.log, t);
    }
  }

  lemma ChangeKeepsPeriodic<T>(s: State<T>, step: Step<T>)
    requires SchedInv(s) && PeriodicInv(s) && Enabled(s, step) && step.Change?
    ensures PeriodicInv(Next(s, step))
  {
    var n := Next(s, step);
    var task := Lookup(Observers(s, step.node), step.server).value;
    var f := Firing(task, s.sched.now, ValueChange(step.pmin));
    ExecuteInfo(s.sched, task);
    hide Execute, InWindow;
    forall t | t in n.sched.info && n.sched.info[t].period >= -1 && PurelyPeriodic(n.log, t) ensures OnSchedule(n, t) {
      assert n.log[|s.log|] == f;
      forall i | 0 <= i < |s.log| && s.log[i].task == t ensures s.log[i].cause.Periodic? {
        assert n.log[i] == s.log[i];
      }
      TimesConcat(s.log, [f], t);
      assert [f][1..] == [];
      assert Times(s.log, t) + [] == Times(s.log, t);
    }
  }

  lemma StartKeepsPeriodic<T>(s: State<T>, step: Step<T>)
    requires SchedInv(s) && LogKnown(s) && PeriodicInv(s) && Enabled(s, step)
    requires step.Observe? || step.StartUpdate?
    ensures PeriodicInv(Next(s, step))
  {
    var n := Next(s, step);
    var filled := if step.Observe? then TaskInfo(step.id, step.period, 0, 0, true, step.server, step.node)
                  else TaskInfo(step.id, step.period, 0, 0, false, step.server, ObjectNode(1));
    StartedWellFormed(s.sched, step.task, filled);
    hide Started, DistinctTasks;
    forall t | t in n.sched.info && n.sched.info[t].period >= -1 && PurelyPeriodic(n.log, t) ensures OnSchedule(n, t) {
      if t == step.task {
        NeverFired(s.log, t);
      } else {
        assert OnSchedule(s, t);
      }
    }
  }

  lemma {:induction false} NeverFired<T>(log: seq<Firing<T>>, t: T)
    requires forall i :: 0 <= i < |log| ==> log[i].task != t
    ensures Times(log, t) == []
  {
    if log != [] {
      NeverFired(log[1..], t);
    }
  }

  lemma StepKeepsPeriodic<T>(s: State<T>, step: Step<T>)
    requires SchedInv(s) && LogKnown(s) && PeriodicInv(s) && Enabled(s, step)
    ensures PeriodicInv(Next(s, step))
  {
    hide Process, Execute, DueTasks, PeriodicLog, Started, Cancel, DistinctTasks, InWindow, Times, NoLostWakeUp,
         NoneOverdue, Pass, PeriodicInv;
    match step
    case Change(_, _, _) => ChangeKeepsPeriodic(s, step);
    case Resume =>
      if !s.sched.stop {
        ResumePasses(s);
        PassKeepsPeriodic(s, Next(s, step), PeriodicLog(s.sched, DueTasks(s.sched, s.sched.list)));
      } else {
        UntouchedKeepsPeriodic(s, Next(s, step));
      }
    case Observe(_, _, _, _, _) => StartKeepsPeriodic(s, step);
    case StartUpdate(_, _, _, _) => StartKeepsPeriodic(s, step);
    case CancelObserve(node, server) =>
      CancelWellFormed(s.sched, Lookup(Observers(s, node), server).value);
      UntouchedKeepsPeriodic(s, Next(s, step));
    case StopUpdate(task) =>
      CancelWellFormed(s.sched, task);
      UntouchedKeepsPeriodic(s, Next(s, step));
    case _ => UntouchedKeepsPeriodic(s, Next(s, step));
  }

  lemma UntouchedKeepsPeriodic<T>(s: State<T>, n: State<T>)
    requires PeriodicInv(s) && n.sched.info == s.sched.info && n.log == s.log && n.start == s.start
    ensures PeriodicInv(n)
  {
    forall t | t in n.sched.info && n.sched.info[t].period >= -1 && PurelyPeriodic(n.log, t) ensures OnSchedule(n, t) {
      assert OnSchedule(s, t);
    }
  }

  lemma {:induction false} RunKeepsPeriodic<T>(s: State<T>, steps: seq<Step<T>>)
    requires SchedInv(s) && TimesInv(s) && PeriodicInv(s) && Runs(s, steps)
    ensures PeriodicInv(After(s, steps))
    decreases |steps|
  {
    hide SchedInv, TimesInv, PeriodicInv, Enabled, Next;
    if steps != [] {
      StepKeepsSchedInv(s, steps[0]);
      StepKeepsTimes(s, steps[0]);
      assert LogKnown(s) by { TimesKnown(s); }
      StepKeepsPeriodic(s, steps[0]);
      RunKeepsPeriodic(Next(s, steps[0]), steps[1..]);
    }
  }

  lemma TimesKnown<T>(s: State<T>)
    requires TimesInv(s)
    ensures LogKnown(s)
  {
  }

  /** No task fires before its start. */
  ghost predicate StartsFirst<T>(s: State<T>) {
    && (forall t :: t in s.start ==> s.start[t] <= s.sched.now)
    && (forall i :: 0 <= i < |s.log| ==> s.log[i].task in s.start && s.start[s.log[i].task] <= s.log[i].at)
  }

  lemma StepStartsFirst<T>(s: State<T>, step: Step<T>)
    requires SchedInv(s) && LogKnown(s) && StartsFirst(s) && Enabled(s, step)
    ensures StartsFirst(Next(s, step))
  {
    hide DueTasks, WellFormed, NoLostWakeUp, NoneOverdue, WithinPeriod, Listed;
  }

  lemma {:induction false} RunStartsFirst<T>(s: State<T>, steps: seq<Step<T>>)
    requires SchedInv(s) && TimesInv(s) && StartsFirst(s) && Runs(s, steps)
    ensures StartsFirst(After(s, steps))
    decreases |steps|
  {
    hide SchedInv, TimesInv, StartsFirst, Enabled, Next;
    if steps != [] {
      StepKeepsSchedInv(s, steps[0]);
      StepKeepsTimes(s, steps[0]);
      TimesKnown(s);
      StepStartsFirst(s, steps[0]);
      RunStartsFirst(Next(s, steps[0]), steps[1..]);
    }
  }

  lemma {:induction false} TimesAfter<T>(log: seq<Firing<T>>, t: T, start: int)
    requires forall i :: 0 <= i < |log| && log[i].task == t ==> start <= log[i].at
    ensures forall k :: 0 <= k < |Times(log, t)| ==> start <= Times(log, t)[k]
  {
    if log != [] {
      TimesAfter(log[1..], t, start);
    }
  }

  /**
   * The k-th firing of a task that no value change ever fired, counted from 1, lies between
   * `k` periods after its start and `k` periods and `k` seconds after it, if and only if the
   * period is at least -1; and then, while the task is listed and the thread lives, it has come
   * about once that time is over.
   */
  lemma PeriodicFiringWindow<T>(s: State<T>, steps: seq<Step<T>>, t: T, k: nat)
    requires Initial(s) && Runs(s, steps) && k >= 1
    requires t in After(s, steps).sched.info && t in After(s, steps).start
    requires PurelyPeriodic(After(s, steps).log, t)
    ensures var e := After(s, steps);
      var p, ts := e.sched.info[t].period, Times(e.log, t);
      && (k <= |ts| ==> (e.start[t] + k * p <= ts[k - 1] <= e.start[t] + k * (p + 1) <==> p >= -1))
      && (p >= -1 && Listed(e.sched.list, t) && !e.sched.sleeper.Exited? && e.sched.now > e.start[t] + k * (p + 1) ==>
            k <= |ts|)
  {
    InitialInv(s);
    RunKeepsPeriodic(s, steps);
    RunKeepsSchedInv(s, steps);
    RunStartsFirst(s, steps);
    var e := After(s, steps);
    var p, ts := e.sched.info[t].period, Times(e.log, t);
    TimesAfter(e.log, t, e.start[t]);
    hide Times, PurelyPeriodic, InWindow, Listed;
    if p >= -1 {
      assert OnSchedule(e, t);
      if k <= |ts| {
        assert InWindow(ts[k - 1], e.start[t], p, (k - 1) + 1);
        WindowBounds(ts[k - 1], e.start[t], p, k);
      }
      if Listed(e.sched.list, t) && !e.sched.sleeper.Exited? {
        ListedInTime(e, t);
        WindowOver(e.sched.now, e.sched.info[t].waking, e.start[t], p, |ts|, k);
      }
    } else {
      assert k * (p + 1) <= 1 * (p + 1);
    }
  }

  lemma WindowBounds(at: int, start: int, period: int, k: nat)
    requires InWindow(at, start, period, k)
    ensures start + k * period <= at <= start + k * (period + 1)
  {
  }

  lemma MoreFactors(n: nat, k: nat, factor: int)
    requires n <= k && factor >= 0
    ensures n * factor <= k * factor
  {
  }

  /** A task in time after `n` firings has seen no window close but those. */
  lemma WindowOver(now: int, waking: int, start: int, period: int, n: nat, k: nat)
    requires InWindow(waking - period, start, period, n) && now <= waking + 1 && period >= -1
    ensures now > start + k * (period + 1) ==> k <= n
  {
    var length := period + 1;
    assert now <= start + n * length + length;
    assert (n + 1) * length == n * length + length;
    if n + 1 <= k {
      MoreFactors(n + 1, k, length);
    }
  }
}
