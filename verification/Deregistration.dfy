/**
 * Requests and deregistration of one server: any number of threads that receive its requests
 * and of threads that deregister it, interleaved at every step they take around the server's
 * mutex. `T` stands for threads.
 */
module Deregistration {
  import opened Wrappers

  /** Where a thread is in `receive_request`, or in `deregister_on_server`. */
  datatype Place =
    | RequestReady | Entered | Counted | Handling | Answered | Rejecting
    | DeregisterReady | Testing | Waiting | Woken | Clearing
    | Leaving | Gone

  /** A request reached its handler; the registration ended. */
  datatype Event<T> = Handled(thread: T) | Ended(thread: T)

  datatype State<T> = State(
    mutex: Option<T>, pending: int, registerState: int, at: map<T, Place>, log: seq<Event<T>>)

  datatype Step<T> =
    | Receive(thread: T)
    | Deregister(thread: T)
    | Lock(thread: T)
    | Count(thread: T)
    | Check(thread: T)
    | Answer(thread: T)
    | Uncount(thread: T, woken: Option<T>)
    | TestPending(thread: T)
    | WakeUp(thread: T)
    | Clear(thread: T)
    | Unlock(thread: T)

  function Initial<T>(): State<T> {
    State(None, 0, 1, map[], [])
  }

  predicate IsAt<T(==)>(s: State<T>, t: T, p: Place) {
    t in s.at && s.at[t] == p
  }

  predicate Enabled<T(==)>(s: State<T>, step: Step<T>) {
    match step
    case Receive(t) => t !in s.at
    case Deregister(t) => t !in s.at
    case Lock(t) => s.mutex.None? && (IsAt(s, t, RequestReady) || IsAt(s, t, DeregisterReady) || IsAt(s, t, Woken))
    case Count(t) => IsAt(s, t, Entered)
    case Check(t) => IsAt(s, t, Counted)
    case Answer(t) => IsAt(s, t, Handling)
    case Uncount(t, woken) =>
      && (IsAt(s, t, Answered) || IsAt(s, t, Rejecting))
      && (woken.Some? ==> s.pending == 1 && IsAt(s, woken.value, Waiting))
    case TestPending(t) => IsAt(s, t, Testing)
    case WakeUp(t) => IsAt(s, t, Waiting)
    case Clear(t) => IsAt(s, t, Clearing)
    case Unlock(t) => IsAt(s, t, Leaving)
  }

  function Move<T>(s: State<T>, t: T, p: Place): State<T> {
    s.(at := s.at[t := p])
  }

  function Next<T(==)>(s: State<T>, step: Step<T>): State<T>
    requires Enabled(s, step)
  {
    match step
    case Receive(t) => Move(s, t, RequestReady)
    case Deregister(t) => Move(s, t, DeregisterReady)
    case Lock(t) => Move(s, t, if s.at[t] == RequestReady then Entered else Testing).(mutex := Some(t))
    case Count(t) => Move(s, t, Counted).(pending := s.pending + 1)
    case Check(t) =>
      if s.registerState == 1 then Move(s, t, Handling).(log := s.log + [Handled(t)]) else Move(s, t, Rejecting)
    case Answer(t) => Move(s, t, Answered)
    case Uncount(t, woken) =>
      var left := Move(s, t, Leaving).(pending := s.pending - 1);
      if woken.Some? then Move(left, woken.value, Woken) else left
    case TestPending(t) =>
      if s.pending > 0 then Move(s, t, Waiting).(mutex := None) else Move(s, t, Clearing)
    case WakeUp(t) => Move(s, t, Woken)
    case Clear(t) => Move(s, t, Leaving).(registerState := 0, log := s.log + [Ended(t)])
    case Unlock(t) => Move(s, t, Gone).(mutex := None)
  }

  predicate Runs<T(==)>(s: State<T>, steps: seq<Step<T>>)
    decreases |steps|
  {
    steps == [] || (Enabled(s, steps[0]) && Runs(Next(s, steps[0]), steps[1..]))
  }

  function After<T(==)>(s: State<T>, steps: seq<Step<T>>): State<T>
    requires Runs(s, steps)
    decreases |steps|
  {
    if steps == [] then s else After(Next(s, steps[0]), steps[1..])
  }

  // ---------------------------------------------------------------- what the mutex protects

  predicate Holds(p: Place) {
    match p
    case RequestReady => false
    case DeregisterReady => false
    case Waiting => false
    case Woken => false
    case Gone => false
    case _ => true
  }

  /** The requests a thread at this place has counted and not yet taken back. */
  function Counts(p: Place): int {
    if p == Counted || p == Handling || p == Answered || p == Rejecting then 1 else 0
  }

  /** `server_mutex` is held by exactly the thread inside, and only that one can have a request pending. */
  predicate MutexInv<T(==)>(s: State<T>) {
    && (forall t :: t in s.at ==> (Holds(s.at[t]) <==> s.mutex == Some(t)))
    && (s.mutex.Some? ==> s.mutex.value in s.at)
    && s.pending == (if s.mutex.None? then 0 else Counts(s.at[s.mutex.value]))
  }

  /** The registration ends by a logged event, and no request is handled after that. */
  predicate LogInv<T(==)>(s: State<T>) {
    && (s.registerState == 1 <==> forall k :: 0 <= k < |s.log| ==> s.log[k].Handled?)
    && (forall j, k :: 0 <= j < k < |s.log| && s.log[j].Ended? ==> !s.log[k].Handled?)
  }

  /** No thread ever sleeps on the condition: when one looks, no request can be pending. */
  predicate NoneWaits<T(==)>(s: State<T>) {
    forall t :: t in s.at ==> s.at[t] != Waiting && s.at[t] != Woken
  }

  /** A request in its handler, or answered and not yet taken back, finds its server registered. */
  predicate HandledWhileRegistered<T(==)>(s: State<T>) {
    forall t :: t in s.at && (s.at[t] == Handling || s.at[t] == Answered) ==> s.registerState == 1
  }

  lemma StepKeepsHandled<T>(s: State<T>, step: Step<T>)
    requires MutexInv(s) && HandledWhileRegistered(s) && Enabled(s, step)
    ensures HandledWhileRegistered(Next(s, step))
  {
    var n := Next(s, step);
    forall t | t in n.at && (n.at[t] == Handling || n.at[t] == Answered) ensures n.registerState == 1 {
      if step.Clear? {
        assert false;
      }
    }
  }

  lemma StepKeepsMutexInv<T>(s: State<T>, step: Step<T>)
    requires MutexInv(s) && NoneWaits(s) && Enabled(s, step)
    ensures MutexInv(Next(s, step))
  {
  }

  lemma StepKeepsNoneWaiting<T>(s: State<T>, step: Step<T>)
    requires MutexInv(s) && NoneWaits(s) && Enabled(s, step)
    ensures NoneWaits(Next(s, step))
  {
  }

  lemma StepKeepsLogInv<T>(s: State<T>, step: Step<T>)
    requires LogInv(s) && Enabled(s, step)
    ensures LogInv(Next(s, step))
  {
    var n := Next(s, step);
    if n.log != s.log {
      assert n.log[|s.log|].Handled? <==> step.Check?;
      assert forall k :: 0 <= k < |s.log| ==> n.log[k] == s.log[k];
    }
  }

  lemma {:induction false} RunKeepsInv<T>(s: State<T>, steps: seq<Step<T>>)
    requires MutexInv(s) && NoneWaits(s) && LogInv(s) && HandledWhileRegistered(s) && Runs(s, steps)
    ensures MutexInv(After(s, steps)) && NoneWaits(After(s, steps))
    ensures LogInv(After(s, steps)) && HandledWhileRegistered(After(s, steps))
    decreases |steps|
  {
    if steps != [] {
      StepKeepsMutexInv(s, steps[0]);
      StepKeepsNoneWaiting(s, steps[0]);
      StepKeepsLogInv(s, steps[0]);
      StepKeepsHandled(s, steps[0]);
      RunKeepsInv(Next(s, steps[0]), steps[1..]);
    }
  }

  /**
   * In every reachable state: with the mutex free no request is pending, at most one ever is,
   * a request being handled finds its server registered, and no deregistration has had to wait.
   */
  lemma DeregistrationIsSafe<T>(steps: seq<Step<T>>)
    requires Runs(Initial<T>(), steps)
    ensures var s := After(Initial<T>(), steps);
      && (s.mutex.None? ==> s.pending == 0)
      && 0 <= s.pending <= 1
      && (forall t :: t in s.at && s.at[t] == Handling ==> s.registerState == 1)
      && (forall t :: t in s.at ==> s.at[t] != Waiting)
  {
    RunKeepsInv(Initial<T>(), steps);
  }

  /** Once the registration has ended, no later request reaches a handler. */
  lemma NoHandlerAfterEnd<T>(before: seq<Step<T>>, after: seq<Step<T>>)
    requires Runs(Initial<T>(), before) && After(Initial<T>(), before).registerState != 1
    requires Runs(After(Initial<T>(), before), after)
    ensures var s, n := After(Initial<T>(), before), After(After(Initial<T>(), before), after);
      && n.registerState != 1
      && s.log <= n.log
      && forall k :: |s.log| <= k < |n.log| ==> !n.log[k].Handled?
  {
    var s := After(Initial<T>(), before);
    RunKeepsInv(Initial<T>(), before);
    RunKeepsInv(s, after);
    LogGrows(s, after);
    var n := After(s, after);
    var j :| 0 <= j < |s.log| && !s.log[j].Handled?;
    assert n.log[j] == s.log[j];
  }

  lemma {:induction false} LogGrows<T>(s: State<T>, steps: seq<Step<T>>)
    requires Runs(s, steps)
    ensures s.log <= After(s, steps).log
    decreases |steps|
  {
    if steps != [] {
      LogGrows(Next(s, steps[0]), steps[1..]);
    }
  }

  // ---------------------------------------------------------------- requests are handled

  /** How often a thread's request was handled. */
  function Handlings<T(==)>(s: State<T>, t: T): nat {
    multiset(s.log)[Handled(t)]
  }

  /** A thread that has not got to its handler yet, or is a deregistration. */
  predicate NotHandled(p: Place) {
    match p
    case Handling => false
    case Answered => false
    case Leaving => false
    case Gone => false
    case _ => true
  }

  predicate OnlyInsideHandled<T(==)>(s: State<T>, t: T) {
    t !in s.at || NotHandled(s.at[t]) ==> Handlings(s, t) == 0
  }

  lemma LogCounts<T>(log: seq<Event<T>>, e: Event<T>, t: T)
    ensures multiset(log + [e])[Handled(t)] == multiset(log)[Handled(t)] + if e == Handled(t) then 1 else 0
  {
  }

  /** Only its own check can add to a thread's handlings. */
  lemma HandlingsNext<T>(s: State<T>, step: Step<T>, t: T)
    requires Enabled(s, step)
    ensures Handlings(Next(s, step), t) ==
            Handlings(s, t) + if step == Check(t) && s.registerState == 1 then 1 else 0
  {
    match step
    case Check(u) => LogCounts(s.log, Handled(u), t);
    case Clear(u) => LogCounts(s.log, Ended(u), t);
    case _ =>
  }

  lemma StepKeepsOnlyInside<T>(s: State<T>, step: Step<T>, t: T)
    requires OnlyInsideHandled(s, t) && Enabled(s, step)
    ensures OnlyInsideHandled(Next(s, step), t)
  {
    HandlingsNext(s, step, t);
    hide Handlings;
  }

  lemma {:induction false} RunKeepsOnlyInside<T>(s: State<T>, steps: seq<Step<T>>, t: T)
    requires OnlyInsideHandled(s, t) && Runs(s, steps)
    ensures OnlyInsideHandled(After(s, steps), t)
    decreases |steps|
  {
    hide OnlyInsideHandled, Enabled, Next;
    if steps != [] {
      StepKeepsOnlyInside(s, steps[0], t);
      RunKeepsOnlyInside(Next(s, steps[0]), steps[1..], t);
    }
  }

  /** Where a request stands that took the mutex while its server was registered, or was not. */
  predicate HandledIf<T(==)>(s: State<T>, t: T, registered: bool) {
    t in s.at &&
    match s.at[t]
    case Entered => Handlings(s, t) == 0 && (s.registerState == 1 <==> registered)
    case Counted => Handlings(s, t) == 0 && (s.registerState == 1 <==> registered)
    case Handling => Handlings(s, t) == 1 && registered
    case Answered => Handlings(s, t) == 1 && registered
    case Rejecting => Handlings(s, t) == 0 && !registered
    case Leaving => Handlings(s, t) == if registered then 1 else 0
    case Gone => Handlings(s, t) == if registered then 1 else 0
    case _ => false
  }

  /** What a step does to a thread that holds the mutex or is done with it: another thread's, nothing. */
  lemma StepPlaces<T>(s: State<T>, step: Step<T>, t: T)
    requires MutexInv(s) && Enabled(s, step) && t in s.at && (Holds(s.at[t]) || s.at[t] == Gone)
    ensures var n := Next(s, step);
      && t in n.at
      && (step.thread != t ==> n.at[t] == s.at[t] && (Holds(s.at[t]) ==> n.registerState == s.registerState))
      && (step.thread == t ==>
            match step
            case Count(_) => s.at[t] == Entered && n.at[t] == Counted && n.registerState == s.registerState
            case Check(_) => s.at[t] == Counted && n.at[t] == if s.registerState == 1 then Handling else Rejecting
            case Answer(_) => s.at[t] == Handling && n.at[t] == Answered
            case Uncount(_, _) => (s.at[t] == Answered || s.at[t] == Rejecting) && n.at[t] == Leaving
            case Unlock(_) => s.at[t] == Leaving && n.at[t] == Gone
            case _ => s.at[t] == Testing || s.at[t] == Clearing)
  {
  }

  lemma StepKeepsHandledIf<T>(s: State<T>, step: Step<T>, t: T, registered: bool)
    requires MutexInv(s) && HandledIf(s, t, registered) && Enabled(s, step)
    ensures HandledIf(Next(s, step), t, registered)
  {
    HandlingsNext(s, step, t);
    StepPlaces(s, step, t);
    hide Handlings, MutexInv, Enabled, Next;
  }

  lemma {:induction false} RunKeepsHandledIf<T>(s: State<T>, steps: seq<Step<T>>, t: T, registered: bool)
    requires MutexInv(s) && NoneWaits(s) && HandledIf(s, t, registered) && Runs(s, steps)
    ensures HandledIf(After(s, steps), t, registered)
    decreases |steps|
  {
    hide MutexInv, NoneWaits, HandledIf, Enabled, Next;
    if steps != [] {
      StepKeepsMutexInv(s, steps[0]);
      StepKeepsNoneWaiting(s, steps[0]);
      StepKeepsHandledIf(s, steps[0], t, registered);
      RunKeepsHandledIf(Next(s, steps[0]), steps[1..], t, registered);
    }
  }

  /**
   * A request that takes the mutex is handled, exactly once, if and only if no deregistration has
   * ended the registration before: so it is at every later time, from the check of the
   * registration on, whatever other threads do; and the way to that check is open.
   */
  lemma HandledExactlyOnce<T>(before: seq<Step<T>>, after: seq<Step<T>>, t: T)
    requires Runs(Initial<T>(), before) && IsAt(After(Initial<T>(), before), t, RequestReady)
    requires Enabled(After(Initial<T>(), before), Lock(t))
    requires Runs(Next(After(Initial<T>(), before), Lock(t)), after)
    ensures var s := After(Initial<T>(), before);
      var e := After(Next(s, Lock(t)), after);
      var registered := forall k :: 0 <= k < |s.log| ==> !s.log[k].Ended?;
      && t in e.at
      && (e.at[t] == Entered ==> Handlings(e, t) == 0 && Enabled(e, Count(t)))
      && (e.at[t] == Counted ==>
            && Handlings(e, t) == 0 && Enabled(e, Check(t))
            && Handlings(Next(e, Check(t)), t) == if registered then 1 else 0)
      && (e.at[t] != Entered && e.at[t] != Counted ==> Handlings(e, t) == if registered then 1 else 0)
  {
    var s := After(Initial<T>(), before);
    RunKeepsInv(Initial<T>(), before);
    RunKeepsOnlyInside(Initial<T>(), before, t);
    var n := Next(s, Lock(t));
    var registered := s.registerState == 1;
    StepKeepsMutexInv(s, Lock(t));
    StepKeepsNoneWaiting(s, Lock(t));
    assert HandledIf(n, t, registered);
    assert registered <==> forall k :: 0 <= k < |s.log| ==> !s.log[k].Ended?;
    RunKeepsHandledIf(n, after, t, registered);
    var e := After(n, after);
    if e.at[t] == Counted {
      LogCounts(e.log, Handled(t), t);
    }
  }

  // ---------------------------------------------------------------- the mutex is given back

  /** How far the thread that holds the mutex is from giving it back. */
  function StepsLeft(p: Place): nat {
    match p
    case Entered => 5
    case Counted => 4
    case Handling => 3
    case Answered => 2
    case Rejecting => 2
    case Testing => 3
    case Clearing => 2
    case Leaving => 1
    case _ => 0
  }

  /** What it does next. */
  function HoldersStep<T>(t: T, p: Place): Step<T> {
    match p
    case Entered => Count(t)
    case Counted => Check(t)
    case Handling => Answer(t)
    case Answered => Uncount(t, None)
    case Rejecting => Uncount(t, None)
    case Testing => TestPending(t)
    case Clearing => Clear(t)
    case _ => Unlock(t)
  }

  lemma HolderSteps<T>(s: State<T>, t: T)
    requires MutexInv(s) && NoneWaits(s) && s.mutex == Some(t)
    ensures t in s.at
    ensures var step := HoldersStep(t, s.at[t]);
      && Enabled(s, step)
      && var n := Next(s, step);
        (n.mutex == None && n.at == s.at[t := Gone]) ||
        (n.mutex == Some(t) && t in n.at && n.at == s.at[t := n.at[t]] && StepsLeft(n.at[t]) < StepsLeft(s.at[t]))
  {
  }

  lemma FirstStep<T>(s: State<T>, step: Step<T>, rest: seq<Step<T>>)
    requires Enabled(s, step) && Runs(Next(s, step), rest)
    ensures Runs(s, [step] + rest) && After(s, [step] + rest) == After(Next(s, step), rest)
  {
    assert ([step] + rest)[1..] == rest;
  }

  /** The holder alone gives the mutex back, and is done. */
  lemma {:induction false} HolderFinishes<T>(s: State<T>, t: T) returns (steps: seq<Step<T>>)
    requires MutexInv(s) && NoneWaits(s) && s.mutex == Some(t)
    ensures t in s.at && Runs(s, steps)
    ensures After(s, steps).mutex == None && After(s, steps).at == s.at[t := Gone]
    decreases StepsLeft(s.at[t])
  {
    HolderSteps(s, t);
    var step := HoldersStep(t, s.at[t]);
    var n := Next(s, step);
    StepKeepsMutexInv(s, step);
    StepKeepsNoneWaiting(s, step);
    hide MutexInv, NoneWaits, Enabled, Next, HoldersStep;
    if n.mutex == None {
      FirstStep(s, step, []);
      steps := [step] + [];
    } else {
      var rest := HolderFinishes(n, t);
      FirstStep(s, step, rest);
      steps := [step] + rest;
      assert s.at[t := n.at[t]][t := Gone] == s.at[t := Gone];
    }
  }

  /**
   * Nothing gets stuck around the mutex: from every reachable state each request and each
   * deregistration under way, holding it or not, can be brought to its end.
   */
  lemma EveryThreadCanFinish<T>(before: seq<Step<T>>, t: T) returns (steps: seq<Step<T>>)
    requires Runs(Initial<T>(), before) && t in After(Initial<T>(), before).at
    ensures Runs(After(Initial<T>(), before), steps)
    ensures IsAt(After(After(Initial<T>(), before), steps), t, Gone)
  {
    var s := After(Initial<T>(), before);
    RunKeepsInv(Initial<T>(), before);
    steps := Freed(s);
    var f := After(s, steps);
    RunKeepsSome(s, steps, t);
    RunKeepsInv(s, steps);
    if f.at[t] != Gone {
      assert IsAt(f, t, RequestReady) || IsAt(f, t, DeregisterReady);
      var n := Next(f, Lock(t));
      StepKeepsMutexInv(f, Lock(t));
      StepKeepsNoneWaiting(f, Lock(t));
      var rest := HolderFinishes(n, t);
      FirstStep(f, Lock(t), rest);
      RunOn(s, steps, [Lock(t)] + rest);
      steps := steps + ([Lock(t)] + rest);
    }
  }

  lemma Freed<T>(s: State<T>) returns (steps: seq<Step<T>>)
    requires MutexInv(s) && NoneWaits(s)
    ensures Runs(s, steps) && After(s, steps).mutex == None
  {
    if s.mutex.Some? {
      steps := HolderFinishes(s, s.mutex.value);
    } else {
      steps := [];
    }
  }

  lemma {:induction false} RunKeepsSome<T>(s: State<T>, steps: seq<Step<T>>, t: T)
    requires Runs(s, steps) && t in s.at
    ensures t in After(s, steps).at
    decreases |steps|
  {
    if steps != [] {
      RunKeepsSome(Next(s, steps[0]), steps[1..], t);
    }
  }

  lemma {:induction false} RunOn<T>(s: State<T>, steps: seq<Step<T>>, more: seq<Step<T>>)
    requires Runs(s, steps) && Runs(After(s, steps), more)
    ensures Runs(s, steps + more) && After(s, steps + more) == After(After(s, steps), more)
    decreases |steps|
  {
    hide Enabled, Next;
    if steps == [] {
      assert steps + more == more;
    } else {
      RunOn(Next(s, steps[0]), steps[1..], more);
      assert steps + more == [steps[0]] + (steps[1..] + more);
      FirstStep(s, steps[0], steps[1..] + more);
    }
  }
}
