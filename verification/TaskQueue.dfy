/** The database task queue of src/databasetasks.cpp: adders, one worker and flushes around one lock. */
module TaskQueue {

  // Any number of threads add tasks; one worker and the flushes of a save or of the
  // shutdown take them. A section under the lock is one step, a wait gives the lock up, and
  // a notification wakes the worker only if it is waiting at that moment. Threads take their
  // steps in any order, and a waiting worker may wake for no reason.

  /** A query to run; its callback is left out. */
  datatype Task = Task(query: string, store: bool)

  datatype Adder = Quiet | Notifying

  /** Around the loop of threadMain; Woken is past its wait but not yet back under the lock. */
  datatype Worker = Checking | Locking | Waiting | Woken | Stopped

  datatype Shutdown = NotCalled | Flushing | Signalling | Finished

  /** `accepted` and `taken` are histories: tasks in the order of their push and of their pop. */
  datatype State = State(
    running: bool,
    tasks: seq<Task>,
    adders: seq<Adder>,
    worker: Worker,
    shutdown: Shutdown,
    accepted: seq<Task>,
    taken: seq<Task>)

  datatype Action =
    | Add(adder: nat, task: Task)     // the locked section of addTask
    | Notify(adder: nat)           // notify_one behind it
    | Work                         // the worker's next step
    | WakeUp                       // a spurious wake-up
    | Stop                         // the locked section of shutdown
    | FlushNext                    // one round of the shutdown's flush
    | SaveFlush                    // one round of a flush that saves the game meanwhile
    | SignalStop                   // the last notify_one of shutdown

  function Init(adders: nat): State {
    State(true, [], seq(adders, _ => Quiet), Checking, NotCalled, [], [])
  }

  function PopFront(s: State): State
    requires s.tasks != []
  {
    s.(tasks := s.tasks[1..], taken := s.taken + [s.tasks[0]])
  }

  function Notified(w: Worker): Worker {
    if w.Waiting? then Woken else w
  }

  /** The worker under the lock, before or after its wait. */
  function Serve(s: State, mayWait: bool): State {
    if s.tasks != [] then PopFront(s).(worker := Checking)
    else if mayWait then s.(worker := Waiting)
    else s.(worker := Checking)
  }

  function Step(s: State, a: Action): State {
    match a
    case Add(i, task) =>
      if i >= |s.adders| || !s.adders[i].Quiet? || !s.running then s
      else s.(tasks := s.tasks + [task], accepted := s.accepted + [task],
              adders := if s.tasks == [] then s.adders[i := Notifying] else s.adders)
    case Notify(i) =>
      if i >= |s.adders| || !s.adders[i].Notifying? then s
      else s.(adders := s.adders[i := Quiet], worker := Notified(s.worker))
    case Work =>
      (match s.worker
       case Checking => s.(worker := if s.running then Locking else Stopped)
       case Locking => Serve(s, true)
       case Woken => Serve(s, false)
       case _ => s)
    case WakeUp => s.(worker := Notified(s.worker))
    case Stop => if s.shutdown.NotCalled? then s.(running := false, shutdown := Flushing) else s
    case FlushNext =>
      if !s.shutdown.Flushing? then s
      else if s.tasks != [] then PopFront(s)
      else s.(shutdown := Signalling)
    case SaveFlush => if s.tasks != [] then PopFront(s) else s
    case SignalStop =>
      if s.shutdown.Signalling? then s.(shutdown := Finished, worker := Notified(s.worker)) else s
  }

  function Exec(adders: nat, schedule: seq<Action>): State {
    if schedule == [] then Init(adders)
    else Step(Exec(adders, schedule[..|schedule| - 1]), schedule[|schedule| - 1])
  }

  // --------------------------------------------------------------------------------
  // The invariant
  // --------------------------------------------------------------------------------

  ghost predicate SomeoneNotifies(adders: seq<Adder>) {
    exists i :: 0 <= i < |adders| && adders[i].Notifying?
  }

  /** The flush of the shutdown has ended. */
  predicate Flushed(s: State) {
    s.shutdown.Signalling? || s.shutdown.Finished?
  }

  ghost predicate Inv(s: State) {
    && s.taken + s.tasks == s.accepted
    && (s.running <==> s.shutdown.NotCalled?)
    && (Flushed(s) ==> s.tasks == [])
    && (s.running && s.worker.Waiting? && s.tasks != [] ==> SomeoneNotifies(s.adders))
  }

  lemma PopKeeps(s: State)
    requires s.taken + s.tasks == s.accepted && s.tasks != []
    ensures PopFront(s).taken + PopFront(s).tasks == s.accepted
  {
    assert s.tasks == [s.tasks[0]] + s.tasks[1..];
  }

  lemma StepKeeps(s: State, a: Action)
    requires Inv(s)
    ensures Inv(Step(s, a))
  {
    if s.tasks != [] {
      PopKeeps(s);
    }
    match a
    case Add(i, task) =>
      assert s.taken + (s.tasks + [task]) == s.accepted + [task];
      if i < |s.adders| {
        assert s.adders[i := Notifying][i].Notifying?;
      }
    case _ =>
  }

  lemma {:induction false} ExecKeeps(adders: nat, schedule: seq<Action>)
    ensures Inv(Exec(adders, schedule)) && |Exec(adders, schedule).adders| == adders
  {
    if schedule != [] {
      ExecKeeps(adders, schedule[..|schedule| - 1]);
      StepKeeps(Exec(adders, schedule[..|schedule| - 1]), schedule[|schedule| - 1]);
    }
  }

  // --------------------------------------------------------------------------------
  // What holds in every run
  // --------------------------------------------------------------------------------

  /** Every accepted task has been taken exactly once or is still queued, and tasks are taken in the order they came. */
  lemma TakenOnceInOrder(adders: nat, schedule: seq<Action>)
    ensures var s := Exec(adders, schedule);
            s.accepted == s.taken + s.tasks && (Flushed(s) ==> s.taken == s.accepted)
  {
    ExecKeeps(adders, schedule);
    var s := Exec(adders, schedule);
    assert s.tasks == [] ==> s.taken + s.tasks == s.taken;
  }

  lemma ExecLast(adders: nat, before: seq<Action>, a: Action)
    ensures Exec(adders, before + [a]) == Step(Exec(adders, before), a)
  {
    assert (before + [a])[..|before|] == before;
  }

  lemma FlushedStep(s: State, a: Action)
    requires Inv(s) && Flushed(s)
    ensures var t := Step(s, a); Flushed(t) && t.tasks == [] && t.accepted == s.accepted && t.taken == s.taken
  {
  }

  /** Once the flush has ended nothing is queued, accepted or taken any more. */
  lemma {:induction false} QuietAfterFlush(adders: nat, schedule: seq<Action>, more: seq<Action>)
    requires Flushed(Exec(adders, schedule))
    ensures var s, t := Exec(adders, schedule), Exec(adders, schedule + more);
            Flushed(t) && t.tasks == [] && t.accepted == s.accepted && t.taken == s.taken
  {
    if more == [] {
      ExecKeeps(adders, schedule);
      assert schedule + more == schedule;
    } else {
      var before, a := more[..|more| - 1], more[|more| - 1];
      QuietAfterFlush(adders, schedule, before);
      ExecKeeps(adders, schedule + before);
      FlushedStep(Exec(adders, schedule + before), a);
      ExecLast(adders, schedule + before, a);
      assert schedule + more == (schedule + before) + [a];
    }
  }

  /** While running, the worker sleeps beside queued tasks only if some thread is about to notify it. */
  lemma NoLostWakeup(adders: nat, schedule: seq<Action>)
    ensures var s := Exec(adders, schedule);
            s.running && s.worker.Waiting? && s.tasks != [] ==> SomeoneNotifies(s.adders)
  {
    ExecKeeps(adders, schedule);
  }

  /** That notification, or any other, gets the worker up, and it takes the oldest task next. */
  lemma NotifiedWorkerServes(s: State, i: nat)
    requires Inv(s) && i < |s.adders| && s.adders[i].Notifying? && s.worker.Waiting? && s.tasks != []
    ensures var t := Step(Step(s, Notify(i)), Work);
            t.taken == s.taken + [s.tasks[0]] && t.tasks == s.tasks[1..] && t.worker.Checking?
  {
  }

  /** A task is refused exactly when the shutdown has begun. */
  lemma RefusedIffStopped(adders: nat, schedule: seq<Action>, i: nat, task: Task)
    requires i < |Exec(adders, schedule).adders| && Exec(adders, schedule).adders[i].Quiet?
    ensures var s := Exec(adders, schedule);
            Step(s, Add(i, task)).accepted == (if s.shutdown.NotCalled? then s.accepted + [task] else s.accepted)
  {
    ExecKeeps(adders, schedule);
  }

  // --------------------------------------------------------------------------------
  // When the worker sees the stop. It reads the state outside the lock, so it can go to
  // sleep after the shutdown's last notification.
  // --------------------------------------------------------------------------------

  /** On the way to its next look at the state, or past it. */
  predicate Seeing(w: Worker) {
    w.Woken? || w.Checking? || w.Stopped?
  }

  /** A wake-up that reaches a waiting worker: a spurious one, or that of an adder that still owes its notification. */
  predicate Pokes(s: State, a: Action) {
    match a
    case WakeUp => s.worker.Waiting?
    case Notify(i) => i < |s.adders| && s.adders[i].Notifying? && s.worker.Waiting?
    case _ => false
  }

  function Run(s: State, more: seq<Action>): State
    decreases |more|
  {
    if more == [] then s else Run(Step(s, more[0]), more[1..])
  }

  /** Some action of the run is such a wake-up. */
  predicate Poked(s: State, more: seq<Action>)
    decreases |more|
  {
    more != [] && (Pokes(s, more[0]) || Poked(Step(s, more[0]), more[1..]))
  }

  /** How many steps the worker is given. */
  function Works(more: seq<Action>): nat {
    if more == [] then 0 else (if more[0].Work? then 1 else 0) + Works(more[1..])
  }

  /** After the shutdown's last notification one step changes the worker's prospects only by waking it. */
  lemma SeeingStep(s: State, a: Action)
    requires Inv(s) && s.shutdown.Finished?
    ensures Step(s, a).shutdown.Finished?
    ensures Seeing(Step(s, a).worker) <==> Seeing(s.worker) || Pokes(s, a)
  {
  }

  /**
   Whatever happens after the shutdown's last notification, the worker is on its way to see the stop
   if and only if it already was, or a wake-up reaches it.
   */
  lemma {:induction false} StopSeenExactly(s: State, more: seq<Action>)
    requires Inv(s) && s.shutdown.Finished?
    ensures Seeing(Run(s, more).worker) <==> Seeing(s.worker) || Poked(s, more)
    decreases |more|
  {
    if more != [] {
      SeeingStep(s, more[0]);
      StepKeeps(s, more[0]);
      StopSeenExactly(Step(s, more[0]), more[1..]);
    }
  }

  /** Two more steps then take it out of its loop, in whatever company; without any it stays asleep. */
  lemma {:induction false} SeeingStops(s: State, more: seq<Action>)
    requires Inv(s) && s.shutdown.Finished? && Seeing(s.worker)
    requires Works(more) >= (if s.worker.Woken? then 2 else if s.worker.Checking? then 1 else 0)
    ensures Run(s, more).worker.Stopped?
    decreases |more|
  {
    if more != [] {
      SeeingStep(s, more[0]);
      StepKeeps(s, more[0]);
      SeeingStops(Step(s, more[0]), more[1..]);
    }
  }

  /**
   Over every schedule: the worker that the last notification finds between its look at the state and
   its wait misses the stop, and no other does. Given its steps, it stops exactly if it did not miss it,
   as long as no wake-up reaches it.
   */
  lemma StopMissedExactly(adders: nat, schedule: seq<Action>, more: seq<Action>)
    requires Exec(adders, schedule).shutdown.Signalling?
    requires var t := Step(Exec(adders, schedule), SignalStop); Works(more) >= 2 && !Poked(t, more)
    ensures var s := Exec(adders, schedule);
            Run(Step(s, SignalStop), more).worker.Stopped? <==> !s.worker.Locking?
  {
    ExecKeeps(adders, schedule);
    var s := Exec(adders, schedule);
    var t := Step(s, SignalStop);
    StepKeeps(s, SignalStop);
    StopSeenExactly(t, more);
    if Seeing(t.worker) {
      SeeingStops(t, more);
    }
  }

  /** An adder that still owes its notification makes up for the missed one, and so does a spurious wake-up. */
  lemma PokedStops(s: State, a: Action, more: seq<Action>)
    requires Inv(s) && s.shutdown.Finished? && Pokes(s, a) && Works(more) >= 2
    ensures Run(s, [a] + more).worker.Stopped?
  {
    StepKeeps(s, a);
    SeeingStep(s, a);
    SeeingStops(Step(s, a), more);
    assert ([a] + more)[1..] == more;
  }

  /** Missing it happens: no task is left behind, but the worker does not see the stop by itself. */
  lemma StopCanBeMissed(adders: nat)
    ensures var s := Exec(adders, [Work, Stop, FlushNext]);
            s.shutdown.Signalling? && s.worker.Locking? && s.tasks == []
    ensures forall more :: Works(more) >= 2 && !Poked(Step(Exec(adders, [Work, Stop, FlushNext]), SignalStop), more) ==>
              !Run(Step(Exec(adders, [Work, Stop, FlushNext]), SignalStop), more).worker.Stopped?
  {
    var a0: seq<Action> := [];
    var a1 := [Work];
    var a2 := [Work, Stop];
    var a3 := [Work, Stop, FlushNext];
    assert a1[..0] == a0 && a2[..1] == a1 && a3[..2] == a2;
    assert Exec(adders, a1) == Step(Exec(adders, a0), Work);
    assert Exec(adders, a2) == Step(Exec(adders, a1), Stop);
    assert Exec(adders, a3) == Step(Exec(adders, a2), FlushNext);
    forall more | Works(more) >= 2 && !Poked(Step(Exec(adders, a3), SignalStop), more)
      ensures !Run(Step(Exec(adders, a3), SignalStop), more).worker.Stopped?
    {
      StopMissedExactly(adders, a3, more);
    }
  }

  // --------------------------------------------------------------------------------
  // The worker and the flush get through
  // --------------------------------------------------------------------------------

  /** While running, the worker stays in its loop. */
  lemma {:induction false} StaysInLoop(adders: nat, schedule: seq<Action>)
    ensures var s := Exec(adders, schedule); s.running ==> !s.worker.Stopped?
  {
    if schedule != [] {
      StaysInLoop(adders, schedule[..|schedule| - 1]);
    }
  }

  /** Fewer than n tasks have been taken, and the worker is neither asleep nor out of its loop. */
  ghost predicate Serving(s: State, n: nat) {
    |s.taken| >= n || (s.running && n <= |s.accepted| && !s.worker.Waiting? && !s.worker.Stopped?)
  }

  /** The worker's own steps until n tasks have been taken. */
  function Rank(s: State, n: nat): nat {
    if |s.taken| >= n then 0 else 2 * (n - |s.taken|) - (if s.worker.Checking? then 0 else 1)
  }

  lemma ServingStep(s: State, a: Action, n: nat)
    requires Inv(s) && Serving(s, n) && !a.Stop?
    ensures var t := Step(s, a);
            && Serving(t, n) && s.accepted <= t.accepted
            && Rank(t, n) <= Rank(s, n) && (a.Work? && Rank(s, n) > 0 ==> Rank(t, n) < Rank(s, n))
  {
    assert |s.taken| + |s.tasks| == |s.accepted|;
  }

  lemma {:induction false} ServingRun(s: State, more: seq<Action>, n: nat)
    requires Inv(s) && Serving(s, n) && Stop !in more && Works(more) >= Rank(s, n)
    ensures |Run(s, more).taken| >= n && s.accepted <= Run(s, more).accepted && Inv(Run(s, more))
    decreases |more|
  {
    if more != [] {
      ServingStep(s, more[0], n);
      StepKeeps(s, more[0]);
      ServingRun(Step(s, more[0]), more[1..], n);
    }
  }

  /**
   From every reachable state of a running queue whose worker is awake or has nothing to do: two steps of the worker for
   each queued task, in whatever company short of the shutdown, take every task that was queued, in order.
   */
  lemma WorkerGetsThrough(adders: nat, schedule: seq<Action>, more: seq<Action>)
    requires var s := Exec(adders, schedule);
             s.running && (s.worker.Waiting? ==> s.tasks == []) && Works(more) >= 2 * |s.tasks|
    requires Stop !in more
    ensures Exec(adders, schedule).accepted <= Run(Exec(adders, schedule), more).taken
  {
    var s := Exec(adders, schedule);
    ExecKeeps(adders, schedule);
    StaysInLoop(adders, schedule);
    assert |s.taken| + |s.tasks| == |s.accepted|;
    ServingRun(s, more, |s.accepted|);
    var t := Run(s, more);
    assert t.taken + t.tasks == t.accepted;
  }

  /** The worker's own steps until it sleeps. */
  function UntilAsleep(s: State): nat {
    match s.worker
    case Woken => 2 * |s.tasks| + 3
    case Checking => 2 * |s.tasks| + 2
    case Locking => 2 * |s.tasks| + 1
    case _ => 0
  }

  function Alone(s: State, n: nat): State
    decreases n
  {
    if n == 0 then s else Alone(Step(s, Work), n - 1)
  }

  lemma {:induction false} FallsAsleep(s: State, n: nat)
    requires Inv(s) && s.running && !s.worker.Stopped? && (s.worker.Waiting? ==> s.tasks == []) && n >= UntilAsleep(s)
    ensures var t := Alone(s, n); t.worker.Waiting? && t.tasks == [] && t.accepted == s.accepted && Inv(t)
    decreases n
  {
    if n > 0 {
      StepKeeps(s, Work);
      FallsAsleep(Step(s, Work), n - 1);
    }
  }

  /** On its own, the worker takes every queued task and then goes to sleep. */
  lemma WorkerRests(adders: nat, schedule: seq<Action>, n: nat)
    requires var s := Exec(adders, schedule); s.running && (s.worker.Waiting? ==> s.tasks == []) && n >= 2 * |s.tasks| + 3
    ensures var s, t := Exec(adders, schedule), Alone(Exec(adders, schedule), n);
            t.worker.Waiting? && t.tasks == [] && t.taken == s.accepted
  {
    var s := Exec(adders, schedule);
    ExecKeeps(adders, schedule);
    StaysInLoop(adders, schedule);
    FallsAsleep(s, n);
    var t := Alone(s, n);
    assert t.taken + t.tasks == t.taken;
  }

  /** How many rounds the shutdown's flush is given. */
  function Rounds(more: seq<Action>): nat {
    if more == [] then 0 else (if more[0].FlushNext? then 1 else 0) + Rounds(more[1..])
  }

  lemma FlushStep(s: State, a: Action)
    requires Inv(s) && s.shutdown.Flushing?
    ensures var t := Step(s, a);
            if t.shutdown.Flushing? then t.accepted == s.accepted && |t.tasks| <= |s.tasks| - (if a.FlushNext? then 1 else 0)
            else Flushed(t) && t.taken == s.accepted
  {
    assert s.tasks == [] ==> s.taken + s.tasks == s.taken;
  }

  /** The shutdown's flush ends after a round for each queued task and one more, in whatever company, with every accepted task taken. */
  lemma {:induction false} FlushEnds(s: State, more: seq<Action>)
    requires Inv(s) && s.shutdown.Flushing? && Rounds(more) > |s.tasks|
    ensures Flushed(Run(s, more)) && Run(s, more).taken == s.accepted
    decreases |more|
  {
    FlushStep(s, more[0]);
    StepKeeps(s, more[0]);
    if Step(s, more[0]).shutdown.Flushing? {
      FlushEnds(Step(s, more[0]), more[1..]);
    } else {
      RunStaysQuiet(Step(s, more[0]), more[1..]);
    }
  }

  lemma {:induction false} RunStaysQuiet(s: State, more: seq<Action>)
    requires Inv(s) && Flushed(s)
    ensures Flushed(Run(s, more)) && Run(s, more).taken == s.taken
    decreases |more|
  {
    if more != [] {
      FlushedStep(s, more[0]);
      StepKeeps(s, more[0]);
      RunStaysQuiet(Step(s, more[0]), more[1..]);
    }
  }
}
