/** The task scheduler as a state machine: any thread schedules and cancels, and one thread runs the tasks. */
module Scheduling {
  import opened Option
  import Runs

  /** How far a `Run` has come: it waits for the mutex; it has a reference to the set of ids, and copies the set
      without the mutex; it knows whether its id is in the copy; it has started its closure. */
  datatype Phase = Waiting | Reading | Checked(allowed: bool) | Begun

  datatype Running = Running(id: nat, phase: Phase)

  datatype Entry = Scheduled(id: nat, repetitive: bool) | Cancelled(id: nat) | Started(id: nat)

  /** The ids handed out so far, and whether their task repeats; those in the set of live ids; the tasks about to be
      posted, and those in the queue, which delays put in any order; what the thread runs; whether `cancelAll` holds
      the mutex, and whether the thread has been told to stop; what has happened. */
  datatype State = State(repeats: map<nat, bool>, ids: set<nat>, posting: multiset<nat>, queue: multiset<nat>,
                         running: Option<Running>, held: bool, quitting: bool, log: seq<Entry>)

  const INITIAL := State(map[], {}, multiset{}, multiset{}, None, false, false, [])

  /** `CancelAll` takes the mutex, `Stop` tells the thread to stop, and `Joined` is the return of both. The others hold
      the mutex within one step, or not at all. */
  datatype Step =
    | Schedule(id: nat, repetitive: bool)
    | Post(id: nat)
    | Cancel(id: nat)
    | CancelAll
    | Stop
    | Joined
    | Take(id: nat)
    | Pass
    | Look
    | Start
    | End

  /** The thread has a `Run` in this phase. */
  predicate Is(s: State, phase: Phase) {
    s.running.Some? && s.running.value.phase == phase
  }

  function InPhase(s: State, phase: Phase): State
    requires s.running.Some?
  {
    s.(running := Some(s.running.value.(phase := phase)))
  }

  /** One step. Ids are drawn afresh: none is handed out twice. */
  function Next(s: State, step: Step): Option<State> {
    match step
    case Schedule(id, repetitive) =>
      if s.held || id in s.repeats then None
      else Some(s.(repeats := s.repeats[id := repetitive], ids := s.ids + {id}, posting := s.posting + multiset{id},
                   log := s.log + [Scheduled(id, repetitive)]))
    case Post(id) =>
      if id !in s.posting then None
      else Some(s.(posting := s.posting - multiset{id}, queue := s.queue + multiset{id}))
    case Cancel(id) => if s.held then None else Some(s.(ids := s.ids - {id}, log := s.log + [Cancelled(id)]))
    case CancelAll => if s.held then None else Some(s.(held := true))
    case Stop => if s.held then Some(s.(quitting := true)) else None
    case Joined => if s.held && s.quitting && s.running.None? then Some(s.(ids := {}, held := false)) else None
    case Take(id) =>
      if s.quitting || s.running.Some? || id !in s.queue then None
      else Some(s.(queue := s.queue - multiset{id}, running := Some(Running(id, Waiting))))
    case Pass => if Is(s, Waiting) && !s.held then Some(InPhase(s, Reading)) else None
    case Look => if Is(s, Reading) then Some(InPhase(s, Checked(s.running.value.id in s.ids))) else None
    case Start =>
      if !Is(s, Checked(true)) then None
      else Some(InPhase(s, Begun).(log := s.log + [Started(s.running.value.id)]))
    case End =>
      if Is(s, Checked(false)) then Some(s.(running := None))
      else if Is(s, Begun) then
        var id := s.running.value.id;
        var again := id in s.repeats && s.repeats[id];
        Some(s.(running := None, queue := if again then s.queue + multiset{id} else s.queue))
      else None
  }

  // ---------- instances ----------

  function InRun(s: State, id: nat): nat {
    if s.running.Some? && s.running.value.id == id then 1 else 0
  }

  /** How many task objects with this id there are: about to be posted, queued, or running. */
  function Instances(s: State, id: nat): nat {
    s.posting[id] + s.queue[id] + InRun(s, id)
  }

  /** How often the closure was started among the entries from `n` on. */
  function Starts(log: seq<Entry>, id: nat, n: nat): nat
    requires n <= |log|
    decreases |log| - n
  {
    if n == |log| then 0 else Starts(log, id, n + 1) + if log[n] == Started(id) then 1 else 0
  }

  lemma {:induction false} StartsOfAppend(log: seq<Entry>, e: Entry, id: nat, n: nat)
    requires n <= |log|
    ensures Starts(log + [e], id, n) == Starts(log, id, n) + if e == Started(id) then 1 else 0
    decreases |log| - n
  {
    if n == |log| {
      assert Starts(log + [e], id, n + 1) == 0;
    } else {
      StartsOfAppend(log, e, id, n + 1);
    }
  }

  /** What a one-shot task may still do: start once, unless its run is past that. */
  function Chances(s: State, id: nat): nat {
    var toStart := s.running.Some? && s.running.value.id == id && !s.running.value.phase.Begun?;
    s.posting[id] + s.queue[id] + if toStart then 1 else 0
  }

  predicate OneInstance(s: State, id: nat) {
    && Instances(s, id) <= 1
    && (id !in s.repeats ==> Instances(s, id) == 0 && id !in s.ids)
  }

  predicate OneStart(s: State, id: nat) {
    && (id !in s.repeats ==> Starts(s.log, id, 0) == 0)
    && (id in s.repeats && !s.repeats[id] ==> Starts(s.log, id, 0) + Chances(s, id) <= 1)
  }

  predicate IdOk(s: State, id: nat) {
    OneInstance(s, id) && OneStart(s, id)
  }

  /** Steps on the way of a task to the queue. */
  lemma PostingKeepsOneInstance(s: State, step: Step, id: nat)
    requires OneInstance(s, id) && (step.Schedule? || step.Post?) && Next(s, step).Some?
    ensures OneInstance(Next(s, step).value, id)
  {
  }

  lemma RunningKeepsOneInstance(s: State, step: Step, id: nat)
    requires OneInstance(s, id) && (step.Take? || step.End?) && Next(s, step).Some?
    ensures OneInstance(Next(s, step).value, id)
  {
  }

  lemma NextKeepsOneInstance(s: State, step: Step, id: nat)
    requires OneInstance(s, id) && Next(s, step).Some?
    ensures OneInstance(Next(s, step).value, id)
  {
    match step {
      case Schedule(_, _) => PostingKeepsOneInstance(s, step, id);
      case Post(_) => PostingKeepsOneInstance(s, step, id);
      case Take(_) => RunningKeepsOneInstance(s, step, id);
      case End => RunningKeepsOneInstance(s, step, id);
      case _ =>
    }
  }

  lemma ScheduleKeepsOneStart(s: State, i: nat, repetitive: bool, id: nat)
    requires OneInstance(s, id) && OneStart(s, id) && Next(s, Schedule(i, repetitive)).Some?
    ensures OneStart(Next(s, Schedule(i, repetitive)).value, id)
  {
    StartsOfAppend(s.log, Scheduled(i, repetitive), id, 0);
  }

  lemma StartKeepsOneStart(s: State, id: nat)
    requires OneInstance(s, id) && OneStart(s, id) && Next(s, Start).Some?
    ensures OneStart(Next(s, Start).value, id)
  {
    StartsOfAppend(s.log, Started(s.running.value.id), id, 0);
  }

  lemma RunningKeepsOneStart(s: State, step: Step, id: nat)
    requires OneInstance(s, id) && OneStart(s, id) && (step.Take? || step.End?) && Next(s, step).Some?
    ensures OneStart(Next(s, step).value, id)
  {
  }

  lemma NextKeepsOneStart(s: State, step: Step, id: nat)
    requires OneInstance(s, id) && OneStart(s, id) && Next(s, step).Some?
    ensures OneStart(Next(s, step).value, id)
  {
    match step {
      case Schedule(i, repetitive) => ScheduleKeepsOneStart(s, i, repetitive, id);
      case Cancel(i) => StartsOfAppend(s.log, Cancelled(i), id, 0);
      case Start => StartKeepsOneStart(s, id);
      case Take(_) => RunningKeepsOneStart(s, step, id);
      case End => RunningKeepsOneStart(s, step, id);
      case _ =>
    }
  }

  lemma NextKeepsIdOk(s: State, step: Step, id: nat)
    requires IdOk(s, id) && Next(s, step).Some?
    ensures IdOk(Next(s, step).value, id)
  {
    NextKeepsOneInstance(s, step, id);
    NextKeepsOneStart(s, step, id);
  }

  /** In every run there is at most one task object of each id, in particular never two queued instances of a
      repetitive task; and the closure of a one-shot task has started at most once. */
  lemma AtMostOnce(steps: seq<Step>, n: nat, id: nat)
    requires n <= |steps|
    ensures
      var end := Runs.After(Next, INITIAL, steps, n);
      end.Some? ==> IdOk(end.value, id)
  {
    var inv := (s: State) => IdOk(s, id);
    forall s, step | inv(s) && Next(s, step).Some? ensures inv(Next(s, step).value) {
      NextKeepsIdOk(s, step, id);
    }
    Runs.InvariantHolds(Next, INITIAL, inv, steps, n);
  }

  // ---------- no task is lost ----------

  /** A live task is there to be run: a repetitive one always, and a one-shot one until it has started. A run that has
      found its id missing is not of a live task. */
  predicate IsKept(s: State, id: nat) {
    id in s.ids ==>
      && id in s.repeats
      && (s.repeats[id] ==> Instances(s, id) == 1)
      && (!s.repeats[id] && Starts(s.log, id, 0) == 0 ==> Chances(s, id) == 1)
      && s.running != Some(Running(id, Checked(false)))
  }

  predicate LiveOk(s: State, id: nat) {
    IdOk(s, id) && IsKept(s, id)
  }

  lemma ScheduleKeepsTask(s: State, i: nat, repetitive: bool, id: nat)
    requires LiveOk(s, id) && Next(s, Schedule(i, repetitive)).Some?
    ensures IsKept(Next(s, Schedule(i, repetitive)).value, id)
  {
    StartsOfAppend(s.log, Scheduled(i, repetitive), id, 0);
  }

  lemma CancelKeepsTask(s: State, i: nat, id: nat)
    requires LiveOk(s, id) && Next(s, Cancel(i)).Some?
    ensures IsKept(Next(s, Cancel(i)).value, id)
  {
    StartsOfAppend(s.log, Cancelled(i), id, 0);
  }

  lemma StartKeepsTask(s: State, id: nat)
    requires LiveOk(s, id) && Next(s, Start).Some?
    ensures IsKept(Next(s, Start).value, id)
  {
    StartsOfAppend(s.log, Started(s.running.value.id), id, 0);
  }

  lemma QueueKeepsTask(s: State, step: Step, id: nat)
    requires LiveOk(s, id) && (step.Post? || step.Take?) && Next(s, step).Some?
    ensures IsKept(Next(s, step).value, id)
  {
  }

  lemma EndKeepsTask(s: State, id: nat)
    requires LiveOk(s, id) && Next(s, End).Some?
    ensures IsKept(Next(s, End).value, id)
  {
  }

  lemma NextKeepsTask(s: State, step: Step, id: nat)
    requires LiveOk(s, id) && Next(s, step).Some?
    ensures LiveOk(Next(s, step).value, id)
  {
    NextKeepsIdOk(s, step, id);
    match step {
      case Schedule(i, repetitive) => ScheduleKeepsTask(s, i, repetitive, id);
      case Cancel(i) => CancelKeepsTask(s, i, id);
      case Start => StartKeepsTask(s, id);
      case Post(_) => QueueKeepsTask(s, step, id);
      case Take(_) => QueueKeepsTask(s, step, id);
      case End => EndKeepsTask(s, id);
      case _ =>
    }
  }

  /** In every run no task is lost: there is exactly one task object of a live repetitive task, and of a live one-shot
      task that has not started. */
  lemma NeverLost(steps: seq<Step>, n: nat, id: nat)
    requires n <= |steps| && Runs.After(Next, INITIAL, steps, n).Some?
    ensures LiveOk(Runs.After(Next, INITIAL, steps, n).value, id)
  {
    var inv := (s: State) => LiveOk(s, id);
    forall s, step | inv(s) && Next(s, step).Some? ensures inv(Next(s, step).value) {
      NextKeepsTask(s, step, id);
    }
    Runs.InvariantHolds(Next, INITIAL, inv, steps, n);
  }

  /** The task may start: it is live, and if it is a one-shot task it has not started yet. */
  predicate IsDue(s: State, id: nat) {
    id in s.ids && id in s.repeats && (s.repeats[id] || Starts(s.log, id, 0) == 0)
  }

  /** The closure has started more often than so many times. */
  function StartedMore(id: nat, times: nat): State -> bool {
    (s: State) => Starts(s.log, id, 0) > times
  }

  ghost predicate CanStart(s: State, id: nat, times: nat) {
    Runs.CanReach(Next, s, StartedMore(id, times))
  }

  predicate IsFree(s: State) {
    !s.held && !s.quitting
  }

  lemma StartOfChecked(s: State, id: nat)
    requires s.running == Some(Running(id, Checked(true)))
    ensures CanStart(s, id, Starts(s.log, id, 0))
  {
    StartsOfAppend(s.log, Started(id), id, 0);
    Runs.Reached(Next, Next(s, Start).value, StartedMore(id, Starts(s.log, id, 0)));
    Runs.OneStepNearer(Next, s, Start, StartedMore(id, Starts(s.log, id, 0)));
  }

  lemma StartOfReading(s: State, id: nat)
    requires s.running == Some(Running(id, Reading)) && id in s.ids
    ensures CanStart(s, id, Starts(s.log, id, 0))
  {
    StartOfChecked(Next(s, Look).value, id);
    Runs.OneStepNearer(Next, s, Look, StartedMore(id, Starts(s.log, id, 0)));
  }

  lemma StartOfWaiting(s: State, id: nat)
    requires s.running == Some(Running(id, Waiting)) && id in s.ids && IsFree(s)
    ensures CanStart(s, id, Starts(s.log, id, 0))
  {
    StartOfReading(Next(s, Pass).value, id);
    Runs.OneStepNearer(Next, s, Pass, StartedMore(id, Starts(s.log, id, 0)));
  }

  lemma StartOfQueued(s: State, id: nat)
    requires s.running.None? && id in s.queue && id in s.ids && IsFree(s)
    ensures CanStart(s, id, Starts(s.log, id, 0))
  {
    StartOfWaiting(Next(s, Take(id)).value, id);
    Runs.OneStepNearer(Next, s, Take(id), StartedMore(id, Starts(s.log, id, 0)));
  }

  lemma StartOfIdle(s: State, id: nat)
    requires s.running.None? && LiveOk(s, id) && IsDue(s, id) && IsFree(s)
    ensures CanStart(s, id, Starts(s.log, id, 0))
  {
    if id in s.queue {
      StartOfQueued(s, id);
    } else {
      assert id in s.posting;
      StartOfQueued(Next(s, Post(id)).value, id);
      Runs.OneStepNearer(Next, s, Post(id), StartedMore(id, Starts(s.log, id, 0)));
    }
  }

  /** How far the thread is from being idle. */
  function Ahead(s: State): nat {
    match s.running
    case None => 0
    case Some(Running(_, Waiting)) => 5
    case Some(Running(_, Reading)) => 4
    case Some(Running(_, Checked(true))) => 3
    case Some(_) => 1
  }

  function OwnStep(s: State): Step
    requires s.running.Some?
  {
    match s.running.value.phase
    case Waiting => Pass
    case Reading => Look
    case Checked(true) => Start
    case _ => End
  }

  lemma OwnStepGoesOn(s: State, id: nat)
    requires s.running.Some? && IsFree(s) && LiveOk(s, id) && IsDue(s, id)
    requires s.running.value.id != id || s.running.value.phase == Begun
    ensures
      var next := Next(s, OwnStep(s));
      && next.Some? && Ahead(next.value) < Ahead(s) && IsFree(next.value)
      && LiveOk(next.value, id) && IsDue(next.value, id)
      && Starts(next.value.log, id, 0) == Starts(s.log, id, 0)
  {
    NextKeepsTask(s, OwnStep(s), id);
    if OwnStep(s) == Start {
      StartsOfAppend(s.log, Started(s.running.value.id), id, 0);
    }
  }

  /** Unless everything is being cancelled, a live task can always start: a repetitive one again, however often it has
      started, and a one-shot one if it has not. */
  lemma {:induction false} LiveTasksCanStart(s: State, id: nat)
    requires LiveOk(s, id) && IsDue(s, id) && IsFree(s)
    ensures CanStart(s, id, Starts(s.log, id, 0))
    decreases Ahead(s)
  {
    if s.running.None? {
      StartOfIdle(s, id);
    } else if s.running.value.id == id && s.running.value.phase != Begun {
      match s.running.value.phase {
        case Waiting => StartOfWaiting(s, id);
        case Reading => StartOfReading(s, id);
        case Checked(_) => StartOfChecked(s, id);
      }
    } else {
      OwnStepGoesOn(s, id);
      LiveTasksCanStart(Next(s, OwnStep(s)).value, id);
      Runs.OneStepNearer(Next, s, OwnStep(s), StartedMore(id, Starts(s.log, id, 0)));
    }
  }

  /** Among the first `n` entries the last that schedules or cancels this id schedules it. */
  predicate IsScheduled(log: seq<Entry>, n: nat, id: nat)
    requires n <= |log|
  {
    n > 0 &&
    match log[n - 1]
    case Scheduled(i, _) => i == id || IsScheduled(log, n - 1, id)
    case Cancelled(i) => i != id && IsScheduled(log, n - 1, id)
    case Started(_) => IsScheduled(log, n - 1, id)
  }

  lemma {:induction false} ScheduledBefore(log: seq<Entry>, e: Entry, n: nat, id: nat)
    requires n <= |log|
    ensures IsScheduled(log + [e], n, id) == IsScheduled(log, n, id)
  {
    if n > 0 {
      ScheduledBefore(log, e, n - 1, id);
    }
  }

  /** Unless everything is being cancelled a task is live exactly if it has been scheduled and not cancelled since; and
      it repeats exactly if it was scheduled so. */
  predicate IsAsScheduled(s: State, id: nat) {
    && (!s.quitting ==> (id in s.ids <==> IsScheduled(s.log, |s.log|, id)))
    && forall r :: Scheduled(id, r) in s.log ==> id in s.repeats && s.repeats[id] == r
  }

  lemma NextKeepsLive(s: State, step: Step, id: nat)
    requires !s.quitting ==> (id in s.ids <==> IsScheduled(s.log, |s.log|, id))
    requires Next(s, step).Some?
    ensures var next := Next(s, step).value;
            !next.quitting ==> (id in next.ids <==> IsScheduled(next.log, |next.log|, id))
  {
    match step {
      case Schedule(i, repetitive) => ScheduledBefore(s.log, Scheduled(i, repetitive), |s.log|, id);
      case Cancel(i) => ScheduledBefore(s.log, Cancelled(i), |s.log|, id);
      case Start => ScheduledBefore(s.log, Started(s.running.value.id), |s.log|, id);
      case _ =>
    }
  }

  lemma NextKeepsRepeats(s: State, step: Step, id: nat)
    requires Next(s, step).Some?
    requires forall r :: Scheduled(id, r) in s.log ==> id in s.repeats && s.repeats[id] == r
    ensures var next := Next(s, step).value;
            forall r :: Scheduled(id, r) in next.log ==> id in next.repeats && next.repeats[id] == r
  {
  }

  lemma NextKeepsSchedule(s: State, step: Step, id: nat)
    requires IsAsScheduled(s, id) && Next(s, step).Some?
    ensures IsAsScheduled(Next(s, step).value, id)
  {
    NextKeepsLive(s, step, id);
    NextKeepsRepeats(s, step, id);
  }

  /** In every run, after every step. */
  lemma LiveUntilCancelled(steps: seq<Step>, n: nat, id: nat)
    requires n <= |steps| && Runs.After(Next, INITIAL, steps, n).Some?
    ensures IsAsScheduled(Runs.After(Next, INITIAL, steps, n).value, id)
  {
    var inv := (s: State) => IsAsScheduled(s, id);
    forall s, step | inv(s) && Next(s, step).Some? ensures inv(Next(s, step).value) {
      NextKeepsSchedule(s, step, id);
    }
    Runs.InvariantHolds(Next, INITIAL, inv, steps, n);
  }

  /** In every run, after every step: unless everything is being cancelled, a closure that was scheduled and has not
      been cancelled since can start, again if it repeats, and for the first time if it does not. */
  lemma AlwaysCanStart(steps: seq<Step>, n: nat, id: nat, repetitive: bool)
    requires n <= |steps| && Runs.After(Next, INITIAL, steps, n).Some?
    requires
      var s := Runs.After(Next, INITIAL, steps, n).value;
      && !s.held && !s.quitting && IsScheduled(s.log, |s.log|, id) && Scheduled(id, repetitive) in s.log
      && (repetitive || Starts(s.log, id, 0) == 0)
    ensures
      var s := Runs.After(Next, INITIAL, steps, n).value;
      CanStart(s, id, Starts(s.log, id, 0))
  {
    NeverLost(steps, n, id);
    LiveUntilCancelled(steps, n, id);
    LiveTasksCanStart(Runs.After(Next, INITIAL, steps, n).value, id);
  }

  // ---------- cancellation ----------

  /** A run of this id has passed its check and not started its closure yet. */
  predicate IsPastCheck(s: State, id: nat) {
    s.running == Some(Running(id, Checked(true)))
  }

  /** What may still start of a task that is not live any more. */
  function Remaining(s: State, id: nat): nat {
    if IsPastCheck(s, id) then 1 else 0
  }

  lemma OneStepAfterCancel(s: State, step: Step, id: nat, from: nat)
    requires id in s.repeats && id !in s.ids && from <= |s.log| && Next(s, step).Some?
    ensures
      var next := Next(s, step).value;
      && from <= |next.log| && id in next.repeats && id !in next.ids
      && Starts(next.log, id, from) + Remaining(next, id) <= Starts(s.log, id, from) + Remaining(s, id)
  {
    match step {
      case Schedule(i, repetitive) => StartsOfAppend(s.log, Scheduled(i, repetitive), id, from);
      case Cancel(i) => StartsOfAppend(s.log, Cancelled(i), id, from);
      case Start => StartsOfAppend(s.log, Started(s.running.value.id), id, from);
      case _ =>
    }
  }

  /** What has started since the first `from` entries, and may still start, of a task that is not live any more. */
  predicate StartsAtMost(s: State, id: nat, from: nat, limit: nat) {
    && from <= |s.log| && id in s.repeats && id !in s.ids
    && Starts(s.log, id, from) + Remaining(s, id) <= limit
  }

  /** After `cancel` returns, whatever happens, the closure starts at most once more, and not at all unless a run had
      passed its check by then. */
  lemma StartsAfterCancel(s: State, id: nat, steps: seq<Step>, n: nat)
    requires n <= |steps| && id in s.repeats && !s.held
    ensures
      var cancelled := Next(s, Cancel(id)).value;
      var end := Runs.After(Next, cancelled, steps, n);
      end.Some? ==>
        && |cancelled.log| <= |end.value.log|
        && Starts(end.value.log, id, |cancelled.log|) <= if IsPastCheck(s, id) then 1 else 0
  {
    var cancelled := Next(s, Cancel(id)).value;
    var from, limit := |cancelled.log|, if IsPastCheck(s, id) then 1 else 0;
    var inv := (t: State) => StartsAtMost(t, id, from, limit);
    forall t, step | inv(t) && Next(t, step).Some? ensures inv(Next(t, step).value) {
      OneStepAfterCancel(t, step, id, from);
    }
    Runs.InvariantHolds(Next, cancelled, inv, steps, n);
  }

  /** The bound is met: a run that is past its check starts its closure after `cancel` has returned. */
  lemma CancelCanBeLate(s: State, id: nat)
    requires IsPastCheck(s, id) && !s.held
    ensures
      var cancelled := Next(s, Cancel(id)).value;
      var end := Next(cancelled, Start);
      end.Some? && Starts(end.value.log, id, |cancelled.log|) == 1
  {
    var cancelled := Next(s, Cancel(id)).value;
    StartsOfAppend(cancelled.log, Started(id), id, |cancelled.log|);
  }

  // ---------- cancelling everything ----------

  /** A run that waits for the mutex while `cancelAll` holds it waits for ever, and so does `cancelAll` for the run. */
  lemma WaitsForEver(s: State, steps: seq<Step>, n: nat)
    requires n <= |steps| && s.held && Is(s, Waiting)
    ensures
      var end := Runs.After(Next, s, steps, n);
      end.Some? ==> end.value.held && Is(end.value, Waiting)
  {
    Runs.InvariantHolds(Next, s, WaitsForMutex, steps, n);
  }

  predicate WaitsForMutex(s: State) {
    s.held && Is(s, Waiting)
  }

  predicate IsReleased(s: State) {
    !s.held
  }

  /** Some steps lead to the return of `cancelAll`. */
  ghost predicate CanReturn(s: State) {
    Runs.CanReach(Next, s, IsReleased)
  }

  /** How many steps the thread still has to make. */
  function Left(s: State): nat {
    match s.running
    case None => 0
    case Some(Running(_, Reading)) => 3
    case Some(Running(_, Checked(true))) => 2
    case Some(_) => 1
  }

  /** A step that stops the thread: one of its own, or the return of `cancelAll`. */
  predicate IsStopping(step: Step) {
    step.Look? || step.Start? || step.End? || step.Joined?
  }

  lemma SomeStopStep(s: State) returns (step: Step)
    requires s.held && s.quitting && !Is(s, Waiting)
    ensures IsStopping(step) && Next(s, step).Some?
  {
    step := if s.running.None? then Joined
            else if Is(s, Reading) then Look
            else if Is(s, Checked(true)) then Start
            else End;
  }

  /** Each of these steps leads to the return, or nearer to it. */
  lemma StopStepsEnd(s: State, step: Step)
    requires s.held && s.quitting && !Is(s, Waiting) && IsStopping(step) && Next(s, step).Some?
    ensures
      var next := Next(s, step).value;
      if step.Joined? then Left(s) == 0 && !next.held && next.running.None? && next.ids == {}
      else next.held && next.quitting && !Is(next, Waiting) && Left(next) < Left(s)
  {
  }

  lemma {:induction false} StoppingReturns(s: State)
    requires s.held && s.quitting && !Is(s, Waiting)
    ensures CanReturn(s)
    decreases Left(s)
  {
    var step := SomeStopStep(s);
    StopStepsEnd(s, step);
    if step.Joined? {
      Runs.Reached(Next, Next(s, step).value, IsReleased);
    } else {
      StoppingReturns(Next(s, step).value);
    }
    Runs.OneStepNearer(Next, s, step, IsReleased);
  }

  /** `cancelAll` can return exactly if no run waits for the mutex that it holds. */
  lemma CancelAllCanReturn(s: State)
    requires s.held
    ensures CanReturn(s) <==> !Is(s, Waiting)
  {
    if Is(s, Waiting) {
      forall steps: seq<Step> ensures !Runs.LeadsTo(Next, s, steps, IsReleased) {
        WaitsForEver(s, steps, |steps|);
      }
    } else {
      StoppingReturns(Next(s, Stop).value);
      Runs.OneStepNearer(Next, s, Stop, IsReleased);
    }
  }

  /** Once the thread has been told to stop `cancelAll` does return, whatever the schedule: the steps that stop the
      thread come to an end, and when there are none left it has returned, and no id is live. */
  lemma {:induction false} CancelAllReturns(s: State, steps: seq<Step>, n: nat)
    requires s.held && s.quitting && !Is(s, Waiting)
    requires n <= |steps| && forall i :: 0 <= i < |steps| ==> IsStopping(steps[i])
    requires Runs.After(Next, s, steps, n).Some?
    ensures
      var end := Runs.After(Next, s, steps, n).value;
      && n <= Left(s) + 1
      && if end.held then end.quitting && !Is(end, Waiting) && n + Left(end) <= Left(s)
         else end.running.None? && end.ids == {}
    ensures
      var end := Runs.After(Next, s, steps, n).value;
      (forall step :: IsStopping(step) ==> Next(end, step).None?) ==> !end.held
  {
    if n > 0 {
      CancelAllReturns(s, steps, n - 1);
      var before := Runs.After(Next, s, steps, n - 1).value;
      if before.held {
        StopStepsEnd(before, steps[n - 1]);
      }
    }
    var end := Runs.After(Next, s, steps, n).value;
    if end.held {
      var step := SomeStopStep(end);
    }
  }

  /** The thread has stopped, and the closure has not started since the first `from` entries. */
  predicate IsQuiet(s: State, id: nat, from: nat) {
    s.quitting && s.running.None? && from <= |s.log| && Starts(s.log, id, from) == 0
  }

  lemma StaysQuiet(s: State, step: Step, id: nat, from: nat)
    requires IsQuiet(s, id, from) && Next(s, step).Some?
    ensures IsQuiet(Next(s, step).value, id, from)
  {
    match step {
      case Schedule(i, repetitive) => StartsOfAppend(s.log, Scheduled(i, repetitive), id, from);
      case Cancel(i) => StartsOfAppend(s.log, Cancelled(i), id, from);
      case _ =>
    }
  }

  /** After `cancelAll` has returned no closure ever starts. */
  lemma NothingStartsAfterCancelAll(s: State, id: nat, steps: seq<Step>, n: nat)
    requires n <= |steps| && s.quitting && s.running.None?
    ensures
      var end := Runs.After(Next, s, steps, n);
      end.Some? ==> |s.log| <= |end.value.log| && Starts(end.value.log, id, |s.log|) == 0
  {
    var from := |s.log|;
    var inv := (t: State) => IsQuiet(t, id, from);
    forall t, step | inv(t) && Next(t, step).Some? ensures inv(Next(t, step).value) {
      StaysQuiet(t, step, id, from);
    }
    Runs.InvariantHolds(Next, s, inv, steps, n);
  }

  /** A task that is taken from the queue. */
  lemma TakenFirst(id: nat, repetitive: bool, step: Step)
    ensures
      var steps := [Schedule(id, repetitive), Post(id), Take(id), step];
      var three := Runs.After(Next, INITIAL, steps, 3);
      && three.Some? && three.value.running == Some(Running(id, Waiting)) && !three.value.held
      && Runs.After(Next, INITIAL, steps, 4) == Next(three.value, step)
  {
    var steps := [Schedule(id, repetitive), Post(id), Take(id), step];
    assert Runs.After(Next, INITIAL, steps, 0) == Some(INITIAL);
    var one := Next(INITIAL, Schedule(id, repetitive)).value;
    assert Runs.After(Next, INITIAL, steps, 1) == Some(one);
    var two := Next(one, Post(id)).value;
    assert Runs.After(Next, INITIAL, steps, 2) == Some(two);
    assert Runs.After(Next, INITIAL, steps, 3) == Next(two, Take(id));
  }

  /** A run in which the set of ids can be changed while it is being copied: the copy is made without the mutex. */
  lemma CopyIsUnguarded(id: nat, repetitive: bool)
    ensures
      var end := Runs.After(Next, INITIAL, [Schedule(id, repetitive), Post(id), Take(id), Pass], 4);
      end.Some? && Is(end.value, Reading) && Next(end.value, Cancel(id)).Some?
  {
    TakenFirst(id, repetitive, Pass);
    var taken := Runs.After(Next, INITIAL, [Schedule(id, repetitive), Post(id), Take(id), Pass], 3).value;
    PassedIsReading(taken, id);
  }

  lemma PassedIsReading(s: State, id: nat)
    requires Is(s, Waiting) && !s.held
    ensures Next(s, Pass).Some? && Is(Next(s, Pass).value, Reading) && Next(Next(s, Pass).value, Cancel(id)).Some?
  {
  }

  /** A run in which `cancelAll` never returns: it takes the mutex just before a task asks for it. */
  lemma CancelAllCanHang(id: nat, repetitive: bool)
    ensures
      var steps := [Schedule(id, repetitive), Post(id), Take(id), CancelAll];
      var end := Runs.After(Next, INITIAL, steps, 4);
      end.Some? && end.value.held && !CanReturn(end.value)
  {
    TakenFirst(id, repetitive, CancelAll);
    CancelAllCanReturn(Runs.After(Next, INITIAL, [Schedule(id, repetitive), Post(id), Take(id), CancelAll], 4).value);
  }
}
