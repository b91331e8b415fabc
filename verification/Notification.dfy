/** Notifications over a whole run: observers come and go while tasks wait on their threads. */
module Notification {
  import opened Gathering
  import opened ObserverList
  import opened Option
  import Runs

  /** The observers listed; those that somebody keeps alive; the tasks that wait, in the order in which they were
      posted; the notifications made, and all that have been issued, in order; how many times observers have been
      notified. */
  datatype State = State(entries: seq<Entry>, alive: set<nat>, tasks: seq<Task>, made: seq<Task>, issued: seq<Task>,
                         count: nat)

  function Initial(alive: set<nat>): State {
    State([], alive, [], [], [], 0)
  }

  datatype Step =
    | Add(weak: bool, observer: nat, thread: nat)
    | Remove(observer: nat)
    | Clear
    | Die(observer: nat)
    | Notify(current: nat)
    | RunTask(thread: nat)

  /** Nobody dies who is listed by a strong entry; a task does not keep its observer alive. */
  predicate MayDie(s: State, observer: nat) {
    observer in s.alive && forall e :: e in s.entries && e.observer == observer ==> e.weak
  }

  /** One step. Whoever adds or removes an observer keeps it alive. */
  function Next(s: State, step: Step): Option<State> {
    match step
    case Add(weak, o, thread) =>
      if o !in s.alive then None
      else if IsListed(s.entries, o) then Some(s)
      else Some(s.(entries := s.entries + [Entry(weak, o, thread)]))
    case Remove(o) => if o !in s.alive then None else Some(s.(entries := Without(s.entries, o)))
    case Clear => Some(s.(entries := []))
    case Die(o) => if MayDie(s, o) then Some(s.(alive := s.alive - {o})) else None
    case Notify(current) => Some(Notified(s, current))
    case RunTask(thread) => if FirstOn(s.tasks, thread) < |s.tasks| then Some(TaskRun(s, thread)) else None
  }

  function Notified(s: State, current: nat): State {
    s.(tasks := s.tasks + Posted(s.entries, s.alive, current, s.count),
       made := s.made + Direct(s.entries, s.alive, current, s.count),
       issued := s.issued + Notices(s.entries, s.alive, s.count),
       count := s.count + 1)
  }

  function TaskRun(s: State, thread: nat): State
    requires FirstOn(s.tasks, thread) < |s.tasks|
  {
    var i := FirstOn(s.tasks, thread);
    var task := s.tasks[i];
    s.(tasks := Dropped(s.tasks, i),
       made := if task.observer in s.alive then s.made + [task] else s.made)
  }

  // ---------- each notification once ----------

  /** `p` picks notifications of one observer. */
  ghost predicate IsAbout(p: Task -> bool, observer: nat) {
    forall x :: p(x) ==> x.observer == observer
  }

  /** Of the notifications that `p` picks, those made and those that wait are no more than were issued, and as many
      while the observer is alive. */
  predicate IsAccounted(s: State, p: Task -> bool, observer: nat) {
    var made, waiting, issued := |Kept(p, s.made)|, |Kept(p, s.tasks)|, |Kept(p, s.issued)|;
    made + waiting <= issued && (observer in s.alive ==> made + waiting == issued)
  }

  lemma {:induction false} NoticesDivide(entries: seq<Entry>, alive: set<nat>, current: nat, note: nat,
                                         p: Task -> bool)
    ensures |Kept(p, Notices(entries, alive, note))| ==
            |Kept(p, Direct(entries, alive, current, note))| + |Kept(p, Posted(entries, alive, current, note))|
  {
    if entries != [] {
      var n := |entries| - 1;
      var e := entries[n];
      NoticesDivide(entries[..n], alive, current, note, p);
      var one := [Task(e.thread, e.observer, note)];
      KeptOfConcat(p, Notices(entries[..n], alive, note), one);
      KeptOfConcat(p, Direct(entries[..n], alive, current, note), one);
      KeptOfConcat(p, Posted(entries[..n], alive, current, note), one);
    }
  }

  lemma NotifyKeepsAccounted(s: State, current: nat, p: Task -> bool, observer: nat)
    requires IsAccounted(s, p, observer)
    ensures IsAccounted(Notified(s, current), p, observer)
  {
    NoticesDivide(s.entries, s.alive, current, s.count, p);
    KeptOfConcat(p, s.tasks, Posted(s.entries, s.alive, current, s.count));
    KeptOfConcat(p, s.made, Direct(s.entries, s.alive, current, s.count));
    KeptOfConcat(p, s.issued, Notices(s.entries, s.alive, s.count));
  }

  lemma RunKeepsAccounted(s: State, thread: nat, p: Task -> bool, observer: nat)
    requires IsAbout(p, observer) && IsAccounted(s, p, observer) && FirstOn(s.tasks, thread) < |s.tasks|
    ensures IsAccounted(TaskRun(s, thread), p, observer)
  {
    var i := FirstOn(s.tasks, thread);
    CountWithout(p, s.tasks, i);
    KeptSnoc(p, s.made, s.tasks[i]);
  }

  lemma NextKeepsAccounted(s: State, step: Step, p: Task -> bool, observer: nat)
    requires IsAbout(p, observer) && IsAccounted(s, p, observer) && Next(s, step).Some?
    ensures IsAccounted(Next(s, step).value, p, observer)
  {
    match step {
      case Notify(current) => NotifyKeepsAccounted(s, current, p, observer);
      case RunTask(thread) => RunKeepsAccounted(s, thread, p, observer);
      case _ =>
    }
  }

  /** In every run, after every step, the notifications of an observer that were made and those that wait are as many
      as were issued, as long as it is alive, and never more. `p` may pick all of them, those of one thread, or a single
      one: none is lost, and none is made twice. */
  lemma AlwaysAccounted(alive: set<nat>, steps: seq<Step>, n: nat, p: Task -> bool, observer: nat)
    requires IsAbout(p, observer) && n <= |steps| && Runs.After(Next, Initial(alive), steps, n).Some?
    ensures IsAccounted(Runs.After(Next, Initial(alive), steps, n).value, p, observer)
  {
    var inv := (s: State) => IsAccounted(s, p, observer);
    forall s, step | inv(s) && Next(s, step).Some? ensures inv(Next(s, step).value) {
      NextKeepsAccounted(s, step, p, observer);
    }
    Runs.InvariantHolds(Next, Initial(alive), inv, steps, n);
  }

  // ---------- after a removal ----------

  predicate NeverAdds(steps: seq<Step>, observer: nat) {
    forall step :: step in steps ==> !(step.Add? && step.observer == observer)
  }

  lemma {:induction false} NotListedNotIssued(entries: seq<Entry>, alive: set<nat>, note: nat, p: Task -> bool,
                                              observer: nat)
    requires IsAbout(p, observer) && !IsListed(entries, observer)
    ensures Kept(p, Notices(entries, alive, note)) == []
  {
    if entries != [] {
      var n := |entries| - 1;
      assert entries[n].observer != observer;
      forall i | 0 <= i < n ensures entries[..n][i].observer != observer {
        assert entries[..n][i] == entries[i];
      }
      NotListedNotIssued(entries[..n], alive, note, p, observer);
      KeptOfConcat(p, Notices(entries[..n], alive, note), [Task(entries[n].thread, entries[n].observer, note)]);
      KeptOne(p, Task(entries[n].thread, entries[n].observer, note));
    }
  }

  /** Off the list, with so many of its notifications issued and every one accounted for. */
  predicate IsOff(s: State, p: Task -> bool, observer: nat, issued: nat) {
    !IsListed(s.entries, observer) && IsAccounted(s, p, observer) && |Kept(p, s.issued)| == issued
  }

  lemma {:induction false} WithoutAddsNobody(entries: seq<Entry>, observer: nat)
    ensures forall e :: e in Without(entries, observer) ==> e in entries
  {
    if entries != [] {
      WithoutAddsNobody(entries[1..], observer);
    }
  }

  lemma StaysOffTheList(s: State, step: Step, observer: nat)
    requires !IsListed(s.entries, observer) && Next(s, step).Some?
    requires !(step.Add? && step.observer == observer)
    ensures !IsListed(Next(s, step).value.entries, observer)
  {
    if step.Remove? {
      WithoutAddsNobody(s.entries, step.observer);
      var left := Without(s.entries, step.observer);
      forall i | 0 <= i < |left| ensures left[i].observer != observer {
        assert left[i] in s.entries;
      }
    }
  }

  lemma StaysOff(s: State, step: Step, p: Task -> bool, observer: nat, issued: nat)
    requires IsAbout(p, observer) && IsOff(s, p, observer, issued) && Next(s, step).Some?
    requires !(step.Add? && step.observer == observer)
    ensures IsOff(Next(s, step).value, p, observer, issued)
  {
    StaysOffTheList(s, step, observer);
    NextKeepsAccounted(s, step, p, observer);
    if step.Notify? {
      KeptOfConcat(p, s.issued, Notices(s.entries, s.alive, s.count));
      NotListedNotIssued(s.entries, s.alive, s.count, p, observer);
    }
  }

  /** A removal does not take back what is posted: from then on, until the observer is added again, every task that
      waits for it is still made, as long as it is alive, and nothing else is. */
  lemma RemovalTakesNothingBack(s: State, steps: seq<Step>, n: nat, p: Task -> bool, observer: nat)
    requires IsAbout(p, observer) && n <= |steps| && NeverAdds(steps, observer)
    requires !IsListed(s.entries, observer) && IsAccounted(s, p, observer)
    ensures
      var end := Runs.After(Next, s, steps, n);
      end.Some? ==>
        && IsOff(end.value, p, observer, |Kept(p, s.issued)|)
        && (observer in end.value.alive ==>
              |Kept(p, end.value.made)| + |Kept(p, end.value.tasks)| == |Kept(p, s.issued)|)
  {
    var issued := |Kept(p, s.issued)|;
    var inv := (t: State) => IsOff(t, p, observer, issued);
    forall t, step | inv(t) && step in steps && Next(t, step).Some? ensures inv(Next(t, step).value) {
      StaysOff(t, step, p, observer, issued);
    }
    Runs.InvariantAlong(Next, s, inv, steps, n);
  }

  // ---------- in order ----------

  /** The notifications of one observer on one thread. */
  function Of(thread: nat, observer: nat): Task -> bool {
    (x: Task) => x.thread == thread && x.observer == observer
  }

  /** Those made, and then those that wait, are those issued, in order. */
  predicate IsInOrder(s: State, thread: nat, observer: nat) {
    var p := Of(thread, observer);
    Kept(p, s.made) + Kept(p, s.tasks) == Kept(p, s.issued)
  }

  /** The step notifies the observer on its own thread while earlier notifications wait for it there. */
  predicate Overtakes(s: State, step: Step, thread: nat, observer: nat) {
    && step == Notify(thread)
    && Kept(Of(thread, observer), Notices(s.entries, s.alive, s.count)) != []
    && Kept(Of(thread, observer), s.tasks) != []
  }

  /** What waits is of earlier calls. */
  predicate IsEarlier(s: State) {
    forall x :: x in s.tasks ==> x.note < s.count
  }

  lemma {:induction false} NotesOfNotices(entries: seq<Entry>, alive: set<nat>, current: nat, note: nat)
    ensures forall x :: x in Notices(entries, alive, note) ==> x.note == note
    ensures forall x :: x in Posted(entries, alive, current, note) ==> x.note == note
  {
    if entries != [] {
      NotesOfNotices(entries[..|entries| - 1], alive, current, note);
    }
  }

  lemma NextKeepsEarlier(s: State, step: Step)
    requires IsEarlier(s) && Next(s, step).Some?
    ensures IsEarlier(Next(s, step).value)
  {
    if step.Notify? {
      NotesOfNotices(s.entries, s.alive, step.current, s.count);
    }
  }

  /** What one thread gets is posted to it, or made at once if the call runs there. */
  lemma {:induction false} OneWayOnly(entries: seq<Entry>, alive: set<nat>, current: nat, note: nat, thread: nat,
                                      observer: nat)
    ensures
      var p := Of(thread, observer);
      var notices, posted := Kept(p, Notices(entries, alive, note)), Kept(p, Posted(entries, alive, current, note));
      var direct := Kept(p, Direct(entries, alive, current, note));
      if thread == current then direct == notices && posted == [] else direct == [] && posted == notices
  {
    if entries != [] {
      var n, p := |entries| - 1, Of(thread, observer);
      var e := entries[n];
      OneWayOnly(entries[..n], alive, current, note, thread, observer);
      var one := [Task(e.thread, e.observer, note)];
      KeptOne(p, one[0]);
      KeptOfConcat(p, Notices(entries[..n], alive, note), one);
      KeptOfConcat(p, Direct(entries[..n], alive, current, note), one);
      KeptOfConcat(p, Posted(entries[..n], alive, current, note), one);
    }
  }

  /** Two lists of different notes commute only if one of them is empty. */
  lemma NotesCommute(a: seq<Task>, b: seq<Task>, note: nat)
    requires (forall x :: x in a ==> x.note == note) && forall x :: x in b ==> x.note < note
    ensures a + b == b + a <==> a == [] || b == []
  {
    if a != [] && b != [] {
      assert (a + b)[0] == a[0] && (b + a)[0] == b[0];
      assert a[0] in a && b[0] in b;
    } else {
      NothingMore(a);
      NothingMore(b);
    }
  }

  lemma SwappedEnds<B>(front: seq<B>, a: seq<B>, b: seq<B>)
    ensures (front + a) + b == (front + b) + a <==> a + b == b + a
  {
    Associates(front, a, b);
    Associates(front, b, a);
    Cancels(front, a + b, b + a);
  }

  /** A call on another thread puts its notifications behind all others. */
  lemma PostingKeepsOrder(s: State, current: nat, thread: nat, observer: nat)
    requires IsInOrder(s, thread, observer) && current != thread
    ensures IsInOrder(Notified(s, current), thread, observer)
  {
    var p := Of(thread, observer);
    OneWayOnly(s.entries, s.alive, current, s.count, thread, observer);
    KeptOfConcat(p, s.tasks, Posted(s.entries, s.alive, current, s.count));
    KeptOfConcat(p, s.made, Direct(s.entries, s.alive, current, s.count));
    KeptOfConcat(p, s.issued, Notices(s.entries, s.alive, s.count));
    NothingMore(Kept(p, s.made));
    Associates(Kept(p, s.made), Kept(p, s.tasks), Kept(p, Notices(s.entries, s.alive, s.count)));
  }

  /** A call on the thread itself keeps the order exactly if it overtakes nothing. */
  lemma DirectKeepsOrder(s: State, thread: nat, observer: nat)
    requires IsInOrder(s, thread, observer) && IsEarlier(s)
    ensures IsInOrder(Notified(s, thread), thread, observer) <==> !Overtakes(s, Notify(thread), thread, observer)
  {
    var p := Of(thread, observer);
    var notices := Notices(s.entries, s.alive, s.count);
    OneWayOnly(s.entries, s.alive, thread, s.count, thread, observer);
    KeptOfConcat(p, s.tasks, Posted(s.entries, s.alive, thread, s.count));
    KeptOfConcat(p, s.made, Direct(s.entries, s.alive, thread, s.count));
    KeptOfConcat(p, s.issued, notices);
    NothingMore(Kept(p, s.tasks));
    NotesOfNotices(s.entries, s.alive, thread, s.count);
    KeptIsKept(p, notices, |notices|);
    KeptIsKept(p, s.tasks, |s.tasks|);
    NotesCommute(Kept(p, notices), Kept(p, s.tasks), s.count);
    SwappedEnds(Kept(p, s.made), Kept(p, notices), Kept(p, s.tasks));
  }

  /** The task that a thread runs is the first of its kind. */
  lemma FirstIsTaken(tasks: seq<Task>, current: nat, thread: nat, observer: nat)
    requires FirstOn(tasks, current) < |tasks|
    ensures
      var p, i := Of(thread, observer), FirstOn(tasks, current);
      Kept(p, tasks) == if p(tasks[i]) then [tasks[i]] + Kept(p, Dropped(tasks, i)) else Kept(p, Dropped(tasks, i))
  {
    var p, i := Of(thread, observer), FirstOn(tasks, current);
    if p(tasks[i]) {
      FirstDropped(p, tasks, i);
    } else {
      KeptWithout(p, tasks, i);
    }
  }

  /** What moves from the front of one list to the end of another keeps its place. */
  lemma Moved<B>(made: seq<B>, moved: seq<B>, waiting: seq<B>, issued: seq<B>)
    requires made + (moved + waiting) == issued
    ensures (made + moved) + waiting == issued
  {
    Associates(made, moved, waiting);
  }

  /** A thread takes its tasks in the order in which they were posted. */
  lemma RunKeepsOrder(s: State, current: nat, thread: nat, observer: nat)
    requires IsInOrder(s, thread, observer) && FirstOn(s.tasks, current) < |s.tasks| && observer in s.alive
    ensures IsInOrder(TaskRun(s, current), thread, observer)
  {
    var p, i := Of(thread, observer), FirstOn(s.tasks, current);
    var task, rest := s.tasks[i], Dropped(s.tasks, i);
    FirstIsTaken(s.tasks, current, thread, observer);
    KeptSnoc(p, s.made, task);
    if p(task) {
      Moved(Kept(p, s.made), [task], Kept(p, rest), Kept(p, s.issued));
    }
  }

  /** While the observer is alive a step keeps its notifications in order exactly if it overtakes nothing. */
  lemma NextKeepsOrder(s: State, step: Step, thread: nat, observer: nat)
    requires IsInOrder(s, thread, observer) && IsEarlier(s) && observer in s.alive && Next(s, step).Some?
    ensures IsInOrder(Next(s, step).value, thread, observer) <==> !Overtakes(s, step, thread, observer)
  {
    match step {
      case Notify(current) =>
        if current == thread {
          DirectKeepsOrder(s, thread, observer);
        } else {
          PostingKeepsOrder(s, current, thread, observer);
        }
      case RunTask(current) => RunKeepsOrder(s, current, thread, observer);
      case _ =>
    }
  }

  // ---------- every run ----------

  lemma AlwaysEarlier(alive: set<nat>, steps: seq<Step>, n: nat)
    requires n <= |steps| && Runs.After(Next, Initial(alive), steps, n).Some?
    ensures IsEarlier(Runs.After(Next, Initial(alive), steps, n).value)
  {
    forall s, step | IsEarlier(s) && Next(s, step).Some? ensures IsEarlier(Next(s, step).value) {
      NextKeepsEarlier(s, step);
    }
    Runs.InvariantHolds(Next, Initial(alive), IsEarlier, steps, n);
  }

  lemma NobodyComesBack(s: State, step: Step)
    requires Next(s, step).Some?
    ensures Next(s, step).value.alive <= s.alive
  {
  }

  lemma {:induction false} AliveBefore(alive: set<nat>, steps: seq<Step>, n: nat, m: nat, observer: nat)
    requires n <= m <= |steps| && Runs.After(Next, Initial(alive), steps, m).Some?
    requires observer in Runs.After(Next, Initial(alive), steps, m).value.alive
    ensures Runs.After(Next, Initial(alive), steps, n).Some?
    ensures observer in Runs.After(Next, Initial(alive), steps, n).value.alive
    decreases m
  {
    if n < m {
      NobodyComesBack(Runs.After(Next, Initial(alive), steps, m - 1).value, steps[m - 1]);
      AliveBefore(alive, steps, n, m - 1, observer);
    }
  }

  predicate InOrderAfter(alive: set<nat>, steps: seq<Step>, n: nat, thread: nat, observer: nat)
    requires n <= |steps|
  {
    var s := Runs.After(Next, Initial(alive), steps, n);
    s.Some? ==> IsInOrder(s.value, thread, observer)
  }

  predicate OvertakesAt(alive: set<nat>, steps: seq<Step>, i: nat, thread: nat, observer: nat)
    requires i < |steps|
  {
    var s := Runs.After(Next, Initial(alive), steps, i);
    s.Some? && Overtakes(s.value, steps[i], thread, observer)
  }

  /** Step `i`, where the observer is alive after it. */
  lemma OneStepInOrder(alive: set<nat>, steps: seq<Step>, i: nat, thread: nat, observer: nat)
    requires i < |steps| && Runs.After(Next, Initial(alive), steps, i + 1).Some?
    requires observer in Runs.After(Next, Initial(alive), steps, i + 1).value.alive
    requires InOrderAfter(alive, steps, i, thread, observer)
    ensures InOrderAfter(alive, steps, i + 1, thread, observer) <==> !OvertakesAt(alive, steps, i, thread, observer)
  {
    AliveBefore(alive, steps, i, i + 1, observer);
    AlwaysEarlier(alive, steps, i);
    NextKeepsOrder(Runs.After(Next, Initial(alive), steps, i).value, steps[i], thread, observer);
  }

  lemma FirstInOrder(alive: set<nat>, steps: seq<Step>, thread: nat, observer: nat)
    ensures InOrderAfter(alive, steps, 0, thread, observer)
  {
    NothingMore<Task>([]);
  }

  lemma {:induction false} InOrderSoFar(alive: set<nat>, steps: seq<Step>, n: nat, thread: nat, observer: nat)
    requires n <= |steps| && forall i :: 0 <= i < n ==> !OvertakesAt(alive, steps, i, thread, observer)
    requires InOrderAfter(alive, steps, 0, thread, observer)
    requires forall i :: 0 <= i < n ==> GoesInOrder(alive, steps, i, thread, observer)
    ensures InOrderAfter(alive, steps, n, thread, observer)
  {
    if n > 0 {
      InOrderSoFar(alive, steps, n - 1, thread, observer);
      assert GoesInOrder(alive, steps, n - 1, thread, observer);
    }
  }

  predicate GoesInOrder(alive: set<nat>, steps: seq<Step>, i: nat, thread: nat, observer: nat)
    requires i < |steps|
  {
    InOrderAfter(alive, steps, i, thread, observer) ==>
      (InOrderAfter(alive, steps, i + 1, thread, observer) <==> !OvertakesAt(alive, steps, i, thread, observer))
  }

  lemma EveryStepGoesInOrder(alive: set<nat>, steps: seq<Step>, i: nat, thread: nat, observer: nat)
    requires i < |steps| && Runs.After(Next, Initial(alive), steps, |steps|).Some?
    requires observer in Runs.After(Next, Initial(alive), steps, |steps|).value.alive
    ensures GoesInOrder(alive, steps, i, thread, observer)
  {
    AliveBefore(alive, steps, i + 1, |steps|, observer);
    if InOrderAfter(alive, steps, i, thread, observer) {
      OneStepInOrder(alive, steps, i, thread, observer);
    }
  }

  /** An observer that lives gets the notifications of one thread in the order in which they were issued, after every
      step, exactly if nobody notifies it from that thread itself while earlier ones wait for it there. */
  lemma InOrderUnlessOvertaken(alive: set<nat>, steps: seq<Step>, thread: nat, observer: nat)
    requires Runs.After(Next, Initial(alive), steps, |steps|).Some?
    requires observer in Runs.After(Next, Initial(alive), steps, |steps|).value.alive
    ensures (forall n :: 0 <= n <= |steps| ==> InOrderAfter(alive, steps, n, thread, observer)) <==>
            forall i :: 0 <= i < |steps| ==> !OvertakesAt(alive, steps, i, thread, observer)
  {
    forall i | 0 <= i < |steps| ensures GoesInOrder(alive, steps, i, thread, observer) {
      EveryStepGoesInOrder(alive, steps, i, thread, observer);
    }
    FirstInOrder(alive, steps, thread, observer);
    InOrderIff(alive, steps, thread, observer);
  }

  lemma InOrderIff(alive: set<nat>, steps: seq<Step>, thread: nat, observer: nat)
    requires InOrderAfter(alive, steps, 0, thread, observer)
    requires forall i :: 0 <= i < |steps| ==> GoesInOrder(alive, steps, i, thread, observer)
    ensures (forall n :: 0 <= n <= |steps| ==> InOrderAfter(alive, steps, n, thread, observer)) <==>
            forall i :: 0 <= i < |steps| ==> !OvertakesAt(alive, steps, i, thread, observer)
  {
    if forall i :: 0 <= i < |steps| ==> !OvertakesAt(alive, steps, i, thread, observer) {
      forall n | 0 <= n <= |steps| ensures InOrderAfter(alive, steps, n, thread, observer) {
        InOrderSoFar(alive, steps, n, thread, observer);
      }
    }
    if forall n :: 0 <= n <= |steps| ==> InOrderAfter(alive, steps, n, thread, observer) {
      forall i | 0 <= i < |steps| ensures !OvertakesAt(alive, steps, i, thread, observer) {
        assert InOrderAfter(alive, steps, i, thread, observer) && InOrderAfter(alive, steps, i + 1, thread, observer);
        assert GoesInOrder(alive, steps, i, thread, observer);
      }
    }
  }

  // ---------- two runs ----------

  /** An observer is listed, and notified from another thread. */
  function Waiting(observer: nat, thread: nat): State {
    State([Entry(true, observer, thread)], {observer}, [Task(thread, observer, 0)], [], [Task(thread, observer, 0)], 1)
  }

  lemma OneNotice(observer: nat, thread: nat, current: nat, note: nat)
    ensures
      var entries, alive, notice := [Entry(true, observer, thread)], {observer}, [Task(thread, observer, note)];
      && Notices(entries, alive, note) == notice
      && Direct(entries, alive, current, note) == (if current == thread then notice else [])
      && Posted(entries, alive, current, note) == (if current == thread then [] else notice)
  {
    var entries, alive := [Entry(true, observer, thread)], {observer};
    assert entries[..0] == [];
    NothingMore([Task(thread, observer, note)]);
  }

  lemma WaitsForTheThread(observer: nat, thread: nat, current: nat, more: seq<Step>)
    requires current != thread
    ensures
      var steps := [Add(true, observer, thread), Notify(current)] + more;
      Runs.After(Next, Initial({observer}), steps, 2) == Some(Waiting(observer, thread))
  {
    var steps := [Add(true, observer, thread), Notify(current)] + more;
    var listed := State([Entry(true, observer, thread)], {observer}, [], [], [], 0);
    NothingMore([Entry(true, observer, thread)]);
    assert Runs.After(Next, Initial({observer}), steps, 0) == Some(Initial({observer}));
    assert Runs.After(Next, Initial({observer}), steps, 1) == Some(listed);
    OneNotice(observer, thread, current, 0);
    NothingMore([Task(thread, observer, 0)]);
    NothingMore<Task>([]);
    assert steps[1] == Notify(current) && Notified(listed, current) == Waiting(observer, thread);
  }

  /** An observer that is removed while a task waits for it is still notified. */
  lemma RemovedIsStillNotified(observer: nat, thread: nat, current: nat)
    requires current != thread
    ensures
      var steps := [Add(true, observer, thread), Notify(current)] + [Remove(observer), RunTask(thread)];
      var end := Runs.After(Next, Initial({observer}), steps, 4);
      end.Some? && end.value.entries == [] && end.value.made == [Task(thread, observer, 0)]
  {
    var more := [Remove(observer), RunTask(thread)];
    var steps := [Add(true, observer, thread), Notify(current)] + more;
    WaitsForTheThread(observer, thread, current, more);
    var removed := Waiting(observer, thread).(entries := []);
    assert steps[2] == Remove(observer) && steps[3] == RunTask(thread);
    assert Without(Waiting(observer, thread).entries, observer) == [];
    assert Runs.After(Next, Initial({observer}), steps, 3) == Some(removed);
    NothingMore([Task(thread, observer, 0)]);
  }

  /** A notification from the observer's own thread overtakes one that waits there. */
  lemma OwnThreadOvertakes(observer: nat, thread: nat, current: nat)
    requires current != thread
    ensures
      var steps := [Add(true, observer, thread), Notify(current)] + [Notify(thread)];
      var end := Runs.After(Next, Initial({observer}), steps, 3);
      && end.Some? && end.value.made == [Task(thread, observer, 1)] && end.value.tasks == [Task(thread, observer, 0)]
      && OvertakesAt({observer}, steps, 2, thread, observer)
  {
    var more := [Notify(thread)];
    var steps := [Add(true, observer, thread), Notify(current)] + more;
    WaitsForTheThread(observer, thread, current, more);
    assert steps[2] == Notify(thread);
    OneNotice(observer, thread, thread, 1);
    NothingMore([Task(thread, observer, 0)]);
    NothingMore([Task(thread, observer, 1)]);
    KeptOne(Of(thread, observer), Task(thread, observer, 0));
    KeptOne(Of(thread, observer), Task(thread, observer, 1));
  }
}
