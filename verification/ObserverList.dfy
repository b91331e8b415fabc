/** The observer list: weak and strong entries in one list, in order of registration. */
module ObserverList {
  import opened Option

  /** Observers and threads are known by numbers. A weak entry does not keep its observer alive. */
  datatype Entry = Entry(weak: bool, observer: nat, thread: nat)

  /** What an entry yields: a weak pointer is locked, a strong one always holds. */
  function Locked(e: Entry, alive: set<nat>): Option<nat> {
    if e.weak && e.observer !in alive then None else Some(e.observer)
  }

  predicate IsListed(entries: seq<Entry>, observer: nat) {
    exists i :: 0 <= i < |entries| && entries[i].observer == observer
  }

  /** Nobody is listed twice, neither as two weak entries nor as a weak and a strong one. */
  predicate Distinct(entries: seq<Entry>) {
    forall i, j :: 0 <= i < j < |entries| ==> entries[i].observer != entries[j].observer
  }

  /** The entry of an observer, if it has one, is taken out; the others stay in order. */
  function Without(entries: seq<Entry>, observer: nat): seq<Entry> {
    if entries == [] then []
    else if entries[0].observer == observer then entries[1..]
    else [entries[0]] + Without(entries[1..], observer)
  }

  lemma {:induction false} WithoutRemoves(entries: seq<Entry>, observer: nat)
    requires Distinct(entries)
    ensures Distinct(Without(entries, observer)) && !IsListed(Without(entries, observer), observer)
    ensures forall o :: o != observer ==> (IsListed(Without(entries, observer), o) <==> IsListed(entries, o))
    ensures forall e :: e in Without(entries, observer) ==> e in entries
  {
    if entries != [] {
      var rest := entries[1..];
      if entries[0].observer == observer {
        forall o | o != observer ensures IsListed(rest, o) <==> IsListed(entries, o) {
          ListedInTail(entries, o);
        }
        forall i | 0 <= i < |rest| ensures rest[i].observer != observer {
          assert rest[i] == entries[i + 1];
        }
      } else {
        WithoutRemoves(rest, observer);
        var left := Without(rest, observer);
        forall j | 0 <= j < |left| ensures left[j].observer != entries[0].observer {
          assert left[j] in rest;
        }
        forall o | o != observer ensures IsListed([entries[0]] + left, o) <==> IsListed(entries, o) {
          ListedInTail(entries, o);
          ListedInTail([entries[0]] + left, o);
          assert ([entries[0]] + left)[1..] == left;
        }
        ListedInTail([entries[0]] + left, observer);
        assert ([entries[0]] + left)[1..] == left;
      }
    }
  }

  /** The list without an observer is the list with one position left out, or the list itself. */
  lemma {:induction false} WithoutIsCut(entries: seq<Entry>, observer: nat) returns (i: nat)
    ensures i <= |entries| && forall j :: 0 <= j < i ==> entries[j].observer != observer
    ensures i == |entries| ==> Without(entries, observer) == entries
    ensures i < |entries| ==>
              entries[i].observer == observer && Without(entries, observer) == entries[..i] + entries[i + 1..]
  {
    if entries == [] || entries[0].observer == observer {
      i := 0;
    } else {
      var rest := entries[1..];
      i := WithoutIsCut(rest, observer);
      if i < |rest| {
        assert entries[..i + 1] == [entries[0]] + rest[..i] && entries[i + 2..] == rest[i + 1..];
      }
      i := i + 1;
    }
  }

  lemma ListedInTail(entries: seq<Entry>, observer: nat)
    requires entries != []
    ensures IsListed(entries, observer) <==> entries[0].observer == observer || IsListed(entries[1..], observer)
  {
    if IsListed(entries, observer) && entries[0].observer != observer {
      var i :| 0 <= i < |entries| && entries[i].observer == observer;
      assert entries[1..][i - 1].observer == observer;
    }
    if IsListed(entries[1..], observer) {
      var i :| 0 <= i < |entries[1..]| && entries[1..][i].observer == observer;
      assert entries[i + 1].observer == observer;
    }
  }

  lemma WithoutFrom(entries: seq<Entry>, observer: nat, i: nat)
    requires i < |entries|
    ensures
      var rest := Without(entries[i..], observer);
      if entries[i].observer == observer then rest == entries[i + 1..]
      else entries[..i] + rest == entries[..i + 1] + Without(entries[i + 1..], observer)
  {
    assert entries[i..][0] == entries[i] && entries[i..][1..] == entries[i + 1..];
    if entries[i].observer != observer {
      Regroup(entries[..i], entries[i], Without(entries[i + 1..], observer));
      assert entries[..i] + [entries[i]] == entries[..i + 1];
    }
  }

  lemma Regroup<T>(a: seq<T>, x: T, b: seq<T>)
    ensures a + ([x] + b) == a + [x] + b
  {
  }

  // ---------- notification ----------

  predicate Reaches(e: Entry, alive: set<nat>, thread: nat) {
    Locked(e, alive).Some? && e.thread == thread
  }

  /** The observers that a notification reaches on one thread, in order of registration. */
  function Reached(entries: seq<Entry>, alive: set<nat>, thread: nat): seq<nat> {
    if entries == [] then []
    else
      var e, before := entries[|entries| - 1], Reached(entries[..|entries| - 1], alive, thread);
      if Reaches(e, alive, thread) then before + [e.observer] else before
  }

  /** How often an observer occurs in a list. */
  function Times(observers: seq<nat>, observer: nat): nat {
    if observers == [] then 0
    else Times(observers[..|observers| - 1], observer) + if observers[|observers| - 1] == observer then 1 else 0
  }

  lemma TimesOfAppend(observers: seq<nat>, last: nat, observer: nat)
    ensures Times(observers + [last], observer) == Times(observers, observer) + if last == observer then 1 else 0
  {
    assert (observers + [last])[..|observers|] == observers;
  }

  /** The observer is registered for the thread, and it is alive or registered by a strong pointer. */
  predicate IsDue(entries: seq<Entry>, alive: set<nat>, thread: nat, observer: nat) {
    exists i :: 0 <= i < |entries| && entries[i].observer == observer && entries[i].thread == thread
                && (entries[i].weak ==> observer in alive)
  }

  lemma DueInFront(entries: seq<Entry>, alive: set<nat>, thread: nat, observer: nat)
    requires entries != []
    ensures
      var n := |entries| - 1;
      IsDue(entries, alive, thread, observer) <==>
        || IsDue(entries[..n], alive, thread, observer)
        || (entries[n].observer == observer && Reaches(entries[n], alive, thread))
  {
    var n := |entries| - 1;
    if IsDue(entries[..n], alive, thread, observer) {
      var i :| 0 <= i < n && entries[..n][i].observer == observer && entries[..n][i].thread == thread
               && (entries[..n][i].weak ==> observer in alive);
      assert entries[i] == entries[..n][i];
    }
    if i :| 0 <= i < n && entries[i].observer == observer && entries[i].thread == thread
            && (entries[i].weak ==> observer in alive) {
      assert entries[i] == entries[..n][i];
    }
  }

  /** One notification reaches, on each thread, every live observer that is registered there exactly once, and
      nobody else. */
  lemma {:induction false} ReachedOnce(entries: seq<Entry>, alive: set<nat>, thread: nat, observer: nat)
    requires Distinct(entries)
    ensures Times(Reached(entries, alive, thread), observer) == if IsDue(entries, alive, thread, observer) then 1 else 0
  {
    if entries != [] {
      var n := |entries| - 1;
      ReachedOnce(entries[..n], alive, thread, observer);
      DueInFront(entries, alive, thread, observer);
      if Reaches(entries[n], alive, thread) {
        TimesOfAppend(Reached(entries[..n], alive, thread), entries[n].observer, observer);
      }
    }
  }

  lemma {:induction false} ReachedGrows(entries: seq<Entry>, alive: set<nat>, thread: nat, n: nat)
    requires n <= |entries|
    ensures Reached(entries[..n], alive, thread) <= Reached(entries, alive, thread)
    decreases |entries|
  {
    if n < |entries| {
      ReachedGrows(entries[..|entries| - 1], alive, thread, n);
      assert entries[..|entries| - 1][..n] == entries[..n];
    } else {
      assert entries[..n] == entries;
    }
  }

  /** On each thread the one who registered first is reached first. */
  lemma InOrderOfRegistration(entries: seq<Entry>, alive: set<nat>, thread: nat, i: nat, j: nat)
      returns (p: nat, q: nat)
    requires i < j < |entries| && entries[i].thread == entries[j].thread == thread
    requires (entries[i].weak ==> entries[i].observer in alive) && (entries[j].weak ==> entries[j].observer in alive)
    ensures p < q < |Reached(entries, alive, thread)|
    ensures Reached(entries, alive, thread)[p] == entries[i].observer
    ensures Reached(entries, alive, thread)[q] == entries[j].observer
  {
    p, q := |Reached(entries[..i], alive, thread)|, |Reached(entries[..j], alive, thread)|;
    assert entries[..i + 1][..i] == entries[..i] && entries[..j + 1][..j] == entries[..j];
    ReachedGrows(entries, alive, thread, i + 1);
    ReachedGrows(entries, alive, thread, j + 1);
    ReachedGrows(entries[..j], alive, thread, i + 1);
    assert entries[..j][..i + 1] == entries[..i + 1];
  }

  // ---------- tasks ----------

  /** A notification for an observer, to be made on a thread; `note` tells one call of `notifyObservers` from
      another. */
  datatype Task = Task(thread: nat, observer: nat, note: nat)

  /** All that one call has to make, in order of registration. */
  function Notices(entries: seq<Entry>, alive: set<nat>, note: nat): seq<Task> {
    if entries == [] then []
    else
      var e, before := entries[|entries| - 1], Notices(entries[..|entries| - 1], alive, note);
      if Locked(e, alive).Some? then before + [Task(e.thread, e.observer, note)] else before
  }

  /** What is made at once, because the call runs on that thread. */
  function Direct(entries: seq<Entry>, alive: set<nat>, current: nat, note: nat): seq<Task> {
    if entries == [] then []
    else
      var e, before := entries[|entries| - 1], Direct(entries[..|entries| - 1], alive, current, note);
      if Reaches(e, alive, current) then before + [Task(e.thread, e.observer, note)] else before
  }

  /** What is posted to the other threads. */
  function Posted(entries: seq<Entry>, alive: set<nat>, current: nat, note: nat): seq<Task> {
    if entries == [] then []
    else
      var e, before := entries[|entries| - 1], Posted(entries[..|entries| - 1], alive, current, note);
      if Locked(e, alive).Some? && e.thread != current then before + [Task(e.thread, e.observer, note)] else before
  }

  /** The position of the first task for a thread; the number of tasks if there is none. */
  function FirstOn(tasks: seq<Task>, thread: nat): (i: nat)
    ensures i <= |tasks|
    ensures i < |tasks| ==> tasks[i].thread == thread
    ensures forall j :: 0 <= j < i ==> tasks[j].thread != thread
  {
    if tasks == [] || tasks[0].thread == thread then 0 else 1 + FirstOn(tasks[1..], thread)
  }

  /** The observers of the tasks for one thread, in order. */
  function On(tasks: seq<Task>, thread: nat): seq<nat> {
    if tasks == [] then []
    else
      var t, before := tasks[|tasks| - 1], On(tasks[..|tasks| - 1], thread);
      if t.thread == thread then before + [t.observer] else before
  }

  lemma {:induction false} OnOfConcat(a: seq<Task>, b: seq<Task>, thread: nat)
    ensures On(a + b, thread) == On(a, thread) + On(b, thread)
  {
    if b == [] {
      assert a + b == a && On(a, thread) + [] == On(a, thread);
    } else {
      assert (a + b)[..|a + b| - 1] == a + b[..|b| - 1];
      OnOfConcat(a, b[..|b| - 1], thread);
    }
  }

  /** Made at once and posted together, a call reaches on each thread those it has to, and in order. */
  lemma {:induction false} EachThreadReached(entries: seq<Entry>, alive: set<nat>, current: nat, note: nat,
                                             thread: nat)
    ensures
      var direct, posted := Direct(entries, alive, current, note), Posted(entries, alive, current, note);
      var reached := Reached(entries, alive, thread);
      if thread == current then On(direct, thread) == reached && On(posted, thread) == []
      else On(direct, thread) == [] && On(posted, thread) == reached
  {
    if entries != [] {
      var n := |entries| - 1;
      var e := entries[n];
      EachThreadReached(entries[..n], alive, current, note, thread);
      var direct, posted := Direct(entries[..n], alive, current, note), Posted(entries[..n], alive, current, note);
      var one := Task(e.thread, e.observer, note);
      assert (direct + [one])[..|direct|] == direct && (posted + [one])[..|posted|] == posted;
    }
  }
}
