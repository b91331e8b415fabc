/** The observer list, changed in place. `alive` are the observers that somebody keeps alive; the callers of the list
    pass observers that they keep alive themselves. */
module UniversalObservable {
  import opened Gathering
  import N = Notification
  import opened ObserverList
  import opened Option

  /** The observers and the tasks of a state of the machine. */
  predicate Shows(s: N.State, observers: seq<Entry>, tasks: seq<Task>, alive: set<nat>) {
    s.entries == observers && s.tasks == tasks && s.alive == alive
  }

  class UniversalObservable {
    var observers: seq<Entry>
    /** What has been posted to other threads, in order. */
    var tasks: seq<Task>

    constructor ()
      ensures observers == [] && tasks == []
    {
      observers, tasks := [], [];
    }

    /** `hasObserverInternal`. */
    method HasObserver(observer: nat, alive: set<nat>) returns (has: bool)
      requires observer in alive
      ensures has <==> IsListed(observers, observer)
    {
      for i := 0 to |observers|
        invariant forall j :: 0 <= j < i ==> observers[j].observer != observer
      {
        if Locked(observers[i], alive) == Some(observer) {
          return true;
        }
      }
      return false;
    }

    /** `addWeakObserver` and `addObserver`. */
    method Add(weak: bool, observer: nat, thread: nat, alive: set<nat>)
      requires observer in alive && Distinct(observers)
      modifies `observers
      ensures Distinct(observers)
      ensures observers == if IsListed(old(observers), observer) then old(observers)
                           else old(observers) + [Entry(weak, observer, thread)]
      ensures forall s: N.State :: Shows(s, old(observers), tasks, alive) ==>
                                     N.Next(s, N.Add(weak, observer, thread)) == Some(s.(entries := observers))
    {
      var has := HasObserver(observer, alive);
      if !has {
        observers := observers + [Entry(weak, observer, thread)];
      }
    }

    /** `removeObserver`. */
    method Remove(observer: nat, alive: set<nat>)
      requires observer in alive && Distinct(observers)
      modifies `observers
      ensures observers == Without(old(observers), observer)
      ensures Distinct(observers) && !IsListed(observers, observer)
      ensures forall s: N.State :: Shows(s, old(observers), tasks, alive) ==>
                                     N.Next(s, N.Remove(observer)) == Some(s.(entries := observers))
    {
      WithoutRemoves(observers, observer);
      for i := 0 to |observers|
        invariant observers == old(observers)
        invariant forall j :: 0 <= j < i ==> observers[j].observer != observer
        invariant Without(observers, observer) == observers[..i] + Without(observers[i..], observer)
      {
        WithoutFrom(observers, observer, i);
        if Locked(observers[i], alive) == Some(observer) {
          observers := observers[..i] + observers[i + 1..];
          return;
        }
      }
    }

    /** `clearObserver`. */
    method Clear(ghost alive: set<nat>)
      modifies `observers
      ensures observers == []
      ensures forall s: N.State :: Shows(s, old(observers), tasks, alive) ==>
                                     N.Next(s, N.Clear) == Some(s.(entries := observers))
    {
      observers := [];
    }

    /** `notifyObservers` on thread `current`: observers of that thread are notified at once, and a task is posted
        for each of the others. `note` stands for the notifier. */
    method Notify(alive: set<nat>, current: nat, note: nat) returns (notified: seq<Task>)
      modifies `tasks
      ensures notified == Direct(observers, alive, current, note)
      ensures tasks == old(tasks) + Posted(observers, alive, current, note)
      ensures On(notified, current) == Reached(observers, alive, current)
      ensures forall thread :: On(tasks, thread) ==
                               On(old(tasks), thread) + On(Posted(observers, alive, current, note), thread)
      ensures forall thread :: On(Posted(observers, alive, current, note), thread) ==
                               if thread == current then [] else Reached(observers, alive, thread)
      ensures forall s: N.State :: Shows(s, observers, old(tasks), alive) && s.count == note ==>
                                     N.Next(s, N.Notify(current)) ==
                                     Some(s.(tasks := tasks, made := s.made + notified,
                                             issued := s.issued + Notices(observers, alive, note), count := note + 1))
    {
      var snapshot := observers;
      notified := [];
      for i := 0 to |snapshot|
        invariant snapshot == observers
        invariant notified == Direct(snapshot[..i], alive, current, note)
        invariant tasks == old(tasks) + Posted(snapshot[..i], alive, current, note)
      {
        var e := snapshot[i];
        assert snapshot[..i + 1][..i] == snapshot[..i];
        var obs := Locked(e, alive);
        if obs.Some? {
          if e.thread == current {
            notified := notified + [Task(e.thread, obs.value, note)];
          } else {
            tasks := tasks + [Task(e.thread, obs.value, note)];
          }
        }
      }
      assert snapshot[..|snapshot|] == snapshot;
      EachThreadReached(snapshot, alive, current, note, current);
      forall thread
        ensures On(tasks, thread) == On(old(tasks), thread) + On(Posted(snapshot, alive, current, note), thread)
        ensures On(Posted(snapshot, alive, current, note), thread) ==
                  if thread == current then [] else Reached(snapshot, alive, thread)
      {
        OnOfConcat(old(tasks), Posted(snapshot, alive, current, note), thread);
        EachThreadReached(snapshot, alive, current, note, thread);
      }
    }

    /** A thread runs its first task: the observer is notified if it is alive then, listed or not. */
    method RunTask(thread: nat, alive: set<nat>) returns (notified: Option<Task>)
      requires FirstOn(tasks, thread) < |tasks|
      modifies `tasks
      ensures
        var i := FirstOn(old(tasks), thread);
        && tasks == Dropped(old(tasks), i)
        && notified == if old(tasks)[i].observer in alive then Some(old(tasks)[i]) else None
      ensures forall s: N.State :: Shows(s, observers, old(tasks), alive) ==>
                                     N.Next(s, N.RunTask(thread)) ==
                                     Some(s.(tasks := tasks,
                                             made := if notified.Some? then s.made + [notified.value] else s.made))
    {
      var i := FirstOn(tasks, thread);
      var task := tasks[i];
      tasks := tasks[..i] + tasks[i + 1..];
      notified := if task.observer in alive then Some(task) else None;
    }
  }
}
