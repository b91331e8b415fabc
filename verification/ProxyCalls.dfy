/** The objects behind the proxies: whatever the interleaving, calls take effect as in a sequential program. */
module ProxyCalls {
  import opened Option
  import Runs
  import T = ProxyThreads

  /** What is asked of an object: one of its methods, or the destruction of its proxy. */
  datatype Request<O> = Do(op: O) | Destroy

  /** What a call ends with: the result of the method, or nothing if the weak pointer has expired. */
  datatype Outcome<R> = Value(value: R) | Nothing

  datatype Object<S> = Object(alive: bool, state: S)

  /** The thread that owns each object, and what the methods do. */
  datatype Program<!S, !O, !R> = Program(owner: nat -> nat, apply: (S, O) -> (S, R))

  datatype Event<O> =
    | Invoked(call: nat)
    | Ran(call: nat, thread: nat, target: nat, request: Request<O>)
    | Responded(call: nat)

  /** What is known of a call beside its control state; the stamps are positions in the log. */
  datatype Detail<O, R> = Detail(target: nat, request: Request<O>, outcome: Option<Outcome<R>>,
                                 invokedAt: nat, ranAt: Option<nat>, respondedAt: Option<nat>)

  /** The threads and calls, the objects, one detail for each call, and all that has happened so far. */
  datatype System<S, O, R> = System(control: T.World, objects: seq<Object<S>>, details: seq<Detail<O, R>>,
      log: seq<Event<O>>)

  datatype Step<O> = Move(step: T.Step) | Call(thread: nat, target: nat, request: Request<O>)

  /** One request, sequentially: an expired object is left alone. */
  function Served<S, O, R>(p: Program<S, O, R>, o: Object<S>, request: Request<O>): (Object<S>, Outcome<R>) {
    if !o.alive then (o, Nothing)
    else
      match request
      case Do(op) => var (state, value) := p.apply(o.state, op); (Object(true, state), Value(value))
      case Destroy => (Object(false, o.state), Nothing)
  }

  /** The call whose body is innermost on a thread. */
  function Running(w: T.World, t: nat): nat
    requires t < |w.threads| && w.threads[t].stack != [] && w.threads[t].Top().work.Body?
  {
    w.threads[t].Top().work.call
  }

  /** The innermost handler is the body of a direct call: its end is the return to the caller. */
  predicate Responds(w: T.World, t: nat)
    requires t < |w.threads| && w.threads[t].stack != []
  {
    var work := w.threads[t].Top().work;
    work.Body? && work.call < |w.calls| && w.calls[work.call].caller == t
  }

  predicate Enabled<S, O, R>(p: Program<S, O, R>, s: System<S, O, R>, step: Step<O>) {
    match step
    case Move(m) => !m.Invoke? && T.Enabled(s.control, m)
    case Call(t, target, _) => target < |s.objects| && T.Enabled(s.control, T.Invoke(t, p.owner(target)))
  }

  /** The body of a call runs: its request is served. */
  function AfterRun<S, O, R>(p: Program<S, O, R>, s: System<S, O, R>, t: nat): System<S, O, R>
    requires T.Enabled(s.control, T.Run(t)) && Matched(p, s)
  {
    var c := Running(s.control, t);
    var d := s.details[c];
    var (o, outcome) := Served(p, s.objects[d.target], d.request);
    System(T.AfterRun(s.control, t),
           s.objects[d.target := o],
           s.details[c := d.(outcome := Some(outcome), ranAt := Some(|s.log|))],
           s.log + [Ran(c, t, d.target, d.request)])
  }

  /** A call returns to its caller: after the wait, or when the direct call of its body ends. */
  function WithResponse<S, O, R>(s: System<S, O, R>, control: T.World, c: nat): System<S, O, R>
    requires c < |s.details|
  {
    System(control, s.objects, s.details[c := s.details[c].(respondedAt := Some(|s.log|))], s.log + [Responded(c)])
  }

  /** Each call has its detail, and belongs to the owner of its target. */
  predicate Matched<S, O, R>(p: Program<S, O, R>, s: System<S, O, R>) {
    && |s.details| == |s.control.calls|
    && forall c :: 0 <= c < |s.details| ==>
                     s.details[c].target < |s.objects| && s.control.calls[c].owner == p.owner(s.details[c].target)
  }

  function Next<S, O, R>(p: Program<S, O, R>, s: System<S, O, R>, step: Step<O>): System<S, O, R>
    requires Enabled(p, s, step) && Matched(p, s)
  {
    match step
    case Call(t, target, request) =>
      System(T.AfterInvoke(s.control, t, p.owner(target)),
             s.objects,
             s.details + [Detail(target, request, None, |s.log|, None, None)],
             s.log + [Invoked(|s.control.calls|)])
    case Move(Run(t)) => AfterRun(p, s, t)
    case Move(Resume(t)) => WithResponse(s, T.AfterResume(s.control, t), s.control.threads[t].blocked.value)
    case Move(Finish(t)) =>
      if Responds(s.control, t) then WithResponse(s, T.AfterFinish(s.control, t), Running(s.control, t))
      else s.(control := T.AfterFinish(s.control, t))
    case Move(m) => s.(control := T.Next(s.control, m))
  }

  // ---------- the log ----------

  /** The events of a call stand in the log where its stamps say, in order, and say how far the call has come: it
      has run, on the owner thread, before it responds. */
  ghost predicate StampsOk<S, O, R>(p: Program<S, O, R>, s: System<S, O, R>, c: nat)
    requires |s.details| == |s.control.calls| && c < |s.details|
  {
    var d, call := s.details[c], s.control.calls[c];
    && d.invokedAt < |s.log| && s.log[d.invokedAt] == Invoked(c)
    && (call.ran <==> d.ranAt.Some?) && (call.returned <==> d.respondedAt.Some?) && (d.ranAt.Some? <==> d.outcome.Some?)
    && (d.ranAt.Some? ==>
          && d.invokedAt < d.ranAt.value < |s.log|
          && s.log[d.ranAt.value] == Ran(c, p.owner(d.target), d.target, d.request))
    && (d.respondedAt.Some? ==>
          && d.ranAt.Some? && d.ranAt.value < d.respondedAt.value < |s.log|
          && s.log[d.respondedAt.value] == Responded(c))
  }

  /** An event stands in the log where the stamps of its call say, so it stands there once. */
  predicate EventOk<S, O, R>(s: System<S, O, R>, i: nat)
    requires i < |s.log|
  {
    match s.log[i]
    case Invoked(c) => c < |s.details| && s.details[c].invokedAt == i
    case Ran(c, _, target, _) => c < |s.details| && s.details[c].ranAt == Some(i) && target < |s.objects|
    case Responded(c) => c < |s.details| && s.details[c].respondedAt == Some(i)
  }

  ghost predicate LogOk<S, O, R>(p: Program<S, O, R>, s: System<S, O, R>) {
    && Matched(p, s)
    && (forall c :: 0 <= c < |s.details| ==> StampsOk(p, s, c))
    && (forall i :: 0 <= i < |s.log| ==> EventOk(s, i))
  }

  /** A step that neither runs, responds nor calls leaves the log alone. */
  lemma QuietKeepsLog<S, O, R>(p: Program<S, O, R>, s: System<S, O, R>, control: T.World)
    requires LogOk(p, s) && |control.calls| == |s.control.calls|
    requires forall c :: 0 <= c < |control.calls| ==>
                           && control.calls[c].owner == s.control.calls[c].owner
                           && control.calls[c].ran == s.control.calls[c].ran
                           && control.calls[c].returned == s.control.calls[c].returned
    ensures LogOk(p, s.(control := control))
  {
    var next := s.(control := control);
    forall c | 0 <= c < |s.details| ensures StampsOk(p, next, c) {
      assert StampsOk(p, s, c);
    }
    forall i | 0 <= i < |s.log| ensures EventOk(next, i) {
      assert EventOk(s, i);
    }
  }

  lemma CallKeepsLog<S, O, R>(p: Program<S, O, R>, s: System<S, O, R>, t: nat, target: nat, request: Request<O>)
    requires LogOk(p, s) && Enabled(p, s, Call(t, target, request))
    ensures LogOk(p, Next(p, s, Call(t, target, request)))
  {
    var next := Next(p, s, Call(t, target, request));
    forall c | 0 <= c < |next.details| ensures StampsOk(p, next, c) {
      assert c < |s.details| ==> StampsOk(p, s, c);
    }
    forall i | 0 <= i < |next.log| ensures EventOk(next, i) {
      assert i < |s.log| ==> EventOk(s, i);
    }
  }

  lemma RunKeepsLog<S, O, R>(p: Program<S, O, R>, s: System<S, O, R>, t: nat)
    requires T.Ok(s.control) && LogOk(p, s) && T.Enabled(s.control, T.Run(t))
    ensures LogOk(p, AfterRun(p, s, t))
  {
    var next := AfterRun(p, s, t);
    assert T.StackOk(s.control, t) && StampsOk(p, s, Running(s.control, t));
    forall c | 0 <= c < |s.details| ensures StampsOk(p, next, c) {
      assert StampsOk(p, s, c);
    }
    forall i | 0 <= i < |next.log| ensures EventOk(next, i) {
      assert i < |s.log| ==> EventOk(s, i);
    }
  }

  lemma ResponseKeepsLog<S, O, R>(p: Program<S, O, R>, s: System<S, O, R>, control: T.World, c: nat)
    requires LogOk(p, s) && |control.calls| == |s.control.calls| && c < |s.details|
    requires s.control.calls[c].ran && !s.control.calls[c].returned && control.calls[c].returned
    requires control.calls[c].ran && control.calls[c].owner == s.control.calls[c].owner
    requires forall d :: 0 <= d < |control.calls| && d != c ==> control.calls[d] == s.control.calls[d]
    ensures LogOk(p, WithResponse(s, control, c))
  {
    var next := WithResponse(s, control, c);
    assert StampsOk(p, s, c);
    forall d | 0 <= d < |s.details| ensures StampsOk(p, next, d) {
      assert StampsOk(p, s, d);
    }
    forall i | 0 <= i < |next.log| ensures EventOk(next, i) {
      assert i < |s.log| ==> EventOk(s, i);
    }
  }

  lemma NextKeepsLog<S, O, R>(p: Program<S, O, R>, s: System<S, O, R>, step: Step<O>)
    requires T.Ok(s.control) && LogOk(p, s) && Enabled(p, s, step)
    ensures LogOk(p, Next(p, s, step))
  {
    if step.Call? {
      CallKeepsLog(p, s, step.thread, step.target, step.request);
    } else {
      var t := step.step.thread;
      if step.step.Run? {
        RunKeepsLog(p, s, t);
      } else if step.step.Resume? {
        var c := s.control.threads[t].blocked.value;
        assert T.WaitOk(s.control, t) && T.CallOk(s.control, c);
        ResponseKeepsLog(p, s, T.AfterResume(s.control, t), c);
      } else if step.step.Finish? && Responds(s.control, t) {
        var c := s.control.threads[t].Top().work.call;
        assert T.StackOk(s.control, t) && T.CallOk(s.control, c);
        ResponseKeepsLog(p, s, T.AfterFinish(s.control, t), c);
      } else {
        QuietMove(p, s, step.step);
      }
    }
  }

  /** Moves that do not log: of those that end a handler, the ones that end no direct call. */
  lemma QuietMove<S, O, R>(p: Program<S, O, R>, s: System<S, O, R>, m: T.Step)
    requires T.Ok(s.control) && LogOk(p, s) && T.Enabled(s.control, m)
    requires m.Post? || m.Begin? || (m.Finish? && !Responds(s.control, m.thread))
    ensures LogOk(p, s.(control := T.Next(s.control, m)))
  {
    var t := m.thread;
    assert T.StackOk(s.control, t) && T.QueueOk(s.control, t);
    if m.Finish? && s.control.threads[t].Top().work.Body? {
      assert T.CallOk(s.control, s.control.threads[t].Top().work.call);
    }
    if m.Begin? {
      var work := s.control.threads[t].inbox[s.control.threads[t].taken];
      assert work.Body? ==> T.CallOk(s.control, work.call);
    }
    QuietKeepsLog(p, s, T.Next(s.control, m));
  }

  // ---------- the sequential order ----------

  /** The objects after the calls that ran among the first `n` events have been served one after the other. */
  function Replayed<S, O, R>(p: Program<S, O, R>, start: seq<Object<S>>, log: seq<Event<O>>,
      n: nat): (objects: seq<Object<S>>)
    requires n <= |log|
    ensures |objects| == |start|
  {
    if n == 0 then start
    else
      var before := Replayed(p, start, log, n - 1);
      match log[n - 1]
      case Ran(_, _, target, request) =>
        if target < |start| then before[target := Served(p, before[target], request).0] else before
      case _ => before
  }

  /** The objects are those of the sequential program that serves the calls in the order in which they ran, and
      every call has the outcome it has there. */
  ghost predicate IsSequential<S, O, R>(p: Program<S, O, R>, start: seq<Object<S>>, s: System<S, O, R>) {
    && |s.objects| == |start|
    && s.objects == Replayed(p, start, s.log, |s.log|)
    && forall c :: 0 <= c < |s.details| && s.details[c].ranAt.Some? ==>
                     var d := s.details[c];
                     && d.ranAt.value <= |s.log| && d.target < |start|
                     && d.outcome == Some(Served(p, Replayed(p, start, s.log, d.ranAt.value)[d.target], d.request).1)
  }

  lemma {:induction false} ReplayOfPrefix<S, O, R>(p: Program<S, O, R>, start: seq<Object<S>>, log: seq<Event<O>>,
                                                   more: seq<Event<O>>, n: nat)
    requires n <= |log|
    ensures Replayed(p, start, log + more, n) == Replayed(p, start, log, n)
  {
    if n > 0 {
      ReplayOfPrefix(p, start, log, more, n - 1);
    }
  }

  /** An event that is not a run leaves the sequential order alone. */
  lemma QuietKeepsSequence<S, O, R>(p: Program<S, O, R>, start: seq<Object<S>>, s: System<S, O, R>,
                                    next: System<S, O, R>, e: Event<O>)
    requires IsSequential(p, start, s) && !e.Ran? && next.objects == s.objects && next.log == s.log + [e]
    requires |s.details| <= |next.details|
    requires forall c :: 0 <= c < |next.details| ==>
                           if c >= |s.details| then next.details[c].ranAt.None?
                           else next.details[c].(respondedAt := None) == s.details[c].(respondedAt := None)
    ensures IsSequential(p, start, next)
  {
    ReplayOfPrefix(p, start, s.log, [e], |s.log|);
    forall c | 0 <= c < |next.details| && next.details[c].ranAt.Some?
      ensures
        var d := next.details[c];
        && d.ranAt.value <= |next.log| && d.target < |start|
        && d.outcome == Some(Served(p, Replayed(p, start, next.log, d.ranAt.value)[d.target], d.request).1)
    {
      assert next.details[c].(respondedAt := None) == s.details[c].(respondedAt := None);
      ReplayOfPrefix(p, start, s.log, [e], s.details[c].ranAt.value);
    }
  }

  lemma RunKeepsSequence<S, O, R>(p: Program<S, O, R>, start: seq<Object<S>>, s: System<S, O, R>, t: nat)
    requires T.Ok(s.control) && LogOk(p, s) && IsSequential(p, start, s) && T.Enabled(s.control, T.Run(t))
    ensures IsSequential(p, start, AfterRun(p, s, t))
  {
    var next, ran := AfterRun(p, s, t), Running(s.control, t);
    var e := Ran(ran, t, s.details[ran].target, s.details[ran].request);
    assert next.log == s.log + [e];
    ReplayOfPrefix(p, start, s.log, [e], |s.log|);
    forall c | 0 <= c < |next.details| && next.details[c].ranAt.Some?
      ensures
        var d := next.details[c];
        && d.ranAt.value <= |next.log| && d.target < |start|
        && d.outcome == Some(Served(p, Replayed(p, start, next.log, d.ranAt.value)[d.target], d.request).1)
    {
      if c != ran {
        ReplayOfPrefix(p, start, s.log, [e], s.details[c].ranAt.value);
      }
    }
  }

  lemma NextKeepsSequence<S, O, R>(p: Program<S, O, R>, start: seq<Object<S>>, s: System<S, O, R>, step: Step<O>)
    requires T.Ok(s.control) && LogOk(p, s) && IsSequential(p, start, s) && Enabled(p, s, step)
    ensures IsSequential(p, start, Next(p, s, step))
  {
    var next := Next(p, s, step);
    if step.Call? {
      QuietKeepsSequence(p, start, s, next, Invoked(|s.control.calls|));
    } else if step.step.Run? {
      RunKeepsSequence(p, start, s, step.step.thread);
    } else if step.step.Resume? {
      QuietKeepsSequence(p, start, s, next, Responded(s.control.threads[step.step.thread].blocked.value));
    } else if step.step.Finish? && Responds(s.control, step.step.thread) {
      QuietKeepsSequence(p, start, s, next, Responded(Running(s.control, step.step.thread)));
    }
  }

  // ---------- every run ----------

  function TryNext<S, O, R>(p: Program<S, O, R>, s: System<S, O, R>, step: Step<O>): Option<System<S, O, R>> {
    if Matched(p, s) && Enabled(p, s, step) then Some(Next(p, s, step)) else None
  }

  function Stepping<S, O, R>(p: Program<S, O, R>): (System<S, O, R>, Step<O>) -> Option<System<S, O, R>> {
    (s, step) => TryNext(p, s, step)
  }

  function Initial<S, O, R>(start: seq<Object<S>>, threads: nat): System<S, O, R> {
    System(T.Initial(threads), start, [], [])
  }

  lemma NextKeepsMatched<S, O, R>(p: Program<S, O, R>, s: System<S, O, R>, step: Step<O>)
    requires Matched(p, s) && Enabled(p, s, step)
    ensures Matched(p, Next(p, s, step))
  {
  }

  /** Proxied calls are linearizable: in every interleaving of any threads, after every step, each call has run at
      most once, on the owner thread, before it responds, and with the outcome it has in the sequential program
      that serves the calls in the order in which they ran. */
  lemma {:induction false} Linearizable<S, O, R>(p: Program<S, O, R>, start: seq<Object<S>>, threads: nat,
                                                 steps: seq<Step<O>>, n: nat)
    requires n <= |steps|
    ensures
      var s := Runs.After(Stepping(p), Initial(start, threads), steps, n);
      s.Some? ==>
        Matched(p, s.value) && T.Ok(s.value.control) && LogOk(p, s.value) && IsSequential(p, start, s.value)
  {
    if n > 0 {
      Linearizable(p, start, threads, steps, n - 1);
      var s := Runs.After(Stepping(p), Initial(start, threads), steps, n - 1);
      if s.Some? && Enabled(p, s.value, steps[n - 1]) {
        var step := steps[n - 1];
        NextKeepsMatched(p, s.value, step);
        NextKeepsLog(p, s.value, step);
        NextKeepsSequence(p, start, s.value, step);
        T.NextKeepsOk(s.value.control, if step.Call? then T.Invoke(step.thread, p.owner(step.target)) else step.step);
      }
    }
  }

  // ---------- what that means for callers ----------

  /** What a request does to the objects, and what its caller gets: a method acts on the state of a living object and
      on nothing else, and its result is returned; a destruction makes an end of the object; and what has expired is
      left alone. */
  ghost predicate HasEffect<S, O, R>(p: Program<S, O, R>, before: seq<Object<S>>, target: nat, request: Request<O>,
                                     after: seq<Object<S>>, outcome: Option<Outcome<R>>) {
    && target < |before| && |after| == |before|
    && (forall o :: 0 <= o < |before| && o != target ==> after[o] == before[o])
    && (if !before[target].alive then after[target] == before[target] && outcome == Some(Nothing)
        else if request.Destroy? then !after[target].alive && outcome == Some(Nothing)
        else
          && after[target].alive
          && after[target].state == p.apply(before[target].state, request.op).0
          && outcome == Some(Value(p.apply(before[target].state, request.op).1)))
  }

  /** The body of a call has this effect when it runs. */
  lemma RunHasEffect<S, O, R>(p: Program<S, O, R>, s: System<S, O, R>, t: nat)
    requires T.Enabled(s.control, T.Run(t)) && Matched(p, s)
    ensures
      var next, c := Next(p, s, Move(T.Run(t))), Running(s.control, t);
      var d := s.details[c];
      && next.log == s.log + [Ran(c, t, d.target, d.request)] && |next.details| == |s.details|
      && HasEffect(p, s.objects, d.target, d.request, next.objects, next.details[c].outcome)
      && next.details[c].target == d.target && next.details[c].request == d.request
  {
  }

  /** No other step touches an object. */
  lemma OtherStepsHaveNone<S, O, R>(p: Program<S, O, R>, s: System<S, O, R>, step: Step<O>)
    requires Matched(p, s) && Enabled(p, s, step) && !(step.Move? && step.step.Run?)
    ensures
      var next := Next(p, s, step);
      && next.objects == s.objects && s.log <= next.log
      && forall i :: |s.log| <= i < |next.log| ==> !next.log[i].Ran?
  {
  }

  /** The step of a run that logged a given run of a body. */
  lemma {:induction false} StepOfRun<S, O, R>(p: Program<S, O, R>, start: seq<Object<S>>, threads: nat,
                                              steps: seq<Step<O>>, n: nat, i: nat) returns (m: nat)
    requires n <= |steps| && Runs.After(Stepping(p), Initial(start, threads), steps, n).Some?
    requires
      var s := Runs.After(Stepping(p), Initial(start, threads), steps, n).value;
      i < |s.log| && s.log[i].Ran?
    ensures m < n
    ensures
      var s := Runs.After(Stepping(p), Initial(start, threads), steps, n).value;
      var before := Runs.After(Stepping(p), Initial(start, threads), steps, m);
      var after := Runs.After(Stepping(p), Initial(start, threads), steps, m + 1);
      && before.Some? && after.Some? && Matched(p, before.value) && Enabled(p, before.value, steps[m])
      && steps[m].Move? && steps[m].step.Run? && |before.value.log| == i
      && after.value == Next(p, before.value, steps[m]) && after.value.log <= s.log
  {
    var before := Runs.After(Stepping(p), Initial(start, threads), steps, n - 1).value;
    if steps[n - 1].Move? && steps[n - 1].step.Run? {
      RunHasEffect(p, before, steps[n - 1].step.thread);
    } else {
      OtherStepsHaveNone(p, before, steps[n - 1]);
    }
    if i < |before.log| {
      m := StepOfRun(p, start, threads, steps, n - 1, i);
    } else {
      m := n - 1;
    }
  }

  /** The outcome of a call is settled when its body has run. */
  lemma OutcomeStays<S, O, R>(p: Program<S, O, R>, start: seq<Object<S>>, s: System<S, O, R>, later: System<S, O, R>,
                              i: nat)
    requires LogOk(p, s) && IsSequential(p, start, s) && LogOk(p, later) && IsSequential(p, start, later)
    requires s.log <= later.log && i < |s.log| && s.log[i].Ran?
    ensures s.log[i].call < |s.details| && s.log[i].call < |later.details|
    ensures later.details[s.log[i].call].outcome == s.details[s.log[i].call].outcome
  {
    var c := s.log[i].call;
    assert later.log[i] == s.log[i];
    assert EventOk(s, i) && EventOk(later, i);
    assert StampsOk(p, s, c) && StampsOk(p, later, c);
    assert later.log == s.log + later.log[|s.log|..];
    ReplayOfPrefix(p, start, s.log, later.log[|s.log|..], i);
  }

  /** The effect of a body, and what is known of it later. */
  lemma EffectIsKept<S, O, R>(p: Program<S, O, R>, start: seq<Object<S>>, before: System<S, O, R>, t: nat,
                              after: System<S, O, R>, s: System<S, O, R>)
    requires T.Enabled(before.control, T.Run(t)) && Matched(p, before) && after == Next(p, before, Move(T.Run(t)))
    requires LogOk(p, after) && IsSequential(p, start, after) && LogOk(p, s) && IsSequential(p, start, s)
    requires after.log <= s.log
    ensures
      var i := |before.log|;
      && i < |s.log| && s.log[i].Ran? && before.log == s.log[..i] && after.log == s.log[..i + 1]
      && s.log[i].call < |s.details|
      && HasEffect(p, before.objects, s.log[i].target, s.log[i].request, after.objects,
                   s.details[s.log[i].call].outcome)
  {
    RunHasEffect(p, before, t);
    assert s.log[|before.log|] == after.log[|before.log|];
    OutcomeStays(p, start, after, s, |before.log|);
  }

  /** Every run of a body that was ever logged had its effect on the objects that were there before it, and the
      outcome that its call has is that of this run. */
  lemma EveryCallHasItsEffect<S, O, R>(p: Program<S, O, R>, start: seq<Object<S>>, threads: nat,
                                       steps: seq<Step<O>>, n: nat, i: nat) returns (m: nat)
    requires n <= |steps| && Runs.After(Stepping(p), Initial(start, threads), steps, n).Some?
    requires
      var s := Runs.After(Stepping(p), Initial(start, threads), steps, n).value;
      i < |s.log| && s.log[i].Ran?
    ensures m < n
    ensures
      var s := Runs.After(Stepping(p), Initial(start, threads), steps, n).value;
      var before := Runs.After(Stepping(p), Initial(start, threads), steps, m);
      var after := Runs.After(Stepping(p), Initial(start, threads), steps, m + 1);
      var e := s.log[i];
      && before.Some? && after.Some? && before.value.log == s.log[..i] && after.value.log == s.log[..i + 1]
      && e.call < |s.details|
      && HasEffect(p, before.value.objects, e.target, e.request, after.value.objects, s.details[e.call].outcome)
  {
    m := StepOfRun(p, start, threads, steps, n, i);
    Linearizable(p, start, threads, steps, n);
    Linearizable(p, start, threads, steps, m + 1);
    EffectIsKept(p, start, Runs.After(Stepping(p), Initial(start, threads), steps, m).value, steps[m].step.thread,
                 Runs.After(Stepping(p), Initial(start, threads), steps, m + 1).value,
                 Runs.After(Stepping(p), Initial(start, threads), steps, n).value);
  }

  /** A call is known by what it asks of whom, and stays so. */
  lemma RequestsAreKept<S, O, R>(p: Program<S, O, R>, s: System<S, O, R>, step: Step<O>)
    requires Matched(p, s) && Enabled(p, s, step)
    ensures
      var next := Next(p, s, step);
      && |next.details| == |s.details| + (if step.Call? then 1 else 0)
      && (forall c :: 0 <= c < |s.details| ==>
            next.details[c].target == s.details[c].target && next.details[c].request == s.details[c].request)
      && (step.Call? ==>
            var d := next.details[|s.details|];
            d.target == step.target && d.request == step.request && d.outcome.None?)
  {
  }

  /** A thread in a handler can call an object of its own at any time, and the call goes through at once. */
  lemma DirectCallReturns<S, O, R>(p: Program<S, O, R>, s: System<S, O, R>, t: nat, target: nat, request: Request<O>)
    requires T.Ok(s.control) && Matched(p, s) && t < |s.control.threads| && s.control.threads[t].Runs()
    requires target < |s.objects| && p.owner(target) == t
    ensures
      var c := |s.details|;
      var end := Runs.After(Stepping(p), s, [Call(t, target, request), Move(T.Run(t)), Move(T.Finish(t))], 3);
      && end.Some? && c < |end.value.details| && c < |end.value.control.calls|
      && end.value.control.calls[c].returned && end.value.control.threads[t] == s.control.threads[t]
      && HasEffect(p, s.objects, target, request, end.value.objects, end.value.details[c].outcome)
  {
    var steps := [Call(t, target, request), Move(T.Run(t)), Move(T.Finish(t))];
    assert Runs.After(Stepping(p), s, steps, 0) == Some(s);
    var called := Next(p, s, Call(t, target, request));
    NextKeepsMatched(p, s, Call(t, target, request));
    assert Runs.After(Stepping(p), s, steps, 1) == Some(called);
    RequestsAreKept(p, s, Call(t, target, request));
    var ran := Next(p, called, Move(T.Run(t)));
    NextKeepsMatched(p, called, Move(T.Run(t)));
    assert Runs.After(Stepping(p), s, steps, 2) == Some(ran);
    RunHasEffect(p, called, t);
    assert Runs.After(Stepping(p), s, steps, 3) == Some(Next(p, ran, Move(T.Finish(t))));
    StackRestored(s.control.threads[t].stack, ran.control.threads[t].stack);
  }

  lemma StackRestored(before: seq<T.Frame>, after: seq<T.Frame>)
    requires |after| == |before| + 1 && forall i :: 0 <= i < |before| ==> after[i] == before[i]
    ensures after[..|after| - 1] == before
  {
  }

  /** A caller that has its response can rely on the body having run, once, on the owner thread, before. */
  lemma RanOnceBefore<S, O, R>(p: Program<S, O, R>, s: System<S, O, R>, c: nat, k: nat) returns (i: nat)
    requires LogOk(p, s) && k < |s.log| && s.log[k].Responded? && s.log[k].call == c
    ensures i < k && s.log[i].Ran? && s.log[i].call == c && c < |s.details|
    ensures s.log[i].thread == p.owner(s.details[c].target)
    ensures forall j :: 0 <= j < |s.log| && s.log[j].Ran? && s.log[j].call == c ==> j == i
  {
    assert EventOk(s, k) && StampsOk(p, s, c);
    i := s.details[c].ranAt.value;
    forall j | 0 <= j < |s.log| && s.log[j].Ran? && s.log[j].call == c ensures j == i {
      assert EventOk(s, j);
    }
  }

  /** The sequential order respects real time: a call that responded before another was made ran before it. */
  lemma RealTimeOrder<S, O, R>(p: Program<S, O, R>, s: System<S, O, R>, i: nat, j: nat, r: nat)
    requires LogOk(p, s) && i < j < |s.log| && s.log[i].Responded? && s.log[j].Invoked?
    requires r < |s.log| && s.log[r].Ran? && s.log[r].call == s.log[j].call
    ensures s.log[i].call < |s.details|
    ensures s.details[s.log[i].call].ranAt.Some? && s.details[s.log[i].call].ranAt.value < r
  {
    assert EventOk(s, i) && EventOk(s, j) && EventOk(s, r);
    assert StampsOk(p, s, s.log[i].call) && StampsOk(p, s, s.log[j].call);
  }

  /** Once an object has expired it stays as it is. */
  lemma {:induction false} ExpiredStays<S, O, R>(p: Program<S, O, R>, start: seq<Object<S>>, log: seq<Event<O>>,
                                                 target: nat, i: nat, n: nat)
    requires i <= n <= |log| && target < |start| && !Replayed(p, start, log, i)[target].alive
    ensures Replayed(p, start, log, n)[target] == Replayed(p, start, log, i)[target]
    decreases n
  {
    if i < n {
      ExpiredStays(p, start, log, target, i, n - 1);
    }
  }

  /** A call that runs after its object has expired does nothing and returns nothing. */
  lemma ExpiredIsNoOp<S, O, R>(p: Program<S, O, R>, start: seq<Object<S>>, s: System<S, O, R>, c: nat, i: nat)
    requires LogOk(p, s) && IsSequential(p, start, s) && c < |s.details| && s.details[c].ranAt.Some?
    requires i <= s.details[c].ranAt.value <= |s.log|
    requires s.details[c].target < |start| && !Replayed(p, start, s.log, i)[s.details[c].target].alive
    ensures s.details[c].outcome == Some(Nothing)
    ensures s.objects[s.details[c].target] == Replayed(p, start, s.log, i)[s.details[c].target]
  {
    ExpiredStays(p, start, s.log, s.details[c].target, i, s.details[c].ranAt.value);
    ExpiredStays(p, start, s.log, s.details[c].target, i, |s.log|);
  }
}
