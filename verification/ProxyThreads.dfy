/** Calls through the weak proxies, as far as threads are concerned: a synchronous call runs on the thread that owns
    its target. A thread takes the messages of its queue one at a time; a thread that waits for a call takes none. */
module ProxyThreads {
  import opened Option
  import Runs

  /** What a thread handles: a message of its own, or the body of a call. */
  datatype Work = Plain | Body(call: nat)

  /** Where the message of a call is: the n-th of the owner's messages, not taken yet; on the owner's stack; or gone,
      which is when the event that the caller waits for is set. */
  datatype Place = Queued(n: nat) | OnStack(depth: nat) | Gone

  datatype Call = Call(caller: nat, owner: nat, place: Place, ran: bool, returned: bool)

  /** A handler; `ran` says that a body has called the method. */
  datatype Frame = Frame(work: Work, ran: bool)

  /** All messages ever posted to the thread, in order, how many of them it has taken, the handlers that it is in,
      the innermost last, and the posted call that the innermost one waits for. */
  datatype Thread = Thread(inbox: seq<Work>, taken: nat, stack: seq<Frame>, blocked: Option<nat>) {
    predicate Idle() {
      stack == [] && blocked.None?
    }

    predicate Runs() {
      stack != [] && blocked.None?
    }

    function Top(): Frame
      requires stack != []
    {
      stack[|stack| - 1]
    }
  }

  datatype World = World(threads: seq<Thread>, calls: seq<Call>)

  datatype Step =
    | Post(thread: nat)
    | Begin(thread: nat)
    | Invoke(thread: nat, owner: nat)
    | Run(thread: nat)
    | Finish(thread: nat)
    | Resume(thread: nat)

  predicate Enabled(w: World, step: Step) {
    step.thread < |w.threads| &&
    var t := w.threads[step.thread];
    match step
    case Post(_) => true
    case Begin(_) => t.Idle() && t.taken < |t.inbox|
    case Invoke(_, owner) => t.Runs() && owner < |w.threads|
    case Run(_) => t.Runs() && t.Top().work.Body? && !t.Top().ran && t.Top().work.call < |w.calls|
    case Finish(_) => t.Runs() && (t.Top().work.Body? ==> t.Top().ran && t.Top().work.call < |w.calls|)
    case Resume(_) => t.blocked.Some? && t.blocked.value < |w.calls| && w.calls[t.blocked.value].place.Gone?
  }

  /** `rtc::Thread` takes the next message. */
  function AfterBegin(w: World, t: nat): World
    requires t < |w.threads| && w.threads[t].taken < |w.threads[t].inbox|
  {
    var thread := w.threads[t];
    var work := thread.inbox[thread.taken];
    World(w.threads[t := thread.(taken := thread.taken + 1, stack := thread.stack + [Frame(work, false)])],
          if work.Body? && work.call < |w.calls|
          then w.calls[work.call := w.calls[work.call].(place := OnStack(|thread.stack|))]
          else w.calls)
  }

  /** `SynchronousMethodCall::Invoke`: on the owner thread the body is called directly; elsewhere it is posted, and
      the caller waits. */
  function AfterInvoke(w: World, t: nat, owner: nat): World
    requires t < |w.threads| && owner < |w.threads|
  {
    var thread, c := w.threads[t], |w.calls|;
    if owner == t then
      World(w.threads[t := thread.(stack := thread.stack + [Frame(Body(c), false)])],
            w.calls + [Call(t, t, OnStack(|thread.stack|), false, false)])
    else
      var other := w.threads[owner];
      World(w.threads[t := thread.(blocked := Some(c))][owner := other.(inbox := other.inbox + [Body(c)])],
            w.calls + [Call(t, owner, Queued(|other.inbox|), false, false)])
  }

  /** `ReturnType::Invoke`: the method is called. */
  function AfterRun(w: World, t: nat): World
    requires t < |w.threads| && w.threads[t].stack != []
    requires w.threads[t].Top().work.Body? && w.threads[t].Top().work.call < |w.calls|
  {
    var thread := w.threads[t];
    var c := thread.Top().work.call;
    World(w.threads[t := thread.(stack := thread.stack[|thread.stack| - 1 := thread.Top().(ran := true)])],
          w.calls[c := w.calls[c].(ran := true)])
  }

  /** `SynchronousMethodCall::OnMessage` ends, or the direct call of the body returns. */
  function AfterFinish(w: World, t: nat): World
    requires t < |w.threads| && w.threads[t].stack != []
  {
    var thread, work := w.threads[t], w.threads[t].Top().work;
    World(w.threads[t := thread.(stack := thread.stack[..|thread.stack| - 1])],
          if work.Body? && work.call < |w.calls|
          then w.calls[work.call := w.calls[work.call].(place := Gone, returned := w.calls[work.call].caller == t)]
          else w.calls)
  }

  /** The wait for the event ends. */
  function AfterResume(w: World, t: nat): World
    requires t < |w.threads| && w.threads[t].blocked.Some? && w.threads[t].blocked.value < |w.calls|
  {
    var c := w.threads[t].blocked.value;
    World(w.threads[t := w.threads[t].(blocked := None)], w.calls[c := w.calls[c].(returned := true)])
  }

  function Next(w: World, step: Step): World
    requires Enabled(w, step)
  {
    match step
    case Post(t) => w.(threads := w.threads[t := w.threads[t].(inbox := w.threads[t].inbox + [Plain])])
    case Begin(t) => AfterBegin(w, t)
    case Invoke(t, owner) => AfterInvoke(w, t, owner)
    case Run(t) => AfterRun(w, t)
    case Finish(t) => AfterFinish(w, t)
    case Resume(t) => AfterResume(w, t)
  }

  // ---------- what every step keeps ----------

  /** A message of `t` that is not taken is a call that `t` owns, queued at that very place. */
  predicate QueueOk(w: World, t: nat)
    requires t < |w.threads|
  {
    var thread := w.threads[t];
    && thread.taken <= |thread.inbox|
    && forall i :: thread.taken <= i < |thread.inbox| && thread.inbox[i].Body? ==>
                     var c := thread.inbox[i].call;
                     c < |w.calls| && w.calls[c].owner == t && w.calls[c].place == Queued(i)
  }

  /** A body on the stack of `t` is a call that `t` owns, at that very depth. Only the outermost handler is not an
      inline call. */
  predicate StackOk(w: World, t: nat)
    requires t < |w.threads|
  {
    var stack := w.threads[t].stack;
    forall k :: 0 <= k < |stack| ==>
                  && (k > 0 ==> stack[k].work.Body?)
                  && (stack[k].work.Body? ==>
                        var c := stack[k].work.call;
                        && c < |w.calls| && w.calls[c].owner == t && w.calls[c].place == OnStack(k)
                        && w.calls[c].ran == stack[k].ran
                        && (w.calls[c].caller == t <==> k > 0))
  }

  /** A waiting thread is inside a handler, and waits for a call that it made to another thread. */
  predicate WaitOk(w: World, t: nat)
    requires t < |w.threads|
  {
    w.threads[t].blocked.Some? ==>
      var c := w.threads[t].blocked.value;
      && c < |w.calls| && w.calls[c].caller == t && w.calls[c].owner != t && !w.calls[c].returned
      && w.threads[t].stack != []
  }

  /** A call is where it is said to be; while it has not returned its caller waits for it. */
  predicate CallOk(w: World, c: nat)
    requires c < |w.calls|
  {
    var call := w.calls[c];
    && call.owner < |w.threads| && call.caller < |w.threads|
    && (match call.place
        case Queued(n) =>
          && call.caller != call.owner && !call.ran && !call.returned
          && w.threads[call.owner].taken <= n < |w.threads[call.owner].inbox|
          && w.threads[call.owner].inbox[n] == Body(c)
        case OnStack(k) =>
          !call.returned && k < |w.threads[call.owner].stack| && w.threads[call.owner].stack[k].work == Body(c)
        case Gone => call.ran && (call.caller == call.owner ==> call.returned))
    && (!call.returned && call.caller != call.owner ==> w.threads[call.caller].blocked == Some(c))
  }

  predicate Ok(w: World) {
    && (forall t :: 0 <= t < |w.threads| ==> QueueOk(w, t) && StackOk(w, t) && WaitOk(w, t))
    && (forall c :: 0 <= c < |w.calls| ==> CallOk(w, c))
  }

  lemma PostKeepsOk(w: World, t: nat)
    requires Ok(w) && t < |w.threads|
    ensures Ok(Next(w, Post(t)))
  {
    var next := Next(w, Post(t));
    forall u | 0 <= u < |w.threads| ensures QueueOk(next, u) && StackOk(next, u) && WaitOk(next, u) {
      assert QueueOk(w, u) && StackOk(w, u) && WaitOk(w, u);
    }
    forall c | 0 <= c < |w.calls| ensures CallOk(next, c) {
      assert CallOk(w, c);
    }
  }

  lemma BeginKeepsOk(w: World, t: nat)
    requires Ok(w) && Enabled(w, Begin(t))
    ensures Ok(AfterBegin(w, t))
  {
    var next := AfterBegin(w, t);
    assert QueueOk(w, t);
    var work := w.threads[t].inbox[w.threads[t].taken];
    assert work.Body? ==> CallOk(w, work.call);
    forall u | 0 <= u < |w.threads| ensures QueueOk(next, u) && StackOk(next, u) && WaitOk(next, u) {
      assert QueueOk(w, u) && StackOk(w, u) && WaitOk(w, u);
    }
    forall c | 0 <= c < |w.calls| ensures CallOk(next, c) {
      assert CallOk(w, c);
    }
  }

  lemma DirectInvokeKeepsOk(w: World, t: nat)
    requires Ok(w) && Enabled(w, Invoke(t, t))
    ensures Ok(AfterInvoke(w, t, t))
  {
    var next := AfterInvoke(w, t, t);
    forall u | 0 <= u < |w.threads| ensures QueueOk(next, u) && StackOk(next, u) && WaitOk(next, u) {
      assert QueueOk(w, u) && StackOk(w, u) && WaitOk(w, u);
    }
    forall c | 0 <= c < |next.calls| ensures CallOk(next, c) {
      assert c < |w.calls| ==> CallOk(w, c);
    }
  }

  lemma PostedInvokeKeepsCalls(w: World, t: nat, owner: nat)
    requires Ok(w) && Enabled(w, Invoke(t, owner)) && owner != t
    ensures forall c :: 0 <= c < |AfterInvoke(w, t, owner).calls| ==> CallOk(AfterInvoke(w, t, owner), c)
  {
    var next := AfterInvoke(w, t, owner);
    assert QueueOk(w, owner);
    forall c | 0 <= c < |next.calls| ensures CallOk(next, c) {
      assert c < |w.calls| ==> CallOk(w, c);
    }
  }

  lemma PostedInvokeKeepsOk(w: World, t: nat, owner: nat)
    requires Ok(w) && Enabled(w, Invoke(t, owner)) && owner != t
    ensures Ok(AfterInvoke(w, t, owner))
  {
    var next := AfterInvoke(w, t, owner);
    assert QueueOk(w, owner);
    forall u | 0 <= u < |w.threads| ensures QueueOk(next, u) && StackOk(next, u) && WaitOk(next, u) {
      assert QueueOk(w, u) && StackOk(w, u) && WaitOk(w, u);
    }
    PostedInvokeKeepsCalls(w, t, owner);
  }

  lemma RunKeepsCalls(w: World, t: nat)
    requires Ok(w) && Enabled(w, Run(t))
    ensures forall c :: 0 <= c < |AfterRun(w, t).calls| ==> CallOk(AfterRun(w, t), c)
  {
    var next := AfterRun(w, t);
    assert StackOk(w, t);
    forall c | 0 <= c < |next.calls| ensures CallOk(next, c) {
      assert c < |w.calls| ==> CallOk(w, c);
    }
  }

  lemma RunKeepsOk(w: World, t: nat)
    requires Ok(w) && Enabled(w, Run(t))
    ensures Ok(AfterRun(w, t))
  {
    var next := AfterRun(w, t);
    assert StackOk(w, t);
    forall u | 0 <= u < |w.threads| ensures QueueOk(next, u) && StackOk(next, u) && WaitOk(next, u) {
      assert QueueOk(w, u) && StackOk(w, u) && WaitOk(w, u);
    }
    RunKeepsCalls(w, t);
  }

  lemma FinishKeepsCalls(w: World, t: nat)
    requires Ok(w) && Enabled(w, Finish(t))
    ensures forall c :: 0 <= c < |AfterFinish(w, t).calls| ==> CallOk(AfterFinish(w, t), c)
  {
    var next := AfterFinish(w, t);
    assert StackOk(w, t);
    forall c | 0 <= c < |next.calls| ensures CallOk(next, c) {
      assert c < |w.calls| ==> CallOk(w, c);
    }
  }

  lemma FinishKeepsOk(w: World, t: nat)
    requires Ok(w) && Enabled(w, Finish(t))
    ensures Ok(AfterFinish(w, t))
  {
    var next := AfterFinish(w, t);
    assert StackOk(w, t);
    forall u | 0 <= u < |w.threads| ensures QueueOk(next, u) && StackOk(next, u) && WaitOk(next, u) {
      assert QueueOk(w, u) && StackOk(w, u) && WaitOk(w, u);
    }
    FinishKeepsCalls(w, t);
  }

  lemma ResumeKeepsOk(w: World, t: nat)
    requires Ok(w) && Enabled(w, Resume(t))
    ensures Ok(AfterResume(w, t))
  {
    var next := AfterResume(w, t);
    assert WaitOk(w, t);
    forall u | 0 <= u < |w.threads| ensures QueueOk(next, u) && StackOk(next, u) && WaitOk(next, u) {
      assert QueueOk(w, u) && StackOk(w, u) && WaitOk(w, u);
    }
    forall c | 0 <= c < |w.calls| ensures CallOk(next, c) {
      assert CallOk(w, c);
    }
  }

  /** `count` threads with nothing to do. */
  function Initial(count: nat): World {
    World(seq(count, i => Thread([], 0, [], None)), [])
  }

  function TryNext(w: World, step: Step): Option<World> {
    if Enabled(w, step) then Some(Next(w, step)) else None
  }

  lemma NextKeepsOk(w: World, step: Step)
    requires Ok(w) && Enabled(w, step)
    ensures Ok(Next(w, step))
  {
    match step {
      case Post(t) => PostKeepsOk(w, t);
      case Begin(t) => BeginKeepsOk(w, t);
      case Invoke(t, owner) =>
        if owner == t {
          DirectInvokeKeepsOk(w, t);
        } else {
          PostedInvokeKeepsOk(w, t, owner);
        }
      case Run(t) => RunKeepsOk(w, t);
      case Finish(t) => FinishKeepsOk(w, t);
      case Resume(t) => ResumeKeepsOk(w, t);
    }
  }

  /** In every interleaving, after every step, all messages, handlers, waits and calls agree. */
  lemma AlwaysOk(count: nat, steps: seq<Step>, n: nat)
    requires n <= |steps| && Runs.After(TryNext, Initial(count), steps, n).Some?
    ensures Ok(Runs.After(TryNext, Initial(count), steps, n).value)
  {
    forall w, step | Ok(w) && TryNext(w, step).Some? ensures Ok(TryNext(w, step).value) {
      NextKeepsOk(w, step);
    }
    Runs.InvariantHolds(TryNext, Initial(count), Ok, steps, n);
  }

  // ---------- deadlock freedom ----------

  /** Threads only call themselves and threads of lower rank. */
  predicate IsRanked(rank: nat -> nat, step: Step) {
    step.Invoke? && step.owner != step.thread ==> rank(step.owner) < rank(step.thread)
  }

  predicate Ranked(rank: nat -> nat, w: World) {
    forall c :: 0 <= c < |w.calls| && w.calls[c].owner != w.calls[c].caller ==>
                  rank(w.calls[c].owner) < rank(w.calls[c].caller)
  }

  lemma NextKeepsRanked(rank: nat -> nat, w: World, step: Step)
    requires Ranked(rank, w) && Enabled(w, step) && IsRanked(rank, step)
    ensures Ranked(rank, Next(w, step))
  {
    var next := Next(w, step);
    forall c | 0 <= c < |next.calls| && next.calls[c].owner != next.calls[c].caller
      ensures rank(next.calls[c].owner) < rank(next.calls[c].caller)
    {
      if c < |w.calls| {
        assert next.calls[c].owner == w.calls[c].owner && next.calls[c].caller == w.calls[c].caller;
      }
    }
  }

  /** A step that neither posts a message nor makes a call. */
  predicate IsInternal(step: Step) {
    !step.Post? && !step.Invoke?
  }

  /** From any busy thread, along the calls that threads wait for, there is a thread that can take a step. */
  lemma {:induction false} SomeThreadMoves(rank: nat -> nat, w: World, t: nat) returns (step: Step)
    requires Ok(w) && Ranked(rank, w) && t < |w.threads| && w.threads[t].stack != []
    ensures IsInternal(step) && Enabled(w, step)
    decreases rank(t)
  {
    var thread := w.threads[t];
    assert StackOk(w, t) && WaitOk(w, t);
    if thread.blocked.None? {
      step := if thread.Top().work.Body? && !thread.Top().ran then Run(t) else Finish(t);
    } else {
      var c := thread.blocked.value;
      var owner := w.calls[c].owner;
      assert CallOk(w, c) && WaitOk(w, owner);
      if w.calls[c].place.Gone? {
        step := Resume(t);
      } else if w.threads[owner].stack == [] {
        step := Begin(owner);
      } else {
        step := SomeThreadMoves(rank, w, owner);
      }
    }
  }

  predicate AllRanked(rank: nat -> nat, steps: seq<Step>) {
    forall i :: 0 <= i < |steps| ==> IsRanked(rank, steps[i])
  }

  /** In every run whose calls all go down in rank, after every step, the calls are ranked. */
  lemma {:induction false} AlwaysRanked(rank: nat -> nat, count: nat, steps: seq<Step>, n: nat)
    requires n <= |steps| && AllRanked(rank, steps) && Runs.After(TryNext, Initial(count), steps, n).Some?
    ensures Ranked(rank, Runs.After(TryNext, Initial(count), steps, n).value)
  {
    if n > 0 {
      AlwaysRanked(rank, count, steps, n - 1);
      NextKeepsRanked(rank, Runs.After(TryNext, Initial(count), steps, n - 1).value, steps[n - 1]);
    }
  }

  /** Deadlock freedom: while a call is outstanding some thread can take a step. */
  lemma NoDeadlock(rank: nat -> nat, w: World, c: nat) returns (step: Step)
    requires Ok(w) && Ranked(rank, w) && c < |w.calls| && !w.calls[c].returned
    ensures IsInternal(step) && Enabled(w, step)
  {
    assert CallOk(w, c);
    var call := w.calls[c];
    assert WaitOk(w, call.caller);
    step := SomeThreadMoves(rank, w, if call.caller == call.owner then call.owner else call.caller);
  }

  /** No run whose calls all go down in rank ever comes to a deadlock. */
  lemma NeverDeadlocks(rank: nat -> nat, count: nat, steps: seq<Step>, n: nat, c: nat) returns (step: Step)
    requires n <= |steps| && AllRanked(rank, steps) && Runs.After(TryNext, Initial(count), steps, n).Some?
    requires
      var w := Runs.After(TryNext, Initial(count), steps, n).value;
      c < |w.calls| && !w.calls[c].returned
    ensures IsInternal(step) && Enabled(Runs.After(TryNext, Initial(count), steps, n).value, step)
  {
    AlwaysOk(count, steps, n);
    AlwaysRanked(rank, count, steps, n);
    step := NoDeadlock(rank, Runs.After(TryNext, Initial(count), steps, n).value, c);
  }

  // ---------- every call returns ----------

  function FrameLoad(f: Frame): nat {
    if f.work.Body? && !f.ran then 2 else 1
  }

  function StackLoad(stack: seq<Frame>): nat {
    if stack == [] then 0 else StackLoad(stack[..|stack| - 1]) + FrameLoad(stack[|stack| - 1])
  }

  /** How many steps a thread has still to take. */
  function ThreadLoad(t: Thread): nat {
    var waiting := if t.blocked.Some? then 1 else 0;
    var queued := if t.taken <= |t.inbox| then |t.inbox| - t.taken else 0;
    StackLoad(t.stack) + waiting + 3 * queued
  }

  function Load(threads: seq<Thread>): nat {
    if threads == [] then 0 else Load(threads[..|threads| - 1]) + ThreadLoad(threads[|threads| - 1])
  }

  lemma {:induction false} LoadOfUpdate(threads: seq<Thread>, t: nat, thread: Thread)
    requires t < |threads|
    ensures Load(threads[t := thread]) + ThreadLoad(threads[t]) == Load(threads) + ThreadLoad(thread)
  {
    var n := |threads| - 1;
    if t < n {
      LoadOfUpdate(threads[..n], t, thread);
      assert threads[t := thread][..n] == threads[..n][t := thread];
    } else {
      assert threads[t := thread][..n] == threads[..n];
    }
  }

  /** Every internal step takes away from the load. */
  lemma InternalStepsEnd(w: World, step: Step)
    requires Ok(w) && Enabled(w, step) && IsInternal(step)
    ensures Load(Next(w, step).threads) < Load(w.threads)
  {
    var t := step.thread;
    var thread, after := w.threads[t], Next(w, step).threads[t];
    assert Next(w, step).threads == w.threads[t := after];
    LoadOfUpdate(w.threads, t, after);
    match step {
      case Begin(_) => assert after.stack[..|after.stack| - 1] == thread.stack;
      case Run(_) => assert after.stack[..|after.stack| - 1] == thread.stack[..|thread.stack| - 1];
      case _ =>
    }
  }

  lemma OneStepOn(rank: nat -> nat, w: World, c: nat) returns (step: Step, next: World)
    requires Ok(w) && Ranked(rank, w) && c < |w.calls| && !w.calls[c].returned
    ensures IsInternal(step) && TryNext(w, step) == Some(next)
    ensures Ok(next) && Ranked(rank, next) && |next.calls| == |w.calls| && Load(next.threads) < Load(w.threads)
  {
    step := NoDeadlock(rank, w, c);
    next := Next(w, step);
    InternalStepsEnd(w, step);
    NextKeepsOk(w, step);
    NextKeepsRanked(rank, w, step);
  }

  predicate AllInternal(steps: seq<Step>) {
    forall i :: 0 <= i < |steps| ==> IsInternal(steps[i])
  }

  predicate AllReturned(w: World) {
    forall c :: 0 <= c < |w.calls| ==> w.calls[c].returned
  }

  lemma OneMoreInternal(step: Step, steps: seq<Step>)
    requires IsInternal(step) && AllInternal(steps)
    ensures AllInternal([step] + steps) && |[step] + steps| == |steps| + 1
  {
  }

  /** Internal steps use up the load and bring no calls. */
  lemma {:induction false} InternalRun(rank: nat -> nat, w: World, steps: seq<Step>, n: nat)
    requires Ok(w) && Ranked(rank, w) && n <= |steps| && AllInternal(steps)
    ensures
      var run := Runs.After(TryNext, w, steps, n);
      run.Some? ==> Ok(run.value) && Ranked(rank, run.value) && |run.value.calls| == |w.calls|
                    && Load(run.value.threads) + n <= Load(w.threads)
  {
    if n > 0 {
      InternalRun(rank, w, steps, n - 1);
      var before := Runs.After(TryNext, w, steps, n - 1);
      if before.Some? && Enabled(before.value, steps[n - 1]) {
        InternalStepsEnd(before.value, steps[n - 1]);
        NextKeepsOk(before.value, steps[n - 1]);
        NextKeepsRanked(rank, before.value, steps[n - 1]);
      }
    }
  }

  /** No thread can take a step by itself. */
  ghost predicate IsQuiet(w: World) {
    forall step :: IsInternal(step) ==> !Enabled(w, step)
  }

  /** All outstanding calls return if no further messages and calls come in, whatever the schedule: internal steps
      cannot go on for ever, and when there are none left every call has returned. */
  lemma EveryCallReturns(rank: nat -> nat, w: World, steps: seq<Step>, end: World)
    requires Ok(w) && Ranked(rank, w)
    requires AllInternal(steps) && Runs.After(TryNext, w, steps, |steps|) == Some(end)
    ensures |steps| <= Load(w.threads) && |end.calls| == |w.calls|
    ensures IsQuiet(end) ==> AllReturned(end)
  {
    InternalRun(rank, w, steps, |steps|);
    if IsQuiet(end) && !AllReturned(end) {
      var c :| 0 <= c < |end.calls| && !end.calls[c].returned;
      var step := NoDeadlock(rank, end, c);
      assert false;
    }
  }

  /** And some schedule does get there. */
  lemma {:induction false} CallsCanReturn(rank: nat -> nat, w: World) returns (steps: seq<Step>, end: World)
    requires Ok(w) && Ranked(rank, w)
    ensures AllInternal(steps) && Runs.After(TryNext, w, steps, |steps|) == Some(end)
    ensures AllReturned(end) && |end.calls| == |w.calls|
    decreases Load(w.threads)
  {
    if AllReturned(w) {
      steps, end := [], w;
    } else {
      var c :| 0 <= c < |w.calls| && !w.calls[c].returned;
      var step, next := OneStepOn(rank, w, c);
      var rest;
      rest, end := CallsCanReturn(rank, next);
      steps := [step] + rest;
      OneMoreInternal(step, rest);
      Runs.Prepended(TryNext, w, step, rest, |rest|);
    }
  }

  // ---------- without ranks ----------

  /** Two threads wait for calls to each other that are still queued. */
  predicate IsCrossed(w: World, t: nat, u: nat, c: nat, d: nat) {
    && t < |w.threads| && u < |w.threads| && t != u && c < |w.calls| && d < |w.calls|
    && w.threads[t].blocked == Some(c) && w.calls[c].owner == u && w.calls[c].place.Queued?
    && w.threads[u].blocked == Some(d) && w.calls[d].owner == t && w.calls[d].place.Queued?
  }

  lemma StaysCrossed(w: World, step: Step, t: nat, u: nat, c: nat, d: nat)
    requires Ok(w) && Enabled(w, step) && IsCrossed(w, t, u, c, d)
    ensures IsCrossed(Next(w, step), t, u, c, d)
  {
    assert CallOk(w, c) && CallOk(w, d);
    assert StackOk(w, step.thread) && QueueOk(w, step.thread) && WaitOk(w, step.thread);
  }

  lemma CrossedHasNotReturned(w: World, t: nat, u: nat, c: nat, d: nat)
    requires Ok(w) && IsCrossed(w, t, u, c, d)
    ensures !w.calls[c].returned && !w.calls[d].returned
  {
    assert CallOk(w, c) && CallOk(w, d);
  }

  lemma {:induction false} CrossedForEver(w: World, t: nat, u: nat, c: nat, d: nat, steps: seq<Step>, n: nat)
    requires Ok(w) && IsCrossed(w, t, u, c, d) && n <= |steps|
    ensures
      var end := Runs.After(TryNext, w, steps, n);
      end.Some? ==> Ok(end.value) && IsCrossed(end.value, t, u, c, d)
  {
    if n > 0 {
      CrossedForEver(w, t, u, c, d, steps, n - 1);
      var before := Runs.After(TryNext, w, steps, n - 1);
      if before.Some? && Enabled(before.value, steps[n - 1]) {
        StaysCrossed(before.value, steps[n - 1], t, u, c, d);
        NextKeepsOk(before.value, steps[n - 1]);
      }
    }
  }

  /** Two threads that call each other at once, instead of one of them having the lower rank, block each other for
      ever: whatever steps follow, neither call returns. */
  lemma CrossCallsNeverReturn(w: World, t: nat, u: nat, steps: seq<Step>, n: nat)
    requires Ok(w) && t < |w.threads| && u < |w.threads| && t != u && n <= |steps|
    requires w.threads[t].Runs() && w.threads[u].Runs()
    ensures
      var end := Runs.After(TryNext, AfterInvoke(AfterInvoke(w, t, u), u, t), steps, n);
      end.Some? ==> Ok(end.value) && IsCrossed(end.value, t, u, |w.calls|, |w.calls| + 1)
                    && !end.value.calls[|w.calls|].returned && !end.value.calls[|w.calls| + 1].returned
  {
    var one := AfterInvoke(w, t, u);
    var crossed := AfterInvoke(one, u, t);
    PostedInvokeKeepsOk(w, t, u);
    PostedInvokeKeepsOk(one, u, t);
    CrossedForEver(crossed, t, u, |w.calls|, |w.calls| + 1, steps, n);
    var end := Runs.After(TryNext, crossed, steps, n);
    if end.Some? {
      CrossedHasNotReturned(end.value, t, u, |w.calls|, |w.calls| + 1);
    }
  }

  /** Two threads can be in a handler at once, and so come to call each other. */
  lemma BothCanBeBusy()
    ensures
      var steps := [Post(0), Begin(0), Post(1), Begin(1)];
      var run := Runs.After(TryNext, Initial(2), steps, 4);
      && run.Some? && Ok(run.value) && |run.value.threads| == 2
      && run.value.threads[0].Runs() && run.value.threads[1].Runs()
  {
    var steps := [Post(0), Begin(0), Post(1), Begin(1)];
    var idle := Thread([], 0, [], None);
    var asked := Thread([Plain], 0, [], None);
    var busy := Thread([Plain], 1, [Frame(Plain, false)], None);
    assert [] + [Plain] == [Plain] && [] + [Frame(Plain, false)] == [Frame(Plain, false)];
    assert Initial(2).threads == [idle, idle];
    assert [idle, idle][0 := asked] == [asked, idle] && [asked, idle][0 := busy] == [busy, idle];
    assert [busy, idle][1 := asked] == [busy, asked] && [busy, asked][1 := busy] == [busy, busy];
    assert Runs.After(TryNext, Initial(2), steps, 0) == Some(World([idle, idle], []));
    assert Runs.After(TryNext, Initial(2), steps, 1) == Some(World([asked, idle], []));
    assert Runs.After(TryNext, Initial(2), steps, 2) == Some(World([busy, idle], []));
    assert Runs.After(TryNext, Initial(2), steps, 3) == Some(World([busy, asked], []));
    assert Runs.After(TryNext, Initial(2), steps, 4) == Some(World([busy, busy], []));
    AlwaysOk(2, steps, 4);
  }
}
