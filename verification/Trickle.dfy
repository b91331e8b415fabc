/** Remote candidates: handed to the peer connection once it has a remote description, and cached before. */
module Trickle {
  import opened Gathering
  import opened Option
  import Runs

  /** What a trickle message carries about one candidate; every member may be missing. `readable` is what the library
      says of the candidate line. */
  datatype CandidateData = CandidateData(line: Option<string>, mid: Option<string>, index: Option<int>,
                                         completed: Option<bool>, readable: bool)

  /** What the peer connection is told: a candidate, or null. Null is how the client tells the end of the candidates,
      and also what it hands on when a candidate line cannot be read: the two calls are the same. */
  datatype Delivery = Ice(mid: string, index: int, line: string) | Null

  /** `told` is what the current peer connection was told, if there is one; `remote` says that the remote
      description is set. */
  datatype State = State(told: Option<seq<Delivery>>, remote: bool, cached: seq<Delivery>) {
    predicate Live() {
      told.Some? && remote
    }

    /** Everything told so far, and what is waiting to be told. */
    function Account(): seq<Delivery> {
      told.GetOr([]) + cached
    }
  }

  const INITIAL := State(None, false, [])

  predicate IsEnd(message: Option<CandidateData>) {
    message.None? || message.value.completed == Some(true)
  }

  /** The message names the place of a candidate. */
  predicate IsPlaced(message: Option<CandidateData>) {
    message.Some? && message.value.mid.Some? && message.value.index.Some?
  }

  /** Reading the candidate line of this message throws. */
  predicate Throws(message: Option<CandidateData>) {
    IsPlaced(message) && message.value.line.None?
  }

  function Candidate(message: Option<CandidateData>): Delivery
    requires IsPlaced(message) && !Throws(message)
  {
    if message.value.readable then Ice(message.value.mid.value, message.value.index.value, message.value.line.value)
    else Null
  }

  /** What a message adds to the account. Before the peer connection is live an end is not recognised: a placed
      candidate counts even if it is completed, and anything else is dropped. */
  function Effect(message: Option<CandidateData>, live: bool): seq<Delivery> {
    if live && IsEnd(message) then [Null]
    else if IsPlaced(message) && !Throws(message) then [Candidate(message)]
    else []
  }

  /** `onTrickle`; `None` is the exception. */
  function Trickled(s: State, message: Option<CandidateData>): Option<State> {
    if Throws(message) && !(s.Live() && IsEnd(message)) then None
    else if s.Live() then Some(s.(told := Some(s.told.value + Effect(message, true))))
    else Some(s.(cached := s.cached + Effect(message, false)))
  }

  /** Member by member: a live connection is told null for the end and for a completed candidate; otherwise a candidate
      with both places is told or cached, null in its stead if its line cannot be read, an exception if it has no line;
      and nothing else counts. */
  lemma TrickledWhen(s: State, message: Option<CandidateData>)
    ensures
      var after, live := Trickled(s, message), s.told.Some? && s.remote;
      if live && (message.None? || message.value.completed == Some(true)) then
        after == Some(s.(told := Some(s.told.value + [Null])))
      else if message.None? || message.value.mid.None? || message.value.index.None? then after == Some(s)
      else if message.value.line.None? then after == None
      else
        var c := message.value;
        var one := if c.readable then Ice(c.mid.value, c.index.value, c.line.value) else Null;
        after == Some(if live then s.(told := Some(s.told.value + [one])) else s.(cached := s.cached + [one]))
  {
    NothingMore(s.told.GetOr([]));
    NothingMore(s.cached);
  }

  /** The remote description was set; `None` is the missing peer connection dereferenced. */
  function RemoteSet(s: State): Option<State> {
    if s.cached == [] then Some(s.(remote := true))
    else if s.told.None? then None
    else Some(State(Some(s.told.value + s.cached), true, []))
  }

  function PeerCreated(s: State): State {
    if s.told.None? then s.(told := Some([])) else s
  }

  // ---------- conservation ----------

  datatype Step = Message(candidate: Option<CandidateData>) | RemoteDescriptionSet | PeerConnectionCreated | CleanedUp

  /** A message that has come in, and whether the peer connection was live then. */
  datatype Received = Received(message: Option<CandidateData>, live: bool)

  /** A state together with the messages received since the last cleanup. */
  datatype Logged = Logged(state: State, received: seq<Received>)

  /** One step. The remote description is only ever set on the current peer connection: its observers are not told
      about an earlier one. */
  function Next(l: Logged, step: Step): Option<Logged> {
    match step
    case Message(message) =>
      (match Trickled(l.state, message)
       case None => None
       case Some(s) => Some(Logged(s, l.received + [Received(message, l.state.Live())])))
    case RemoteDescriptionSet =>
      if l.state.told.None? || RemoteSet(l.state).None? then None else Some(l.(state := RemoteSet(l.state).value))
    case PeerConnectionCreated => Some(l.(state := PeerCreated(l.state)))
    case CleanedUp => Some(Logged(INITIAL, []))
  }

  function EffectOf(r: Received): seq<Delivery> {
    Effect(r.message, r.live)
  }

  /** Nothing is lost, repeated or reordered; once the remote description is set nothing waits. */
  predicate Conserved(l: Logged) {
    && l.state.Account() == Gather(EffectOf, l.received)
    && (l.state.remote ==> l.state.told.Some? && l.state.cached == [])
  }

  /** One message is added at the end of the account exactly if it is not told while other deliveries wait: the
      machine is not live, or the message has no effect, or nothing else than the same delivery is cached. */
  lemma OrderSurvives(s: State, message: Option<CandidateData>)
    requires Trickled(s, message).Some?
    ensures
      var effect := Effect(message, s.Live());
      Trickled(s, message).value.Account() == s.Account() + effect <==>
      (s.Live() && effect != [] ==> forall i :: 0 <= i < |s.cached| ==> s.cached[i] == effect[0])
  {
    var told, effect := s.told.GetOr([]), Effect(message, s.Live());
    Associates(told, s.cached, effect);
    if s.Live() {
      Associates(told, effect, s.cached);
      Cancels(told, effect + s.cached, s.cached + effect);
      if effect == [] {
        NothingMore(s.cached);
      } else {
        assert effect == [effect[0]];
        Commutes(effect[0], s.cached);
      }
    }
  }

  lemma MessageConserves(l: Logged, message: Option<CandidateData>)
    requires Conserved(l) && Trickled(l.state, message).Some?
    ensures Conserved(Next(l, Message(message)).value)
  {
    OrderSurvives(l.state, message);
    GatherMore(EffectOf, l.received, Received(message, l.state.Live()));
  }

  lemma RemoteSetKeepsAccount(s: State)
    requires s.told.Some?
    ensures RemoteSet(s).Some?
    ensures var after := RemoteSet(s).value; after.Live() && after.cached == [] && after.Account() == s.Account()
  {
    if s.cached != [] {
      NothingMore(s.told.value + s.cached);
    }
  }

  lemma NextConserves(l: Logged, step: Step)
    requires Conserved(l) && Next(l, step).Some?
    ensures Conserved(Next(l, step).value)
  {
    match step {
      case Message(message) => MessageConserves(l, message);
      case RemoteDescriptionSet => RemoteSetKeepsAccount(l.state);
      case _ =>
    }
  }

  const START := Logged(INITIAL, [])

  lemma AlwaysConserved(steps: seq<Step>, n: nat)
    requires n <= |steps| && Runs.After(Next, START, steps, n).Some?
    ensures Conserved(Runs.After(Next, START, steps, n).value)
  {
    forall l, step | Conserved(l) && Next(l, step).Some? ensures Conserved(Next(l, step).value) {
      NextConserves(l, step);
    }
    Runs.InvariantHolds(Next, START, Conserved, steps, n);
  }

  // ---------- against what was meant ----------

  /** What a message means, whenever it comes: a line that cannot be read means nothing. */
  function Meaning(message: Option<CandidateData>): seq<Delivery> {
    if IsEnd(message) then [Null]
    else if IsPlaced(message) && !Throws(message) && message.value.readable then [Candidate(message)]
    else []
  }

  function MeaningOf(r: Received): seq<Delivery> {
    Meaning(r.message)
  }

  predicate IsEarlyEnd(r: Received) {
    !r.live && IsEnd(r.message)
  }

  /** A candidate with a line that cannot be read. */
  predicate IsNull(message: Option<CandidateData>) {
    IsPlaced(message) && !Throws(message) && !message.value.readable
  }

  /** What is told is what was meant: a candidate can be read, and an end comes when the peer connection is live, or
      comes with a candidate that cannot be read. */
  predicate IsTaken(r: Received) {
    if IsEnd(r.message) then r.live || IsNull(r.message) else !IsNull(r.message)
  }

  predicate IsCandidate(d: Delivery) {
    d.Ice?
  }

  /** What one piece holds of each kind of delivery. */
  lemma KeptOfPiece(p: Delivery -> bool, piece: seq<Delivery>)
    requires |piece| <= 1
    ensures Kept(p, piece) == if piece != [] && p(piece[0]) then piece else []
  {
    if piece != [] {
      assert piece == [piece[0]];
      KeptOne(p, piece[0]);
    }
  }

  lemma TakenAsMeant(r: Received)
    ensures EffectOf(r) == MeaningOf(r) <==> IsTaken(r)
  {
  }

  /** Message by message, what is told is what was meant exactly if every end comes when the peer connection is live,
      or with a candidate that cannot be read, and every other candidate can be read. */
  lemma MeantAtEveryPoint(received: seq<Received>)
    ensures (forall n :: 0 <= n <= |received| ==>
                           Gather(EffectOf, received[..n]) == Gather(MeaningOf, received[..n])) <==>
            forall r :: r in received ==> IsTaken(r)
  {
    SameAtEveryPoint(EffectOf, MeaningOf, received);
    forall r ensures EffectOf(r) == MeaningOf(r) <==> IsTaken(r) {
      TakenAsMeant(r);
    }
  }

  // ---------- the same over a run ----------

  predicate NoCleanup(steps: seq<Step>) {
    forall i :: 0 <= i < |steps| ==> !steps[i].CleanedUp?
  }

  /** Without a cleanup the messages received only become more. */
  lemma {:induction false} ReceivedGrows(steps: seq<Step>, n: nat, m: nat)
    requires n <= m <= |steps| && NoCleanup(steps) && Runs.After(Next, START, steps, m).Some?
    ensures Runs.After(Next, START, steps, n).Some?
    ensures Runs.After(Next, START, steps, n).value.received <= Runs.After(Next, START, steps, m).value.received
    decreases m
  {
    if n < m {
      ReceivedGrows(steps, n, m - 1);
    }
  }

  /** After some step exactly the first `k` of them have been received. */
  lemma {:induction false} ReceivedAfter(steps: seq<Step>, m: nat, k: nat) returns (n: nat)
    requires m <= |steps| && NoCleanup(steps) && Runs.After(Next, START, steps, m).Some?
    requires k <= |Runs.After(Next, START, steps, m).value.received|
    ensures n <= m && Runs.After(Next, START, steps, n).Some?
    ensures Runs.After(Next, START, steps, n).value.received == Runs.After(Next, START, steps, m).value.received[..k]
    decreases m
  {
    var received := Runs.After(Next, START, steps, m).value.received;
    if k == |received| {
      n := m;
    } else {
      var before := Runs.After(Next, START, steps, m - 1).value.received;
      assert received == before || received == before + [received[|received| - 1]];
      assert before[..k] == received[..k];
      n := ReceivedAfter(steps, m - 1, k);
    }
  }

  /** After the first `n` steps the peer connection has been told, or will be, what was meant so far. */
  predicate IsTold(steps: seq<Step>, n: nat)
    requires n <= |steps|
  {
    var run := Runs.After(Next, START, steps, n);
    run.Some? ==> run.value.state.Account() == Gather(MeaningOf, run.value.received)
  }

  lemma ToldIs(steps: seq<Step>, n: nat, received: seq<Received>)
    requires n <= |steps| && Runs.After(Next, START, steps, n).Some?
    requires Runs.After(Next, START, steps, n).value.received == received
    ensures IsTold(steps, n) <==> Gather(EffectOf, received) == Gather(MeaningOf, received)
  {
    AlwaysConserved(steps, n);
  }

  /** Over a run the peer connection is told, or will be, after every step exactly what was meant so far, exactly if
      every end comes when it is live, or with a candidate that cannot be read, and every other candidate can be
      read. */
  lemma ToldWhatWasMeant(steps: seq<Step>)
    requires NoCleanup(steps) && Runs.After(Next, START, steps, |steps|).Some?
    ensures (forall n :: 0 <= n <= |steps| ==> IsTold(steps, n)) <==>
            forall r :: r in Runs.After(Next, START, steps, |steps|).value.received ==> IsTaken(r)
  {
    var received := Runs.After(Next, START, steps, |steps|).value.received;
    MeantAtEveryPoint(received);
    if forall r :: r in received ==> IsTaken(r) {
      forall n | 0 <= n <= |steps| ensures IsTold(steps, n) {
        ReceivedGrows(steps, n, |steps|);
        var before := Runs.After(Next, START, steps, n).value.received;
        assert before == received[..|before|];
        ToldIs(steps, n, before);
      }
    }
    if forall n :: 0 <= n <= |steps| ==> IsTold(steps, n) {
      forall k | 0 <= k <= |received| ensures Gather(EffectOf, received[..k]) == Gather(MeaningOf, received[..k]) {
        var n := ReceivedAfter(steps, |steps|, k);
        ToldIs(steps, n, received[..k]);
      }
    }
  }

  /** A candidate that is meant to end the candidates, and is taken for one. */
  predicate IsMistaken(r: Received) {
    IsEarlyEnd(r) && IsPlaced(r.message) && !Throws(r.message) && r.message.value.readable
  }

  lemma CandidatesOfPieces(r: Received)
    ensures Kept(IsCandidate, MeaningOf(r)) == if IsEnd(r.message) then [] else Kept(IsCandidate, EffectOf(r))
    ensures IsEnd(r.message) ==> |Kept(IsCandidate, EffectOf(r))| == if IsMistaken(r) then 1 else 0
  {
    KeptOfPiece(IsCandidate, EffectOf(r));
    KeptOfPiece(IsCandidate, MeaningOf(r));
  }

  /** The candidates told, then those cached, are the readable ones received that are not completed, in order,
      exactly if no completed one came before the peer connection was live. */
  lemma CandidatesAreConserved(l: Logged)
    requires Conserved(l)
    ensures Kept(IsCandidate, l.state.Account()) == Kept(IsCandidate, Gather(MeaningOf, l.received)) <==>
            forall r :: r in l.received ==> !IsMistaken(r)
  {
    forall r ensures |Kept(IsCandidate, MeaningOf(r))| <= |Kept(IsCandidate, EffectOf(r))|
      ensures IsMistaken(r) ==> |Kept(IsCandidate, MeaningOf(r))| < |Kept(IsCandidate, EffectOf(r))|
      ensures !IsMistaken(r) ==> Kept(IsCandidate, MeaningOf(r)) == Kept(IsCandidate, EffectOf(r))
    {
      CandidatesOfPieces(r);
    }
    FewerKept(MeaningOf, EffectOf, IsCandidate, l.received);
    if forall r :: r in l.received ==> !IsMistaken(r) {
      SameKept(EffectOf, MeaningOf, IsCandidate, l.received);
    }
  }

  // ---------- runs that fall short ----------

  lemma RunOfOne(message: Option<CandidateData>)
    requires !Throws(message)
    ensures Runs.After(Next, START, [Message(message)], 1) ==
            Some(Logged(State(None, false, Effect(message, false)), [Received(message, false)]))
  {
    assert Runs.After(Next, START, [Message(message)], 0) == Some(START);
    NothingMore(Effect(message, false));
    NothingMore([Received(message, false)]);
  }

  /** The first message says that there are no more candidates: this is lost. */
  lemma EarlyEndIsLost()
    ensures
      var end := Runs.After(Next, START, [Message(None)], 1);
      && end.Some? && end.value.state.Account() == []
      && Gather(MeaningOf, end.value.received) == [Null]
  {
    RunOfOne(None);
    NothingMore<Delivery>([]);
    GatherMore(MeaningOf, [], Received(None, false));
    NothingMore([Null]);
  }

  /** The first message is a completed candidate: it is cached, and will be told like any other. */
  lemma CompletedCandidateIsTold(mid: string, index: int, line: string)
    ensures
      var message := Some(CandidateData(Some(line), Some(mid), Some(index), Some(true), true));
      var end := Runs.After(Next, START, [Message(message)], 1);
      && end.Some? && end.value.state.Account() == [Ice(mid, index, line)]
      && Gather(MeaningOf, end.value.received) == [Null]
  {
    var message := Some(CandidateData(Some(line), Some(mid), Some(index), Some(true), true));
    RunOfOne(message);
    NothingMore([Ice(mid, index, line)]);
    GatherMore(MeaningOf, [], Received(message, false));
    NothingMore([Null]);
  }

  /** A line that cannot be read tells the peer connection null, as the end of the candidates would. */
  lemma UnreadableLineIsTold(mid: string, index: int, line: string)
    ensures
      var message := Some(CandidateData(Some(line), Some(mid), Some(index), None, false));
      var end := Runs.After(Next, START, [Message(message)], 1);
      && end.Some? && end.value.state.Account() == [Null]
      && Gather(MeaningOf, end.value.received) == []
  {
    var message := Some(CandidateData(Some(line), Some(mid), Some(index), None, false));
    RunOfOne(message);
    NothingMore([Null]);
    GatherMore(MeaningOf, [], Received(message, false));
    NothingMore<Delivery>([]);
  }

  /** A completed candidate that cannot be read is told as it was meant, though it comes early. */
  lemma UnreadableEndIsTold(mid: string, index: int, line: string)
    ensures
      var message := Some(CandidateData(Some(line), Some(mid), Some(index), Some(true), false));
      var end := Runs.After(Next, START, [Message(message)], 1);
      && end.Some? && end.value.state.Account() == [Null]
      && Gather(MeaningOf, end.value.received) == [Null]
  {
    var message := Some(CandidateData(Some(line), Some(mid), Some(index), Some(true), false));
    RunOfOne(message);
    NothingMore([Null]);
    GatherMore(MeaningOf, [], Received(message, false));
  }

  /** What is told can come right by chance: a line that cannot be read, and an end that is lost after it, tell null
      once, which is what was meant in the end, but not after the first of them. */
  lemma NullsCanMakeUp(mid: string, index: int, line: string)
    ensures
      var message := Some(CandidateData(Some(line), Some(mid), Some(index), None, false));
      var steps := [Message(message), Message(None)];
      && Runs.After(Next, START, steps, 2).Some? && IsTold(steps, 2) && !IsTold(steps, 1)
  {
    var message := Some(CandidateData(Some(line), Some(mid), Some(index), None, false));
    var one := Logged(State(None, false, [Null]), [Received(message, false)]);
    UnreadableLineIsTold(mid, index, line);
    RunOfOne(message);
    Runs.OneStep(Next, START, Message(message));
    Runs.TwoSteps(Next, START, Message(message), Message(None));
    assert Runs.After(Next, START, [Message(message), Message(None)], 1) == Some(one) by {
      assert Runs.After(Next, START, [Message(message), Message(None)], 0) == Some(START);
    }
    GatherMore(MeaningOf, one.received, Received(None, false));
    NothingMore([Null]);
  }

  /** If the remote description is reported set when there is no peer connection, as after a cleanup, candidates can
      be told out of order: one that comes before the next peer connection waits while a later one is told. */
  lemma LateRemoteDescriptionReorders(first: Option<CandidateData>, second: Option<CandidateData>)
    requires IsPlaced(first) && IsPlaced(second) && !Throws(first) && !Throws(second) && !IsEnd(second)
    ensures
      var late := RemoteSet(INITIAL);
      && late.Some? && Trickled(late.value, first).Some?
      && var live := PeerCreated(Trickled(late.value, first).value);
      && Trickled(live, second).Some?
      && Trickled(live, second).value.Account() == [Candidate(second), Candidate(first)]
  {
    var waiting := State(None, true, [Candidate(first)]);
    NothingMore([Candidate(first)]);
    assert Trickled(RemoteSet(INITIAL).value, first) == Some(waiting);
    NothingMore([Candidate(second)]);
    assert Trickled(PeerCreated(waiting), second) == Some(State(Some([Candidate(second)]), true, [Candidate(first)]));
  }
}
