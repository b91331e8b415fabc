/** Requests and replies of the message transport: a request is written to the wire, then its callback is registered
    under its transaction; a reply is taken to the message-transport thread, where the callback is looked up, posted
    to the signaling-service thread, and forgotten. */
module Correlation {
  import opened Gathering
  import opened Option
  import Runs

  datatype Header = Header(janus: Option<string>, transaction: Option<string>)

  /** A message from the gateway; without a header if it does not parse. */
  datatype Inbound = Inbound(header: Option<Header>, data: string)

  /** `onTextMessage` hands the message to the correlation table. */
  predicate IsReply(m: Inbound) {
    && m.header.Some? && m.header.value.janus.Some? && m.header.value.transaction.Some?
    && m.header.value.janus.value in {"ack", "success", "error", "server_info"}
  }

  /** `onTextMessage` hands the message to the listeners. */
  predicate IsEvent(m: Inbound) {
    m.header.Some? && m.header.value.janus.Some? && !IsReply(m)
  }

  datatype Reply = Reply(transaction: string, data: string)

  function ReplyIn(m: Inbound): seq<Reply> {
    if IsReply(m) then [Reply(m.header.value.transaction.value, m.data)] else []
  }

  function EventIn(m: Inbound): seq<Inbound> {
    if IsEvent(m) then [m] else []
  }

  /** The messages that were replies, in order: all that was ever put into the queue of the message-transport
      thread. */
  function Replies(received: seq<Inbound>): seq<Reply> {
    Gather(ReplyIn, received)
  }

  /** The messages that went to the listeners, in order. */
  function Events(received: seq<Inbound>): seq<Inbound> {
    Gather(EventIn, received)
  }

  /** A callback that is to be made with the text of a reply; callbacks are numbered like the requests. */
  datatype Posting = Posting(callback: nat, data: string)

  /** The transactions of all requests written so far; those whose callback is not registered yet; how many replies
      had been handled when a callback was registered; the correlation table; all replies ever queued for the
      message-transport thread, and how many of them have been handled; all callbacks ever posted to the
      signaling-service thread, the replies they were posted for, and how many of them have been made. */
  datatype State = State(sent: seq<string>, writing: set<nat>, registered: map<nat, nat>, callbacks: map<string, nat>,
                         replies: seq<Reply>, handled: nat, posted: seq<Posting>, answers: seq<nat>, called: nat)

  const INITIAL := State([], {}, map[], map[], [], 0, [], [], 0)

  function Written(s: State, transaction: string): State {
    s.(sent := s.sent + [transaction], writing := s.writing + {|s.sent|})
  }

  /** A handler counts if it has a transaction and a callback. */
  function Registered(s: State, k: nat, hasCallback: bool): State
    requires k < |s.sent|
  {
    var done := s.(writing := s.writing - {k});
    if s.sent[k] == "" || !hasCallback then done
    else done.(registered := s.registered[k := s.handled], callbacks := s.callbacks[s.sent[k] := k])
  }

  function Handled(s: State): State
    requires s.handled < |s.replies|
  {
    var reply := s.replies[s.handled];
    if reply.transaction in s.callbacks then
      s.(handled := s.handled + 1,
         posted := s.posted + [Posting(s.callbacks[reply.transaction], reply.data)],
         answers := s.answers + [s.handled],
         callbacks := s.callbacks - {reply.transaction})
    else s.(handled := s.handled + 1)
  }

  // ---------- what every step keeps ----------

  predicate IsPending(s: State, k: nat)
    requires k < |s.sent|
  {
    s.sent[k] in s.callbacks && s.callbacks[s.sent[k]] == k
  }

  predicate SentOk(s: State) {
    && (forall j, k :: 0 <= j < k < |s.sent| ==> s.sent[j] != s.sent[k])
    && (forall k :: k in s.writing ==> k < |s.sent| && k !in s.registered)
    && (forall k :: k in s.registered ==> k < |s.sent| && s.registered[k] <= s.handled)
    && (forall t :: t in s.callbacks ==>
          s.callbacks[t] in s.registered && s.callbacks[t] < |s.sent| && s.sent[s.callbacks[t]] == t)
    && s.handled <= |s.replies| && s.called <= |s.posted| == |s.answers|
  }

  /** A posted call is for a registered request that is not pending any more, and for the first reply with its
      transaction that was handled since it was registered. */
  predicate CallOk(s: State, i: nat)
    requires i < |s.posted| == |s.answers| && s.handled <= |s.replies|
  {
    var k, r := s.posted[i].callback, s.answers[i];
    && k in s.registered && k < |s.sent| && !IsPending(s, k)
    && s.registered[k] <= r < s.handled && s.replies[r] == Reply(s.sent[k], s.posted[i].data)
    && forall q :: s.registered[k] <= q < r ==> s.replies[q].transaction != s.sent[k]
  }

  predicate PostedOnce(posted: seq<Posting>) {
    forall i, j :: 0 <= i < j < |posted| ==> posted[i].callback != posted[j].callback
  }

  /** A registered request is pending as long as no reply with its transaction has been handled, and has been posted
      otherwise. */
  predicate RequestOk(s: State, k: nat)
    requires k < |s.sent| && k in s.registered && s.handled <= |s.replies|
  {
    if IsPending(s, k) then forall r :: s.registered[k] <= r < s.handled ==> s.replies[r].transaction != s.sent[k]
    else exists i :: 0 <= i < |s.posted| && s.posted[i].callback == k
  }

  predicate Ok(s: State) {
    && SentOk(s) && PostedOnce(s.posted)
    && (forall i :: 0 <= i < |s.posted| ==> CallOk(s, i))
    && forall k :: k in s.registered ==> RequestOk(s, k)
  }

  lemma WriteKeepsOk(s: State, transaction: string)
    requires Ok(s) && transaction !in s.sent
    ensures Ok(Written(s, transaction))
  {
    var next := Written(s, transaction);
    forall i | 0 <= i < |next.posted| ensures CallOk(next, i) {
      assert CallOk(s, i);
    }
    forall k | k in next.registered ensures RequestOk(next, k) {
      assert RequestOk(s, k);
    }
  }

  lemma RegisterKeepsOk(s: State, k: nat, hasCallback: bool)
    requires Ok(s) && k in s.writing && k < |s.sent|
    ensures Ok(Registered(s, k, hasCallback))
  {
    var next := Registered(s, k, hasCallback);
    forall i | 0 <= i < |next.posted| ensures CallOk(next, i) {
      assert CallOk(s, i);
    }
    forall j | j in next.registered ensures RequestOk(next, j) {
      if j != k {
        assert RequestOk(s, j);
      }
    }
  }

  lemma ReceiveKeepsOk(s: State, reply: Reply)
    requires Ok(s)
    ensures Ok(s.(replies := s.replies + [reply]))
  {
    var next := s.(replies := s.replies + [reply]);
    forall i | 0 <= i < |next.posted| ensures CallOk(next, i) {
      assert CallOk(s, i);
    }
    forall k | k in next.registered ensures RequestOk(next, k) {
      assert RequestOk(s, k);
    }
  }

  /** A reply whose transaction is not in the table changes nothing else. */
  lemma UnknownReplyKeepsOk(s: State)
    requires Ok(s) && s.handled < |s.replies| && s.replies[s.handled].transaction !in s.callbacks
    ensures Ok(Handled(s))
  {
    var next := Handled(s);
    forall i | 0 <= i < |next.posted| ensures CallOk(next, i) {
      assert CallOk(s, i);
    }
    forall k | k in next.registered ensures RequestOk(next, k) {
      assert RequestOk(s, k);
    }
  }

  lemma HandledCalls(s: State, i: nat)
    requires Ok(s) && s.handled < |s.replies| && s.replies[s.handled].transaction in s.callbacks && i <= |s.posted|
    ensures CallOk(Handled(s), i)
    ensures i < |s.posted| ==> s.posted[i].callback != s.callbacks[s.replies[s.handled].transaction]
  {
    if i < |s.posted| {
      assert CallOk(s, i);
    } else {
      assert RequestOk(s, s.callbacks[s.replies[s.handled].transaction]);
    }
  }

  lemma HandledRequests(s: State, k: nat)
    requires Ok(s) && s.handled < |s.replies| && s.replies[s.handled].transaction in s.callbacks && k in s.registered
    ensures RequestOk(Handled(s), k)
  {
    var next := Handled(s);
    assert RequestOk(s, k);
    if s.callbacks[s.replies[s.handled].transaction] == k {
      assert next.posted[|s.posted|].callback == k;
    } else if !IsPending(s, k) {
      var i :| 0 <= i < |s.posted| && s.posted[i].callback == k;
      assert next.posted[i].callback == k;
    }
  }

  lemma HandleKeepsOk(s: State)
    requires Ok(s) && s.handled < |s.replies|
    ensures Ok(Handled(s))
  {
    if s.replies[s.handled].transaction !in s.callbacks {
      UnknownReplyKeepsOk(s);
    } else {
      forall i | 0 <= i <= |s.posted|
        ensures CallOk(Handled(s), i)
        ensures i < |s.posted| ==> s.posted[i].callback != s.callbacks[s.replies[s.handled].transaction]
      {
        HandledCalls(s, i);
      }
      forall k | k in s.registered ensures RequestOk(Handled(s), k) {
        HandledRequests(s, k);
      }
    }
  }

  // ---------- every run ----------

  /** The correlation state together with all messages received and all that went to the listeners. */
  datatype Transport = Transport(state: State, received: seq<Inbound>, notified: seq<Inbound>)

  datatype Step =
    | Write(transaction: string)
    | Register(request: nat, hasCallback: bool)
    | Receive(message: Inbound)
    | Handle
    | CallBack

  function ReceivedBy(t: Transport, m: Inbound): Transport {
    Transport(t.state.(replies := t.state.replies + ReplyIn(m)), t.received + [m], t.notified + EventIn(m))
  }

  /** One step of any of the threads involved. Transactions are drawn afresh: none is written twice. */
  function Next(t: Transport, step: Step): Option<Transport> {
    var s := t.state;
    match step
    case Write(transaction) => if transaction in s.sent then None else Some(t.(state := Written(s, transaction)))
    case Register(k, has) =>
      if k in s.writing && k < |s.sent| then Some(t.(state := Registered(s, k, has))) else None
    case Receive(m) => Some(ReceivedBy(t, m))
    case Handle => if s.handled < |s.replies| then Some(t.(state := Handled(s))) else None
    case CallBack => if s.called < |s.posted| then Some(t.(state := s.(called := s.called + 1))) else None
  }

  predicate Sound(t: Transport) {
    Ok(t.state) && t.state.replies == Replies(t.received) && t.notified == Events(t.received)
  }

  lemma NextKeepsSound(t: Transport, step: Step)
    requires Sound(t) && Next(t, step).Some?
    ensures Sound(Next(t, step).value)
  {
    var s := t.state;
    match step {
      case Write(transaction) => WriteKeepsOk(s, transaction);
      case Register(k, has) => RegisterKeepsOk(s, k, has);
      case Receive(m) =>
        GatherMore(ReplyIn, t.received, m);
        GatherMore(EventIn, t.received, m);
        if IsReply(m) {
          ReceiveKeepsOk(s, Reply(m.header.value.transaction.value, m.data));
        } else {
          NothingMore(s.replies);
        }
      case Handle => HandleKeepsOk(s);
      case CallBack => MakingCallsKeepsOk(s);
    }
  }

  lemma MakingCallsKeepsOk(s: State)
    requires Ok(s) && s.called < |s.posted|
    ensures Ok(s.(called := s.called + 1))
  {
    var next := s.(called := s.called + 1);
    forall i | 0 <= i < |next.posted| ensures CallOk(next, i) {
      assert CallOk(s, i);
    }
    forall k | k in next.registered ensures RequestOk(next, k) {
      assert RequestOk(s, k);
    }
  }

  const START := Transport(INITIAL, [], [])

  /** In every interleaving of writing, registering, receiving, handling and calling back, after every step. */
  lemma AlwaysSound(steps: seq<Step>, n: nat)
    requires n <= |steps| && Runs.After(Next, START, steps, n).Some?
    ensures Sound(Runs.After(Next, START, steps, n).value)
  {
    forall t, step | Sound(t) && Next(t, step).Some? ensures Sound(Next(t, step).value) {
      NextKeepsSound(t, step);
    }
    Runs.InvariantHolds(Next, START, Sound, steps, n);
  }

  // ---------- what that means ----------

  /** A callback is made at most once, and only for a reply that bears the transaction of its own request. */
  lemma CalledAtMostOnce(t: Transport, i: nat, j: nat)
    requires Sound(t) && i < t.state.called && j < t.state.called
    ensures
      var s := t.state;
      && s.posted[i].callback < |s.sent| && |s.answers| == |s.posted| && s.answers[i] < |s.replies|
      && s.replies[s.answers[i]] == Reply(s.sent[s.posted[i].callback], s.posted[i].data)
      && (s.posted[i].callback == s.posted[j].callback ==> i == j)
  {
    assert CallOk(t.state, i);
  }

  /** The requests with a registered callback are the disjoint union of those pending in the table and those whose
      callback has been posted. */
  lemma PendingOrCompleted(t: Transport, k: nat)
    requires Sound(t) && k in t.state.registered
    ensures k < |t.state.sent|
    ensures IsPending(t.state, k) <==> !exists i :: 0 <= i < |t.state.posted| && t.state.posted[i].callback == k
  {
    var s := t.state;
    assert RequestOk(s, k);
    if i :| 0 <= i < |s.posted| && s.posted[i].callback == k {
      assert CallOk(s, i);
    }
  }

  /** A registered callback has been posted exactly if a reply with its transaction was handled after it was
      registered. A reply that was handled between the writing of the request and its registration is lost. */
  lemma CompletedWhen(t: Transport, k: nat)
    requires Sound(t) && k in t.state.registered
    ensures k < |t.state.sent|
    ensures !IsPending(t.state, k) <==>
            exists r :: t.state.registered[k] <= r < t.state.handled
                        && t.state.replies[r].transaction == t.state.sent[k]
  {
    var s := t.state;
    assert RequestOk(s, k);
    if !IsPending(s, k) {
      var i :| 0 <= i < |s.posted| && s.posted[i].callback == k;
      assert CallOk(s, i);
    }
  }

  /** For instance: whoever handles the reply before the callback is registered leaves it pending for good, unless
      there is a second reply. */
  lemma EarlyReplyIsLost(t: Transport, transaction: string)
    requires Sound(t) && transaction !in t.state.sent && transaction != "" && t.state.handled == |t.state.replies|
    ensures
      var k := |t.state.sent|;
      var m := Inbound(Some(Header(Some("success"), Some(transaction))), "");
      var steps := [Write(transaction), Receive(m), Handle, Register(k, true)];
      var end := Runs.After(Next, t, steps, 4);
      && end.Some? && k in end.value.state.registered && k < |end.value.state.sent| && IsPending(end.value.state, k)
      && end.value.state.handled == |end.value.state.replies|
  {
    var k := |t.state.sent|;
    var m := Inbound(Some(Header(Some("success"), Some(transaction))), "");
    var steps := [Write(transaction), Receive(m), Handle, Register(k, true)];
    var t1 := t.(state := Written(t.state, transaction));
    var t2 := ReceivedBy(t1, m);
    assert t2.state.replies == t.state.replies + [Reply(transaction, "")];
    var t3 := t2.(state := Handled(t2.state));
    assert transaction !in t.state.callbacks;
    assert Runs.After(Next, t, steps, 1) == Some(t1);
    assert Runs.After(Next, t, steps, 2) == Some(t2);
    assert Runs.After(Next, t, steps, 3) == Some(t3);
    assert Runs.After(Next, t, steps, 4) == Some(t3.(state := Registered(t3.state, k, true)));
  }

  /** Every message that parses and says what it is takes exactly one of the two routes, and no other message takes
      any: it is in the one queue or with the listeners, right after the messages before it that took that route. */
  lemma OneRouteEach(t: Transport, i: nat)
    requires Sound(t) && i < |t.received|
    ensures
      var m, r, e := t.received[i], |Replies(t.received[..i])|, |Events(t.received[..i])|;
      && (if IsReply(m) then
            r < |t.state.replies| && t.state.replies[r] == Reply(m.header.value.transaction.value, m.data)
          else |Replies(t.received[..i + 1])| == r)
      && (if IsEvent(m) then e < |t.notified| && t.notified[e] == m else |Events(t.received[..i + 1])| == e)
      && (if m.header.Some? && m.header.value.janus.Some? then IsReply(m) != IsEvent(m)
          else !IsReply(m) && !IsEvent(m))
  {
    var m := t.received[i];
    assert t.received[..i + 1] == t.received[..i] + [m];
    GatherMore(ReplyIn, t.received[..i], m);
    GatherMore(EventIn, t.received[..i], m);
    PieceStands(ReplyIn, t.received, i);
    PieceStands(EventIn, t.received, i);
  }

  /** Every reply that was ever queued is one message that was received. */
  lemma ReplyComesFrom(t: Transport, r: nat) returns (i: nat)
    requires Sound(t) && r < |t.state.replies|
    ensures i < |t.received| && IsReply(t.received[i]) && r == |Replies(t.received[..i])|
    ensures forall j :: 0 <= j < |t.received| && j != i && IsReply(t.received[j]) ==>
                          |Replies(t.received[..j])| != r
  {
    i := PieceOf(ReplyIn, t.received, r);
    forall j | 0 <= j < |t.received| && j != i && IsReply(t.received[j])
      ensures |Replies(t.received[..j])| != r
    {
      PiecesApart(ReplyIn, t.received, if i < j then i else j, if i < j then j else i);
    }
  }

  /** Every message that went to the listeners is one that was received. */
  lemma EventComesFrom(t: Transport, e: nat) returns (i: nat)
    requires Sound(t) && e < |t.notified|
    ensures i < |t.received| && IsEvent(t.received[i]) && e == |Events(t.received[..i])|
    ensures forall j :: 0 <= j < |t.received| && j != i && IsEvent(t.received[j]) ==>
                          |Events(t.received[..j])| != e
  {
    i := PieceOf(EventIn, t.received, e);
    forall j | 0 <= j < |t.received| && j != i && IsEvent(t.received[j])
      ensures |Events(t.received[..j])| != e
    {
      PiecesApart(EventIn, t.received, if i < j then i else j, if i < j then j else i);
    }
  }
}
