/** The life of sessions and plugin handles in the signaling client, as a log of what was granted, sent, erased and
    delivered. */
module Signaling {
  import opened Option

  /** What is asked of the gateway. */
  datatype Request =
    | Create
    | Attach(session: int)
    | Message(session: int, handle: int)
    | Hangup(session: int, handle: int)
    | Detach(session: int, handle: int)
    | KeepAlive(session: int)
    | DestroySession(session: int)

  /** What happens: a request is sent; a create reply grants a session; a reply to the attach request in
      entry `asked` grants a handle to a client;
      a detach reply erases a handle; a client dies; an event about a handle is delivered to a client. */
  datatype Entry =
    | Sent(request: Request)
    | SessionGranted(session: int)
    | HandleGranted(handle: int, client: nat, asked: nat)
    | HandleErased(handle: int)
    | ClientGone(client: nat)
    | Delivered(handle: int, client: nat)

  // ---------- what the log says ----------

  /** The session granted last among the first `n` entries. */
  function SessionAt(log: seq<Entry>, n: nat): Option<int>
    requires n <= |log|
  {
    if n == 0 then None
    else
      match log[n - 1]
      case SessionGranted(session) => Some(session)
      case _ => SessionAt(log, n - 1)
  }

  /** The client that holds `handle` after the first `n` entries: it was granted to it, and not erased since. */
  function HolderAt(log: seq<Entry>, n: nat, handle: int): Option<nat>
    requires n <= |log|
  {
    if n == 0 then None
    else
      match log[n - 1]
      case HandleGranted(h, client, _) => if h == handle then Some(client) else HolderAt(log, n - 1, handle)
      case HandleErased(h) => if h == handle then None else HolderAt(log, n - 1, handle)
      case _ => HolderAt(log, n - 1, handle)
  }

  predicate IsGoneAt(log: seq<Entry>, n: nat, client: nat)
    requires n <= |log|
  {
    n > 0 && (log[n - 1] == ClientGone(client) || IsGoneAt(log, n - 1, client))
  }

  /** Entry `i` is safe: a request carries the session granted last, and a handle that is held by a living client at
      that moment; an event reaches the living client that holds the handle at that moment; a handle is granted in
      reply to an attach request. */
  predicate SafeAt(log: seq<Entry>, i: nat)
    requires i < |log|
  {
    match log[i]
    case Sent(Create) => true
    case Sent(Attach(session)) => SessionAt(log, i) == Some(session)
    case Sent(KeepAlive(session)) => SessionAt(log, i) == Some(session)
    case Sent(DestroySession(session)) => SessionAt(log, i) == Some(session)
    case Sent(Message(session, handle)) => SessionAt(log, i) == Some(session) && IsHeldAt(log, i, handle)
    case Sent(Hangup(session, handle)) => SessionAt(log, i) == Some(session) && IsHeldAt(log, i, handle)
    case Sent(Detach(session, handle)) => SessionAt(log, i) == Some(session) && IsHeldAt(log, i, handle)
    case Delivered(handle, client) => HolderAt(log, i, handle) == Some(client) && !IsGoneAt(log, i, client)
    case HandleGranted(_, _, asked) => asked < i && log[asked].Sent? && log[asked].request.Attach?
    case _ => true
  }

  predicate IsHeldAt(log: seq<Entry>, i: nat, handle: int)
    requires i <= |log|
  {
    HolderAt(log, i, handle).Some? && !IsGoneAt(log, i, HolderAt(log, i, handle).value)
  }

  predicate Safe(log: seq<Entry>) {
    forall i :: 0 <= i < |log| ==> SafeAt(log, i)
  }

  // ---------- a longer log ----------

  lemma {:induction false} PrefixKeepsMeaning(log: seq<Entry>, e: Entry, n: nat, handle: int, client: nat)
    requires n <= |log|
    ensures SessionAt(log + [e], n) == SessionAt(log, n)
    ensures HolderAt(log + [e], n, handle) == HolderAt(log, n, handle)
    ensures IsGoneAt(log + [e], n, client) == IsGoneAt(log, n, client)
  {
    if n > 0 {
      PrefixKeepsMeaning(log, e, n - 1, handle, client);
    }
  }

  lemma SafeStays(log: seq<Entry>, e: Entry, i: nat)
    requires i < |log| && SafeAt(log, i)
    ensures SafeAt(log + [e], i)
  {
    var entry := log[i];
    assert (log + [e])[i] == entry;
    var handle := match entry
                  case Sent(Message(_, h)) => h
                  case Sent(Hangup(_, h)) => h
                  case Sent(Detach(_, h)) => h
                  case Delivered(h, _) => h
                  case _ => 0;
    var client := HolderAt(log, i, handle).GetOr(0);
    PrefixKeepsMeaning(log, e, i, handle, client);
  }

  /** A safe log stays safe when a safe entry is added. */
  lemma SafeGrows(log: seq<Entry>, e: Entry)
    requires Safe(log) && SafeAt(log + [e], |log|)
    ensures Safe(log + [e])
  {
    forall i | 0 <= i < |log + [e]| ensures SafeAt(log + [e], i) {
      if i < |log| {
        SafeStays(log, e, i);
      }
    }
  }

  // ---------- what safety means ----------

  /** A handle that is held was granted by an earlier attach reply and has not been erased or granted anew since. */
  lemma {:induction false} HeldMeansGranted(log: seq<Entry>, n: nat, handle: int, client: nat) returns (j: nat)
    requires n <= |log| && HolderAt(log, n, handle) == Some(client)
    ensures j < n && log[j].HandleGranted? && log[j].handle == handle && log[j].client == client
    ensures forall k :: j < k < n ==>
                          log[k] != HandleErased(handle) && !(log[k].HandleGranted? && log[k].handle == handle)
  {
    if log[n - 1].HandleGranted? && log[n - 1].handle == handle {
      j := n - 1;
    } else {
      j := HeldMeansGranted(log, n - 1, handle, client);
    }
  }

  lemma {:induction false} LivingMeansNeverGone(log: seq<Entry>, n: nat, client: nat)
    requires n <= |log|
    ensures !IsGoneAt(log, n, client) <==> forall k :: 0 <= k < n ==> log[k] != ClientGone(client)
  {
    if n > 0 {
      LivingMeansNeverGone(log, n - 1, client);
    }
  }

  lemma {:induction false} SessionWasGranted(log: seq<Entry>, n: nat, session: int) returns (j: nat)
    requires n <= |log| && SessionAt(log, n) == Some(session)
    ensures j < n && log[j] == SessionGranted(session)
  {
    if log[n - 1] == SessionGranted(session) {
      j := n - 1;
    } else {
      j := SessionWasGranted(log, n - 1, session);
    }
  }

  function SessionOf(request: Request): Option<int> {
    match request
    case Create => None
    case Attach(session) => Some(session)
    case Message(session, _) => Some(session)
    case Hangup(session, _) => Some(session)
    case Detach(session, _) => Some(session)
    case KeepAlive(session) => Some(session)
    case DestroySession(session) => Some(session)
  }

  function HandleOf(request: Request): Option<int> {
    match request
    case Message(_, handle) => Some(handle)
    case Hangup(_, handle) => Some(handle)
    case Detach(_, handle) => Some(handle)
    case _ => None
  }

  /** In a safe log every request but `Create` carries a session that an earlier create reply granted. */
  lemma RequestsCarryGrantedSessions(log: seq<Entry>, i: nat) returns (j: nat)
    requires Safe(log) && i < |log| && log[i].Sent? && !log[i].request.Create?
    ensures j < i && log[j] == SessionGranted(SessionOf(log[i].request).value)
  {
    assert SafeAt(log, i);
    j := SessionWasGranted(log, i, SessionOf(log[i].request).value);
  }

  /** In a safe log every message, hangup and detach request uses a handle that an earlier attach reply granted to a
      client that is still alive, and that no detach reply has erased since. */
  lemma RequestsUseGrantedHandles(log: seq<Entry>, i: nat) returns (j: nat)
    requires Safe(log) && i < |log| && log[i].Sent? && HandleOf(log[i].request).Some?
    ensures j < i && log[j].HandleGranted? && log[j].handle == HandleOf(log[i].request).value
    ensures forall k :: j < k < i ==> log[k] != HandleErased(log[j].handle)
    ensures forall k :: 0 <= k < i ==> log[k] != ClientGone(log[j].client)
  {
    assert SafeAt(log, i);
    var handle := HandleOf(log[i].request).value;
    j := HeldMeansGranted(log, i, handle, HolderAt(log, i, handle).value);
    LivingMeansNeverGone(log, i, log[j].client);
  }

  /** The position of the grant of the session that holds after the first `n` entries. */
  function LastGrant(log: seq<Entry>, n: nat): (at: Option<nat>)
    requires n <= |log|
    ensures at.Some? ==> at.value < n && log[at.value].SessionGranted?
    ensures at.Some? ==> forall k :: at.value < k < n ==> !log[k].SessionGranted?
    ensures at.None? ==> forall k :: 0 <= k < n ==> !log[k].SessionGranted?
  {
    if n == 0 then None
    else if log[n - 1].SessionGranted? then Some(n - 1)
    else LastGrant(log, n - 1)
  }

  lemma {:induction false} SessionIsGrantedLast(log: seq<Entry>, n: nat)
    requires n <= |log|
    ensures SessionAt(log, n) ==
            match LastGrant(log, n)
            case None => None
            case Some(at) => Some(log[at].session)
  {
    if n > 0 {
      SessionIsGrantedLast(log, n - 1);
    }
  }

  /** A request uses a handle in the session in which the handle was asked for exactly if no session has been granted
      in between: handles outlive their session. */
  lemma HandlesOutliveSessions(log: seq<Entry>, i: nat) returns (j: nat)
    requires Safe(log) && i < |log| && log[i].Sent? && HandleOf(log[i].request).Some?
    ensures j < i && log[j].HandleGranted? && log[j].handle == HandleOf(log[i].request).value
    ensures forall k :: j < k < i ==>
                          log[k] != HandleErased(log[j].handle)
                          && !(log[k].HandleGranted? && log[k].handle == log[j].handle)
    ensures
      var a := log[j].asked;
      && a < j && log[a].Sent? && log[a].request.Attach?
      && LastGrant(log, a).Some? && SessionOf(log[a].request) == Some(log[LastGrant(log, a).value].session)
      && LastGrant(log, i).Some? && SessionOf(log[i].request) == Some(log[LastGrant(log, i).value].session)
      && (LastGrant(log, a) == LastGrant(log, i) <==> forall k :: a < k < i ==> !log[k].SessionGranted?)
  {
    assert SafeAt(log, i);
    var handle := HandleOf(log[i].request).value;
    j := HeldMeansGranted(log, i, handle, HolderAt(log, i, handle).value);
    assert SafeAt(log, j);
    assert SafeAt(log, log[j].asked);
    SessionIsGrantedLast(log, i);
    SessionIsGrantedLast(log, log[j].asked);
  }

  /** In a safe log an event is delivered to the client that the handle was granted to last, alive then, and never
      after the handle has been erased, however long it was queued. */
  lemma EventsReachTheHolder(log: seq<Entry>, i: nat) returns (j: nat)
    requires Safe(log) && i < |log| && log[i].Delivered?
    ensures j < i && log[j].HandleGranted? && log[j].handle == log[i].handle && log[j].client == log[i].client
    ensures forall k :: j < k < i ==> log[k] != HandleErased(log[i].handle)
    ensures forall k :: 0 <= k < i ==> log[k] != ClientGone(log[i].client)
  {
    assert SafeAt(log, i);
    j := HeldMeansGranted(log, i, log[i].handle, log[i].client);
    LivingMeansNeverGone(log, i, log[i].client);
  }
}
