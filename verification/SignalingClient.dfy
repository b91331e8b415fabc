/** The signaling client, changed in place by calls, replies and events. Each method runs without interruption; the
    checks that plugin clients make before they call are part of the callers' duty. */
module SignalingClient {
  import opened Option
  import opened Signaling

  /** Work posted to the thread of the plugin clients: tell the client of a handle something, if there is one then. */
  datatype Task = Tell(handle: int, kind: string) | CleanUp(handle: int)

  /** The kinds of events that are passed on to the client of their handle. */
  const PASSED_ON := {"trickle", "webrtcup", "hangup", "detached", "media", "slowlink", "event", "timeout", "error"}

  /** The kinds that are decoded a second time before they are passed on. */
  const DECODED_AGAIN := {"hangup", "media", "slowlink", "event"}

  /** A message whose header has been read; whether it decodes as a message of its kind, and whether it then has
      plugin data. */
  datatype Incoming = Incoming(sender: Option<int>, kind: string, decodes: bool, hasPluginData: bool)

  /** How the reading of a reply ends: it is taken; a member without an id throws; or there is no such member, and the
      source reads through an empty optional, which C++ leaves undefined. The model stops there and changes nothing. */
  datatype Reading = Taken | Threw | Undefined

  /** The `data` member of a reply, if there is one, and its id, if it has one. */
  datatype Data = Data(id: Option<int>)

  function Reads(data: Option<Data>): Reading {
    if data.None? then Undefined else if data.value.id.None? then Threw else Taken
  }

  class SignalingClient {
    var sessionId: int
    var connected: bool
    /** `_sessionStatus == CONNECTED`. */
    var hasSession: bool
    var heartbeat: bool
    /** `_pluginClientMap`: weak pointers, so some of the clients may be gone. */
    var handles: map<int, nat>
    var gone: set<nat>
    var tasks: seq<Task>
    ghost var log: seq<Entry>

    /** The fields say what the log says, and the log is safe. */
    ghost predicate Valid()
      reads this
    {
      && Safe(log)
      && (hasSession || heartbeat || sessionId != -1 ==> SessionAt(log, |log|) == Some(sessionId))
      && (forall handle :: HolderAt(log, |log|, handle) == if handle in handles then Some(handles[handle]) else None)
      && (forall client :: IsGoneAt(log, |log|, client) <==> client in gone)
    }

    constructor ()
      ensures Valid() && log == [] && !hasSession && handles == map[] && tasks == []
    {
      sessionId, connected, hasSession, heartbeat := -1, false, false, false;
      handles, gone, tasks, log := map[], {}, [], [];
    }

    /** `getHandler`. */
    function GetHandler(handle: int): (client: Option<nat>)
      reads this
    {
      if handle == -1 || handle !in handles || handles[handle] in gone then None else Some(handles[handle])
    }

    /** A handle is found exactly if a living client holds it, unless it is the number -1. */
    lemma FindsTheHolder(handle: int)
      requires Valid()
      ensures GetHandler(handle).Some? <==> handle != -1 && IsHeldAt(log, |log|, handle)
      ensures GetHandler(handle).Some? ==> GetHandler(handle) == HolderAt(log, |log|, handle)
    {
    }

    /** An entry that neither grants nor erases anything, if it is safe, keeps the client valid. */
    ghost method Record(e: Entry)
      requires Valid() && SafeAt(log + [e], |log|)
      requires !e.SessionGranted? && !e.HandleGranted? && !e.HandleErased? && !e.ClientGone?
      modifies `log
      ensures Valid() && log == old(log) + [e]
    {
      SafeGrows(log, e);
      forall handle ensures HolderAt(log + [e], |log| + 1, handle) == HolderAt(log, |log|, handle) {
        PrefixKeepsMeaning(log, e, |log|, handle, 0);
      }
      forall client ensures IsGoneAt(log + [e], |log| + 1, client) == IsGoneAt(log, |log|, client) {
        PrefixKeepsMeaning(log, e, |log|, 0, client);
      }
      PrefixKeepsMeaning(log, e, |log|, 0, 0);
      log := log + [e];
    }

    lemma SafeRequest(request: Request)
      requires Valid()
      requires SessionOf(request).Some? ==> SessionAt(log, |log|) == SessionOf(request)
      requires HandleOf(request).Some? ==> GetHandler(HandleOf(request).value).Some?
      ensures SafeAt(log + [Sent(request)], |log|)
    {
      var handle := HandleOf(request).GetOr(0);
      PrefixKeepsMeaning(log, Sent(request), |log|, handle, HolderAt(log, |log|, handle).GetOr(0));
    }

    // ---------- sessions ----------

    /** `onOpened`. */
    method OnOpened()
      requires Valid()
      modifies `log
      ensures Valid() && log == old(log) + [Sent(Create)]
    {
      SafeRequest(Create);
      Record(Sent(Create));
    }

    /** The reply to the create request: the id of the header counts, or else that of the data. */
    method OnSessionCreated(inHeader: Option<int>, data: Option<Data>) returns (reading: Reading)
      requires Valid()
      modifies this
      ensures Valid() && handles == old(handles) && gone == old(gone)
      ensures tasks == old(tasks) && connected == old(connected)
      ensures reading == if inHeader.GetOr(0) > 0 then Taken else Reads(data)
      ensures reading == Taken ==>
                hasSession && sessionId == if inHeader.GetOr(0) > 0 then inHeader.value else data.value.id.value
      ensures reading != Taken ==> hasSession == old(hasSession) && sessionId == old(sessionId)
      ensures log == if reading == Taken then old(log) + [SessionGranted(sessionId)] else old(log)
    {
      if inHeader.GetOr(0) <= 0 {
        if data.None? {
          return Undefined;
        }
        if data.value.id.None? {
          return Threw;
        }
      }
      sessionId := if inHeader.GetOr(0) > 0 then inHeader.value else data.value.id.value;
      heartbeat := true;
      hasSession := true;
      ghost var e := SessionGranted(sessionId);
      SafeGrows(log, e);
      forall handle ensures HolderAt(log + [e], |log| + 1, handle) == HolderAt(log, |log|, handle) {
        PrefixKeepsMeaning(log, e, |log|, handle, 0);
      }
      forall client ensures IsGoneAt(log + [e], |log| + 1, client) == IsGoneAt(log, |log|, client) {
        PrefixKeepsMeaning(log, e, |log|, 0, client);
      }
      log := log + [e];
      reading := Taken;
    }

    /** The event callback of `onOpened`, and `onClosed` and `onFailed`. */
    method SetConnected(value: bool)
      requires Valid()
      modifies `connected
      ensures Valid() && connected == value
    {
      connected := value;
    }

    /** The repeated task of `startHeartbeat`. */
    method BeatHeart()
      requires Valid() && heartbeat
      modifies `log
      ensures Valid() && log == old(log) + [Sent(KeepAlive(sessionId))]
    {
      SafeRequest(KeepAlive(sessionId));
      Record(Sent(KeepAlive(sessionId)));
    }

    /** The loop of `destroySession`: every handle is told to clean up, without a request. `order` is the order in
        which the hash table yields its keys. */
    method CleanUpHandles(order: seq<int>)
      requires Valid() && forall h :: h in order <==> h in handles
      modifies `log, `tasks
      ensures Valid() && log == old(log) && old(tasks) <= tasks
      ensures forall h :: h in handles && GetHandler(h).Some? ==> CleanUp(h) in tasks
    {
      for i := 0 to |order|
        invariant old(tasks) <= tasks && log == old(log) && Valid()
        invariant forall j :: 0 <= j < i && GetHandler(order[j]).Some? ==> CleanUp(order[j]) in tasks
      {
        DestroyHandle(order[i], true, true);
      }
    }

    /** `destroySession`. */
    method DestroySession(cleanupHandles: bool, order: seq<int>)
      requires Valid() && forall h :: h in order <==> h in handles
      modifies `log, `tasks
      ensures Valid() && old(tasks) <= tasks
      ensures sessionId == -1 ==> tasks == old(tasks)
      ensures sessionId != -1 && cleanupHandles ==>
                forall h :: h in handles && GetHandler(h).Some? ==> CleanUp(h) in tasks
      ensures log == if sessionId != -1 && connected
                     then old(log) + [Sent(Request.DestroySession(sessionId))] else old(log)
    {
      if sessionId == -1 {
        return;
      }
      if cleanupHandles {
        CleanUpHandles(order);
      }
      if !connected {
        return;
      }
      SafeRequest(Request.DestroySession(sessionId));
      Record(Sent(Request.DestroySession(sessionId)));
    }

    // ---------- handles ----------

    /** `attach`; plugin clients check the session status before. */
    method Attach()
      requires Valid() && hasSession
      modifies `log
      ensures Valid() && log == old(log) + [Sent(Request.Attach(sessionId))]
    {
      SafeRequest(Request.Attach(sessionId));
      Record(Sent(Request.Attach(sessionId)));
    }

    /** The reply to an attach request of `client`, which is entry `asked`. */
    method OnAttached(success: bool, data: Option<Data>, client: nat, ghost asked: nat) returns (reading: Reading)
      requires Valid() && asked < |log| && log[asked].Sent? && log[asked].request.Attach?
      modifies `log, `handles
      ensures Valid()
      ensures reading == if success then Reads(data) else Taken
      ensures handles == if success && reading == Taken then old(handles)[data.value.id.value := client]
                         else old(handles)
      ensures log == if success && reading == Taken
                     then old(log) + [HandleGranted(data.value.id.value, client, asked)] else old(log)
    {
      if !success {
        return Taken;
      }
      if data.None? {
        return Undefined;
      }
      if data.value.id.None? {
        return Threw;
      }
      var id := data.value.id;
      handles := handles[id.value := client];
      ghost var e := HandleGranted(id.value, client, asked);
      SafeGrows(log, e);
      forall handle
        ensures HolderAt(log + [e], |log| + 1, handle) ==
                  if handle == id.value then Some(client) else HolderAt(log, |log|, handle)
      {
        PrefixKeepsMeaning(log, e, |log|, handle, 0);
      }
      forall c ensures IsGoneAt(log + [e], |log| + 1, c) == IsGoneAt(log, |log|, c) {
        PrefixKeepsMeaning(log, e, |log|, 0, c);
      }
      PrefixKeepsMeaning(log, e, |log|, 0, 0);
      log := log + [e];
      reading := Taken;
    }

    /** `sendMessage`; `false` reports that the service is down. */
    method SendMessage(handle: int) returns (up: bool)
      requires Valid()
      modifies `log
      ensures Valid() && up == hasSession
      ensures log == if hasSession && GetHandler(handle).Some?
                     then old(log) + [Sent(Message(sessionId, handle))] else old(log)
    {
      up := hasSession;
      if hasSession && GetHandler(handle).Some? {
        SafeRequest(Message(sessionId, handle));
        Record(Sent(Message(sessionId, handle)));
      }
    }

    /** `hangup`; plugin clients check the session status before. */
    method Hangup(handle: int, sendRequest: bool)
      requires Valid() && hasSession
      modifies `log
      ensures Valid()
      ensures log == if sendRequest && GetHandler(handle).Some?
                     then old(log) + [Sent(Request.Hangup(sessionId, handle))] else old(log)
    {
      if GetHandler(handle).Some? && sendRequest {
        SafeRequest(Request.Hangup(sessionId, handle));
        Record(Sent(Request.Hangup(sessionId, handle)));
      }
    }

    /** `destroyHandle`, and `detach`, which is the same; plugin clients check the session status before. */
    method DestroyHandle(handle: int, hasEvent: bool, noRequest: bool)
      requires Valid() && (hasSession || noRequest)
      modifies `log, `tasks
      ensures Valid()
      ensures tasks == if GetHandler(handle).Some? then old(tasks) + [CleanUp(handle)] else old(tasks)
      ensures log == if GetHandler(handle).Some? && hasEvent && !noRequest && connected
                     then old(log) + [Sent(Request.Detach(sessionId, handle))] else old(log)
    {
      if GetHandler(handle).None? {
        return;
      }
      tasks := tasks + [CleanUp(handle)];
      if !hasEvent || noRequest || !connected {
        return;
      }
      SafeRequest(Request.Detach(sessionId, handle));
      Record(Sent(Request.Detach(sessionId, handle)));
    }

    /** The reply to a detach request, whatever it says. */
    method OnDetached(handle: int)
      requires Valid()
      modifies `log, `handles
      ensures Valid() && handles == old(handles) - {handle} && log == old(log) + [HandleErased(handle)]
    {
      handles := handles - {handle};
      ghost var e := HandleErased(handle);
      SafeGrows(log, e);
      forall h ensures HolderAt(log + [e], |log| + 1, h) == if h == handle then None else HolderAt(log, |log|, h) {
        PrefixKeepsMeaning(log, e, |log|, h, 0);
      }
      forall c ensures IsGoneAt(log + [e], |log| + 1, c) == IsGoneAt(log, |log|, c) {
        PrefixKeepsMeaning(log, e, |log|, 0, c);
      }
      PrefixKeepsMeaning(log, e, |log|, 0, 0);
      log := log + [e];
    }

    /** The last owner of a plugin client lets go of it. */
    method ClientDies(client: nat)
      requires Valid()
      modifies `log, `gone
      ensures Valid() && gone == old(gone) + {client} && log == old(log) + [ClientGone(client)]
    {
      gone := gone + {client};
      ghost var e := ClientGone(client);
      SafeGrows(log, e);
      forall h ensures HolderAt(log + [e], |log| + 1, h) == HolderAt(log, |log|, h) {
        PrefixKeepsMeaning(log, e, |log|, h, 0);
      }
      forall c ensures IsGoneAt(log + [e], |log| + 1, c) <==> c == client || IsGoneAt(log, |log|, c) {
        PrefixKeepsMeaning(log, e, |log|, 0, c);
      }
      PrefixKeepsMeaning(log, e, |log|, 0, 0);
      log := log + [e];
    }

    // ---------- events ----------

    /** `onMessage`: `None` is a message whose header does not parse. One without a sender throws. */
    method OnMessage(message: Option<Incoming>) returns (threw: bool)
      requires Valid()
      modifies `tasks
      ensures Valid() && (threw <==> message.Some? && message.value.sender.None?)
      ensures
        var passedOn :=
          && message.Some? && message.value.sender.Some? && GetHandler(message.value.sender.value).Some?
          && (|| message.value.kind in {"trickle", "webrtcup", "detached", "timeout", "error"}
              || (message.value.kind in {"hangup", "media", "slowlink"} && message.value.decodes)
              || (message.value.kind == "event" && message.value.decodes && message.value.hasPluginData));
        tasks == if passedOn then old(tasks) + [Tell(message.value.sender.value, message.value.kind)] else old(tasks)
    {
      threw := false;
      if message.None? {
        return;
      }
      var m := message.value;
      if m.sender.None? {
        return true;
      }
      if GetHandler(m.sender.value).None? || m.kind !in PASSED_ON {
        return;
      }
      if m.kind in DECODED_AGAIN && !m.decodes {
        return;
      }
      if m.kind == "event" && !m.hasPluginData {
        return;
      }
      tasks := tasks + [Tell(m.sender.value, m.kind)];
    }

    /** A task runs on the thread of the plugin clients: the handle is looked up again. */
    method RunTask() returns (client: Option<nat>)
      requires Valid() && tasks != []
      modifies `tasks, `log
      ensures Valid() && tasks == old(tasks)[1..]
      ensures client == GetHandler(old(tasks)[0].handle)
      ensures log == if client.Some? then old(log) + [Delivered(old(tasks)[0].handle, client.value)] else old(log)
    {
      var handle := tasks[0].handle;
      tasks := tasks[1..];
      client := GetHandler(handle);
      if client.Some? {
        ghost var e := Delivered(handle, client.value);
        PrefixKeepsMeaning(log, e, |log|, handle, client.value);
        Record(e);
      }
    }
  }

  /** The part of a plugin client that asks the signaling client, and the checks it makes before. */
  class PluginHandle {
    const client: SignalingClient
    var handleId: int

    constructor (client: SignalingClient)
      ensures this.client == client && handleId == -1
    {
      this.client, handleId := client, -1;
    }

    method Attach()
      requires client.Valid()
      modifies client`log
      ensures client.Valid()
      ensures client.log == if client.hasSession
                            then old(client.log) + [Sent(Request.Attach(client.sessionId))] else old(client.log)
    {
      if client.hasSession {
        client.Attach();
      }
    }

    method SendMessage()
      requires client.Valid()
      modifies client`log
      ensures client.Valid()
      ensures client.log == if client.hasSession && client.GetHandler(handleId).Some?
                            then old(client.log) + [Sent(Message(client.sessionId, handleId))] else old(client.log)
    {
      if client.hasSession {
        var up := client.SendMessage(handleId);
      }
    }

    method Hangup(sendRequest: bool)
      requires client.Valid()
      modifies client`log
      ensures client.Valid()
      ensures client.log == if client.hasSession && sendRequest && client.GetHandler(handleId).Some?
                            then old(client.log) + [Sent(Request.Hangup(client.sessionId, handleId))]
                            else old(client.log)
    {
      if client.hasSession {
        client.Hangup(handleId, sendRequest);
      }
    }

    method Detach(hasEvent: bool, noRequest: bool)
      requires client.Valid()
      modifies client`log, client`tasks
      ensures client.Valid()
      ensures client.log == if client.hasSession && client.GetHandler(handleId).Some? && hasEvent && !noRequest
                               && client.connected
                            then old(client.log) + [Sent(Request.Detach(client.sessionId, handleId))]
                            else old(client.log)
      ensures client.tasks == if client.hasSession && client.GetHandler(handleId).Some?
                              then old(client.tasks) + [CleanUp(handleId)] else old(client.tasks)
    {
      if client.hasSession {
        client.DestroyHandle(handleId, hasEvent, noRequest);
      }
    }
  }

  /** A run that ends with a handle granted in the first session. */
  method FirstHandle(session: int, handle: int) returns (client: SignalingClient)
    requires session > 0 && handle != -1
    ensures fresh(client) && client.Valid() && client.GetHandler(handle) == Some(0)
    ensures client.log ==
            [Sent(Create), SessionGranted(session), Sent(Request.Attach(session)), HandleGranted(handle, 0, 2)]
  {
    client := new SignalingClient();
    client.OnOpened();
    var reading := client.OnSessionCreated(Some(session), None);
    client.Attach();
    reading := client.OnAttached(true, Some(Data(Some(handle))), 0, 2);
  }

  /** A run in which a handle outlives its session: it is asked for and granted in one session, and after a second
      create reply a message request goes out with the second session and that handle. */
  method HandleOutlivesSession(first: int, second: int, handle: int) returns (client: SignalingClient)
    requires first > 0 && second > 0 && handle != -1
    ensures client.Valid()
    ensures client.log ==
            [Sent(Create), SessionGranted(first), Sent(Request.Attach(first)), HandleGranted(handle, 0, 2)]
            + [Sent(Create), SessionGranted(second), Sent(Message(second, handle))]
  {
    client := FirstHandle(first, handle);
    client.OnOpened();
    var reading := client.OnSessionCreated(Some(second), None);
    var up := client.SendMessage(handle);
  }
}
