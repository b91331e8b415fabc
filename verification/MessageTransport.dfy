/** The message transport and the callback wrapper of the API client, changed in place. Each method is what one
    thread does without interruption; `send` is two of them, because a reply can come in between. */
module MessageTransport {
  import opened Correlation
  import opened Gathering
  import opened Option
  import WireText

  lemma Rest<T>(s: seq<T>, n: nat)
    requires n < |s|
    ensures s[n..] != [] && s[n..][0] == s[n] && s[n..][1..] == s[n + 1..]
  {
  }

  lemma RestAndMore<T>(s: seq<T>, more: seq<T>, n: nat)
    requires n <= |s|
    ensures (s + more)[n..] == s[n..] + more
  {
  }

  class MessageTransport {
    /** The connection, if there is one. */
    var connectionId: int
    var hasWebsocket: bool

    /** `_callbacksMap`: the requests whose reply is awaited, by transaction. */
    var callbacks: map<string, nat>

    /** The queues of the message-transport and the signaling-service thread. */
    var replies: seq<Reply>
    var calls: seq<Posting>

    /** Everything that has been done so far. */
    ghost var history: Transport

    ghost predicate Valid()
      reads this
    {
      var s := history.state;
      && Sound(history)
      && callbacks == s.callbacks
      && replies == s.replies[s.handled..]
      && calls == s.posted[s.called..]
    }

    constructor ()
      ensures Valid() && history == START && !IsValid()
    {
      connectionId, hasWebsocket := -1, true;
      callbacks, replies, calls := map[], [], [];
      history := START;
    }

    predicate IsValid()
      reads `connectionId, `hasWebsocket
    {
      hasWebsocket && connectionId != -1
    }

    /** The first half of `send`: the request is written to the wire, if there is a connection. */
    method SendText(transaction: string) returns (written: bool, ghost request: nat)
      requires Valid() && transaction !in history.state.sent
      modifies `history
      ensures Valid()
      ensures written <==> IsValid()
      ensures request == |old(history).state.sent|
      ensures Some(history) == if written then Next(old(history), Write(transaction)) else Some(old(history))
    {
      written, request := IsValid(), |history.state.sent|;
      if !written {
        return;
      }
      NextKeepsSound(history, Write(transaction));
      history := Next(history, Write(transaction)).value;
    }

    /** The second half: a handler that has a transaction and a callback goes into the table. */
    method RegisterCallback(ghost request: nat, transaction: string, callback: Option<nat>)
      requires Valid() && request in history.state.writing && request < |history.state.sent|
      requires transaction == history.state.sent[request] && (callback.Some? ==> callback.value == request)
      modifies `history, `callbacks
      ensures Valid()
      ensures Some(history) == Next(old(history), Register(request, callback.Some?))
      ensures callbacks == if transaction != "" && callback.Some? then old(callbacks)[transaction := callback.value]
                           else old(callbacks)
    {
      NextKeepsSound(history, Register(request, callback.Some?));
      if transaction != "" && callback.Some? {
        callbacks := callbacks[transaction := callback.value];
      }
      history := Next(history, Register(request, callback.Some?)).value;
    }

    /** `onTextMessage`: a reply is posted to the message-transport thread, and any other message that says what it
        is goes to the listeners. `parse` reads the header of a message, if it can be read. */
    method OnTextMessage(json: string, parse: string -> Option<Header>) returns (notify: Option<string>)
      requires Valid()
      modifies `history, `replies
      ensures Valid()
      ensures
        var data := WireText.Mended(json);
        && Some(history) == Next(old(history), Receive(Inbound(parse(data), data)))
        && notify == if IsEvent(Inbound(parse(data), data)) then Some(data) else None
      ensures
        var data := WireText.Mended(json);
        match parse(data)
        case None => notify == None && replies == old(replies)
        case Some(header) =>
          if header.janus.None? then notify == None && replies == old(replies)
          else if header.transaction.Some? && header.janus.value in {"ack", "success", "error", "server_info"} then
            notify == None && replies == old(replies) + [Reply(header.transaction.value, data)]
          else notify == Some(data) && replies == old(replies)
    {
      var data := WireText.Mend(json);
      var header := parse(data);
      ghost var m := Inbound(header, data);
      NextKeepsSound(history, Receive(m));
      NothingMore(history.state.replies);
      history := Next(history, Receive(m)).value;
      if header.None? || header.value.janus.None? {
        return None;
      }
      if header.value.transaction.Some? && header.value.janus.value in {"ack", "success", "error", "server_info"} {
        replies := replies + [Reply(header.value.transaction.value, data)];
        return None;
      }
      return Some(data);
    }

    /** The task on the message-transport thread: the callback is looked up and called, which posts the caller's
        callback to the signaling-service thread, and erased. */
    method HandleReply()
      requires Valid() && replies != []
      modifies `history, `replies, `calls, `callbacks
      ensures Valid()
      ensures Some(history) == Next(old(history), Handle)
    {
      ghost var s := history.state;
      NextKeepsSound(history, Handle);
      history := Next(history, Handle).value;
      Rest(s.replies, s.handled);
      var reply := replies[0];
      replies := replies[1..];
      if reply.transaction in callbacks {
        RestAndMore(s.posted, [Posting(callbacks[reply.transaction], reply.data)], s.called);
        calls := calls + [Posting(callbacks[reply.transaction], reply.data)];
        callbacks := callbacks - {reply.transaction};
      }
    }

    /** The task on the signaling-service thread: the caller's callback is made. */
    method MakeCall() returns (callback: nat, data: string)
      requires Valid() && calls != []
      modifies `history, `calls
      ensures Valid()
      ensures Some(history) == Next(old(history), CallBack)
      ensures
        var s := old(history).state;
        Posting(callback, data) == s.posted[s.called] && CallOk(s, s.called)
    {
      callback, data := calls[0].callback, calls[0].data;
      NextKeepsSound(history, CallBack);
      history := Next(history, CallBack).value;
      calls := calls[1..];
    }
  }
}
