/** What a peer connection sends: the calls on senders that `prepareWebrtc` and `prepareStreams` make, and the tracks
    that are carried afterwards. */
module Senders {
  import opened MediaConfig
  import opened Option
  import opened Transceivers

  /** The position of the first transceiver that bears `kind`; the length of the list if none does. */
  function FirstBearing(ts: seq<Transceiver>, kind: Kind): (n: nat)
    ensures n <= |ts|
    ensures n < |ts| ==> Bearing(ts[n], kind)
    ensures forall i :: 0 <= i < n ==> !Bearing(ts[i], kind)
  {
    if ts == [] || Bearing(ts[0], kind) then 0 else 1 + FirstBearing(ts[1..], kind)
  }

  predicate Carries(t: Transceiver, kind: Kind) {
    t.sender.Carrying? && t.sender.track.kind == kind
  }

  /** The tracks of one kind that are sent, in transceiver order. */
  function Sent(ts: seq<Transceiver>, kind: Kind): seq<Track> {
    if ts == [] then []
    else if Carries(ts[0], kind) then [ts[0].sender.track] + Sent(ts[1..], kind)
    else Sent(ts[1..], kind)
  }

  // ---------- the calls ----------

  /** `PeerConnection::RemoveTrack` on one sender. */
  function Silenced(t: Transceiver): (u: Transceiver)
    ensures u.sender == Idle && u.receiver == t.receiver
    ensures !SendsIn(u.direction) && ReceivesIn(u.direction) == ReceivesIn(t.direction)
  {
    t.(sender := Idle,
       direction := match t.direction
                    case SendRecv => RecvOnly
                    case SendOnly => Inactive
                    case d => d)
  }

  /** `RemoveTrack` on every sender that carries a track of `kind`. */
  function SilencedAll(ts: seq<Transceiver>, kind: Kind): (r: seq<Transceiver>)
    ensures |r| == |ts|
    ensures forall i :: 0 <= i < |ts| ==> r[i] == if Carries(ts[i], kind) then Silenced(ts[i]) else ts[i]
  {
    if ts == [] then []
    else [if Carries(ts[0], kind) then Silenced(ts[0]) else ts[0]] + SilencedAll(ts[1..], kind)
  }

  /** An idle transceiver that `PeerConnection::AddTrack` may take over for a track of `kind`. */
  predicate IsSpare(t: Transceiver, kind: Kind) {
    t.sender.Idle? && t.receiver == Some(kind)
  }

  function FirstSpare(ts: seq<Transceiver>, kind: Kind): (n: nat)
    ensures n <= |ts|
    ensures n < |ts| ==> IsSpare(ts[n], kind)
    ensures forall i :: 0 <= i < n ==> !IsSpare(ts[i], kind)
  {
    if ts == [] || IsSpare(ts[0], kind) then 0 else 1 + FirstSpare(ts[1..], kind)
  }

  function Sending(t: Transceiver, track: Track): (u: Transceiver)
    ensures u.sender == Carrying(track) && u.receiver == t.receiver
    ensures SendsIn(u.direction) && ReceivesIn(u.direction) == ReceivesIn(t.direction)
  {
    t.(sender := Carrying(track),
       direction := match t.direction
                    case RecvOnly => SendRecv
                    case Inactive => SendOnly
                    case d => d)
  }

  /** `AddTransceiver` for a track. */
  function Appended(ts: seq<Transceiver>, track: Track): (us: seq<Transceiver>)
    ensures |us| == |ts| + 1 && SendsIn(us[|ts|].direction) && ReceivesIn(us[|ts|].direction)
  {
    ts + [Transceiver(Carrying(track), Some(track.kind), SendRecv)]
  }

  /** `AddTrack`: the library refuses a track that is sent already; it takes over the first spare transceiver if it
      may, and otherwise creates one. */
  function Added(ts: seq<Transceiver>, track: Track, reuse: bool): seq<Transceiver> {
    var n := FirstSpare(ts, track.kind);
    if track in Sent(ts, track.kind) then ts
    else if reuse && n < |ts| then ts[n := Sending(ts[n], track)] else Appended(ts, track)
  }

  /** `SetTrack` on the sender of the first transceiver that bears the kind, or `AddTrack` if there is no sender. */
  function Put(ts: seq<Transceiver>, track: Track, reuse: bool): seq<Transceiver> {
    var n := FirstBearing(ts, track.kind);
    if n < |ts| && !ts[n].sender.NoSender? then ts[n := ts[n].(sender := Carrying(track))] else Added(ts, track, reuse)
  }

  // ---------- what is sent afterwards ----------

  /** The transceiver that carries a kind, if any, is the first that bears it, and the only one that carries it. */
  predicate Aligned(ts: seq<Transceiver>, kind: Kind) {
    forall i :: 0 <= i < |ts| && Carries(ts[i], kind) ==> i == FirstBearing(ts, kind)
  }

  lemma FirstBearingIs(ts: seq<Transceiver>, kind: Kind, n: nat)
    requires n <= |ts| && (forall i :: 0 <= i < n ==> !Bearing(ts[i], kind)) && (n < |ts| ==> Bearing(ts[n], kind))
    ensures FirstBearing(ts, kind) == n
  {
  }

  lemma {:induction false} NothingSent(ts: seq<Transceiver>, kind: Kind)
    ensures Sent(ts, kind) == [] <==> forall i :: 0 <= i < |ts| ==> !Carries(ts[i], kind)
  {
    if ts != [] {
      NothingSent(ts[1..], kind);
      if !Carries(ts[0], kind) && Sent(ts[1..], kind) != [] {
        var i :| 0 <= i < |ts[1..]| && Carries(ts[1..][i], kind);
        assert Carries(ts[i + 1], kind);
      }
    }
  }

  lemma {:induction false} OneSent(ts: seq<Transceiver>, kind: Kind, n: nat)
    requires n < |ts| && Carries(ts[n], kind) && forall i :: 0 <= i < |ts| && i != n ==> !Carries(ts[i], kind)
    ensures Sent(ts, kind) == [ts[n].sender.track]
  {
    if n == 0 {
      NothingSent(ts[1..], kind);
    } else {
      OneSent(ts[1..], kind, n - 1);
    }
  }

  /** An aligned list sends at most the one track of its first bearing transceiver. */
  lemma SentWhenAligned(ts: seq<Transceiver>, kind: Kind)
    requires Aligned(ts, kind)
    ensures
      var n := FirstBearing(ts, kind);
      Sent(ts, kind) == if n < |ts| && Carries(ts[n], kind) then [ts[n].sender.track] else []
  {
    var n := FirstBearing(ts, kind);
    if n < |ts| && Carries(ts[n], kind) {
      OneSent(ts, kind, n);
    } else {
      NothingSent(ts, kind);
    }
  }

  // ---------- unified plan ----------

  /** A transceiver always has a sender and a receiver, and they are of one kind. */
  predicate Unified(ts: seq<Transceiver>) {
    forall i :: 0 <= i < |ts| ==>
                  && ts[i].receiver.Some?
                  && !ts[i].sender.NoSender?
                  && (ts[i].sender.Carrying? ==> ts[i].receiver == Some(ts[i].sender.track.kind))
  }

  predicate Tidy(ts: seq<Transceiver>) {
    Unified(ts) && Aligned(ts, Audio) && Aligned(ts, Video)
  }

  predicate SameReceivers(ts: seq<Transceiver>, us: seq<Transceiver>) {
    |us| == |ts| && forall i :: 0 <= i < |ts| ==> us[i].receiver == ts[i].receiver
  }

  lemma SameReceiversBearAlike(ts: seq<Transceiver>, us: seq<Transceiver>, kind: Kind)
    requires Unified(ts) && Unified(us) && SameReceivers(ts, us)
    ensures FirstBearing(us, kind) == FirstBearing(ts, kind)
  {
    var n := FirstBearing(ts, kind);
    assert forall i :: 0 <= i < |ts| ==> Bearing(us[i], kind) == Bearing(ts[i], kind);
    FirstBearingIs(us, kind, n);
  }

  /** One transceiver's sender is set to a track of the kind it receives: only that kind is touched. */
  lemma TidyAfterSet(ts: seq<Transceiver>, us: seq<Transceiver>, n: nat, track: Track)
    requires Tidy(ts) && SameReceivers(ts, us)
    requires n < |ts| && n == FirstBearing(ts, track.kind)
    requires us[n].sender == Carrying(track) && forall i :: 0 <= i < |ts| && i != n ==> us[i].sender == ts[i].sender
    ensures Tidy(us) && Sent(us, track.kind) == [track]
    ensures forall kind :: kind != track.kind ==> Sent(us, kind) == Sent(ts, kind)
  {
    forall kind: Kind ensures FirstBearing(us, kind) == FirstBearing(ts, kind) {
      SameReceiversBearAlike(ts, us, kind);
    }
    assert Aligned(us, track.kind);
    forall kind: Kind | kind != track.kind ensures Aligned(us, kind) && Sent(us, kind) == Sent(ts, kind) {
      SentWhenAligned(ts, kind);
      SentWhenAligned(us, kind);
    }
    SentWhenAligned(us, track.kind);
    assert Aligned(us, Audio) && Aligned(us, Video);
  }

  /** `SetTrack` or `AddTrack` for one more track: from then on it is the only one of its kind that is sent, and the
      other kind is as before, whatever `AddTrack` does. */
  lemma PutSendsTheTrack(ts: seq<Transceiver>, track: Track, reuse: bool)
    requires Tidy(ts)
    ensures Tidy(Put(ts, track, reuse)) && Sent(Put(ts, track, reuse), track.kind) == [track]
    ensures forall kind :: kind != track.kind ==> Sent(Put(ts, track, reuse), kind) == Sent(ts, kind)
  {
    var n := FirstBearing(ts, track.kind);
    if n < |ts| {
      TidyAfterSet(ts, Put(ts, track, reuse), n, track);
    } else {
      NothingSent(ts, track.kind);
      AppendSendsTheTrack(ts, track);
      if FirstSpare(ts, track.kind) < |ts| {
        assert Bearing(ts[FirstSpare(ts, track.kind)], track.kind);
      }
    }
  }

  lemma {:induction false} SentOfAppend(ts: seq<Transceiver>, t: Transceiver, kind: Kind)
    ensures Sent(ts + [t], kind) == Sent(ts, kind) + if Carries(t, kind) then [t.sender.track] else []
  {
    if ts == [] {
      assert ts + [t] == [t];
    } else {
      assert (ts + [t])[1..] == ts[1..] + [t];
      SentOfAppend(ts[1..], t, kind);
    }
  }

  lemma FirstBearingOfAppend(ts: seq<Transceiver>, t: Transceiver, kind: Kind)
    ensures FirstBearing(ts + [t], kind) ==
              if FirstBearing(ts, kind) < |ts| || Bearing(t, kind) then FirstBearing(ts, kind) else |ts| + 1
  {
    var n := FirstBearing(ts, kind);
    FirstBearingIs(ts + [t], kind, if n < |ts| || Bearing(t, kind) then n else |ts| + 1);
  }

  /** An idle transceiver, such as the remote side or `configTracks` can append, changes nothing that is sent. */
  lemma AppendIdle(ts: seq<Transceiver>, t: Transceiver)
    requires Tidy(ts) && t.sender == Idle && t.receiver.Some?
    ensures Tidy(ts + [t]) && forall kind :: Sent(ts + [t], kind) == Sent(ts, kind)
  {
    forall kind: Kind ensures Aligned(ts + [t], kind) && Sent(ts + [t], kind) == Sent(ts, kind) {
      FirstBearingOfAppend(ts, t, kind);
      SentOfAppend(ts, t, kind);
    }
    assert Aligned(ts + [t], Audio) && Aligned(ts + [t], Video);
  }

  /** A new transceiver for a track of a kind that is not sent: the list stays tidy exactly if it is the first of
      its kind. */
  lemma AppendSendsTheTrack(ts: seq<Transceiver>, track: Track)
    requires Tidy(ts) && Sent(ts, track.kind) == []
    ensures Tidy(Appended(ts, track)) <==> FirstBearing(ts, track.kind) == |ts|
    ensures Sent(Appended(ts, track), track.kind) == [track]
    ensures forall kind :: kind != track.kind ==> Sent(Appended(ts, track), kind) == Sent(ts, kind)
  {
    var t := Transceiver(Carrying(track), Some(track.kind), SendRecv);
    forall kind: Kind
      ensures Sent(ts + [t], kind) == if kind == track.kind then [track] else Sent(ts, kind)
      ensures Aligned(ts + [t], kind) <==> (kind == track.kind ==> FirstBearing(ts, kind) == |ts|)
    {
      FirstBearingOfAppend(ts, t, kind);
      SentOfAppend(ts, t, kind);
      NothingSent(ts, track.kind);
      assert Carries((ts + [t])[|ts|], track.kind);
    }
    assert Unified(ts + [t]);
    assert Aligned(ts + [t], Audio) && Aligned(ts + [t], Video) <==> FirstBearing(ts, track.kind) == |ts|;
  }

  /** `AddTrack` of a kind that is not sent: the list stays tidy exactly if a spare transceiver is taken over
      whenever there is one. */
  lemma AddSendsTheTrack(ts: seq<Transceiver>, track: Track, reuse: bool)
    requires Tidy(ts) && Sent(ts, track.kind) == []
    ensures Tidy(Added(ts, track, reuse)) <==> reuse || FirstBearing(ts, track.kind) == |ts|
    ensures Sent(Added(ts, track, reuse), track.kind) == [track]
    ensures forall kind :: kind != track.kind ==> Sent(Added(ts, track, reuse), kind) == Sent(ts, kind)
  {
    var n, b := FirstSpare(ts, track.kind), FirstBearing(ts, track.kind);
    NothingSent(ts, track.kind);
    assert n == b by {
      assert forall i :: 0 <= i < |ts| ==> IsSpare(ts[i], track.kind) == Bearing(ts[i], track.kind);
    }
    if reuse && n < |ts| {
      TidyAfterSet(ts, Added(ts, track, reuse), n, track);
    } else {
      AppendSendsTheTrack(ts, track);
    }
  }

  /** Removing the senders of one kind leaves nothing of it sent, and the other kind as it was. */
  lemma SilencedSendsNothing(ts: seq<Transceiver>, kind: Kind)
    requires Tidy(ts)
    ensures Tidy(SilencedAll(ts, kind)) && Sent(SilencedAll(ts, kind), kind) == []
    ensures forall other :: other != kind ==> Sent(SilencedAll(ts, kind), other) == Sent(ts, other)
  {
    var us := SilencedAll(ts, kind);
    assert Unified(us);
    forall k: Kind
      ensures Aligned(us, k)
      ensures Sent(us, k) == if k == kind then [] else Sent(ts, k)
    {
      SameReceiversBearAlike(ts, us, k);
      SentWhenAligned(ts, k);
      SentWhenAligned(us, k);
    }
    assert Aligned(us, Audio) && Aligned(us, Video);
  }

  /** Lists that differ in directions only send the same. */
  lemma DirectionsDoNotMatter(ts: seq<Transceiver>, us: seq<Transceiver>)
    requires Tidy(ts) && SameReceivers(ts, us) && forall i :: 0 <= i < |ts| ==> us[i].sender == ts[i].sender
    ensures Tidy(us) && forall kind :: Sent(us, kind) == Sent(ts, kind)
  {
    forall kind: Kind ensures Aligned(us, kind) && Sent(us, kind) == Sent(ts, kind) {
      SameReceiversBearAlike(ts, us, kind);
      SentWhenAligned(ts, kind);
      SentWhenAligned(us, kind);
    }
    assert Aligned(us, Audio) && Aligned(us, Video);
  }

  /** `configTracks` never changes what is sent. */
  lemma ConfiguringKeepsSent(media: MediaConfig, before: seq<Transceiver>, a: bool, v: bool)
    requires Tidy(before)
    ensures Tidy(Configured(media, before, a, v))
    ensures forall kind :: Sent(Configured(media, before, a, v), kind) == Sent(before, kind)
  {
    var one := Settled(media, Audio, before, Position(before, Audio), a);
    SettlingKeepsSent(media, Audio, before, Position(before, Audio), a);
    SettlingKeepsSent(media, Video, one, Position(before, Video), v);
  }

  lemma SettlingKeepsSent(media: MediaConfig, kind: Kind, ts: seq<Transceiver>, at: Option<nat>, added: bool)
    requires Tidy(ts) && (at.Some? ==> at.value < |ts|)
    ensures Tidy(Settled(media, kind, ts, at, added))
    ensures forall k :: Sent(Settled(media, kind, ts, at, added), k) == Sent(ts, k)
  {
    var us := Settled(media, kind, ts, at, added);
    if |us| == |ts| {
      DirectionsDoNotMatter(ts, us);
    } else {
      AppendIdle(ts, Transceiver(Idle, Some(kind), RecvOnly));
    }
  }
}
