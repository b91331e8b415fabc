/** The transceivers of a peer connection: what they carry, and the directions that `configTracks` gives them. */
module Transceivers {
  import opened Option
  import opened MediaConfig

  /** A track, told apart from every other track by its number. */
  datatype Track = Track(kind: Kind, id: nat)

  datatype Sender = NoSender | Idle | Carrying(track: Track)

  datatype Direction = SendRecv | SendOnly | RecvOnly | Inactive

  /** `receiver` is the kind of the receiver's track, if it has one. */
  datatype Transceiver = Transceiver(sender: Sender, receiver: Option<Kind>, direction: Direction)

  predicate Bearing(t: Transceiver, kind: Kind) {
    (t.sender.Carrying? && t.sender.track.kind == kind) || t.receiver == Some(kind)
  }

  /** The loop of `configTracks` looks for video only where it found no audio. */
  predicate Serves(t: Transceiver, kind: Kind) {
    Bearing(t, kind) && (kind == Video ==> !Bearing(t, Audio))
  }

  /** The position of the first transceiver that serves `kind`; the length of the list if none does. */
  function FirstServing(ts: seq<Transceiver>, kind: Kind): (n: nat)
    ensures n <= |ts|
    ensures n < |ts| ==> Serves(ts[n], kind)
    ensures forall i :: 0 <= i < n ==> !Serves(ts[i], kind)
  {
    if ts == [] || Serves(ts[0], kind) then 0 else 1 + FirstServing(ts[1..], kind)
  }

  // ---------- the directions asked for ----------

  /** The direction an existing transceiver gets; `None` leaves it as it is. */
  function Asked(media: MediaConfig, kind: Kind): Option<Direction> {
    match (Sends(media.For(kind)), Receives(media.For(kind)))
    case (true, true) => Some(SendRecv)
    case (true, false) => Some(SendOnly)
    case (false, true) => Some(RecvOnly)
    case (false, false) => if media.For(kind).remove then Some(Inactive) else None
  }

  /** A transceiver is needed that is not there: only to receive. */
  predicate NeedsNew(media: MediaConfig, kind: Kind, ts: seq<Transceiver>) {
    FirstServing(ts, kind) == |ts| && !Sends(media.For(kind)) && Receives(media.For(kind))
  }

  /** The transceiver that serves `kind` afterwards, given that creating one succeeds or not. */
  predicate IsConfigured(media: MediaConfig, before: seq<Transceiver>, after: seq<Transceiver>,
                         audioAdded: bool, videoAdded: bool) {
    var newAudio := NeedsNew(media, Audio, before) && audioAdded;
    var newVideo := NeedsNew(media, Video, before) && videoAdded;
    && |after| == |before| + (if newAudio then 1 else 0) + (if newVideo then 1 else 0)
    && (forall i :: 0 <= i < |before| ==>
          after[i] ==
          var kind := if i == FirstServing(before, Audio) then Some(Audio)
                      else if i == FirstServing(before, Video) then Some(Video) else None;
          if kind.None? || Asked(media, kind.value).None? then before[i]
          else before[i].(direction := Asked(media, kind.value).value))
    && (newAudio ==> after[|before|] == Transceiver(Idle, Some(Audio), RecvOnly))
    && (newVideo ==> after[|after| - 1] == Transceiver(Idle, Some(Video), RecvOnly))
  }

  /** One kind settled: the transceiver found gets its direction, or a missing one is created to receive. */
  function Settled(media: MediaConfig, kind: Kind, ts: seq<Transceiver>, at: Option<nat>, added: bool): seq<Transceiver>
    requires at.Some? ==> at.value < |ts|
  {
    match (at, Asked(media, kind))
    case (Some(i), Some(d)) => ts[i := ts[i].(direction := d)]
    case (Some(_), None) => ts
    case (None, d) => if d == Some(RecvOnly) && added then ts + [Transceiver(Idle, Some(kind), RecvOnly)] else ts
  }

  method Settle(media: MediaConfig, kind: Kind, given: seq<Transceiver>, at: Option<nat>, added: bool)
    returns (ts: seq<Transceiver>)
    requires at.Some? ==> at.value < |given|
    ensures ts == Settled(media, kind, given, at, added)
  {
    ts := given;
    var send, recv := IsSendEnabled(Some(media), kind), IsRecvEnabled(Some(media), kind);
    if !send && !recv {
      if media.For(kind).remove && at.Some? {
        ts := ts[at.value := ts[at.value].(direction := Inactive)];
      }
    } else {
      if send && recv {
        if at.Some? {
          ts := ts[at.value := ts[at.value].(direction := SendRecv)];
        }
      } else if send && !recv {
        if at.Some? {
          ts := ts[at.value := ts[at.value].(direction := SendOnly)];
        }
      } else if !send && recv {
        if at.Some? {
          ts := ts[at.value := ts[at.value].(direction := RecvOnly)];
        } else if added {
          ts := ts + [Transceiver(Idle, Some(kind), RecvOnly)];
        }
      }
    }
  }

  function Position(ts: seq<Transceiver>, kind: Kind): (at: Option<nat>)
    ensures at.Some? ==> at.value < |ts|
  {
    if FirstServing(ts, kind) < |ts| then Some(FirstServing(ts, kind)) else None
  }

  method FindServing(ts: seq<Transceiver>) returns (audio: Option<nat>, video: Option<nat>)
    ensures audio == Position(ts, Audio) && video == Position(ts, Video)
  {
    audio, video := None, None;
    for i := 0 to |ts|
      invariant audio.Some? ==> audio.value < i && audio.value == FirstServing(ts, Audio)
      invariant audio.None? ==> forall j :: 0 <= j < i ==> !Serves(ts[j], Audio)
      invariant video.Some? ==> video.value < i && video.value == FirstServing(ts, Video)
      invariant video.None? ==> forall j :: 0 <= j < i ==> !Serves(ts[j], Video)
    {
      var t := ts[i];
      if (t.sender.Carrying? && t.sender.track.kind == Audio) || t.receiver == Some(Audio) {
        if audio.None? {
          audio := Some(i);
        }
        continue;
      }
      if (t.sender.Carrying? && t.sender.track.kind == Video) || t.receiver == Some(Video) {
        if video.None? {
          video := Some(i);
        }
        continue;
      }
    }
  }

  /** `configTracks`: find the two transceivers, then settle audio, then video. `audioAdded` and `videoAdded` tell
      whether `AddTransceiver` would succeed. */
  method ConfigTracks(media: MediaConfig, given: seq<Transceiver>, audioAdded: bool, videoAdded: bool)
    returns (ts: seq<Transceiver>)
    ensures ts == Configured(media, given, audioAdded, videoAdded)
    ensures IsConfigured(media, given, ts, audioAdded, videoAdded)
    ensures FollowsFlags(media.audio, given, ts, Audio, audioAdded)
    ensures FollowsFlags(media.video, given, ts, Video, videoAdded)
  {
    var audio, video := FindServing(given);
    ts := Settle(media, Audio, given, audio, audioAdded);
    ts := Settle(media, Video, ts, video, videoAdded);
    ConfiguredIs(media, given, audioAdded, videoAdded);
    ConfiguredFollowsFlags(media, given, audioAdded, videoAdded);
  }

  function Configured(media: MediaConfig, given: seq<Transceiver>, audioAdded: bool, videoAdded: bool)
    : seq<Transceiver>
  {
    var ts := Settled(media, Audio, given, Position(given, Audio), audioAdded);
    Settled(media, Video, ts, Position(given, Video), videoAdded)
  }

  lemma ConfiguredIs(media: MediaConfig, given: seq<Transceiver>, audioAdded: bool, videoAdded: bool)
    ensures IsConfigured(media, given, Configured(media, given, audioAdded, videoAdded), audioAdded, videoAdded)
  {
  }

  // ---------- what the directions mean ----------

  predicate SendsIn(d: Direction) {
    d == SendRecv || d == SendOnly
  }

  predicate ReceivesIn(d: Direction) {
    d == SendRecv || d == RecvOnly
  }

  /** The first transceiver that serves a kind afterwards sends exactly if the flags say that the kind is sent, and
      receives exactly if they say that it is received. If they say neither it is inactive where the kind is removed,
      and as before otherwise. One is created, to receive, exactly if none was there and the kind is only received. */
  predicate FollowsFlags(f: Flags, given: seq<Transceiver>, after: seq<Transceiver>, kind: Kind, added: bool) {
    var n := FirstServing(given, kind);
    var send, recv := f.on && f.send != Some(false), f.on && f.recv != Some(false);
    && |given| <= |after|
    && (n < |given| ==>
          && after[n].sender == given[n].sender && after[n].receiver == given[n].receiver
          && if send || recv then SendsIn(after[n].direction) == send && ReceivesIn(after[n].direction) == recv
             else after[n].direction == if f.remove then Inactive else given[n].direction)
    && ((exists i :: |given| <= i < |after| && Serves(after[i], kind)) <==>
        n == |given| && !send && recv && added)
    && forall i :: |given| <= i < |after| ==>
                     after[i].sender == Idle && !SendsIn(after[i].direction) && ReceivesIn(after[i].direction)
  }

  lemma NewOnesFollowFlags(media: MediaConfig, given: seq<Transceiver>, a: bool, v: bool)
    ensures
      var after := Configured(media, given, a, v);
      var newAudio := FirstServing(given, Audio) == |given| && Asked(media, Audio) == Some(RecvOnly) && a;
      var newVideo := FirstServing(given, Video) == |given| && Asked(media, Video) == Some(RecvOnly) && v;
      && |after| == |given| + (if newAudio then 1 else 0) + (if newVideo then 1 else 0)
      && (newAudio ==> after[|given|] == Transceiver(Idle, Some(Audio), RecvOnly))
      && (newVideo ==> after[|after| - 1] == Transceiver(Idle, Some(Video), RecvOnly))
  {
  }

  lemma AudioFollowsFlags(media: MediaConfig, given: seq<Transceiver>, a: bool, v: bool)
    ensures FollowsFlags(media.audio, given, Configured(media, given, a, v), Audio, a)
  {
    NewOnesFollowFlags(media, given, a, v);
  }

  lemma VideoFollowsFlags(media: MediaConfig, given: seq<Transceiver>, a: bool, v: bool)
    ensures FollowsFlags(media.video, given, Configured(media, given, a, v), Video, v)
  {
    NewOnesFollowFlags(media, given, a, v);
  }

  /** Configuring does what the flags say, for both kinds. */
  lemma ConfiguredFollowsFlags(media: MediaConfig, given: seq<Transceiver>, a: bool, v: bool)
    ensures FollowsFlags(media.audio, given, Configured(media, given, a, v), Audio, a)
    ensures FollowsFlags(media.video, given, Configured(media, given, a, v), Video, v)
  {
    AudioFollowsFlags(media, given, a, v);
    VideoFollowsFlags(media, given, a, v);
  }

  // ---------- what configuring keeps, and its idempotence ----------

  lemma FirstServingIs(ts: seq<Transceiver>, kind: Kind, n: nat)
    requires n <= |ts| && (forall i :: 0 <= i < n ==> !Serves(ts[i], kind)) && (n < |ts| ==> Serves(ts[n], kind))
    ensures FirstServing(ts, kind) == n
  {
  }

  /** A transceiver with a track of each kind serves audio, and not video. */
  lemma MixedServesAudio(track: Track, d: Direction)
    requires track.kind == Audio
    ensures var t := Transceiver(Carrying(track), Some(Video), d); Serves(t, Audio) && !Serves(t, Video)
    ensures var t := Transceiver(Carrying(track.(kind := Video)), Some(Audio), d); Serves(t, Audio) && !Serves(t, Video)
  {
  }

  /** Configuring changes no sender and no receiver, only directions, and at most those of two transceivers. */
  lemma OnlyDirectionsChange(media: MediaConfig, before: seq<Transceiver>, after: seq<Transceiver>, a: bool, v: bool)
    requires IsConfigured(media, before, after, a, v)
    ensures forall i :: 0 <= i < |before| ==>
                          after[i].sender == before[i].sender && after[i].receiver == before[i].receiver
    ensures forall i :: 0 <= i < |before| && after[i] != before[i] ==>
                          i == FirstServing(before, Audio) || i == FirstServing(before, Video)
    ensures forall i :: |before| <= i < |after| ==> after[i].sender == Idle
    ensures |before| <= |after| <= |before| + 2
  {
    forall i | |before| <= i < |after| ensures after[i].sender == Idle {
      assert i == |before| || i == |after| - 1;
    }
  }

  /** Afterwards the first transceiver that serves a kind has the direction asked for. */
  lemma DirectionIsAsked(media: MediaConfig, before: seq<Transceiver>, after: seq<Transceiver>, a: bool, v: bool,
      kind: Kind)
    requires IsConfigured(media, before, after, a, v)
    ensures
      var n := FirstServing(after, kind);
      && (FirstServing(before, kind) < |before| ==> n == FirstServing(before, kind))
      && (n < |after| && Asked(media, kind).Some? ==> after[n].direction == Asked(media, kind).value)
      && (n == |after| <==> FirstServing(before, kind) == |before|
                            && !(NeedsNew(media, kind, before) && (if kind == Audio then a else v)))
  {
    OnlyDirectionsChange(media, before, after, a, v);
    forall i | 0 <= i < |before| ensures Serves(after[i], kind) == Serves(before[i], kind) {
    }
    var f := FirstServing(before, kind);
    if f < |before| {
      FirstServingIs(after, kind, f);
    } else if NeedsNew(media, kind, before) && (if kind == Audio then a else v) {
      FirstServingIs(after, kind, if kind == Audio then |before| else |after| - 1);
    } else {
      forall i | |before| <= i < |after| ensures !Serves(after[i], kind) {
        assert i == |before| || i == |after| - 1;
      }
      FirstServingIs(after, kind, |after|);
    }
  }

  /** Configuring again, whatever `AddTransceiver` does then, changes nothing exactly if every transceiver that was
      needed could be created. */
  lemma ConfiguringIsIdempotent(media: MediaConfig, before: seq<Transceiver>, after: seq<Transceiver>, a: bool, v: bool)
    requires IsConfigured(media, before, after, a, v)
    ensures (forall again, a', v' :: IsConfigured(media, after, again, a', v') ==> again == after) <==>
            (NeedsNew(media, Audio, before) ==> a) && (NeedsNew(media, Video, before) ==> v)
  {
    DirectionIsAsked(media, before, after, a, v, Audio);
    DirectionIsAsked(media, before, after, a, v, Video);
    if (NeedsNew(media, Audio, before) ==> a) && (NeedsNew(media, Video, before) ==> v) {
      forall again, a', v' | IsConfigured(media, after, again, a', v') ensures again == after {
        ConfiguredAgain(media, after, again, a', v');
      }
    } else {
      ConfiguredIs(media, after, true, true);
      var again := Configured(media, after, true, true);
      assert |again| > |after|;
    }
  }

  lemma ConfiguredAgain(media: MediaConfig, after: seq<Transceiver>, again: seq<Transceiver>, a: bool, v: bool)
    requires IsConfigured(media, after, again, a, v)
    requires !NeedsNew(media, Audio, after) && !NeedsNew(media, Video, after)
    requires forall kind :: FirstServing(after, kind) < |after| && Asked(media, kind).Some? ==>
                              after[FirstServing(after, kind)].direction == Asked(media, kind).value
    ensures again == after
  {
  }
}
