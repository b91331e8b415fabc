/** The plugin client: its media session and its remote candidates, changed in place. */
module PluginClient {
  import opened MediaConfig
  import opened MediaRequest
  import opened MediaSession
  import opened Option
  import opened Senders
  import opened Transceivers
  import Trickle

  // ---------- calls on the peer connection ----------

  method FindBearing(ts: seq<Transceiver>, kind: Kind) returns (at: nat)
    ensures at == FirstBearing(ts, kind)
  {
    at := 0;
    while at < |ts|
      invariant at <= |ts| && forall i :: 0 <= i < at ==> !Bearing(ts[i], kind)
    {
      var t := ts[at];
      if (t.sender.Carrying? && t.sender.track.kind == kind) || t.receiver == Some(kind) {
        break;
      }
      at := at + 1;
    }
    FirstBearingIs(ts, kind, at);
  }

  /** Find the transceiver of the track's kind and set its sender's track, or add the track. */
  method PutTrack(given: seq<Transceiver>, track: Track, reuse: bool) returns (ts: seq<Transceiver>)
    ensures ts == Put(given, track, reuse)
  {
    ts := given;
    var at := FindBearing(ts, track.kind);
    if at < |ts| && !ts[at].sender.NoSender? {
      ts := ts[at := ts[at].(sender := Carrying(track))];
    } else {
      ts := Added(ts, track, reuse);
    }
  }

  method AddTracks(given: seq<Transceiver>, tracks: seq<Track>, reuse: bool) returns (ts: seq<Transceiver>)
    ensures ts == AddedAll(given, tracks, |tracks|, reuse)
  {
    ts := given;
    for i := 0 to |tracks|
      invariant ts == AddedAll(given, tracks, i, reuse)
    {
      ts := Added(ts, tracks[i], reuse);
    }
  }

  method AddTransceivers(given: seq<Transceiver>, tracks: seq<Track>) returns (ts: seq<Transceiver>)
    ensures ts == AppendedAll(given, tracks, |tracks|)
  {
    ts := given;
    for i := 0 to |tracks|
      invariant ts == AppendedAll(given, tracks, i)
    {
      ts := Appended(ts, tracks[i]);
    }
  }

  method PublishTracks(given: seq<Transceiver>, stream: Stream, w: World) returns (ts: seq<Transceiver>)
    ensures ts == Published(given, stream, w)
  {
    ts := AddTracks(given, stream.audio, w.reuseAudio);
    if !w.rids {
      ts := AddTracks(ts, stream.video, w.reuseVideo);
    } else {
      ts := AddTransceivers(ts, stream.video);
    }
  }

  /** `RemoveTrack` on every sender of one kind. */
  method RemoveSenders(given: seq<Transceiver>, kind: Kind) returns (ts: seq<Transceiver>)
    ensures ts == SilencedAll(given, kind)
  {
    ts := given;
    for i := 0 to |given|
      invariant |ts| == |given|
      invariant forall j :: 0 <= j < i ==> ts[j] == if Carries(given[j], kind) then Silenced(given[j]) else given[j]
      invariant forall j :: i <= j < |given| ==> ts[j] == given[j]
    {
      if ts[i].sender.Carrying? && ts[i].sender.track.kind == kind {
        ts := ts[i := Silenced(ts[i])];
      }
    }
  }

  // ---------- media streams ----------

  class MediaStream {
    var audio: seq<Track>
    var video: seq<Track>

    constructor (stream: Stream)
      ensures Value() == stream
    {
      audio, video := stream.audio, stream.video;
    }

    function Value(): Stream
      reads this
    {
      Stream(audio, video)
    }

    method AddAudioTrack(track: Track)
      modifies `audio
      ensures audio == AddedTo(old(audio), track)
    {
      if track !in audio {
        audio := audio + [track];
      }
    }

    method AddVideoTrack(track: Track)
      modifies `video
      ensures video == AddedTo(old(video), track)
    {
      if track !in video {
        video := video + [track];
      }
    }

    method RemoveFirstAudio()
      modifies `audio
      ensures audio == WithoutFirst(old(audio))
    {
      if |audio| > 0 {
        audio := audio[1..];
      }
    }

    method RemoveFirstVideo()
      modifies `video
      ensures video == WithoutFirst(old(video))
    {
      if |video| > 0 {
        video := video[1..];
      }
    }

    /** `stopAllTracks`. */
    method StopAllTracks()
      modifies this
      ensures Value() == Stream([], [])
    {
      while |audio| > 0
        invariant video == old(video)
        decreases |audio|
      {
        RemoveFirstAudio();
      }
      while |video| > 0
        invariant audio == []
        decreases |video|
      {
        RemoveFirstVideo();
      }
    }
  }

  datatype Jsep = Jsep(kind: string, sdp: string)

  datatype Peer = Peer(transceivers: seq<Transceiver>, told: seq<Trickle.Delivery>)

  /** `CreateIceCandidate`: a null candidate if the line cannot be read. */
  function CreateIceCandidate(candidate: Trickle.CandidateData): (ici: Trickle.Delivery)
    requires candidate.mid.Some? && candidate.index.Some? && candidate.line.Some?
    ensures ici == Trickle.Candidate(Some(candidate))
  {
    if candidate.readable then Trickle.Ice(candidate.mid.value, candidate.index.value, candidate.line.value)
    else Trickle.Null
  }

  class PrepareWebrtcEvent {
    var media: Option<MediaConfig>
    const jsep: Option<Jsep>
    const stream: MediaStream?
    const trickle: Option<bool>

    constructor (media: Option<MediaConfig>, jsep: Option<Jsep>, stream: MediaStream?, trickle: Option<bool>)
      ensures this.media == media && this.jsep == jsep && this.stream == stream && this.trickle == trickle
    {
      this.media, this.jsep, this.stream, this.trickle := media, jsep, stream, trickle;
    }
  }

  class PluginClient {
    var localStream: MediaStream?
    var streamExternal: bool
    var pc: Option<Peer>
    var remoteSdp: Option<Jsep>
    var candidates: seq<Trickle.Delivery>
    var trickle: Option<bool>
    var nextTrack: nat

    constructor ()
      ensures Media() == MediaSession.INITIAL && Candidates() == Trickle.INITIAL
    {
      localStream, streamExternal, pc := null, false, None;
      remoteSdp, candidates, trickle, nextTrack := None, [], Some(true), 0;
    }

    function Media(): Session
      reads this, localStream
    {
      Session(if localStream == null then None else Some(localStream.Value()),
              streamExternal,
              if pc.None? then None else Some(pc.value.transceivers),
              nextTrack)
    }

    function Candidates(): Trickle.State
      reads this
    {
      Trickle.State(if pc.None? then None else Some(pc.value.told), remoteSdp.Some?, candidates)
    }

    method DropTracks(media: MediaConfig)
      requires pc.Some?
      modifies `pc, localStream
      ensures Media() == Dropped(old(Media()), media)
      ensures Candidates() == old(Candidates())
    {
      if media.update && !streamExternal {
        var ts := pc.value.transceivers;
        if media.audio.remove || media.audio.replace {
          if localStream != null {
            localStream.RemoveFirstAudio();
          }
          if !media.audio.replace {
            ts := RemoveSenders(ts, Audio);
          }
        }
        if media.video.remove || media.video.replace {
          if localStream != null {
            localStream.RemoveFirstVideo();
          }
          if !media.video.replace {
            ts := RemoveSenders(ts, Video);
          }
        }
        pc := Some(pc.value.(transceivers := ts));
      }
    }

    method ExtendAudio(stream: MediaStream, reuse: bool)
      requires localStream != null && pc.Some?
      modifies `pc, localStream`audio
      ensures Media() == Extended(old(Media()), old(stream.audio), Audio, reuse)
      ensures Candidates() == old(Candidates())
    {
      if |stream.audio| > 0 {
        var track := stream.audio[0];
        localStream.AddAudioTrack(track);
        var ts := PutTrack(pc.value.transceivers, track, reuse);
        pc := Some(pc.value.(transceivers := ts));
      }
    }

    method ExtendVideo(stream: MediaStream, reuse: bool)
      requires localStream != null && pc.Some?
      modifies `pc, localStream`video
      ensures Media() == Extended(old(Media()), old(stream.video), Video, reuse)
      ensures Candidates() == old(Candidates())
    {
      if |stream.video| > 0 {
        var track := stream.video[0];
        localStream.AddVideoTrack(track);
        var ts := PutTrack(pc.value.transceivers, track, reuse);
        pc := Some(pc.value.(transceivers := ts));
      }
    }

    /** The part of `prepareStreams` that changes the session. */
    method UseStream(media: MediaConfig, stream: MediaStream?, w: World) returns (crashed: bool)
      requires media.update ==> pc.Some?
      modifies `localStream, `pc, localStream
      ensures
        var out := Streamed(old(Media()), media, old(if stream == null then None else Some(stream.Value())), w);
        crashed == out.NullStream? && (out.Proceeds? ==> Media() == out.session)
      ensures !crashed ==> Candidates() == Trickle.PeerCreated(old(Candidates()))
    {
      var addTracks := localStream == null || !media.update || streamExternal;
      if addTracks {
        localStream := stream;
      } else {
        if Changes(media.audio) {
          if stream == null {
            return true;
          }
          ExtendAudio(stream, w.reuseAudio);
        }
        if Changes(media.video) {
          if stream == null {
            return true;
          }
          ExtendVideo(stream, w.reuseVideo);
        }
      }
      if pc.None? {
        pc := Some(Peer([], []));
      }
      if addTracks && stream != null {
        var ts := PublishTracks(pc.value.transceivers, stream.Value(), w);
        pc := Some(pc.value.(transceivers := ts));
      }
      crashed := false;
    }

    function SuppliedAs(stream: MediaStream?): Option<Supplied>
      reads this, stream
    {
      if stream == null then None
      else if stream == localStream then Some(TheLocal)
      else Some(Another(stream.Value()))
    }

    /** The application supplies the stream; a stream that the client captured itself is stopped. */
    method TakeSupplied(media: MediaConfig, stream: MediaStream, w: World) returns (crashed: bool)
      requires media.update ==> pc.Some?
      modifies `localStream, `streamExternal, `pc, localStream
      ensures
        var out := Acquired(old(Media()), media, old(SuppliedAs(stream)), w);
        crashed == out.NullStream? && (out.Proceeds? ==> Media() == out.session)
      ensures !crashed ==> Candidates() == Trickle.PeerCreated(old(Candidates()))
      ensures (old(localStream) != null && stream != old(localStream) && media.update && !old(streamExternal)) ==>
                old(localStream).Value() == Stream([], [])
    {
      if media.update {
        if localStream != null && localStream != stream && !streamExternal {
          localStream.StopAllTracks();
          localStream := null;
        }
      }
      streamExternal := true;
      crashed := UseStream(media, stream, w);
    }

    /** An audio track always, and a video track if there is a camera. */
    method Capture(camera: bool) returns (captured: MediaStream)
      modifies `nextTrack
      ensures fresh(captured) && captured.Value() == Captured(old(nextTrack), camera)
      ensures nextTrack == old(nextTrack) + 2
    {
      captured := new MediaStream(Stream([], []));
      captured.AddAudioTrack(Track(Audio, nextTrack));
      if camera {
        captured.AddVideoTrack(Track(Video, nextTrack + 1));
      }
      nextTrack := nextTrack + 2;
    }

    method UseCaptured(media: MediaConfig, w: World) returns (crashed: bool)
      requires media.update ==> pc.Some?
      modifies `localStream, `pc, `nextTrack, localStream
      ensures
        var s := old(Media());
        var got := Captured(s.nextId, w.camera);
        var out := Streamed(s.(nextId := s.nextId + 2), media, Some(got), w);
        crashed == out.NullStream? && (out.Proceeds? ==> Media() == out.session)
      ensures !crashed ==> Candidates() == Trickle.PeerCreated(old(Candidates()))
    {
      var captured := Capture(w.camera);
      crashed := UseStream(media, captured, w);
    }

    method AcquireStream(media: MediaConfig, stream: MediaStream?, w: World) returns (crashed: bool)
      requires media.update ==> pc.Some?
      modifies `localStream, `streamExternal, `pc, `nextTrack, localStream
      ensures
        var out := Acquired(old(Media()), media, old(SuppliedAs(stream)), w);
        crashed == out.NullStream? && (out.Proceeds? ==> Media() == out.session)
      ensures !crashed ==> Candidates() == Trickle.PeerCreated(old(Candidates()))
    {
      if stream != null {
        crashed := TakeSupplied(media, stream, w);
      } else if Sends(media.audio) || Sends(media.video) {
        crashed := UseCaptured(media, w);
      } else {
        crashed := UseStream(media, null, w);
      }
    }

    function Tracks(kind: Kind): Option<nat>
      reads this, localStream
    {
      if localStream == null then None
      else Some(if kind == Audio then |localStream.audio| else |localStream.video|)
    }

    /** The flags of a request to a running session. */
    method SettleMedia(given: MediaConfig, stream: MediaStream?) returns (media: MediaConfig, rejected: Option<Kind>)
      ensures rejected == if stream != null then None else Rejection(given, Media().Count(Audio), Media().Count(Video))
      ensures rejected.None? ==> media == Updated(Media(), given, SuppliedAs(stream))
    {
      media, rejected := given.(update := true), None;
      if stream == null {
        media, rejected := SettleRequest(media, Tracks(Audio), Tracks(Video));
      }
    }

    method RedoMedia(media: MediaConfig, stream: MediaStream?, w: World) returns (crashed: bool)
      requires pc.Some? && media.update
      modifies `localStream, `streamExternal, `pc, `nextTrack, localStream
      ensures
        var out := Redone(old(Media()), media, old(SuppliedAs(stream)), w);
        crashed == out.NullStream? && (out.Proceeds? ==> Media() == out.session)
      ensures !crashed ==> Candidates() == Trickle.PeerCreated(old(Candidates()))
    {
      if KeepsAll(media) {
        crashed := UseStream(media, localStream, w);
      } else {
        DropTracks(media);
        crashed := AcquireStream(media, stream, w);
      }
    }

    /** `prepareWebrtc` from the point where it looks at the media flags. */
    method PrepareMedia(given: MediaConfig, stream: MediaStream?, w: World)
      returns (media: MediaConfig, rejected: Option<Kind>, crashed: bool)
      modifies `localStream, `streamExternal, `pc, `nextTrack, localStream
      ensures
        var out := Prepared(old(Media()), given, old(SuppliedAs(stream)), w);
        && rejected == (if out.Rejected? then Some(out.kind) else None)
        && crashed == out.NullStream?
        && (out.Rejected? ==> Media() == old(Media()) && Candidates() == old(Candidates()))
        && (out.Proceeds? ==> media == out.media && Media() == out.session)
      ensures rejected.None? && !crashed ==> Candidates() == Trickle.PeerCreated(old(Candidates()))
    {
      if pc.None? {
        media, rejected := Reset(given), None;
        crashed := AcquireStream(media, stream, w);
      } else {
        media, rejected := SettleMedia(given, stream);
        if rejected.Some? {
          return media, rejected, false;
        }
        crashed := RedoMedia(media, stream, w);
      }
    }

    /** `configTracks` on the peer connection, at the start of `_createOffer` and `_createAnswer`. */
    method ConfigurePeer(media: MediaConfig, audioAdded: bool, videoAdded: bool)
      modifies `pc
      ensures Media() == Offered(old(Media()), media, audioAdded, videoAdded)
      ensures Candidates() == old(Candidates())
    {
      if pc.Some? {
        var ts := ConfigTracks(media, pc.value.transceivers, audioAdded, videoAdded);
        pc := Some(pc.value.(transceivers := ts));
      }
    }

    /** The end of `prepareStreams`: without a description an offer is made, and with one of a known type it is set. */
    method Conclude(jsep: Option<Jsep>, media: MediaConfig, audioAdded: bool, videoAdded: bool) returns (result: Result)
      requires pc.Some?
      modifies `pc
      ensures result == if jsep.None? then Offering
                        else if jsep.value.kind in {"offer", "pranswer", "answer", "rollback"}
                        then SettingRemote(jsep.value)
                        else BadType
      ensures Media() == if jsep.None? then Offered(old(Media()), media, audioAdded, videoAdded) else old(Media())
      ensures Candidates() == old(Candidates())
      ensures result.SettingRemote? ==> CanSetRemote(Candidates())
    {
      if jsep.None? {
        ConfigurePeer(media, audioAdded, videoAdded);
        return Offering;
      }
      if !IsSdpType(jsep.value.kind) {
        return BadType;
      }
      Trickle.RemoteSetKeepsAccount(Candidates());
      return SettingRemote(jsep.value);
    }

    /** `prepareWebrtc`, as `createOffer` and `createAnswer` call it. `audioAdded` and `videoAdded` tell whether
        `configTracks` can create a transceiver. */
    method PrepareWebrtc(isOffer: bool, event: PrepareWebrtcEvent, w: World, audioAdded: bool, videoAdded: bool)
      returns (result: Result)
      modifies this, localStream, event`media
      ensures
        var accepted :=
          if isOffer then event.jsep.None?
          else event.jsep.Some? && event.jsep.value.kind != "" && event.jsep.value.sdp != "";
        && trickle == (if accepted then Some(event.trickle.GetOr(true)) else old(trickle))
        && (result == Ignored <==> !accepted || old(event.media).None?)
      ensures result == Ignored || result.TurnedDown? ==> Media() == old(Media()) && Candidates() == old(Candidates())
      ensures result != Ignored ==>
                var out := Prepared(old(Media()), old(event.media).value, old(SuppliedAs(event.stream)), w);
                && (result == Crashed <==> out.NullStream?)
                && (result.TurnedDown? <==> out.Rejected?) && (result.TurnedDown? ==> result.kind == out.kind)
                && (out.Proceeds? ==>
                      && result == (if event.jsep.None? then Offering
                                    else if event.jsep.value.kind in {"offer", "pranswer", "answer", "rollback"}
                                    then SettingRemote(event.jsep.value)
                                    else BadType)
                      && event.media == Some(out.media)
                      && Candidates() == Trickle.PeerCreated(old(Candidates()))
                      && Media() == if event.jsep.None? then Offered(out.session, out.media, audioAdded, videoAdded)
                                    else out.session)
      ensures remoteSdp == old(remoteSdp)
      ensures result.SettingRemote? ==> CanSetRemote(Candidates())
    {
      if !IsAcceptable(isOffer, event.jsep) {
        return Ignored;
      }
      trickle := Some(IsTrickleEnabled(event.trickle));
      if event.media.None? {
        return Ignored;
      }
      var media, rejected, crashed := PrepareMedia(event.media.value, event.stream, w);
      event.media := Some(media);
      if rejected.Some? {
        return TurnedDown(rejected.value);
      }
      if crashed {
        return Crashed;
      }
      result := Conclude(event.jsep, media, audioAdded, videoAdded);
    }

    /** `handleRemoteJsep`: a description of a known type is passed on exactly if its success callback, coming now,
        would neither crash nor leave a candidate behind. */
    method HandleRemoteJsep(jsep: Option<Jsep>) returns (result: Result)
      ensures result == Ignored <==> jsep.None?
      ensures result == NoPeerConnection <==> jsep.Some? && !CanSetRemote(Candidates())
      ensures result == BadType || result.SettingRemote? <==> jsep.Some? && CanSetRemote(Candidates())
      ensures result.SettingRemote? <==> jsep.Some? && CanSetRemote(Candidates())
                                         && jsep.value.kind in {"offer", "pranswer", "answer", "rollback"}
      ensures result.SettingRemote? ==> result.jsep == jsep.value
    {
      if jsep.None? {
        return Ignored;
      }
      if pc.None? {
        return NoPeerConnection;
      }
      Trickle.RemoteSetKeepsAccount(Candidates());
      if !IsSdpType(jsep.value.kind) {
        return BadType;
      }
      return SettingRemote(jsep.value);
    }

    /** The success callback of `SetRemoteDescription`, in `prepareStreams` and in `handleRemoteJsep`. */
    method RemoteDescriptionSet(jsep: Jsep) returns (crashed: bool)
      modifies `remoteSdp, `pc, `candidates
      ensures
        var after := Trickle.RemoteSet(old(Candidates()));
        crashed == after.None? && (after.Some? ==> Candidates() == after.value)
      ensures remoteSdp == Some(jsep) && Media() == old(Media())
    {
      remoteSdp := Some(jsep);
      assert old(pc).Some? ==> old(pc).value.told + candidates[..0] == old(pc).value.told;
      for i := 0 to |candidates|
        invariant remoteSdp == Some(jsep) && candidates == old(candidates) && Media() == old(Media())
        invariant if old(pc).None? then pc.None? && i == 0
                  else pc == Some(Peer(old(pc).value.transceivers, old(pc).value.told + candidates[..i]))
      {
        if pc.None? {
          return true;
        }
        ghost var told := old(pc).value.told;
        assert told + candidates[..i] + [candidates[i]] == told + candidates[..i + 1];
        pc := Some(pc.value.(told := pc.value.told + [candidates[i]]));
      }
      assert candidates[..|candidates|] == candidates;
      assert old(pc).Some? && candidates == [] ==> old(pc).value.told + candidates == old(pc).value.told;
      candidates := [];
      crashed := false;
    }

    /** `onTrickle`, once the message has been read; `threw` is the missing candidate line. */
    method OnTrickle(candidate: Option<Trickle.CandidateData>) returns (threw: bool)
      modifies `pc, `candidates
      ensures
        var after := Trickle.Trickled(old(Candidates()), candidate);
        threw == after.None? && (after.Some? ==> Candidates() == after.value)
      ensures Media() == old(Media())
    {
      assert candidates + [] == candidates && (pc.Some? ==> pc.value.told + [] == pc.value.told);
      threw := false;
      var has := candidate.Some?;
      if pc.Some? && remoteSdp.Some? {
        if !has || (candidate.value.completed.Some? && candidate.value.completed.value) {
          pc := Some(pc.value.(told := pc.value.told + [Trickle.Null]));
        } else if candidate.value.mid.Some? && candidate.value.index.Some? {
          if candidate.value.line.None? {
            return true;
          }
          var ici := CreateIceCandidate(candidate.value);
          pc := Some(pc.value.(told := pc.value.told + [ici]));
        }
      } else {
        if has && candidate.value.mid.Some? && candidate.value.index.Some? {
          if candidate.value.line.None? {
            return true;
          }
          var ici := CreateIceCandidate(candidate.value);
          candidates := candidates + [ici];
        }
      }
    }

    /** `cleanupWebrtc`. */
    method CleanupWebrtc()
      modifies this, localStream
      ensures Media() == CleanedUp(old(Media())) && Candidates() == Trickle.INITIAL
      ensures old(localStream) != null ==>
                old(localStream).Value() == if old(streamExternal) then old(localStream.Value()) else Stream([], [])
    {
      if !streamExternal && localStream != null {
        localStream.StopAllTracks();
      }
      streamExternal := false;
      localStream := null;
      pc := None;
      candidates := [];
      remoteSdp := None;
    }
  }

  /** How `prepareWebrtc` and `handleRemoteJsep` end. */
  datatype Result =
    | Ignored
    | TurnedDown(kind: Kind)
    | Crashed
    | Offering
    | SettingRemote(jsep: Jsep)
    | BadType
    | NoPeerConnection

  /** An offer comes without a description, an answer with one. */
  predicate IsAcceptable(isOffer: bool, jsep: Option<Jsep>) {
    if isOffer then jsep.None? else jsep.Some? && jsep.value.kind != "" && jsep.value.sdp != ""
  }

  predicate IsSdpType(kind: string) {
    kind in {"offer", "pranswer", "answer", "rollback"}
  }

  /** Setting the remote description now would not crash; everything cached would be told, in order, and the peer
      connection would be live. */
  predicate CanSetRemote(s: Trickle.State) {
    var after := Trickle.RemoteSet(s);
    after.Some? && after.value.Live() && after.value.cached == [] && after.value.Account() == s.Account()
  }

  function Offered(s: Session, m: MediaConfig, audioAdded: bool, videoAdded: bool): Session {
    if s.pc.None? then s else s.(pc := Some(Configured(m, s.pc.value, audioAdded, videoAdded)))
  }
}
