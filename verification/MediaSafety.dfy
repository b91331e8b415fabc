/** What every request does to a media session that the client captured itself. */
module MediaSafety {
  import opened MediaConfig
  import opened MediaRequest
  import opened MediaSession
  import opened Option
  import Runs
  import opened Transceivers

  // ---------- one request, one kind ----------

  /** What a request asks of the tracks of one kind; `got` is what the devices can deliver. */
  function AsAsked(f: Flags, tracks: seq<Track>, got: seq<Track>): seq<Track> {
    match WishFor(f)
    case Add => got
    case Remove => []
    case Replace => got
    case Keep => if tracks == [] && Wanted(f) then got else tracks
  }

  /** What dropping and then extending does to the tracks of one kind, given settled flags. */
  function Edited(g: Flags, tracks: seq<Track>, got: seq<Track>): seq<Track> {
    var rest := if g.remove || g.replace then WithoutFirst(tracks) else tracks;
    if Changes(g) && got != [] then AddedTo(rest, got[0]) else rest
  }

  lemma EditedAsAsked(f: Flags, tracks: seq<Track>, keep: bool, got: seq<Track>)
    requires |tracks| <= 1 && |got| <= 1 && (got != [] ==> got[0] !in tracks)
    requires !IsRejected(f, Some(|tracks|))
    ensures Edited(Fitted(f, Some(|tracks|), keep), tracks, got) == AsAsked(f, tracks, got)
  {
    FittedFlags(f, Some(|tracks|), keep);
  }

  // ---------- a request to a running session with its own stream ----------

  predicate OwnStream(s: Session) {
    s.pc.Some? && s.local.Some? && !s.external
  }

  predicate KindsMatch(stream: Stream) {
    (forall t :: t in stream.audio ==> t.kind == Audio) && forall t :: t in stream.video ==> t.kind == Video
  }

  /** At most one track of each kind, all of them created before. */
  predicate AtMostOne(s: Session) {
    !s.external && s.local.Some? ==>
      && |s.local.value.audio| <= 1 && |s.local.value.video| <= 1
      && (forall t :: t in s.local.value.audio ==> t.kind == Audio && t.id < s.nextId)
      && (forall t :: t in s.local.value.video ==> t.kind == Video && t.id < s.nextId)
  }

  predicate Turned(s: Session, m: MediaConfig) {
    Rejection(m, s.Count(Audio), s.Count(Video)).Some?
  }

  /** The local stream after the tracks asked for have been dropped and captured. */
  lemma CaptureEdits(s: Session, u: MediaConfig, w: World)
    requires OwnStream(s) && u.update && (Sends(u.audio) || Sends(u.video))
    ensures
      var got := Captured(s.nextId, w.camera);
      var out := Acquired(Dropped(s, u), u, None, w);
      && out.Proceeds?
      && out.session.local == Some(Stream(Edited(u.audio, s.local.value.audio, got.audio),
                                          Edited(u.video, s.local.value.video, got.video)))
      && out.session.nextId == s.nextId + 2 && !out.session.external && out.session.pc.Some?
  {
  }

  lemma NoCaptureEdits(s: Session, u: MediaConfig, w: World)
    requires OwnStream(s) && u.update && !Sends(u.audio) && !Sends(u.video)
    ensures
      var out := Acquired(Dropped(s, u), u, None, w);
      if Changes(u.audio) || Changes(u.video) then out == NullStream
      else
        && out.Proceeds?
        && out.session.local ==
            Some(Stream(Edited(u.audio, s.local.value.audio, []), Edited(u.video, s.local.value.video, [])))
        && out.session.nextId == s.nextId && !out.session.external && out.session.pc.Some?
  {
  }

  /** A request that keeps everything leaves the whole session alone. */
  lemma KeepingAllIsIdle(s: Session, m: MediaConfig, w: World)
    requires OwnStream(s) && !Turned(s, m) && KeepsAll(Updated(s, m, None))
    ensures Prepared(s, m, None, w) == Proceeds(Updated(s, m, None), s)
  {
    var a, v := s.Count(Audio), s.Count(Video);
    KeepsAllWhen(m.(update := true), a, v);
    FittedFlags(m.audio, a, m.audio.keep);
    FittedFlags(VideoAfterAudio(m.(update := true), a), v, false);
  }

  /** Video asks for the same whether or not its keep flag was dropped. */
  lemma KeepDoesNotMatter(f: Flags, has: bool)
    ensures WishFor(f.(keep := false)) == WishFor(f) && Wanted(f.(keep := false)) == Wanted(f)
    ensures NeedsTrack(f.(keep := false), has) == NeedsTrack(f, has)
  {
  }

  /** The settled flags of a request to a running session, kind by kind. */
  lemma UpdatedFlags(s: Session, m: MediaConfig)
    requires OwnStream(s)
    ensures
      var u, stream := Updated(s, m, None), s.local.value;
      && u.update
      && Sends(u.audio) == Wanted(m.audio) && Changes(u.audio) == NeedsTrack(m.audio, stream.audio != [])
      && Sends(u.video) == Wanted(m.video) && Changes(u.video) == NeedsTrack(m.video, stream.video != [])
  {
    var a, v := s.Count(Audio), s.Count(Video);
    FittedFlags(m.audio, a, m.audio.keep);
    FittedFlags(VideoAfterAudio(m.(update := true), a), v, false);
    KeepDoesNotMatter(m.video, v.GetOr(0) > 0);
  }

  lemma UpdatedEdits(s: Session, m: MediaConfig, audio: seq<Track>, video: seq<Track>)
    requires OwnStream(s) && !Turned(s, m)
    requires |s.local.value.audio| <= 1 && |audio| <= 1 && (audio != [] ==> audio[0] !in s.local.value.audio)
    requires |s.local.value.video| <= 1 && |video| <= 1 && (video != [] ==> video[0] !in s.local.value.video)
    ensures
      var u, stream := Updated(s, m, None), s.local.value;
      && Edited(u.audio, stream.audio, audio) == AsAsked(m.audio, stream.audio, audio)
      && Edited(u.video, stream.video, video) == AsAsked(m.video, stream.video, video)
  {
    var stream, asked := s.local.value, m.(update := true);
    EditedAsAsked(m.audio, stream.audio, m.audio.keep, audio);
    var f := VideoAfterAudio(asked, s.Count(Audio));
    EditedAsAsked(f, stream.video, false, video);
    KeepDoesNotMatter(m.video, stream.video != []);
  }

  /** What a request that is not turned down leads to, in terms of what was asked. */
  lemma UpdateOutcome(s: Session, m: MediaConfig, w: World)
    requires OwnStream(s) && AtMostOne(s) && !Turned(s, m)
    ensures
      var stream, out := s.local.value, Prepared(s, m, None, w);
      var got := if Wanted(m.audio) || Wanted(m.video) then Captured(s.nextId, w.camera) else Stream([], []);
      if KeepsAll(Updated(s, m, None)) then out == Proceeds(Updated(s, m, None), s)
      else if got.audio == []
              && (NeedsTrack(m.audio, stream.audio != []) || NeedsTrack(m.video, stream.video != [])) then
        out == NullStream
      else
        && out.Proceeds?
        && out.session.local ==
            Some(Stream(AsAsked(m.audio, stream.audio, got.audio), AsAsked(m.video, stream.video, got.video)))
        && s.nextId <= out.session.nextId && !out.session.external && out.session.pc.Some?
        && (got.audio != [] ==> out.session.nextId == s.nextId + 2)
  {
    var u := Updated(s, m, None);
    UpdatedFlags(s, m);
    if KeepsAll(u) {
      KeepingAllIsIdle(s, m, w);
    } else if Wanted(m.audio) || Wanted(m.video) {
      var got := Captured(s.nextId, w.camera);
      CaptureEdits(s, u, w);
      UpdatedEdits(s, m, got.audio, got.video);
    } else {
      NoCaptureEdits(s, u, w);
      UpdatedEdits(s, m, [], []);
    }
  }

  // ---------- in terms of the flags ----------

  /** The kind is to be sent once the request is carried out. */
  predicate IsToSend(f: Flags) {
    f.on && (f.add || (!f.remove && (f.replace || f.send != Some(false))))
  }

  /** A track is to be captured, where there is one already or not. */
  predicate IsToCapture(f: Flags, has: bool) {
    f.add || (!f.remove && (f.replace || (!has && IsToSend(f))))
  }

  predicate IsPlain(f: Flags) {
    !f.add && !f.remove && !f.replace
  }

  lemma FlagsSay(f: Flags, has: bool)
    ensures Wanted(f) == IsToSend(f) && NeedsTrack(f, has) == IsToCapture(f, has)
    ensures WishFor(f) == Keep <==> IsPlain(f)
  {
  }

  /** A track is asked for of a kind that has one. */
  predicate AddsASecond(stream: Stream, m: MediaConfig) {
    (m.audio.add && stream.audio != []) || (m.video.add && stream.video != [])
  }

  /** A track is to be added or replaced although nothing is to be sent. */
  predicate AddsWithMediaOff(m: MediaConfig) {
    && !IsToSend(m.audio) && !IsToSend(m.video)
    && (m.audio.add || m.video.add
        || (m.audio.replace && !m.audio.remove) || (m.video.replace && !m.video.remove))
  }

  /** A request is turned down exactly if it adds a track of a kind that has one; audio is reported first. Without a
      local stream, or with a stream supplied, none is. */
  lemma TurnedDownWhen(s: Session, m: MediaConfig, w: World)
    requires OwnStream(s)
    ensures Prepared(s, m, None, w).Rejected? <==> AddsASecond(s.local.value, m)
    ensures Prepared(s, m, None, w).Rejected? ==>
              Prepared(s, m, None, w).kind == if m.audio.add && s.local.value.audio != [] then Audio else Video
  {
  }

  lemma NeverTurnedDown(s: Session, m: MediaConfig, supplied: Option<Supplied>, w: World)
    requires supplied == Some(TheLocal) ==> s.local.Some?
    requires s.pc.None? || s.local.None? || supplied.Some?
    ensures !Prepared(s, m, supplied, w).Rejected?
  {
  }

  /** What is left of the tracks of a kind: a new one, none, or those that were there. */
  function TracksByFlags(f: Flags, tracks: seq<Track>, got: seq<Track>): seq<Track> {
    if IsToCapture(f, tracks != []) then got else if f.remove && !f.add then [] else tracks
  }

  /** The whole outcome of a request to a running session, in terms of its flags and of the tracks there are: the local
      stream holds, kind by kind, a new track where one is to be captured, nothing where the track is removed, and what
      was there otherwise, unless everything is kept although there is no audio to keep. */
  lemma OutcomeByFlags(s: Session, m: MediaConfig, w: World)
    requires OwnStream(s) && AtMostOne(s)
    ensures
      var out, before := Prepared(s, m, None, w), s.local.value;
      var audio, video := [Track(Audio, s.nextId)], if w.camera then [Track(Video, s.nextId + 1)] else [];
      if AddsASecond(before, m) then out.Rejected?
      else if AddsWithMediaOff(m) then out == NullStream
      else
        && out.Proceeds?
        && out.session.local ==
             if m.audio.keep && IsPlain(m.audio) && IsPlain(m.video) && IsToSend(m.audio) && IsToSend(m.video)
                && before.audio == [] && before.video != []
             then s.local
             else Some(Stream(TracksByFlags(m.audio, before.audio, audio), TracksByFlags(m.video, before.video, video)))
  {
    var before := s.local.value;
    FlagsSay(m.audio, before.audio != []);
    FlagsSay(m.video, before.video != []);
    TurnedDownWhen(s, m, w);
    if !AddsASecond(before, m) {
      UpdateOutcome(s, m, w);
      KeepsAllWhen(m.(update := true), s.Count(Audio), s.Count(Video));
      TracksAsAsked(m.audio, before.audio, [Track(Audio, s.nextId)]);
      TracksAsAsked(m.video, before.video, if w.camera then [Track(Video, s.nextId + 1)] else []);
    }
  }

  /** The flags say the same as the wish, and a new track counts only where one is to be captured. */
  lemma TracksAsAsked(f: Flags, tracks: seq<Track>, got: seq<Track>)
    ensures TracksByFlags(f, tracks, got) == AsAsked(f, tracks, got)
    ensures !IsToCapture(f, tracks != []) ==> TracksByFlags(f, tracks, got) == AsAsked(f, tracks, [])
  {
    FlagsSay(f, tracks != []);
  }

  predicate IsSettled(given: Flags, out: Flags) {
    && out.on == given.on && out.recv == given.recv
    && (out.on && out.send != Some(false) <==> IsToSend(given))
    && (out.remove <==> given.remove && !given.add)
  }

  lemma FittedIsSettled(f: Flags, tracks: Option<nat>, keep: bool)
    ensures IsSettled(f, Fitted(f, tracks, keep)) && IsSettled(f, Fitted(f.(keep := false), tracks, keep))
  {
  }

  lemma AcquiringKeepsMedia(s: Session, m: MediaConfig, supplied: Option<Supplied>, w: World)
    requires (m.update ==> s.pc.Some?) && (supplied == Some(TheLocal) ==> s.local.Some?)
    ensures Acquired(s, m, supplied, w).Proceeds? ==> Acquired(s, m, supplied, w).media == m
  {
  }

  lemma RedoingKeepsMedia(s: Session, m: MediaConfig, supplied: Option<Supplied>, w: World)
    requires s.pc.Some? && (supplied == Some(TheLocal) ==> s.local.Some?)
    ensures Redone(s, m, supplied, w).Proceeds? ==> Redone(s, m, supplied, w).media == m
  {
    AcquiringKeepsMedia(Dropped(s, m), m, supplied, w);
  }

  /** The flags that the peer connection is configured with: as given and with nothing to keep in a new session; as
      given with a supplied stream; and settled in a running session, where only the send flag, the three wishes and
      the keep flags change. */
  lemma MediaByFlags(s: Session, m: MediaConfig, supplied: Option<Supplied>, w: World)
    requires supplied == Some(TheLocal) ==> s.local.Some?
    requires Prepared(s, m, supplied, w).Proceeds?
    ensures
      var out := Prepared(s, m, supplied, w).media;
      if s.pc.None? then
        out == m.(update := false, audio := m.audio.(keep := false), video := m.video.(keep := false))
      else if supplied.Some? then out == m.(update := true)
      else
        && out.update && out.data == (m.data || m.addData) && out.addData == m.addData
        && IsSettled(m.audio, out.audio) && IsSettled(m.video, out.video)
  {
    if s.pc.None? {
      AcquiringKeepsMedia(s, Reset(m), supplied, w);
    } else {
      RedoingKeepsMedia(s, Updated(s, m, supplied), supplied, w);
      FittedIsSettled(m.audio, s.Count(Audio), s.Count(Audio).Some? && m.audio.keep);
      FittedIsSettled(m.video, s.Count(Video), false);
    }
  }

  // ---------- exactly what was asked ----------

  /** The one request whose audio is not served: `keepAudio` is set although there is no audio track to keep, and
      everything else is to be kept. */
  predicate KeepAudioMisread(s: Session, m: MediaConfig)
    requires s.local.Some?
  {
    && m.audio.keep && s.local.value.audio == [] && s.local.value.video != []
    && WishFor(m.audio) == WishFor(m.video) == Keep && Wanted(m.audio) && Wanted(m.video)
  }

  /** The local stream that a request leaves, if it is neither turned down nor crashes. */
  function LocalAfter(s: Session, m: MediaConfig, w: World): Option<Stream> {
    match Prepared(s, m, None, w)
    case Proceeds(_, next) => next.local
    case _ => None
  }

  /** Without a fresh track the outcome differs exactly if one is needed. */
  lemma NothingDelivered(f: Flags, tracks: seq<Track>, track: Track)
    requires track !in tracks
    ensures AsAsked(f, tracks, []) == AsAsked(f, tracks, [track]) <==> !NeedsTrack(f, tracks != [])
  {
  }

  lemma KeepsAllUnlessMisread(s: Session, m: MediaConfig)
    requires OwnStream(s)
    ensures KeepsAll(Updated(s, m, None)) ==>
              && s.local.value.video != [] && WishFor(m.audio) == WishFor(m.video) == Keep
              && (KeepAudioMisread(s, m) <==> s.local.value.audio == [])
    ensures !KeepsAll(Updated(s, m, None)) ==> !KeepAudioMisread(s, m)
    ensures KeepsAll(Updated(s, m, None)) ==> Wanted(m.audio) && Wanted(m.video)
  {
    KeepsAllWhen(m.(update := true), s.Count(Audio), s.Count(Video));
  }

  lemma AudioAsAsked(s: Session, m: MediaConfig, w: World)
    requires OwnStream(s) && AtMostOne(s) && LocalAfter(s, m, w).Some?
    ensures LocalAfter(s, m, w).value.audio == AsAsked(m.audio, s.local.value.audio, [Track(Audio, s.nextId)]) <==>
            !KeepAudioMisread(s, m)
  {
    UpdateOutcome(s, m, w);
    KeepsAllUnlessMisread(s, m);
    NothingDelivered(m.audio, s.local.value.audio, Track(Audio, s.nextId));
  }

  lemma VideoAsAsked(s: Session, m: MediaConfig, w: World)
    requires OwnStream(s) && AtMostOne(s) && LocalAfter(s, m, w).Some?
    ensures LocalAfter(s, m, w).value.video == AsAsked(m.video, s.local.value.video, [Track(Video, s.nextId + 1)]) <==>
            (NeedsTrack(m.video, s.local.value.video != []) ==> w.camera)
  {
    UpdateOutcome(s, m, w);
    KeepsAllUnlessMisread(s, m);
    NothingDelivered(m.video, s.local.value.video, Track(Video, s.nextId + 1));
  }

  /** A request is completed exactly if it adds no second track of a kind, and none while both media are off. */
  lemma CompletesWhen(s: Session, m: MediaConfig, w: World)
    requires OwnStream(s) && AtMostOne(s)
    ensures LocalAfter(s, m, w).Some? <==> !AddsASecond(s.local.value, m) && !AddsWithMediaOff(m)
  {
    OutcomeByFlags(s, m, w);
  }

  /** Such a request to a running session leaves of each kind exactly the tracks asked for: audio unless `keepAudio` is
      misread, video unless a track is needed and there is no camera. */
  lemma DoesWhatIsAsked(s: Session, m: MediaConfig, w: World)
    requires OwnStream(s) && AtMostOne(s)
    requires !AddsASecond(s.local.value, m) && !AddsWithMediaOff(m)
    ensures LocalAfter(s, m, w).Some?
    ensures
      var before, after := s.local.value, LocalAfter(s, m, w).value;
      && (after.audio == AsAsked(m.audio, before.audio, [Track(Audio, s.nextId)]) <==> !KeepAudioMisread(s, m))
      && (after.video == AsAsked(m.video, before.video, [Track(Video, s.nextId + 1)]) <==>
          (NeedsTrack(m.video, before.video != []) ==> w.camera))
  {
    CompletesWhen(s, m, w);
    AudioAsAsked(s, m, w);
    VideoAsAsked(s, m, w);
  }

  /** The null stream is dereferenced exactly if a track is to be added or replaced while both media are off, unless
      the request is turned down. */
  lemma NullStreamWhen(s: Session, m: MediaConfig, w: World)
    requires OwnStream(s) && AtMostOne(s)
    ensures Prepared(s, m, None, w) == NullStream <==> !AddsASecond(s.local.value, m) && AddsWithMediaOff(m)
  {
    OutcomeByFlags(s, m, w);
  }

  /** What is asked of audio makes no difference to the video tracks. */
  lemma AudioLeavesVideoAlone(s: Session, m: MediaConfig, n: MediaConfig, w: World)
    requires OwnStream(s) && AtMostOne(s) && m.video == n.video
    requires LocalAfter(s, m, w).Some? && LocalAfter(s, n, w).Some?
    ensures LocalAfter(s, m, w).value.video == LocalAfter(s, n, w).value.video
  {
    UpdateOutcome(s, m, w);
    UpdateOutcome(s, n, w);
    KeepsAllUnlessMisread(s, m);
    KeepsAllUnlessMisread(s, n);
  }

  lemma MisreadKeepsWhatThereIs(s: Session, m: MediaConfig, w: World)
    requires OwnStream(s) && !Turned(s, m) && KeepAudioMisread(s, m)
    ensures LocalAfter(s, m, w) == s.local
  {
    KeepsAllUnlessMisread(s, m);
    KeepingAllIsIdle(s, m, w);
  }

  /** What is asked of video makes no difference to the audio tracks exactly if `keepAudio` is misread in both
      requests or in neither. */
  lemma VideoLeavesAudioAlone(s: Session, m: MediaConfig, n: MediaConfig, w: World)
    requires OwnStream(s) && AtMostOne(s) && m.audio == n.audio
    requires LocalAfter(s, m, w).Some? && LocalAfter(s, n, w).Some?
    ensures LocalAfter(s, m, w).value.audio == LocalAfter(s, n, w).value.audio <==>
            (KeepAudioMisread(s, m) <==> KeepAudioMisread(s, n))
  {
    AudioAsAsked(s, m, w);
    AudioAsAsked(s, n, w);
    if KeepAudioMisread(s, m) && KeepAudioMisread(s, n) {
      MisreadKeepsWhatThereIs(s, m, w);
      MisreadKeepsWhatThereIs(s, n, w);
    }
  }

  // ---------- the first capture ----------

  /** Audio or video is to be sent: in a new session the flags to add, remove or replace do not count. */
  predicate ToBeSent(s: Session, f: Flags) {
    if s.pc.None? then Sends(f) else Wanted(f)
  }

  /** Without a local stream anything to be sent captures both kinds at once. */
  lemma FirstCapture(s: Session, m: MediaConfig, w: World)
    requires s.local.None? && !s.external
    ensures
      var out, got := Prepared(s, m, None, w), ToBeSent(s, m.audio) || ToBeSent(s, m.video);
      && out.Proceeds? && !out.session.external && out.session.pc.Some?
      && out.session.local == (if got then Some(Captured(s.nextId, w.camera)) else None)
      && out.session.nextId == s.nextId + if got then 2 else 0
  {
    if s.pc.Some? {
      var asked := m.(update := true);
      FittedFlags(m.audio, None, false);
      FittedFlags(VideoAfterAudio(asked, None), None, false);
      KeepDoesNotMatter(m.video, false);
      KeepsAllWhen(asked, None, None);
    }
  }

  /** In a new session only the medium and its send flag count; later the flags to add, remove and replace do too. */
  lemma ToBeSentByFlags(s: Session, f: Flags)
    ensures ToBeSent(s, f) <==> if s.pc.None? then f.on && f.send != Some(false) else IsToSend(f)
  {
  }

  /** So each kind is as asked exactly if audio is to be sent whenever video is, and video whenever audio is and
      there is a camera. */
  lemma FirstCaptureIsAsAsked(s: Session, m: MediaConfig, w: World)
    requires s.local.None? && !s.external
    ensures
      var local := Prepared(s, m, None, w).session.local.GetOr(Stream([], []));
      var audio, video := ToBeSent(s, m.audio), ToBeSent(s, m.video);
      && (local.audio == (if audio then [Track(Audio, s.nextId)] else []) <==> (video ==> audio))
      && (local.video == (if video then [Track(Video, s.nextId + 1)] else []) <==>
          if w.camera then audio ==> video else !video)
  {
    FirstCapture(s, m, w);
  }

  // ---------- every run ----------

  datatype Step =
    | Request(media: MediaConfig, world: World)
    | Configure(media: MediaConfig, audioAdded: bool, videoAdded: bool)
    | RemoteAdds(kind: Kind)
    | Cleanup

  /** One step of a client that is never given an external stream; `None` is the dereferenced null stream. A
      request that is turned down changes nothing. */
  function Next(s: Session, step: Step): Option<Session> {
    match step
    case Request(m, w) =>
      (match Prepared(s, m, None, w)
       case Proceeds(_, next) => Some(next)
       case Rejected(_) => Some(s)
       case NullStream => None)
    case Configure(m, a, v) =>
      Some(if s.pc.None? then s else s.(pc := Some(Configured(m, s.pc.value, a, v))))
    case RemoteAdds(kind) =>
      Some(if s.pc.None? then s else s.(pc := Some(s.pc.value + [Transceiver(Idle, Some(kind), RecvOnly)])))
    case Cleanup => Some(CleanedUp(s))
  }

  predicate Own(s: Session) {
    AtMostOne(s) && !s.external && (s.pc.None? ==> s.local.None?)
  }

  lemma UpdateStaysOwn(s: Session, m: MediaConfig, w: World)
    requires OwnStream(s) && AtMostOne(s) && !Turned(s, m) && Prepared(s, m, None, w).Proceeds?
    ensures Own(Prepared(s, m, None, w).session)
  {
    UpdateOutcome(s, m, w);
  }

  lemma RequestStaysOwn(s: Session, m: MediaConfig, w: World)
    requires Own(s)
    ensures Prepared(s, m, None, w).Proceeds? ==> Own(Prepared(s, m, None, w).session)
    ensures Prepared(s, m, None, w).Rejected? ==> s.local.Some?
  {
    if s.local.None? {
      FirstCapture(s, m, w);
    } else if !Turned(s, m) {
      if Prepared(s, m, None, w).Proceeds? {
        UpdateStaysOwn(s, m, w);
      }
    }
  }

  lemma NextStaysOwn(s: Session, step: Step)
    requires Own(s)
    ensures Next(s, step).Some? ==> Own(Next(s, step).value)
  {
    match step {
      case Request(m, w) => RequestStaysOwn(s, m, w);
      case _ =>
    }
  }

  /** In every run without external streams, after every step, the local stream holds at most one audio and at most
      one video track. */
  lemma NeverTwoOfAKind(steps: seq<Step>, n: nat)
    requires n <= |steps| && Runs.After(Next, INITIAL, steps, n).Some?
    ensures Own(Runs.After(Next, INITIAL, steps, n).value)
  {
    forall s, step | Own(s) && Next(s, step).Some? ensures Own(Next(s, step).value) {
      NextStaysOwn(s, step);
    }
    Runs.InvariantHolds(Next, INITIAL, Own, steps, n);
  }
}
