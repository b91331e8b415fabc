/** What the peer connection sends is what the client has captured: when a request keeps it so. */
module MediaSync {
  import opened MediaConfig
  import opened MediaRequest
  import opened MediaSafety
  import opened MediaSession
  import opened Option
  import Runs
  import opened Senders
  import opened Transceivers

  /** The tracks of one kind that the client holds. */
  function Held(s: Session, kind: Kind): seq<Track> {
    match s.local
    case None => []
    case Some(stream) => stream.Of(kind)
  }

  /** The senders carry the tracks of the local stream and nothing else. */
  predicate InSync(s: Session) {
    Own(s) && (s.pc.Some? ==> Tidy(s.pc.value) && forall kind :: Sent(s.pc.value, kind) == Held(s, kind))
  }

  // ---------- a request to a running session with its own stream ----------

  /** What is sent of one kind after dropping and extending. */
  function SentAfter(g: Flags, sent: seq<Track>, got: seq<Track>): seq<Track> {
    if Changes(g) && got != [] then [got[0]] else if g.remove && !g.replace then [] else sent
  }

  lemma DroppedSends(s: Session, u: MediaConfig)
    requires s.pc.Some? && !s.external && u.update && Tidy(s.pc.value)
    ensures
      var ts, us := s.pc.value, Dropped(s, u).pc.value;
      && Tidy(us)
      && Sent(us, Audio) == (if u.audio.remove && !u.audio.replace then [] else Sent(ts, Audio))
      && Sent(us, Video) == (if u.video.remove && !u.video.replace then [] else Sent(ts, Video))
  {
    var ts := s.pc.value;
    SilencedSendsNothing(ts, Audio);
    SilencedSendsNothing(SilencedFor(ts, u.audio, Audio), Video);
  }

  lemma ExtendedSends(s: Session, tracks: seq<Track>, kind: Kind, reuse: bool)
    requires s.local.Some? && s.pc.Some? && Tidy(s.pc.value)
    requires tracks != [] ==> tracks[0].kind == kind
    ensures
      var ts, us := s.pc.value, Extended(s, tracks, kind, reuse).pc.value;
      && Tidy(us)
      && Sent(us, kind) == (if tracks == [] then Sent(ts, kind) else [tracks[0]])
      && forall other :: other != kind ==> Sent(us, other) == Sent(ts, other)
  {
    if tracks != [] {
      PutSendsTheTrack(s.pc.value, tracks[0], reuse);
    }
  }

  lemma StreamedSends(s: Session, u: MediaConfig, got: Stream, w: World)
    requires OwnStream(s) && u.update && Tidy(s.pc.value) && KindsMatch(got)
    ensures
      var ts, out := s.pc.value, Streamed(s, u, Some(got), w);
      && out.Proceeds? && out.session.pc.Some? && Tidy(out.session.pc.value)
      && Sent(out.session.pc.value, Audio) ==
           (if Changes(u.audio) && got.audio != [] then [got.audio[0]] else Sent(ts, Audio))
      && Sent(out.session.pc.value, Video) ==
           (if Changes(u.video) && got.video != [] then [got.video[0]] else Sent(ts, Video))
  {
    var one := if Changes(u.audio) then Extended(s, got.audio, Audio, w.reuseAudio) else s;
    ExtendedSends(s, got.audio, Audio, w.reuseAudio);
    ExtendedSends(one, got.video, Video, w.reuseVideo);
  }

  /** What is sent and what is held part ways exactly if a track is to be replaced and no new one can be had. */
  lemma SentIsEdited(g: Flags, tracks: seq<Track>, got: seq<Track>)
    requires |tracks| <= 1 && |got| <= 1 && (got != [] ==> got[0] !in tracks)
    requires tracks != [] ==> !g.add
    requires g.replace ==> tracks != []
    ensures SentAfter(g, tracks, got) == Edited(g, tracks, got) <==> (g.replace ==> got != [])
  {
  }

  /** Both kinds of a session are held and sent as the two edits say. */
  lemma SyncIsEdited(s: Session, u: MediaConfig, got: Stream, next: Session)
    requires OwnStream(s) && InSync(s) && Own(next) && next.local.Some? && next.pc.Some? && Tidy(next.pc.value)
    requires next.local.value ==
        Stream(Edited(u.audio, s.local.value.audio, got.audio), Edited(u.video, s.local.value.video, got.video))
    requires Sent(next.pc.value, Audio) == SentAfter(u.audio, s.local.value.audio, got.audio)
    requires Sent(next.pc.value, Video) == SentAfter(u.video, s.local.value.video, got.video)
    ensures InSync(next) <==>
            && SentAfter(u.audio, s.local.value.audio, got.audio) == Edited(u.audio, s.local.value.audio, got.audio)
            && SentAfter(u.video, s.local.value.video, got.video) == Edited(u.video, s.local.value.video, got.video)
  {
    assert InSync(next) <==>
           Sent(next.pc.value, Audio) == Held(next, Audio) && Sent(next.pc.value, Video) == Held(next, Video);
  }

  /** The flags of a kind fit the tracks there are. */
  predicate Fits(g: Flags, tracks: seq<Track>) {
    (tracks != [] ==> !g.add) && (g.replace ==> tracks != [])
  }

  lemma UpdatedFits(s: Session, m: MediaConfig)
    requires OwnStream(s) && !Turned(s, m)
    ensures
      var u := Updated(s, m, None);
      && Fits(u.audio, s.local.value.audio) && Fits(u.video, s.local.value.video)
      && (u.video.replace <==> WishFor(m.video) == Replace && s.local.value.video != [])
  {
    FittedFlags(m.audio, s.Count(Audio), m.audio.keep);
    FittedFlags(VideoAfterAudio(m.(update := true), s.Count(Audio)), s.Count(Video), false);
    KeepDoesNotMatter(m.video, false);
  }

  /** What is sent after tracks have been dropped and captured. */
  lemma CaptureSends(s: Session, u: MediaConfig, w: World)
    requires OwnStream(s) && InSync(s) && u.update && (Sends(u.audio) || Sends(u.video))
    ensures
      var got, stream, out := Captured(s.nextId, w.camera), s.local.value, Acquired(Dropped(s, u), u, None, w);
      && out.Proceeds? && out.session.pc.Some? && Tidy(out.session.pc.value)
      && Sent(out.session.pc.value, Audio) == SentAfter(u.audio, stream.audio, got.audio)
      && Sent(out.session.pc.value, Video) == SentAfter(u.video, stream.video, got.video)
  {
    var d := Dropped(s, u);
    DroppedSends(s, u);
    assert Sent(s.pc.value, Audio) == Held(s, Audio) && Sent(s.pc.value, Video) == Held(s, Video);
    StreamedSends(d.(nextId := d.nextId + 2), u, Captured(d.nextId, w.camera), w);
  }

  lemma NoCaptureSends(s: Session, u: MediaConfig, w: World)
    requires OwnStream(s) && InSync(s) && u.update && !Sends(u.audio) && !Sends(u.video)
    requires !Changes(u.audio) && !Changes(u.video)
    ensures
      var stream, out := s.local.value, Acquired(Dropped(s, u), u, None, w);
      && out.Proceeds? && out.session.pc.Some? && Tidy(out.session.pc.value)
      && Sent(out.session.pc.value, Audio) == SentAfter(u.audio, stream.audio, [])
      && Sent(out.session.pc.value, Video) == SentAfter(u.video, stream.video, [])
  {
    DroppedSends(s, u);
    assert Sent(s.pc.value, Audio) == Held(s, Audio) && Sent(s.pc.value, Video) == Held(s, Video);
  }

  /** A completed request to a running session keeps sending exactly what is held, unless video is to be replaced
      and there is no camera: then the old video track leaves the stream but stays in its sender. */
  lemma RequestKeepsSync(s: Session, m: MediaConfig, w: World)
    requires OwnStream(s) && InSync(s) && Prepared(s, m, None, w).Proceeds?
    ensures InSync(Prepared(s, m, None, w).session) <==>
            (WishFor(m.video) == Replace && s.local.value.video != [] ==> w.camera)
  {
    var u, next := Updated(s, m, None), Prepared(s, m, None, w).session;
    RequestStaysOwn(s, m, w);
    UpdatedFits(s, m);
    UpdatedFlags(s, m);
    if KeepsAll(u) {
      KeepingAllIsIdle(s, m, w);
      KeepsAllUnlessMisread(s, m);
    } else if Sends(u.audio) || Sends(u.video) {
      var got := Captured(s.nextId, w.camera);
      CaptureEdits(s, u, w);
      CaptureSends(s, u, w);
      SyncIsEdited(s, u, got, next);
      SentIsEdited(u.audio, s.local.value.audio, got.audio);
      SentIsEdited(u.video, s.local.value.video, got.video);
    } else {
      NoCaptureEdits(s, u, w);
      NoCaptureSends(s, u, w);
      SyncIsEdited(s, u, Stream([], []), next);
      SentIsEdited(u.audio, s.local.value.audio, []);
      SentIsEdited(u.video, s.local.value.video, []);
    }
  }

  // ---------- the first capture ----------

  predicate NoneOf(ts: seq<Transceiver>, kind: Kind) {
    forall i :: 0 <= i < |ts| ==> !Bearing(ts[i], kind)
  }

  /** Adding a track of one kind does not mend a list that is misaligned in the other. */
  lemma MisalignedStays(ts: seq<Transceiver>, track: Track, reuse: bool, kind: Kind)
    requires Unified(ts) && !Aligned(ts, kind) && kind != track.kind
    ensures !Aligned(Added(ts, track, reuse), kind) && !Aligned(Appended(ts, track), kind)
  {
    var i :| 0 <= i < |ts| && Carries(ts[i], kind) && i != FirstBearing(ts, kind);
    FirstBearingOfAppend(ts, Transceiver(Carrying(track), Some(track.kind), SendRecv), kind);
    assert Carries(Appended(ts, track)[i], kind);
    var us := Added(ts, track, reuse);
    if us != ts && us != Appended(ts, track) {
      SameReceiversBearAlike(ts, us, kind);
      assert Carries(us[i], kind);
    }
  }

  /** Adding a track of one kind brings no transceiver of the other. */
  lemma NoneOfTheOther(ts: seq<Transceiver>, track: Track, reuse: bool, kind: Kind)
    requires Unified(ts) && kind != track.kind
    ensures NoneOf(Added(ts, track, reuse), kind) == NoneOf(ts, kind)
  {
    var us := Added(ts, track, reuse);
    assert forall i :: 0 <= i < |ts| ==> Bearing(us[i], kind) == Bearing(ts[i], kind);
  }

  /** Publishing a captured stream keeps the list tidy exactly if `AddTrack` takes over the transceivers there are. */
  lemma PublishedSends(ts: seq<Transceiver>, id: nat, w: World)
    requires Tidy(ts) && Sent(ts, Audio) == Sent(ts, Video) == []
    ensures
      var got, us := Captured(id, w.camera), Published(ts, Captured(id, w.camera), w);
      && (Tidy(us) <==>
            && (w.reuseAudio || NoneOf(ts, Audio))
            && (w.camera ==> (w.reuseVideo && !w.rids) || NoneOf(ts, Video)))
      && (Tidy(us) ==> Sent(us, Audio) == got.audio && Sent(us, Video) == got.video)
  {
    var a, v := Track(Audio, id), Track(Video, id + 1);
    var us := Added(ts, a, w.reuseAudio);
    AddSendsTheTrack(ts, a, w.reuseAudio);
    assert AddedAll(ts, [a], 1, w.reuseAudio) == us;
    if w.camera {
      assert AddedAll(us, [v], 1, w.reuseVideo) == Added(us, v, w.reuseVideo);
      assert AppendedAll(us, [v], 1) == Appended(us, v);
      NoneOfTheOther(ts, a, w.reuseAudio, Video);
      if Tidy(us) {
        AddSendsTheTrack(us, v, w.reuseVideo);
        AppendSendsTheTrack(us, v);
      } else {
        AddedIsUnified(ts, a, w.reuseAudio);
        AddedAligns(ts, a, w.reuseAudio);
        MisalignedStays(us, v, w.reuseVideo, Audio);
      }
    }
  }

  lemma AddedIsUnified(ts: seq<Transceiver>, track: Track, reuse: bool)
    requires Unified(ts)
    ensures Unified(Added(ts, track, reuse))
  {
  }

  /** Adding a track of one kind does not misalign the other. */
  lemma AddedAligns(ts: seq<Transceiver>, track: Track, reuse: bool)
    requires Tidy(ts)
    ensures forall kind :: kind != track.kind ==> Aligned(Added(ts, track, reuse), kind)
  {
    var us := Added(ts, track, reuse);
    forall kind: Kind | kind != track.kind ensures Aligned(us, kind) {
      if us == Appended(ts, track) {
        FirstBearingOfAppend(ts, Transceiver(Carrying(track), Some(track.kind), SendRecv), kind);
      } else {
        AddedIsUnified(ts, track, reuse);
        SameReceiversBearAlike(ts, us, kind);
      }
    }
  }

  lemma SilencingNothing(ts: seq<Transceiver>, kind: Kind)
    requires Sent(ts, kind) == []
    ensures SilencedAll(ts, kind) == ts
  {
    NothingSent(ts, kind);
  }

  /** What a first capture hands to the peer connection is published on the transceivers there are. */
  lemma FirstCapturePublishes(s: Session, m: MediaConfig, w: World)
    requires s.local.None? && InSync(s)
    ensures
      var ts, captures := s.pc.GetOr([]), ToBeSent(s, m.audio) || ToBeSent(s, m.video);
      Prepared(s, m, None, w).session.pc ==
        Some(if captures then Published(ts, Captured(s.nextId, w.camera), w) else ts)
  {
    FirstCapture(s, m, w);
    if s.pc.Some? {
      var asked := m.(update := true);
      FittedFlags(m.audio, None, false);
      FittedFlags(VideoAfterAudio(asked, None), None, false);
      KeepDoesNotMatter(m.video, false);
      KeepsAllWhen(asked, None, None);
      assert Sent(s.pc.value, Audio) == Held(s, Audio) && Sent(s.pc.value, Video) == Held(s, Video);
      SilencingNothing(s.pc.value, Audio);
      SilencingNothing(s.pc.value, Video);
    }
  }

  /** Every transceiver there is already can be taken over for the tracks that a first capture publishes. */
  predicate TakenOver(s: Session, w: World) {
    var ts := s.pc.GetOr([]);
    && (w.reuseAudio || NoneOf(ts, Audio))
    && (w.camera ==> (w.reuseVideo && !w.rids) || NoneOf(ts, Video))
  }

  /** A first capture sends exactly what is held, and can do so in later replacements too, exactly if it captures
      nothing or takes over the transceivers there are; rid-based simulcast never takes one over. */
  lemma FirstCaptureKeepsSync(s: Session, m: MediaConfig, w: World)
    requires s.local.None? && InSync(s)
    ensures Prepared(s, m, None, w).Proceeds?
    ensures InSync(Prepared(s, m, None, w).session) <==>
            (ToBeSent(s, m.audio) || ToBeSent(s, m.video) ==> TakenOver(s, w))
  {
    var ts, next := s.pc.GetOr([]), Prepared(s, m, None, w).session;
    FirstCapture(s, m, w);
    FirstCapturePublishes(s, m, w);
    RequestStaysOwn(s, m, w);
    NothingHeldNothingSent(s);
    PublishedSends(ts, s.nextId, w);
    SyncIs(next);
  }

  lemma NothingHeldNothingSent(s: Session)
    requires s.local.None? && InSync(s)
    ensures Tidy(s.pc.GetOr([])) && Sent(s.pc.GetOr([]), Audio) == Sent(s.pc.GetOr([]), Video) == []
  {
    if s.pc.Some? {
      assert Sent(s.pc.value, Audio) == Held(s, Audio) && Sent(s.pc.value, Video) == Held(s, Video);
    }
  }

  lemma SyncIs(s: Session)
    requires Own(s) && s.pc.Some?
    ensures InSync(s) <==>
            Tidy(s.pc.value) && Sent(s.pc.value, Audio) == Held(s, Audio) && Sent(s.pc.value, Video) == Held(s, Video)
  {
    assert forall kind :: Held(s, kind) == if kind == Audio then Held(s, Audio) else Held(s, Video);
  }

  // ---------- every run ----------

  /** What a caller has to see to for a request to be carried out by the senders. */
  predicate Careful(s: Session, m: MediaConfig, w: World) {
    if s.local.None? then ToBeSent(s, m.audio) || ToBeSent(s, m.video) ==> TakenOver(s, w)
    else WishFor(m.video) == Replace && s.local.value.video != [] ==> w.camera
  }

  lemma NextKeepsSync(s: Session, step: Step)
    requires InSync(s) && Next(s, step).Some?
    ensures step.Request? && Prepared(s, step.media, None, step.world).Proceeds? ==>
              (InSync(Next(s, step).value) <==> Careful(s, step.media, step.world))
    ensures !step.Request? || Prepared(s, step.media, None, step.world).Rejected? ==> InSync(Next(s, step).value)
  {
    match step {
      case Request(m, w) =>
        if s.local.None? {
          FirstCaptureKeepsSync(s, m, w);
        } else if Prepared(s, m, None, w).Proceeds? {
          RequestKeepsSync(s, m, w);
        }
      case Configure(m, a, v) =>
        if s.pc.Some? {
          ConfiguringKeepsSent(m, s.pc.value, a, v);
        }
      case RemoteAdds(kind) =>
        if s.pc.Some? {
          AppendIdle(s.pc.value, Transceiver(Idle, Some(kind), RecvOnly));
        }
      case Cleanup =>
    }
  }

  /** The steps of a client whose requests are careful. */
  function CarefulNext(s: Session, step: Step): Option<Session> {
    if step.Request? && !Careful(s, step.media, step.world) then None else Next(s, step)
  }

  /** In every careful run, after every step, the peer connection sends exactly the tracks of the local stream. */
  lemma SendsWhatIsHeld(steps: seq<Step>, n: nat)
    requires n <= |steps| && Runs.After(CarefulNext, INITIAL, steps, n).Some?
    ensures InSync(Runs.After(CarefulNext, INITIAL, steps, n).value)
  {
    forall s, step | InSync(s) && CarefulNext(s, step).Some? ensures InSync(CarefulNext(s, step).value) {
      NextKeepsSync(s, step);
    }
    Runs.InvariantHolds(CarefulNext, INITIAL, InSync, steps, n);
  }
}
