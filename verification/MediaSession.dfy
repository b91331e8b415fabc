/** The media session of a plugin client as values: the local stream, and what the peer connection sends. The steps
    are those of `prepareWebrtc`, `prepareStreams` and `cleanupWebrtc`. */
module MediaSession {
  import opened MediaConfig
  import opened MediaRequest
  import opened Option
  import opened Senders
  import opened Transceivers

  datatype Stream = Stream(audio: seq<Track>, video: seq<Track>) {
    function Of(kind: Kind): seq<Track> {
      match kind
      case Audio => audio
      case Video => video
    }
  }

  /** `external` says that the application has supplied a stream; `pc` are the transceivers of the peer connection,
      if there is one. Tracks numbered below `nextId` have been created. */
  datatype Session = Session(local: Option<Stream>, external: bool, pc: Option<seq<Transceiver>>, nextId: nat) {
    /** The number of tracks of a kind in the local stream, if there is a stream. */
    function Count(kind: Kind): Option<nat> {
      match local
      case None => None
      case Some(stream) => Some(|stream.Of(kind)|)
    }
  }

  const INITIAL := Session(None, false, None, 0)

  /** What the world answers during one call: whether there is a camera, and whether `AddTrack` may take over a
      spare transceiver; and whether the request asks for rid-based simulcast. */
  datatype World = World(camera: bool, reuseAudio: bool, reuseVideo: bool, rids: bool)

  /** A stream supplied with the request: the local stream itself, or another one. */
  datatype Supplied = TheLocal | Another(stream: Stream)

  datatype Outcome =
    | Rejected(kind: Kind)
    | NullStream
    | Proceeds(media: MediaConfig, session: Session)

  // ---------- the steps ----------

  function AddedTo(tracks: seq<Track>, track: Track): seq<Track> {
    if track in tracks then tracks else tracks + [track]
  }

  function WithoutFirst(tracks: seq<Track>): seq<Track> {
    if tracks == [] then [] else tracks[1..]
  }

  /** The tracks of a kind that is removed or replaced leave the local stream. */
  function DroppedFrom(stream: Stream, m: MediaConfig): Stream {
    Stream(if m.audio.remove || m.audio.replace then WithoutFirst(stream.audio) else stream.audio,
           if m.video.remove || m.video.replace then WithoutFirst(stream.video) else stream.video)
  }

  /** Only the senders of a kind that is removed are stopped; a replaced track is taken over later. */
  function SilencedFor(ts: seq<Transceiver>, f: Flags, kind: Kind): seq<Transceiver> {
    if f.remove && !f.replace then SilencedAll(ts, kind) else ts
  }

  function Dropped(s: Session, m: MediaConfig): Session {
    if !m.update || s.external || s.pc.None? then s
    else
      s.(local := if s.local.None? then None else Some(DroppedFrom(s.local.value, m)),
         pc := Some(SilencedFor(SilencedFor(s.pc.value, m.audio, Audio), m.video, Video)))
  }

  /** `AddTrack` of the first `n` tracks, one after the other. */
  function AddedAll(ts: seq<Transceiver>, tracks: seq<Track>, n: nat, reuse: bool): seq<Transceiver>
    requires n <= |tracks|
  {
    if n == 0 then ts else Added(AddedAll(ts, tracks, n - 1, reuse), tracks[n - 1], reuse)
  }

  function AppendedAll(ts: seq<Transceiver>, tracks: seq<Track>, n: nat): seq<Transceiver>
    requires n <= |tracks|
  {
    if n == 0 then ts else Appended(AppendedAll(ts, tracks, n - 1), tracks[n - 1])
  }

  /** Every track of a stream that has just become the local one is handed to the peer connection. */
  function Published(ts: seq<Transceiver>, stream: Stream, w: World): seq<Transceiver> {
    var audio := AddedAll(ts, stream.audio, |stream.audio|, w.reuseAudio);
    if w.rids then AppendedAll(audio, stream.video, |stream.video|)
    else AddedAll(audio, stream.video, |stream.video|, w.reuseVideo)
  }

  /** The session receives the first track of one kind of a new stream. */
  function Extended(s: Session, tracks: seq<Track>, kind: Kind, reuse: bool): Session
    requires s.local.Some? && s.pc.Some?
  {
    if tracks == [] then s
    else
      var stream := s.local.value;
      var local := if kind == Audio then Stream(AddedTo(stream.audio, tracks[0]), stream.video)
                   else Stream(stream.audio, AddedTo(stream.video, tracks[0]));
      s.(local := Some(local), pc := Some(Put(s.pc.value, tracks[0], reuse)))
  }

  predicate Changes(f: Flags) {
    f.add || f.replace
  }

  /** `prepareStreams`: the stream becomes the local one, or its first tracks join the local one. */
  function Streamed(s: Session, m: MediaConfig, stream: Option<Stream>, w: World): Outcome
    requires m.update ==> s.pc.Some?
  {
    if s.local.None? || !m.update || s.external then
      var ts := s.pc.GetOr([]);
      Proceeds(m, s.(local := stream, pc := Some(if stream.None? then ts else Published(ts, stream.value, w))))
    else if stream.None? then
      if Changes(m.audio) || Changes(m.video) then NullStream else Proceeds(m, s)
    else
      var one := if Changes(m.audio) then Extended(s, stream.value.audio, Audio, w.reuseAudio) else s;
      Proceeds(m, if Changes(m.video) then Extended(one, stream.value.video, Video, w.reuseVideo) else one)
  }

  /** What the devices deliver: always an audio track, and a video track if there is a camera. */
  function Captured(id: nat, camera: bool): Stream {
    Stream([Track(Audio, id)], if camera then [Track(Video, id + 1)] else [])
  }

  /** The tail of `prepareWebrtc`: take the supplied stream, or capture one if anything is to be sent. */
  function Acquired(s: Session, m: MediaConfig, supplied: Option<Supplied>, w: World): Outcome
    requires m.update ==> s.pc.Some?
    requires supplied == Some(TheLocal) ==> s.local.Some?
  {
    match supplied
    case Some(TheLocal) => Streamed(s.(external := true), m, s.local, w)
    case Some(Another(stream)) =>
      var freed := if m.update && !s.external then s.(local := None) else s;
      Streamed(freed.(external := true), m, Some(stream), w)
    case None =>
      if Sends(m.audio) || Sends(m.video) then
        Streamed(s.(nextId := s.nextId + 2), m, Some(Captured(s.nextId, w.camera)), w)
      else Streamed(s, m, None, w)
  }

  function Reset(m: MediaConfig): MediaConfig {
    m.(update := false, audio := m.audio.(keep := false), video := m.video.(keep := false))
  }

  /** The flags that a request to a running session amounts to. */
  function Updated(s: Session, m: MediaConfig, supplied: Option<Supplied>): MediaConfig {
    var u := m.(update := true);
    if supplied.Some? then u else SettledRequest(u, s.Count(Audio), s.Count(Video))
  }

  /** A running session with settled flags: keep all tracks, or drop some and acquire others. */
  function Redone(s: Session, u: MediaConfig, supplied: Option<Supplied>, w: World): Outcome
    requires s.pc.Some?
    requires supplied == Some(TheLocal) ==> s.local.Some?
  {
    if KeepsAll(u) then Streamed(s, u, s.local, w) else Acquired(Dropped(s, u), u, supplied, w)
  }

  /** `prepareWebrtc` from the point where it looks at the media flags. */
  function Prepared(s: Session, m: MediaConfig, supplied: Option<Supplied>, w: World): Outcome
    requires supplied == Some(TheLocal) ==> s.local.Some?
  {
    if s.pc.None? then Acquired(s, Reset(m), supplied, w)
    else if supplied.None? && Rejection(m, s.Count(Audio), s.Count(Video)).Some? then
      Rejected(Rejection(m, s.Count(Audio), s.Count(Video)).value)
    else Redone(s, Updated(s, m, supplied), supplied, w)
  }

  /** `cleanupWebrtc`. */
  function CleanedUp(s: Session): Session {
    s.(local := None, external := false, pc := None)
  }
}
