/** How a request to change a running media session is normalised against the stream that is captured already. */
module MediaRequest {
  import opened MediaConfig
  import opened Option

  /** What a request asks for one kind of track. */
  datatype Wish = Add | Remove | Replace | Keep

  /** The first of add, remove, replace that is set decides. */
  function WishFor(f: Flags): Wish {
    if f.add then Add else if f.remove then Remove else if f.replace then Replace else Keep
  }

  /** The send flag that a wish implies. */
  function SendAfter(f: Flags): Option<bool> {
    match WishFor(f)
    case Add => Some(true)
    case Replace => Some(true)
    case Remove => Some(false)
    case Keep => f.send
  }

  /** The medium is to be sent once the request is carried out. */
  predicate Wanted(f: Flags) {
    f.on && SendAfter(f).GetOr(true)
  }

  /** A track is to be captured: it was asked for, or it is to be sent and there is none. */
  predicate NeedsTrack(f: Flags, has: bool) {
    match WishFor(f)
    case Add => true
    case Remove => false
    case Replace => true
    case Keep => !has && Wanted(f)
  }

  /** A request to add a track where there is one is turned down. */
  predicate IsRejected(f: Flags, tracks: Option<nat>) {
    WishFor(f) == Add && tracks.GetOr(0) > 0
  }

  /** The flags once the wish is settled. */
  function Wished(f: Flags): Flags {
    var wish := WishFor(f);
    f.(send := SendAfter(f), add := wish == Add, remove := wish == Remove, replace := wish == Replace,
       keep := f.keep && wish == Keep)
  }

  /** The flags once they fit the local stream, which has so many tracks of this kind, if there is a stream.
      `keep` is what is left of the flag when the track has to be captured. */
  function Fitted(f: Flags, tracks: Option<nat>, keep: bool): Flags {
    var has, wish := tracks.GetOr(0) > 0, WishFor(f);
    f.(send := SendAfter(f),
       add := NeedsTrack(f, has) && !(wish == Replace && has),
       remove := wish == Remove,
       replace := wish == Replace && has,
       keep := wish == Keep && if has then f.keep || Wanted(f) else if Wanted(f) then keep else f.keep)
  }

  /** `keepAudio` survives in a stream without audio tracks. */
  function FittedAudio(f: Flags, tracks: Option<nat>): Flags {
    Fitted(f, tracks, tracks.Some? && f.keep)
  }

  function FittedVideo(f: Flags, tracks: Option<nat>): Flags {
    Fitted(f, tracks, false)
  }

  /** What is dropped in place of `keepAudio`. */
  predicate DropsKeepVideo(f: Flags, tracks: Option<nat>) {
    tracks == Some(0) && Wanted(f)
  }

  function VideoAfterAudio(m: MediaConfig, audioTracks: Option<nat>): Flags {
    if DropsKeepVideo(m.audio, audioTracks) then m.video.(keep := false) else m.video
  }

  /** The whole request settled; data channels can only be added. */
  function SettledRequest(m: MediaConfig, audioTracks: Option<nat>, videoTracks: Option<nat>): MediaConfig {
    MediaConfig(FittedAudio(m.audio, audioTracks), FittedVideo(VideoAfterAudio(m, audioTracks), videoTracks),
                m.data || m.addData, m.update, m.addData)
  }

  // ---------- the branches of `prepareWebrtc` ----------

  method SettleWish(given: Flags, tracks: Option<nat>) returns (f: Flags, rejected: bool)
    ensures rejected <==> IsRejected(given, tracks)
    ensures f == Wished(given)
  {
    f, rejected := given, false;
    if f.add {
      f := f.(keep := false, replace := false, remove := false, send := Some(true));
      if tracks.Some? && tracks.value > 0 {
        rejected := true;
        return;
      }
    } else if f.remove {
      f := f.(keep := false, replace := false, add := false, send := Some(false));
    } else if f.replace {
      f := f.(keep := false, add := false, remove := false, send := Some(true));
    }
  }

  method FitAudio(ghost asked: Flags, given: Flags, tracks: Option<nat>) returns (f: Flags, dropsKeepVideo: bool)
    requires given == Wished(asked) && !IsRejected(asked, tracks)
    ensures f == FittedAudio(asked, tracks) && dropsKeepVideo == DropsKeepVideo(asked, tracks)
  {
    f, dropsKeepVideo := given, false;
    if tracks.None? {
      if f.replace {
        f := f.(keep := false, replace := false, add := true, send := Some(true));
      }
      if Sends(f) {
        f := f.(keep := false, add := true);
      }
    } else {
      if tracks.value == 0 {
        if f.replace {
          f := f.(keep := false, replace := false, add := true, send := Some(true));
        }
        if Sends(f) {
          dropsKeepVideo := true;
          f := f.(add := true);
        }
      } else {
        if Sends(f) && !f.remove && !f.replace {
          f := f.(keep := true);
        }
      }
    }
  }

  method FitVideo(ghost asked: Flags, given: Flags, tracks: Option<nat>) returns (f: Flags)
    requires given == Wished(asked) && !IsRejected(asked, tracks)
    ensures f == FittedVideo(asked, tracks)
  {
    f := given;
    if tracks.None? {
      if f.replace {
        f := f.(keep := false, replace := false, add := true, send := Some(true));
      }
      if Sends(f) {
        f := f.(keep := false, add := true);
      }
    } else {
      if tracks.value == 0 {
        if f.replace {
          f := f.(keep := false, replace := false, add := true, send := Some(true));
        }
        if Sends(f) {
          f := f.(keep := false, add := true);
        }
      } else {
        if Sends(f) && !f.remove && !f.replace {
          f := f.(keep := true);
        }
      }
    }
  }

  method SettleAudio(given: Flags, tracks: Option<nat>) returns (f: Flags, dropsKeepVideo: bool, rejected: bool)
    ensures rejected <==> IsRejected(given, tracks)
    ensures !rejected ==> f == FittedAudio(given, tracks) && dropsKeepVideo == DropsKeepVideo(given, tracks)
  {
    f, rejected := SettleWish(given, tracks);
    if rejected {
      return f, false, true;
    }
    f, dropsKeepVideo := FitAudio(given, f, tracks);
  }

  method SettleVideo(given: Flags, tracks: Option<nat>) returns (f: Flags, rejected: bool)
    ensures rejected <==> IsRejected(given, tracks)
    ensures !rejected ==> f == FittedVideo(given, tracks)
  {
    f, rejected := SettleWish(given, tracks);
    if !rejected {
      f := FitVideo(given, f, tracks);
    }
  }

  /** The branches of `prepareWebrtc` that settle a request against a running session; `rejected` is the first kind
      that was turned down. */
  method SettleRequest(given: MediaConfig, audioTracks: Option<nat>, videoTracks: Option<nat>)
    returns (media: MediaConfig, rejected: Option<Kind>)
    ensures rejected == Rejection(given, audioTracks, videoTracks)
    ensures rejected.None? ==> media == SettledRequest(given, audioTracks, videoTracks)
  {
    var audio, dropsKeepVideo, noAudio := SettleAudio(given.audio, audioTracks);
    media := given.(audio := audio);
    if noAudio {
      return media, Some(Audio);
    }
    if dropsKeepVideo {
      media := media.(video := media.video.(keep := false));
    }
    assert media.video == VideoAfterAudio(given, audioTracks);
    var video, noVideo := SettleVideo(media.video, videoTracks);
    media := media.(video := video);
    if noVideo {
      return media, Some(Video);
    }
    rejected := None;
    if media.addData {
      media := media.(data := true);
    }
  }

  function Rejection(m: MediaConfig, audioTracks: Option<nat>, videoTracks: Option<nat>): Option<Kind> {
    if IsRejected(m.audio, audioTracks) then Some(Audio)
    else if IsRejected(m.video, videoTracks) then Some(Video)
    else None
  }

  // ---------- what the settled flags mean ----------

  /** After settling, the flags say exactly what is wanted. */
  lemma FittedFlags(f: Flags, tracks: Option<nat>, keep: bool)
    ensures
      var g, has := Fitted(f, tracks, keep), tracks.GetOr(0) > 0;
      && Sends(g) == Wanted(f)
      && (g.add || g.replace) == NeedsTrack(f, has)
      && (g.remove <==> WishFor(f) == Remove)
      && (g.replace <==> WishFor(f) == Replace && has)
  {
  }

  /** Nothing has to be captured and nothing is to change. */
  predicate KeepsAll(m: MediaConfig) {
    Sends(m.audio) && m.audio.keep && Sends(m.video) && m.video.keep
  }

  /** The stream is left alone exactly if both kinds are to be kept and sent, there is a video track, and there is
      an audio track or the caller set `keepAudio`. */
  lemma KeepsAllWhen(m: MediaConfig, a: Option<nat>, v: Option<nat>)
    requires a.None? <==> v.None?
    ensures KeepsAll(SettledRequest(m, a, v)) <==>
            && WishFor(m.audio) == WishFor(m.video) == Keep
            && Wanted(m.audio) && Wanted(m.video)
            && v.GetOr(0) > 0 && (a.GetOr(0) > 0 || m.audio.keep)
  {
  }
}
