/** The flags of one media request, and the predicates of `HelperUtils` that read them. */
module MediaConfig {
  import opened Option

  /** What a request says about one kind of track. An unset `send` or `recv` means yes. */
  datatype Flags = Flags(on: bool, add: bool, keep: bool, replace: bool, remove: bool,
                         send: Option<bool>, recv: Option<bool>)

  datatype Kind = Audio | Video

  datatype MediaConfig = MediaConfig(audio: Flags, video: Flags, data: bool, update: bool, addData: bool) {
    function For(kind: Kind): Flags {
      match kind
      case Audio => audio
      case Video => video
    }
  }

  /** Sent unless it is off or its send flag says no. */
  predicate Sends(flags: Flags): (r: bool)
    ensures r <==> flags.on && flags.send != Some(false)
  {
    if !flags.on then false
    else if flags.send.None? then true
    else flags.send.value
  }

  predicate Receives(flags: Flags): (r: bool)
    ensures r <==> flags.on && flags.recv != Some(false)
  {
    if !flags.on then false
    else if flags.recv.None? then true
    else flags.recv.value
  }

  /** `isAudioSendEnabled` and `isVideoSendEnabled`: without a configuration the answer is yes. */
  predicate IsSendEnabled(media: Option<MediaConfig>, kind: Kind): (r: bool)
    ensures !r <==> media.Some? && (!media.value.For(kind).on || media.value.For(kind).send == Some(false))
  {
    media.None? || Sends(media.value.For(kind))
  }

  /** `isAudioRecvEnabled` and `isVideoRecvEnabled`. */
  predicate IsRecvEnabled(media: Option<MediaConfig>, kind: Kind): (r: bool)
    ensures !r <==> media.Some? && (!media.value.For(kind).on || media.value.For(kind).recv == Some(false))
  {
    media.None? || Receives(media.value.For(kind))
  }

  predicate IsTrickleEnabled(trickle: Option<bool>) {
    trickle.None? || trickle.value
  }
}
