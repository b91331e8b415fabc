/** Runs of a media session that reach the requests which are not served as asked. */
module MediaPitfalls {
  import opened MediaConfig
  import opened MediaSafety
  import opened MediaSession
  import opened MediaSync
  import opened Option
  import Runs
  import opened Transceivers

  const ON := Flags(true, false, false, false, false, None, None)
  const OFF := ON.(on := false)

  function Asking(audio: Flags, video: Flags): MediaConfig {
    MediaConfig(audio, video, false, false, false)
  }

  /** The first request of a session. */
  function Begun(m: MediaConfig, w: World): Session {
    Prepared(INITIAL, m, None, w).session
  }

  lemma BeginsARun(m: MediaConfig, w: World)
    ensures Next(INITIAL, Request(m, w)) == Some(Begun(m, w))
    ensures Runs.After(Next, INITIAL, [Request(m, w)], 1) == Some(Begun(m, w))
  {
    FirstCapture(INITIAL, m, w);
    Runs.OneStep(Next, INITIAL, Request(m, w));
  }

  /** A session that began with both kinds holds both, and sends them. */
  lemma BothAreHeld(w: World)
    requires w.camera
    ensures
      var s := Begun(Asking(ON, ON), w);
      && OwnStream(s) && InSync(s) && s.nextId == 2
      && s.local == Some(Stream([Track(Audio, 0)], [Track(Video, 1)]))
  {
    FirstCapture(INITIAL, Asking(ON, ON), w);
    FirstCaptureKeepsSync(INITIAL, Asking(ON, ON), w);
  }

  /** Then audio can be removed. */
  lemma AudioCanBeRemoved(w: World)
    requires w.camera
    ensures
      var steps := [Request(Asking(ON, ON), w), Request(Asking(ON.(remove := true), ON), w)];
      && Runs.After(Next, INITIAL, steps, 2).Some?
      && var s := Runs.After(Next, INITIAL, steps, 2).value;
      && OwnStream(s) && s.local == Some(Stream([], [Track(Video, 1)]))
  {
    var first, gone := Asking(ON, ON), Asking(ON.(remove := true), ON);
    var s := Begun(first, w);
    BeginsARun(first, w);
    BothAreHeld(w);
    UpdateOutcome(s, gone, w);
    KeepsAllUnlessMisread(s, gone);
    Runs.TwoSteps(Next, INITIAL, Request(first, w), Request(gone, w));
  }

  /** And audio can be added again: there is no audio track that it would be a second one to. */
  lemma AudioCanComeBack(w: World)
    requires w.camera
    ensures
      var steps := [Request(Asking(ON, ON), w), Request(Asking(ON.(remove := true), ON), w)];
      && Runs.After(Next, INITIAL, steps, 2).Some?
      && var s := Runs.After(Next, INITIAL, steps, 2).value;
      LocalAfter(s, Asking(ON.(add := true), ON), w) == Some(Stream([Track(Audio, s.nextId)], [Track(Video, 1)]))
  {
    var steps := [Request(Asking(ON, ON), w), Request(Asking(ON.(remove := true), ON), w)];
    AudioCanBeRemoved(w);
    NeverTwoOfAKind(steps, 2);
    OutcomeByFlags(Runs.After(Next, INITIAL, steps, 2).value, Asking(ON.(add := true), ON), w);
  }

  /** And so `keepAudio` can be misread: a third request, to send both kinds and to keep audio, completes and
      captures none. */
  lemma KeepAudioCanBeMisread(w: World)
    requires w.camera
    ensures
      var steps := [Request(Asking(ON, ON), w), Request(Asking(ON.(remove := true), ON), w)];
      var m := Asking(ON.(keep := true), ON);
      && Runs.After(Next, INITIAL, steps, 2).Some?
      && var s := Runs.After(Next, INITIAL, steps, 2).value;
      && OwnStream(s) && KeepAudioMisread(s, m)
      && LocalAfter(s, m, w) == Some(Stream([], [Track(Video, 1)]))
  {
    AudioCanBeRemoved(w);
    var steps := [Request(Asking(ON, ON), w), Request(Asking(ON.(remove := true), ON), w)];
    MisreadKeepsWhatThereIs(Runs.After(Next, INITIAL, steps, 2).value, Asking(ON.(keep := true), ON), w);
  }

  /** The null stream can be dereferenced: by a request to replace audio while both media are off. */
  lemma NullStreamCanBeReached(w: World)
    requires w.camera
    ensures Runs.After(Next, INITIAL,
                       [Request(Asking(ON, ON), w), Request(Asking(OFF.(replace := true), OFF), w)], 2) == None
  {
    var first, m := Asking(ON, ON), Asking(OFF.(replace := true), OFF);
    BeginsARun(first, w);
    BothAreHeld(w);
    NullStreamWhen(Begun(first, w), m, w);
    Runs.TwoSteps(Next, INITIAL, Request(first, w), Request(m, w));
  }

  /** Video can be lost: replacing it after the camera has gone leaves none in the stream, and the old track in its
      sender. */
  lemma ReplacedVideoCanBeLost(w: World, later: World)
    requires w.camera && !later.camera
    ensures
      var m := Asking(ON, ON.(replace := true));
      && Runs.After(Next, INITIAL, [Request(Asking(ON, ON), w)], 1).Some?
      && var s := Runs.After(Next, INITIAL, [Request(Asking(ON, ON), w)], 1).value;
      && InSync(s) && Prepared(s, m, None, later).Proceeds? && !InSync(Prepared(s, m, None, later).session)
      && LocalAfter(s, m, later) == Some(Stream([Track(Audio, 0)], []))
  {
    var first, m := Asking(ON, ON), Asking(ON, ON.(replace := true));
    var s := Begun(first, w);
    BeginsARun(first, w);
    BothAreHeld(w);
    UpdateOutcome(s, m, later);
    KeepsAllUnlessMisread(s, m);
    RequestKeepsSync(s, m, later);
  }

  /** Asking for audio alone captures video too. */
  lemma OneKindCapturesBoth(w: World)
    requires w.camera
    ensures
      var run := Runs.After(Next, INITIAL, [Request(Asking(ON, OFF), w)], 1);
      run.Some? && run.value.local == Some(Stream([Track(Audio, 0)], [Track(Video, 1)]))
  {
    BeginsARun(Asking(ON, OFF), w);
    FirstCapture(INITIAL, Asking(ON, OFF), w);
  }

  /** A transceiver of the peer that is not taken over comes before the one that carries the captured audio. */
  lemma SpareCanBeInTheWay(w: World)
    requires !w.reuseAudio
    ensures
      var steps := [Request(Asking(OFF, OFF), w), RemoteAdds(Audio)];
      && Runs.After(Next, INITIAL, steps, 2).Some?
      && var s := Runs.After(Next, INITIAL, steps, 2).value;
      && InSync(s) && s.local.None?
      && Prepared(s, Asking(ON, OFF), None, w).Proceeds?
      && !InSync(Prepared(s, Asking(ON, OFF), None, w).session)
  {
    var m := Asking(OFF, OFF);
    var s := Begun(m, w);
    BeginsARun(m, w);
    FirstCapture(INITIAL, m, w);
    FirstCaptureKeepsSync(INITIAL, m, w);
    Runs.TwoSteps(Next, INITIAL, Request(m, w), RemoteAdds(Audio));
    NextKeepsSync(s, RemoteAdds(Audio));
    var spare := Next(s, RemoteAdds(Audio)).value;
    assert Bearing(spare.pc.value[|s.pc.value|], Audio);
    FirstCaptureKeepsSync(spare, Asking(ON, OFF), w);
  }
}
