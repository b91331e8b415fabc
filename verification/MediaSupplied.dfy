/** What becomes of a stream that the application supplies. */
module MediaSupplied {
  import opened MediaConfig
  import opened MediaRequest
  import opened MediaSession
  import opened Option

  predicate IsKept(f: Flags) {
    f.on && f.send != Some(false) && f.keep
  }

  /** A supplied stream becomes the local one and is the application's own from then on, except in a running session
      when both kinds are to be sent and kept: then it is ignored, and nothing changes hands. */
  lemma SuppliedStreamIsTaken(s: Session, m: MediaConfig, stream: Stream, w: World)
    ensures
      var out := Prepared(s, m, Some(Another(stream)), w);
      && out.Proceeds?
      && out.session.nextId == s.nextId
      && if s.pc.Some? && IsKept(m.audio) && IsKept(m.video) then
           out.session.local == s.local && out.session.external == s.external
         else
           out.session.local == Some(stream) && out.session.external
  {
    var u := m.(update := true);
    assert KeepsAll(u) <==> IsKept(m.audio) && IsKept(m.video);
    if s.pc.Some? && KeepsAll(u) {
      OwnTracksJoin(s, u, w);
    }
  }

  /** The tracks of the local stream join it again. */
  lemma OwnTracksJoin(s: Session, u: MediaConfig, w: World)
    requires s.pc.Some? && u.update
    ensures
      var out := Streamed(s, u, s.local, w);
      out.Proceeds? && out.session.local == s.local && out.session.external == s.external
      && out.session.nextId == s.nextId
  {
  }

  /** The local stream supplied again becomes the application's own; in a running session the first track of every kind
      that is removed or replaced has left it before, unless it was the application's own already. */
  lemma LocalStreamIsTaken(s: Session, m: MediaConfig, w: World)
    requires s.local.Some? && !(s.pc.Some? && IsKept(m.audio) && IsKept(m.video))
    ensures
      var out, before := Prepared(s, m, Some(TheLocal), w), s.local.value;
      && out.Proceeds? && out.session.external
      && out.session.local ==
           if s.pc.None? || s.external then s.local
           else Some(Stream(if (m.audio.remove || m.audio.replace) && before.audio != [] then before.audio[1..]
                            else before.audio,
                            if (m.video.remove || m.video.replace) && before.video != [] then before.video[1..]
                            else before.video))
  {
  }

  /** Once the application has supplied a stream the client counts as not owning its stream, until it cleans up. */
  lemma OwnershipStays(s: Session, m: MediaConfig, supplied: Option<Supplied>, w: World)
    requires supplied == Some(TheLocal) ==> s.local.Some?
    requires s.external && Prepared(s, m, supplied, w).Proceeds?
    ensures Prepared(s, m, supplied, w).session.external && !CleanedUp(s).external
  {
  }
}
