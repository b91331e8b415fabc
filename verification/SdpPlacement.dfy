/** Where the simulcast group goes, what the insertion leaves alone, and when a second insertion does nothing. */
module SdpPlacement {
  import opened Option
  import opened SdpSections
  import opened SdpSearch
  import opened SdpGrammar
  import opened SdpInjection
  import opened SdpReadback

  // ---------- idempotence ----------

  /** The group is inserted inside a video section. */
  predicate InsertsInside(lines: seq<string>) {
    Open(Readings(lines), KindOf, InsertAt(lines))
  }

  lemma ReadingsOfPlainLines(lines: seq<string>)
    ensures (forall line :: line in lines ==> KindOf(Read(line)) == Plain) ==>
              forall r :: r in Readings(lines) ==> KindOf(r) == Plain
    ensures (exists line :: line in lines && Read(line) == Sim) ==> Sim in Readings(lines)
  {
    forall line | line in lines ensures Read(line) in Readings(lines) {
      ReadingOfMember(lines, line);
    }
  }

  /** Rewriting inserts, among the readings, those of a group: plain lines, one of them a SIM line. */
  lemma MungedReadings(simulcast: int, lines: seq<string>, draws: nat -> Draw) returns (group: seq<string>)
    requires Injects(simulcast, lines)
    ensures group == Group(simulcast, Search(Body(lines)), draws)
    ensures Inserted(Readings(lines), InsertAt(lines), Readings(group), Readings(Munged(simulcast, lines, draws)))
    ensures Sim in Readings(group) && forall r :: r in Readings(group) ==> KindOf(r) == Plain
  {
    var at, found := InsertAt(lines), Search(Body(lines));
    group := Group(simulcast, found, draws);
    FoundIsPrintable(lines);
    GroupIsPlain(simulcast, found, draws);
    ReadingsOfPlainLines(group);
    ReadingsOfInsertion(lines, at, group);
  }

  lemma ReadingsOfInsertion(lines: seq<string>, at: nat, group: seq<string>)
    requires at <= |lines|
    ensures Inserted(Readings(lines), at, Readings(group), Readings(lines[..at] + group + lines[at..]))
  {
    ReadingsOfConcat(lines[..at], group);
    ReadingsOfConcat(lines[..at] + group, lines[at..]);
    assert Readings(lines[..at]) == Readings(lines)[..at] && Readings(lines[at..]) == Readings(lines)[at..];
  }

  /** A second rewriting, whatever it draws, changes nothing exactly if the first inserted nothing or inserted
      inside a video section. */
  lemma Idempotent(simulcast: int, lines: seq<string>, draws: nat -> Draw, again: nat -> Draw)
    ensures
      var once := Munged(simulcast, lines, draws);
      Munged(simulcast, once, again) == once <==> (Injects(simulcast, lines) ==> InsertsInside(lines))
  {
    if Injects(simulcast, lines) {
      var once := Munged(simulcast, lines, draws);
      var group := MungedReadings(simulcast, lines, draws);
      if InsertsInside(lines) {
        InsideIsExamined(Readings(lines), KindOf, InsertAt(lines), Readings(group), Readings(once));
        assert HasSim(Body(once));
      } else {
        OutsideIsNotExamined(Readings(lines), KindOf, InsertAt(lines), Readings(group), Readings(once));
        assert |Munged(simulcast, once, again)| > |once|;
      }
    }
  }

  // ---------- one video section ----------

  /** With a single m=video line the pass examines the lines from there to the next m-line. The group goes at the
      very end if no m-line follows, and else just before the last line of the section. */
  lemma OneSection(simulcast: int, lines: seq<string>, v: nat)
    requires OnlyOpener(Readings(lines), KindOf, v)
    ensures
      var e := NextMark(Readings(lines), KindOf, v + 1);
      && Body(lines) == Readings(lines)[v + 1..e]
      && (Injects(simulcast, lines) ==>
            && InsertAt(lines) == (if e == |lines| then |lines| else e - 1)
            && v < InsertAt(lines)
            && InsertsInside(lines))
  {
    var readings := Readings(lines);
    var e := NextMark(readings, KindOf, v + 1);
    if e == |lines| {
      WithinTheSection(readings, KindOf, v, e);
    } else {
      AfterTheSection(readings, KindOf, v, |lines|);
      if Injects(simulcast, lines) {
        assert !Search([]).Complete();
        WithinTheSection(readings, KindOf, v, e - 1);
      }
    }
  }

  predicate AtMostOneVideo(readings: seq<Reading>) {
    forall i, j :: 0 <= i < |readings| && 0 <= j < |readings| && readings[i] == readings[j] == Media(true) ==> i == j
  }

  /** Idempotence for every description with at most one m=video line, whatever is drawn. */
  lemma IdempotentForOneSection(simulcast: int, lines: seq<string>, draws: nat -> Draw, again: nat -> Draw)
    requires AtMostOneVideo(Readings(lines))
    ensures
      var once := Munged(simulcast, lines, draws);
      Munged(simulcast, once, again) == once
  {
    Idempotent(simulcast, lines, draws, again);
    InsideIfOneSection(simulcast, lines);
  }

  lemma InsideIfOneSection(simulcast: int, lines: seq<string>)
    requires AtMostOneVideo(Readings(lines))
    ensures Injects(simulcast, lines) ==> InsertsInside(lines)
  {
    var readings := Readings(lines);
    if v :| 0 <= v < |lines| && readings[v] == Media(true) {
      assert OnlyOpener(readings, KindOf, v);
      OneSection(simulcast, lines, v);
    } else {
      NoOpenerYet(readings, KindOf, |lines|);
      assert !Search([]).Complete();
    }
  }

  // ---------- several video sections ----------

  /** Two video sections, the second of them empty. */
  function TwoSections(ssrc: string, found: Found): seq<string> {
    ["m=" + "video" + " "] + SourceLines(ssrc, found)
    + ["m=" + "audio" + " ", "m=" + "video" + " ", "m=" + "text" + " "]
  }

  lemma ReadMediaLine(media: string)
    requires IsToken(media)
    ensures Read("m=" + media + " ") == Media(media == "video")
  {
    var line := "m=" + media + " ";
    assert line[..2] == "m=" && line[2..2 + |media|] == media;
    MediaTypeReadsMediaLines(line, media);
  }

  lemma SearchOneSource(ssrc: string, found: Found)
    requires ssrc != "" && IsPrintable(found)
    ensures Search(SourceReadings(ssrc, found)).Complete()
  {
    var body := SourceReadings(ssrc, found);
    assert FirstAnchor(body) == 0 && body[0..] == body;
    assert body[1..][1..] == body[2..] && body[2..][1..] == body[3..];
    assert FirstValue(body[2..], Mslabel, ssrc) == found.mslabel;
    assert FirstValue(body[1..], Mslabel, ssrc) == found.mslabel;
    assert FirstValue(body[3..], TrackLabel, ssrc) == found.trackLabel;
    assert FirstValue(body[2..], TrackLabel, ssrc) == found.trackLabel;
    assert FirstValue(body[1..], TrackLabel, ssrc) == found.trackLabel;
  }

  lemma ReadTwoSections(ssrc: string, found: Found)
    requires IsNumber(ssrc) && IsPrintable(found)
    ensures Readings(TwoSections(ssrc, found)) ==
              [Media(true)] + SourceReadings(ssrc, found) + [Media(false), Media(true), Media(false)]
  {
    ReadMediaLine("video");
    ReadMediaLine("audio");
    ReadMediaLine("text");
    SourceLinesRead(ssrc, found);
    var video, audio, text := "m=" + "video" + " ", "m=" + "audio" + " ", "m=" + "text" + " ";
    SurroundedReadings(video, SourceLines(ssrc, found), audio, video, text);
  }

  lemma SurroundedReadings(first: string, lines: seq<string>, a: string, b: string, c: string)
    ensures Readings([first] + lines + [a, b, c]) == [Read(first)] + Readings(lines) + [Read(a), Read(b), Read(c)]
  {
  }

  /** With more than one video section a second rewriting can insert a second group: the first one lands before
      an m=video line, outside every video section. For instance with source 1, cname c, mslabel s and label t. */
  lemma NotIdempotentForTwoSections(found: Found, draws: nat -> Draw, again: nat -> Draw)
    requires IsPrintable(found)
    ensures
      var once := Munged(2, TwoSections(found.ssrc, found), draws);
      Munged(2, once, again) != once
  {
    var lines := TwoSections(found.ssrc, found);
    ReadTwoSections(found.ssrc, found);
    EmptySecondSection(Readings(lines), KindOf);
    SearchOneSource(found.ssrc, found);
    assert Body(lines) == SourceReadings(found.ssrc, found);
    Idempotent(2, lines, draws, again);
  }

  // ---------- what is kept ----------

  /** Every line of the input survives, in order, around the inserted lines. */
  lemma MungingKeepsEveryLine(simulcast: int, lines: seq<string>, draws: nat -> Draw)
    ensures
      var out, at := Munged(simulcast, lines, draws), InsertAt(lines);
      && |out| >= |lines|
      && out[..at] == lines[..at]
      && out[at + (|out| - |lines|)..] == lines[at..]
  {
    if Injects(simulcast, lines) {
      var at, group := InsertAt(lines), Group(simulcast, Search(Body(lines)), draws);
      InsertedAligns(lines, at, group, Munged(simulcast, lines, draws));
    }
  }

  function MediaKind(line: string): Kind {
    if MediaType(line).Some? then Closer else Plain
  }

  /** The m-lines of a description, in order. */
  function MediaLines(lines: seq<string>): seq<string> {
    Marks(lines, MediaKind)
  }

  lemma GroupHasNoMediaLine(n: nat, found: Found, draws: nat -> Draw)
    requires IsPrintable(found)
    ensures forall line :: line in Group(n, found, draws) ==> MediaKind(line) == Plain
  {
    GroupIsPlain(n, found, draws);
    forall line | line in Group(n, found, draws) ensures MediaKind(line) == Plain {
      assert KindOf(Read(line)) == Plain;
      ReadingIsUnique(line);
    }
  }

  /** The m-lines, and so the order of the media sections, never change. */
  lemma MungingKeepsMediaLines(simulcast: int, lines: seq<string>, draws: nat -> Draw)
    ensures MediaLines(Munged(simulcast, lines, draws)) == MediaLines(lines)
  {
    if Injects(simulcast, lines) {
      var found := Search(Body(lines));
      var group := Group(simulcast, found, draws);
      FoundIsPrintable(lines);
      GroupHasNoMediaLine(simulcast, found, draws);
      InsertingKeepsMarks(lines, MediaKind, InsertAt(lines), group, Munged(simulcast, lines, draws));
    }
  }
}
