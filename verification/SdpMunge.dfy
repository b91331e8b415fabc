/** The rewriting of a whole description, from text to text: split at line feeds, inject, join. */
module SdpMunge {
  import opened SdpSections
  import opened SdpSearch
  import opened SdpGrammar
  import opened SdpInjection
  import opened SdpReadback
  import opened SdpPlacement
  import opened SdpText

  function MungedText(simulcast: int, sdp: string, draws: nat -> Draw): string {
    Joined(Munged(simulcast, Pieces(sdp, '\n'), draws), "\n")
  }

  method MungeText(simulcast: int, sdp: string, draws: nat -> Draw) returns (munged: string)
    ensures munged == MungedText(simulcast, sdp, draws)
  {
    var lines := Split(sdp, '\n');
    lines := InjectSimulcast(simulcast, lines, draws);
    munged := Join(lines, "\n");
  }

  // ---------- no line feed is printed ----------

  predicate NoLineFeed(s: string) {
    forall j :: 0 <= j < |s| ==> s[j] != '\n'
  }

  lemma AttributeHasNoLineFeed(ssrc: string, mid: string, value: string)
    requires NoLineFeed(ssrc) && NoLineFeed(mid) && NoLineFeed(value)
    ensures NoLineFeed("a=ssrc:" + (ssrc + (mid + (value + "\r"))))
  {
  }

  lemma SourceLinesHaveNoLineFeed(ssrc: string, found: Found, line: string)
    requires IsNumber(ssrc) && IsPrintable(found) && line in SourceLines(ssrc, found)
    ensures NoLineFeed(line)
  {
    AttributeHasNoLineFeed(ssrc, " " + KeyText(Cname) + ":", found.cname);
    AttributeHasNoLineFeed(ssrc, " msid:" + (found.mslabel + " "), found.trackLabel);
    AttributeHasNoLineFeed(ssrc, " " + KeyText(Mslabel) + ":", found.mslabel);
    AttributeHasNoLineFeed(ssrc, " " + KeyText(TrackLabel) + ":", found.trackLabel);
  }

  lemma LayerHasNoLineFeed(k: nat, found: Found, draws: nat -> Draw, line: string)
    requires IsPrintable(found) && line in Layer(k, found, draws)
    ensures NoLineFeed(line)
  {
    var primary, repair := SsrcText(draws(2 * k)), SsrcText(draws(2 * k + 1));
    if line in SourceLines(primary, found) {
      SourceLinesHaveNoLineFeed(primary, found, line);
    } else if line in SourceLines(repair, found) {
      SourceLinesHaveNoLineFeed(repair, found, line);
    } else {
      assert line == FidLine(primary, repair);
    }
  }

  lemma {:induction false} PrimariesHaveNoLineFeed(n: nat, draws: nat -> Draw)
    ensures NoLineFeed(Primaries(n, draws))
  {
    if n > 0 {
      PrimariesHaveNoLineFeed(n - 1, draws);
    }
  }

  lemma GroupIsFree(n: nat, found: Found, draws: nat -> Draw)
    requires IsPrintable(found)
    ensures Free(Group(n, found, draws), '\n')
  {
    var group := Group(n, found, draws);
    PrimariesHaveNoLineFeed(n, draws);
    assert NoLineFeed(SimLine(n, found, draws));
    forall i | 0 <= i < |group| ensures NoLineFeed(group[i]) {
      if i < |group| - 1 {
        assert group[i] in Layers(n, found, draws);
        var k := LineOfSomeLayer(n, found, draws, group[i]);
        LayerHasNoLineFeed(k, found, draws, group[i]);
      }
    }
  }

  lemma MungedIsFree(simulcast: int, lines: seq<string>, draws: nat -> Draw)
    requires Free(lines, '\n')
    ensures Free(Munged(simulcast, lines, draws), '\n')
  {
    if Injects(simulcast, lines) {
      FoundIsPrintable(lines);
      GroupIsFree(simulcast, Search(Body(lines)), draws);
    }
  }

  // ---------- idempotence on text ----------

  /** A last empty line says nothing. */
  lemma LastEmptyLineIsIdle(simulcast: int, lines: seq<string>)
    ensures Injects(simulcast, lines + [""]) == Injects(simulcast, lines)
  {
    var longer := lines + [""];
    assert Read("") == Other;
    LinesCapture(lines);
    assert Readings(longer) == Readings(lines) + [Other];
    SamePrefix(Readings(lines), Readings(longer), KindOf, |lines|);
    SectionCaptures(Readings(lines), |lines|);
    if Search(Body(lines)).ssrc == "" {
      SearchBeforeAnchor(Body(lines), Other);
    } else {
      SearchAfterAnchor(Body(lines), Other);
    }
  }

  /** Without an injection the text only loses its last line feed. */
  lemma UnchangedText(simulcast: int, sdp: string, draws: nat -> Draw)
    requires !Injects(simulcast, Pieces(sdp, '\n'))
    ensures MungedText(simulcast, sdp, draws) == Trimmed(sdp, '\n')
  {
    JoinAfterSplit(sdp, '\n');
  }

  lemma InjectsWithoutLast(simulcast: int, lines: seq<string>)
    requires LastIsEmpty(lines)
    ensures Injects(simulcast, lines[..|lines| - 1]) == Injects(simulcast, lines)
  {
    LastEmptyLineIsIdle(simulcast, lines[..|lines| - 1]);
    assert lines == lines[..|lines| - 1] + [""];
  }

  /** The pieces of a joined text lead to an insertion exactly if the lines do. */
  lemma InjectsAfterJoin(simulcast: int, lines: seq<string>)
    requires Free(lines, '\n')
    ensures Injects(simulcast, Pieces(Joined(lines, "\n"), '\n')) == Injects(simulcast, lines)
  {
    SplitAfterJoin(lines, '\n');
    if LastIsEmpty(lines) {
      InjectsWithoutLast(simulcast, lines);
    }
  }

  lemma InsertingChangesText(simulcast: int, sdp: string, draws: nat -> Draw)
    requires Injects(simulcast, Pieces(sdp, '\n'))
    ensures MungedText(simulcast, sdp, draws) != sdp
  {
    var lines := Pieces(sdp, '\n');
    PiecesAreFree(sdp, '\n');
    MungedIsFree(simulcast, lines, draws);
    SplitAfterJoin(Munged(simulcast, lines, draws), '\n');
    InsertingAddsLines(simulcast, lines, draws);
  }

  lemma InsertingAddsLines(simulcast: int, lines: seq<string>, draws: nat -> Draw)
    requires Injects(simulcast, lines)
    ensures |Munged(simulcast, lines, draws)| > |lines| + 1
  {
  }

  /** A text is kept exactly if nothing is inserted and it does not end in a line feed: joining drops one. */
  lemma KeptTexts(simulcast: int, sdp: string, draws: nat -> Draw)
    ensures MungedText(simulcast, sdp, draws) == sdp <==>
            !Injects(simulcast, Pieces(sdp, '\n')) && !EndsWith(sdp, '\n')
  {
    if Injects(simulcast, Pieces(sdp, '\n')) {
      InsertingChangesText(simulcast, sdp, draws);
    } else {
      UnchangedText(simulcast, sdp, draws);
    }
  }

  /** The block is inserted after the last line. */
  predicate InsertsAtEnd(simulcast: int, lines: seq<string>) {
    Injects(simulcast, lines) && InsertAt(lines) == |lines|
  }

  lemma LastOfInsertion(lines: seq<string>, at: nat, group: seq<string>)
    requires at <= |lines| && |group| >= 2 && !LastIsEmpty(group)
    ensures EndsEmpty(lines[..at] + group + lines[at..]) <==> LastIsEmpty(lines) && at < |lines|
  {
    assert at < |lines| ==> lines[at..][|lines| - at - 1] == lines[|lines| - 1];
  }

  lemma GroupEndsInText(n: nat, found: Found, draws: nat -> Draw)
    ensures !LastIsEmpty(Group(n, found, draws))
  {
    assert |SIM| > 0;
  }

  /** The last line stays last, unless the block is inserted after it. */
  lemma EndOfMunged(simulcast: int, lines: seq<string>, draws: nat -> Draw)
    ensures EndsEmpty(Munged(simulcast, lines, draws)) <==>
            EndsEmpty(lines) && !InsertsAtEnd(simulcast, lines)
  {
    if Injects(simulcast, lines) {
      var found := Search(Body(lines));
      GroupEndsInText(simulcast, found, draws);
      LastOfInsertion(lines, InsertAt(lines), Group(simulcast, found, draws));
    }
  }

  /** The first result ends in a line feed exactly if the text ends in two of them and nothing is inserted after its
      last line. */
  lemma EndOfMungedText(simulcast: int, sdp: string, draws: nat -> Draw)
    ensures EndsWith(MungedText(simulcast, sdp, draws), '\n') <==>
            EndsTwice(sdp, '\n') && !InsertsAtEnd(simulcast, Pieces(sdp, '\n'))
  {
    var lines := Pieces(sdp, '\n');
    PiecesAreFree(sdp, '\n');
    MungedIsFree(simulcast, lines, draws);
    JoinedEndsWith(Munged(simulcast, lines, draws), '\n');
    EndOfMunged(simulcast, lines, draws);
    LastOfTwo(sdp, '\n');
  }

  /** Nothing is inserted into the lines of the result exactly if nothing was inserted before, or inside a video
      section. */
  lemma InjectsAgain(simulcast: int, lines: seq<string>, draws: nat -> Draw)
    ensures Injects(simulcast, Munged(simulcast, lines, draws)) <==>
            Injects(simulcast, lines) && !InsertsInside(lines)
  {
    var once := Munged(simulcast, lines, draws);
    Idempotent(simulcast, lines, draws, draws);
    if Injects(simulcast, once) {
      InsertingAddsLines(simulcast, once, draws);
    }
  }

  /** Rewriting a text a second time changes nothing exactly if the block is inserted, if at all, inside a video
      section, and the text does not end in two line feeds, unless the block is inserted after its last line. */
  lemma TextIdempotent(simulcast: int, sdp: string, draws: nat -> Draw, again: nat -> Draw)
    ensures
      var lines, once := Pieces(sdp, '\n'), MungedText(simulcast, sdp, draws);
      MungedText(simulcast, once, again) == once <==>
      && (Injects(simulcast, lines) ==> InsertsInside(lines))
      && (EndsTwice(sdp, '\n') ==> InsertsAtEnd(simulcast, lines))
  {
    var lines := Pieces(sdp, '\n');
    PiecesAreFree(sdp, '\n');
    MungedIsFree(simulcast, lines, draws);
    InjectsAfterJoin(simulcast, Munged(simulcast, lines, draws));
    InjectsAgain(simulcast, lines, draws);
    EndOfMungedText(simulcast, sdp, draws);
    KeptTexts(simulcast, MungedText(simulcast, sdp, draws), again);
  }

  /** With at most one m=video line only the end of the text matters. */
  lemma TextIdempotentForOneSection(simulcast: int, sdp: string, draws: nat -> Draw, again: nat -> Draw)
    requires AtMostOneVideo(Readings(Pieces(sdp, '\n')))
    ensures
      var once := MungedText(simulcast, sdp, draws);
      MungedText(simulcast, once, again) == once <==>
      (EndsTwice(sdp, '\n') ==> InsertsAtEnd(simulcast, Pieces(sdp, '\n')))
  {
    TextIdempotent(simulcast, sdp, draws, again);
    InsideIfOneSection(simulcast, Pieces(sdp, '\n'));
  }

  lemma OneLineIsIdle(simulcast: int, line: string)
    ensures !Injects(simulcast, [line])
  {
    assert Section(Readings([line]), KindOf, 0) == [];
    assert !Search([]).Complete();
  }

  /** For instance any one line, an m=video line or another, followed by two line feeds: each rewriting takes one of
      them away. */
  lemma TwoLineFeedsAreNotKept(simulcast: int, line: string, draws: nat -> Draw, again: nat -> Draw)
    requires NoLineFeed(line)
    ensures
      var sdp := line + ("\n" + "\n");
      && MungedText(simulcast, sdp, draws) == line + "\n"
      && MungedText(simulcast, line + "\n", again) == line
  {
    var sdp := line + ("\n" + "\n");
    PiecesOfFirst(line, "\n", '\n');
    PiecesOfFirst(line, "", '\n');
    assert line + ("\n" + "") == line + "\n";
    assert Pieces("\n", '\n') == [""];
    assert [line] + [""] == [line, ""] && [line] + Pieces("", '\n') == [line];
    OneLineIsIdle(simulcast, line);
    LastEmptyLineIsIdle(simulcast, [line]);
    UnchangedText(simulcast, sdp, draws);
    UnchangedText(simulcast, line + "\n", again);
    assert Trimmed(sdp, '\n') == line + "\n" && Trimmed(line + "\n", '\n') == line;
  }
}
