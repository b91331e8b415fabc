/** The printed group is read back, by the recognisers of the same file, to what was printed. */
module SdpReadback {
  import opened Option
  import opened SdpSections
  import opened SdpSearch
  import opened SdpGrammar
  import opened SdpInjection

  /** The captured parts are what the patterns allow. */
  predicate IsPrintable(found: Found) {
    && IsNumber(found.ssrc)
    && (found.repair == "" || IsNumber(found.repair))
    && IsToken(found.cname) && IsToken(found.mslabel) && IsToken(found.trackLabel)
  }

  predicate IsReadable(r: Reading) {
    match r
    case Fid(ssrc, repair) => IsNumber(ssrc) && IsNumber(repair)
    case Attribute(_, ssrc, value) => IsNumber(ssrc) && IsToken(value)
    case _ => true
  }

  lemma ReadIsReadable(line: string)
    ensures IsReadable(Read(line))
  {
    PartsOfSsrcLine(line, "cname");
    PartsOfSsrcLine(line, "mslabel");
    PartsOfSsrcLine(line, "label");
    PartsOfPair(line, FID);
  }

  lemma PartsOfSsrcLine(line: string, key: string)
    ensures var r := ParseSsrcLine(line, key); r.Some? ==> IsNumber(r.value.0) && IsToken(r.value.1)
  {
  }

  lemma PartsOfPair(line: string, prefix: string)
    ensures var r := ParsePair(line, prefix); r.Some? ==> IsNumber(r.value.0) && IsNumber(r.value.1)
  {
  }

  /** What a pass finds, if complete, can be printed. */
  lemma FoundIsPrintable(lines: seq<string>)
    requires Search(Body(lines)).Complete()
    ensures IsPrintable(Search(Body(lines)))
  {
    SectionHasOnlyLines(Readings(lines), KindOf, |lines|);
    forall i | 0 <= i < |lines| ensures IsReadable(Readings(lines)[i]) {
      ReadIsReadable(lines[i]);
    }
    SearchIsPrintable(Body(lines));
  }

  lemma SearchIsPrintable(body: seq<Reading>)
    requires forall r :: r in body ==> IsReadable(r)
    requires Search(body).Complete()
    ensures IsPrintable(Search(body))
  {
    var k, ssrc := FirstAnchor(body), Search(body).ssrc;
    assert IsReadable(body[k]);
    var i := FirstValueIsFirst(body[k..], Cname, ssrc);
    var j := FirstValueIsFirst(body[k..], Mslabel, ssrc);
    var l := FirstValueIsFirst(body[k..], TrackLabel, ssrc);
    assert body[k..][i] in body && body[k..][j] in body && body[k..][l] in body;
  }

  // ---------- single lines ----------

  lemma SsrcLineReads(ssrc: string, key: Key, value: string)
    requires IsNumber(ssrc) && IsToken(value)
    ensures Read(SsrcLine(ssrc, key, value)) == Attribute(key, ssrc, value)
  {
    ParseSsrcLineFinds("a=ssrc:", ssrc, " " + KeyText(key) + ":", value, KeyText(key));
    ReadingIsUnique(SsrcLine(ssrc, key, value));
  }

  lemma FidLineReads(primary: string, repair: string)
    requires IsNumber(primary) && IsNumber(repair)
    ensures Read(FidLine(primary, repair)) == Fid(primary, repair)
  {
    ParsePairFinds(FID, FID, primary, repair);
    ReadingIsUnique(FidLine(primary, repair));
  }

  lemma SimLineReads(n: nat, found: Found, draws: nat -> Draw)
    ensures Read(SimLine(n, found, draws)) == Sim
  {
    ReadingIsUnique(SimLine(n, found, draws));
  }

  /** An attribute with another key: the text after the number starts differently. */
  lemma OtherAttribute(ssrc: string, tail: string, key: Key, i: nat)
    requires IsNumber(ssrc) && tail != "" && !IsDigit(tail[0])
    requires i < |tail| && i < |KeyText(key)| + 2 && Lower(tail[i]) != Lower((" " + KeyText(key) + ":")[i])
    ensures ParseAttribute("a=ssrc:" + (ssrc + tail), key).None?
  {
    Divide("a=ssrc:", ssrc + tail);
    RunOfPrefix(ssrc, tail, IsDigit);
    Divide(ssrc, tail);
    assert |KeyText(key)| + 2 <= |tail| ==> tail[..|KeyText(key)| + 2][i] == tail[i];
  }

  lemma SourceStartIsNoGroup(rest: string)
    ensures ParseFid("a=ssrc:" + rest).None? && !IsSimLine("a=ssrc:" + rest) && MediaType("a=ssrc:" + rest).None?
  {
    var line := "a=ssrc:" + rest;
    Divide("a=ssrc:", rest);
    DifferentStarts(line, "a=ssrc:", FID, 6);
    DifferentStarts(line, "a=ssrc:", SIM, 6);
    DifferentStarts(line, "a=ssrc:", "m=", 0);
    SimLinesStartLikeSim(line);
  }

  lemma SourceLineOfNoInterest(ssrc: string, tail: string)
    requires IsNumber(ssrc)
    requires |tail| > 3 && tail[0] == ' ' && tail[1] == 'm' && tail[3] == 'i'
    ensures Read("a=ssrc:" + (ssrc + tail)) == Other
  {
    OtherAttribute(ssrc, tail, Cname, 1);
    OtherAttribute(ssrc, tail, Mslabel, 3);
    OtherAttribute(ssrc, tail, TrackLabel, 1);
    SourceStartIsNoGroup(ssrc + tail);
    ReadingIsUnique("a=ssrc:" + (ssrc + tail));
  }

  /** The msid line is of no interest to a later pass. */
  lemma MsidLineReads(ssrc: string, found: Found)
    requires IsNumber(ssrc)
    ensures Read(MsidLine(ssrc, found)) == Other
  {
    var tail := (" msid:" + (found.mslabel + " ")) + (found.trackLabel + "\r");
    assert tail[..6] == " msid:";
    assert tail[0] == tail[..6][0] && tail[1] == tail[..6][1] && tail[3] == tail[..6][3];
    SourceLineOfNoInterest(ssrc, tail);
  }

  // ---------- whole layers ----------

  /** What the four lines of one source say. */
  function SourceReadings(ssrc: string, found: Found): seq<Reading> {
    [Attribute(Cname, ssrc, found.cname), Other, Attribute(Mslabel, ssrc, found.mslabel),
     Attribute(TrackLabel, ssrc, found.trackLabel)]
  }

  lemma SourceLinesRead(ssrc: string, found: Found)
    requires IsNumber(ssrc) && IsPrintable(found)
    ensures Readings(SourceLines(ssrc, found)) == SourceReadings(ssrc, found)
  {
    SsrcLineReads(ssrc, Cname, found.cname);
    MsidLineReads(ssrc, found);
    SsrcLineReads(ssrc, Mslabel, found.mslabel);
    SsrcLineReads(ssrc, TrackLabel, found.trackLabel);
    FourReadings(SsrcLine(ssrc, Cname, found.cname), MsidLine(ssrc, found), SsrcLine(ssrc, Mslabel, found.mslabel),
                 SsrcLine(ssrc, TrackLabel, found.trackLabel));
  }

  lemma FourReadings(a: string, b: string, c: string, d: string)
    ensures Readings([a, b, c, d]) == [Read(a), Read(b), Read(c), Read(d)]
  {
  }

  /** A layer says: one source with the attributes of the copied one, or a FID group and its two sources. */
  function LayerReadings(k: nat, found: Found, draws: nat -> Draw): seq<Reading> {
    var primary, repair := Primary(k, draws), SsrcText(draws(2 * k + 1));
    if found.repair == "" then SourceReadings(primary, found)
    else [Fid(primary, repair)] + SourceReadings(primary, found) + SourceReadings(repair, found)
  }

  lemma LayerReadsBack(k: nat, found: Found, draws: nat -> Draw)
    requires IsPrintable(found)
    ensures Readings(Layer(k, found, draws)) == LayerReadings(k, found, draws)
  {
    var primary, repair := Primary(k, draws), SsrcText(draws(2 * k + 1));
    SourceLinesRead(primary, found);
    if found.repair != "" {
      FidLineReads(primary, repair);
      SourceLinesRead(repair, found);
      NineReadings(FidLine(primary, repair), SourceLines(primary, found), SourceLines(repair, found));
    }
  }

  lemma NineReadings(a: string, b: seq<string>, c: seq<string>)
    ensures Readings([a] + b + c) == [Read(a)] + Readings(b) + Readings(c)
  {
  }

  lemma ReadingsOfConcat(a: seq<string>, b: seq<string>)
    ensures Readings(a + b) == Readings(a) + Readings(b)
  {
  }

  lemma {:induction false} LineOfSomeLayer(n: nat, found: Found, draws: nat -> Draw, line: string) returns (k: nat)
    requires line in Layers(n, found, draws)
    ensures k < n && line in Layer(k, found, draws)
  {
    k := n - 1;
    if line in Layers(k, found, draws) {
      k := LineOfSomeLayer(k, found, draws, line);
    }
  }

  lemma LayerIsPlain(k: nat, found: Found, draws: nat -> Draw, line: string)
    requires IsPrintable(found) && line in Layer(k, found, draws)
    ensures KindOf(Read(line)) == Plain
  {
    LayerReadsBack(k, found, draws);
    LayerReadingsArePlain(k, found, draws);
    ReadingOfMember(Layer(k, found, draws), line);
  }

  lemma LayerReadingsArePlain(k: nat, found: Found, draws: nat -> Draw)
    ensures forall r :: r in LayerReadings(k, found, draws) ==> KindOf(r) == Plain
  {
  }

  lemma ReadingOfMember(lines: seq<string>, line: string)
    requires line in lines
    ensures Read(line) in Readings(lines)
  {
    var i :| 0 <= i < |lines| && lines[i] == line;
    assert Readings(lines)[i] == Read(line);
  }

  /** Read as a whole, the group opens and closes nothing and announces itself. */
  lemma GroupIsPlain(n: nat, found: Found, draws: nat -> Draw)
    requires IsPrintable(found)
    ensures forall line :: line in Group(n, found, draws) ==> KindOf(Read(line)) == Plain
    ensures exists line :: line in Group(n, found, draws) && Read(line) == Sim
  {
    SimLineReads(n, found, draws);
    assert SimLine(n, found, draws) in Group(n, found, draws);
    forall line | line in Layers(n, found, draws) ensures KindOf(Read(line)) == Plain {
      var k := LineOfSomeLayer(n, found, draws, line);
      LayerIsPlain(k, found, draws, line);
    }
  }
}
