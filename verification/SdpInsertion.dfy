/** When a simulcast group is inserted, and how long it is, in terms of the lines of the one video section. */
module SdpInsertion {
  import opened Option
  import opened SdpSections
  import opened SdpSearch
  import opened SdpGrammar
  import opened SdpInjection
  import opened SdpPlacement
  import opened SdpReadback

  // ---------- in terms of readings ----------

  /** Some line from `k` on gives the attribute for the source. */
  predicate IsGiven(body: seq<Reading>, k: nat, key: Key, ssrc: string) {
    exists j :: k <= j < |body| && GivesFor(body[j], key, ssrc)
  }

  lemma ValueIsFound(body: seq<Reading>, k: nat, key: Key, ssrc: string)
    requires AllCapture(body) && k <= |body|
    ensures FirstValue(body[k..], key, ssrc) != "" <==> IsGiven(body, k, key, ssrc)
  {
    var rest := body[k..];
    var j := FirstValueIsFirst(rest, key, ssrc);
    forall i | k <= i < |body| ensures body[i] == rest[i - k] {
    }
    if j < |rest| {
      assert rest[j] == body[k + j];
      assert Captures(body[k + j]);
    }
  }

  /** A pass finds all it needs exactly if there is no SIM line, there is an anchor, and from the first anchor on all
      three attributes are given for its source. */
  lemma FoundWhen(body: seq<Reading>)
    requires AllCapture(body)
    ensures
      var k := FirstAnchor(body);
      Search(body).Complete() <==>
      && Sim !in body
      && k < |body|
      && IsGiven(body, k, Cname, body[k].ssrc)
      && IsGiven(body, k, Mslabel, body[k].ssrc)
      && IsGiven(body, k, TrackLabel, body[k].ssrc)
    ensures Search(body).repair != "" <==> FirstAnchor(body) < |body| && body[FirstAnchor(body)].Fid?
  {
    var k := FirstAnchor(body);
    if k < |body| {
      assert Captures(body[k]);
      ValueIsFound(body, k, Cname, body[k].ssrc);
      ValueIsFound(body, k, Mslabel, body[k].ssrc);
      ValueIsFound(body, k, TrackLabel, body[k].ssrc);
    }
  }

  // ---------- in terms of lines ----------

  /** The source that a FID or cname line names. */
  function NamedSource(line: string): Option<string> {
    if ParsePair(line, "a=ssrc-group:FID ").Some? then Some(ParsePair(line, "a=ssrc-group:FID ").value.0)
    else if ParseSsrcLine(line, "cname").Some? then Some(ParseSsrcLine(line, "cname").value.0)
    else None
  }

  predicate Says(line: string, key: string, ssrc: string) {
    ParseSsrcLine(line, key).Some? && ParseSsrcLine(line, key).value.0 == ssrc
  }

  /** The readings of a line are what the scanners say. */
  lemma LineSays(line: string)
    ensures IsAnchor(Read(line)) <==> NamedSource(line).Some?
    ensures IsAnchor(Read(line)) ==> NamedSource(line) == Some(Read(line).ssrc)
    ensures Read(line).Fid? <==> ParsePair(line, "a=ssrc-group:FID ").Some?
    ensures Read(line) == Sim <==> "a=ssrc-group:SIM " <= line
  {
    ReadingIsUnique(line);
  }

  lemma LineGives(line: string, ssrc: string)
    ensures GivesFor(Read(line), Cname, ssrc) <==> Says(line, "cname", ssrc)
    ensures GivesFor(Read(line), Mslabel, ssrc) <==> Says(line, "mslabel", ssrc)
    ensures GivesFor(Read(line), TrackLabel, ssrc) <==> Says(line, "label", ssrc)
  {
    ReadingIsUnique(line);
  }

  predicate SomeLineSays(section: seq<string>, k: nat, key: string, ssrc: string) {
    exists j :: k <= j < |section| && Says(section[j], key, ssrc)
  }

  /** Line `k` is the first FID or cname line, and from there on there are a cname, an mslabel and a label line for the
      source that it names. */
  predicate HasSource(section: seq<string>, k: nat) {
    && k < |section| && NamedSource(section[k]).Some?
    && (forall j :: 0 <= j < k ==> NamedSource(section[j]).None?)
    && SomeLineSays(section, k, "cname", NamedSource(section[k]).value)
    && SomeLineSays(section, k, "mslabel", NamedSource(section[k]).value)
    && SomeLineSays(section, k, "label", NamedSource(section[k]).value)
  }

  predicate HasSimLine(section: seq<string>) {
    exists j :: 0 <= j < |section| && "a=ssrc-group:SIM " <= section[j]
  }

  /** The only m=video line is line `v`, and its section ends before line `e`. */
  predicate IsVideoSection(lines: seq<string>, v: nat, e: nat) {
    && v < e <= |lines| && MediaType(lines[v]) == Some("video")
    && (forall i :: 0 <= i < |lines| && i != v ==> MediaType(lines[i]) != Some("video"))
    && (forall i :: v < i < e ==> MediaType(lines[i]).None?)
    && (e < |lines| ==> MediaType(lines[e]).Some?)
  }

  lemma KindOfLine(line: string)
    ensures KindOf(Read(line)) == Plain <==> MediaType(line).None?
    ensures KindOf(Read(line)) == Opener <==> MediaType(line) == Some("video")
  {
  }

  lemma SectionEnds<T>(lines: seq<T>, kind: T -> Kind, v: nat, e: nat)
    requires v < e <= |lines|
    requires forall i :: v < i < e ==> kind(lines[i]) == Plain
    requires e < |lines| ==> kind(lines[e]) != Plain
    ensures NextMark(lines, kind, v + 1) == e
  {
  }

  lemma KindsOfSection(lines: seq<string>, v: nat, e: nat)
    requires IsVideoSection(lines, v, e)
    ensures OnlyOpener(Readings(lines), KindOf, v)
    ensures forall i :: v < i < e ==> KindOf(Readings(lines)[i]) == Plain
    ensures e < |lines| ==> KindOf(Readings(lines)[e]) != Plain
  {
    forall i | 0 <= i < |lines|
      ensures KindOf(Readings(lines)[i]) == Plain <==> MediaType(lines[i]).None?
      ensures KindOf(Readings(lines)[i]) == Opener <==> MediaType(lines[i]) == Some("video")
    {
      KindOfLine(lines[i]);
    }
  }

  lemma ReadingsOfSlice(lines: seq<string>, from: nat, to: nat)
    requires from <= to <= |lines|
    ensures Readings(lines)[from..to] == Readings(lines[from..to])
  {
  }

  lemma BodyOfSection(lines: seq<string>, v: nat, e: nat)
    requires IsVideoSection(lines, v, e)
    ensures Body(lines) == Readings(lines[v + 1..e])
  {
    KindsOfSection(lines, v, e);
    SectionEnds(Readings(lines), KindOf, v, e);
    OneSection(1, lines, v);
    ReadingsOfSlice(lines, v + 1, e);
  }

  lemma GivenIsSaid(section: seq<string>, k: nat, ssrc: string)
    ensures IsGiven(Readings(section), k, Cname, ssrc) <==> SomeLineSays(section, k, "cname", ssrc)
    ensures IsGiven(Readings(section), k, Mslabel, ssrc) <==> SomeLineSays(section, k, "mslabel", ssrc)
    ensures IsGiven(Readings(section), k, TrackLabel, ssrc) <==> SomeLineSays(section, k, "label", ssrc)
  {
    forall j | 0 <= j < |section|
      ensures GivesFor(Readings(section)[j], Cname, ssrc) <==> Says(section[j], "cname", ssrc)
      ensures GivesFor(Readings(section)[j], Mslabel, ssrc) <==> Says(section[j], "mslabel", ssrc)
      ensures GivesFor(Readings(section)[j], TrackLabel, ssrc) <==> Says(section[j], "label", ssrc)
    {
      LineGives(section[j], ssrc);
    }
  }

  lemma FirstAnchorIs(body: seq<Reading>, k: nat)
    requires k < |body| && IsAnchor(body[k]) && forall j :: 0 <= j < k ==> !IsAnchor(body[j])
    ensures FirstAnchor(body) == k
  {
  }

  /** `HasSource` holds of the first anchor or of no line. */
  lemma SourceIsAnchor(section: seq<string>)
    ensures
      var body := Readings(section);
      var k := FirstAnchor(body);
      && (forall i :: 0 <= i < |section| && HasSource(section, i) ==> i == k)
      && (k < |section| ==> NamedSource(section[k]) == Some(body[k].ssrc)
                            && forall j :: 0 <= j < k ==> NamedSource(section[j]).None?)
  {
    var body := Readings(section);
    forall j | 0 <= j < |section|
      ensures IsAnchor(body[j]) <==> NamedSource(section[j]).Some?
      ensures IsAnchor(body[j]) ==> NamedSource(section[j]) == Some(body[j].ssrc)
    {
      LineSays(section[j]);
    }
    forall i | 0 <= i < |section| && HasSource(section, i) ensures i == FirstAnchor(body) {
      FirstAnchorIs(body, i);
    }
  }

  lemma SimIsRead(section: seq<string>)
    ensures Sim in Readings(section) <==> HasSimLine(section)
  {
    forall j | 0 <= j < |section| ensures Readings(section)[j] == Sim <==> "a=ssrc-group:SIM " <= section[j] {
      LineSays(section[j]);
    }
  }

  /** The first anchor has its attributes exactly if the lines say so. */
  lemma AnchorHasSource(section: seq<string>, k: nat)
    requires k == FirstAnchor(Readings(section)) < |section|
    ensures
      var body := Readings(section);
      HasSource(section, k) <==>
      && IsGiven(body, k, Cname, body[k].ssrc)
      && IsGiven(body, k, Mslabel, body[k].ssrc)
      && IsGiven(body, k, TrackLabel, body[k].ssrc)
  {
    SourceIsAnchor(section);
    GivenIsSaid(section, k, Readings(section)[k].ssrc);
  }

  lemma SomeHasSource(section: seq<string>)
    ensures
      var k := FirstAnchor(Readings(section));
      (exists i :: 0 <= i < |section| && HasSource(section, i)) <==> k < |section| && HasSource(section, k)
  {
    SourceIsAnchor(section);
  }

  /** What the pass must find, in terms of the lines of a section. */
  lemma SectionIsComplete(section: seq<string>)
    ensures Search(Readings(section)).Complete() <==>
            !HasSimLine(section) && exists k :: 0 <= k < |section| && HasSource(section, k)
  {
    LinesCapture(section);
    FoundWhen(Readings(section));
    SimIsRead(section);
    SomeHasSource(section);
    if FirstAnchor(Readings(section)) < |section| {
      AnchorHasSource(section, FirstAnchor(Readings(section)));
    }
  }

  lemma RepairOfSection(section: seq<string>, k: nat)
    requires HasSource(section, k)
    ensures Search(Readings(section)).repair != "" <==> ParsePair(section[k], "a=ssrc-group:FID ").Some?
  {
    LinesCapture(section);
    FoundWhen(Readings(section));
    SourceIsAnchor(section);
    LineSays(section[k]);
  }

  /** With one video section a group is inserted exactly if one or two layers are asked for, the section has no SIM
      line, and its first FID or cname line names a source that has a cname, an mslabel and a label line from there
      on. A layer of the group has nine lines if that first line is a FID line, and four if it is a cname line; one more
      line announces the group. Otherwise nothing changes. */
  lemma InsertsWhen(simulcast: int, lines: seq<string>, draws: nat -> Draw, v: nat, e: nat)
    requires IsVideoSection(lines, v, e)
    ensures
      var section, out := lines[v + 1..e], Munged(simulcast, lines, draws);
      && (|out| > |lines| <==>
          && 1 <= simulcast <= 2 && !HasSimLine(section)
          && exists k :: 0 <= k < |section| && HasSource(section, k))
      && (|out| <= |lines| ==> out == lines)
      && forall k :: 0 <= k < |section| && HasSource(section, k) && |out| > |lines| ==>
                       |out| == |lines| + 1 + simulcast
                                * if ParsePair(section[k], "a=ssrc-group:FID ").Some? then 9 else 4
  {
    var section := lines[v + 1..e];
    BodyOfSection(lines, v, e);
    SectionIsComplete(section);
    forall k | 0 <= k < |section| && HasSource(section, k)
      ensures Search(Readings(section)).repair != "" <==> ParsePair(section[k], "a=ssrc-group:FID ").Some?
    {
      RepairOfSection(section, k);
    }
    LengthOfMunged(simulcast, lines, draws);
  }

  lemma LengthOfMunged(simulcast: int, lines: seq<string>, draws: nat -> Draw)
    ensures
      var out := Munged(simulcast, lines, draws);
      if 1 <= simulcast <= 2 && Search(Body(lines)).Complete() then
        |out| == |lines| + 1 + simulcast * if Search(Body(lines)).repair != "" then 9 else 4
      else out == lines
  {
  }

  // ---------- a family of descriptions with a repair source ----------

  /** One video section that starts with a FID line. */
  function RepairedSection(ssrc: string, repair: string, found: Found): seq<string> {
    ["m=" + "video" + " ", FidLine(ssrc, repair)] + SourceLines(ssrc, found)
  }

  lemma ReadRepairedSection(ssrc: string, repair: string, found: Found)
    requires IsNumber(ssrc) && IsNumber(repair) && IsPrintable(found)
    ensures Readings(RepairedSection(ssrc, repair, found)) ==
              [Media(true), Fid(ssrc, repair)] + SourceReadings(ssrc, found)
  {
    ReadMediaLine("video");
    FidLineReads(ssrc, repair);
    SourceLinesRead(ssrc, found);
    HeadedReadings("m=" + "video" + " ", FidLine(ssrc, repair), SourceLines(ssrc, found));
  }

  lemma HeadedReadings(a: string, b: string, c: seq<string>)
    ensures Readings([a, b] + c) == [Read(a), Read(b)] + Readings(c)
  {
  }

  lemma SearchRepaired(ssrc: string, repair: string, found: Found)
    requires ssrc != "" && repair != "" && IsPrintable(found)
    ensures
      var search := Search([Fid(ssrc, repair)] + SourceReadings(ssrc, found));
      search.Complete() && search.repair != ""
  {
    var body := [Fid(ssrc, repair)] + SourceReadings(ssrc, found);
    FirstAnchorIs(body, 0);
    assert GivesFor(body[1], Cname, ssrc) && GivesFor(body[3], Mslabel, ssrc) && GivesFor(body[4], TrackLabel, ssrc);
    FoundWhen(body);
  }

  lemma OpenToTheEnd<T>(lines: seq<T>, kind: T -> Kind)
    requires lines != [] && kind(lines[0]) == Opener && forall i :: 0 < i < |lines| ==> kind(lines[i]) == Plain
    ensures Section(lines, kind, |lines|) == lines[1..]
  {
    SectionEnds(lines, kind, 0, |lines|);
    WithinTheSection(lines, kind, 0, |lines|);
  }

  lemma OnlySection(lines: seq<string>, body: seq<Reading>)
    requires Readings(lines) == [Media(true)] + body && forall i :: 0 <= i < |body| ==> KindOf(body[i]) == Plain
    ensures Body(lines) == body
  {
    var readings := [Media(true)] + body;
    forall i | 0 < i < |readings| ensures KindOf(readings[i]) == Plain {
      assert readings[i] == body[i - 1];
    }
    OpenToTheEnd(readings, KindOf);
    assert readings[1..] == body;
  }

  /** A section with a FID line is given nine lines for each layer, and the line that announces the group. */
  lemma RepairedSectionIsGiven(simulcast: nat, ssrc: string, repair: string, found: Found, draws: nat -> Draw)
    requires 1 <= simulcast <= 2
    requires IsNumber(ssrc) && IsNumber(repair) && IsPrintable(found)
    ensures
      var lines := RepairedSection(ssrc, repair, found);
      |Munged(simulcast, lines, draws)| == |lines| + 9 * simulcast + 1
  {
    var lines, body := RepairedSection(ssrc, repair, found), [Fid(ssrc, repair)] + SourceReadings(ssrc, found);
    ReadRepairedSection(ssrc, repair, found);
    assert Readings(lines) == [Media(true)] + body;
    OnlySection(lines, body);
    SearchRepaired(ssrc, repair, found);
    LengthOfMunged(simulcast, lines, draws);
  }

  // ---------- a section that is not seen ----------

  /** A second m=video line right behind the first. */
  function AdjacentSections(ssrc: string, found: Found): seq<string> {
    ["m=" + "video" + " ", "m=" + "video" + " "] + SourceLines(ssrc, found)
  }

  lemma SourceReadingsArePlain(ssrc: string, found: Found)
    ensures forall i :: 0 <= i < |SourceReadings(ssrc, found)| ==> KindOf(SourceReadings(ssrc, found)[i]) == Plain
  {
  }

  lemma BehindTwoOpeners(lines: seq<string>, body: seq<Reading>)
    requires Readings(lines) == [Media(true), Media(true)] + body
    requires forall i :: 0 <= i < |body| ==> KindOf(body[i]) == Plain
    ensures Body(lines) == []
  {
    var readings := [Media(true), Media(true)] + body;
    forall i | 2 <= i < |readings| ensures KindOf(readings[i]) == Plain {
      assert readings[i] == body[i - 2];
    }
    SecondOpenerCloses(readings, KindOf, |readings|);
  }

  /** The second m=video line closes the section that the first one opened and opens none of its own, so a complete
      source behind it is not seen. */
  lemma AdjacentSectionIsNotSeen(simulcast: int, ssrc: string, found: Found, draws: nat -> Draw)
    requires IsNumber(ssrc) && IsPrintable(found)
    ensures Munged(simulcast, AdjacentSections(ssrc, found), draws) == AdjacentSections(ssrc, found)
  {
    var video := "m=" + "video" + " ";
    ReadMediaLine("video");
    SourceLinesRead(ssrc, found);
    HeadedReadings(video, video, SourceLines(ssrc, found));
    SourceReadingsArePlain(ssrc, found);
    BehindTwoOpeners(AdjacentSections(ssrc, found), SourceReadings(ssrc, found));
    LengthOfMunged(simulcast, AdjacentSections(ssrc, found), draws);
  }
}
