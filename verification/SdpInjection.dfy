/** `SDPUtils::injectSimulcast`: one pass over the lines of an SDP that collects the attributes of one video
    source, and the insertion of the lines of a simulcast group that copies that source.

    The pass is specified by two independent ideas: `Body` says which lines it examines (those of the video
    sections), and `SdpSearch.Search` says what it must have found in them. */
module SdpInjection {
  import opened Option
  import opened SdpSections
  import opened SdpSearch
  import opened SdpGrammar

  // ---------- the printed lines ----------

  /** What the random generator can draw: `uniform_int_distribution(1, 0xFFFFFFFF)`. */
  type Draw = n: nat | 1 <= n <= 0xFFFF_FFFF witness 1

  function Decimal(n: nat): (s: string)
    ensures IsNumber(s)
  {
    var digit := '0' + (n % 10) as char;
    if n < 10 then [digit] else Decimal(n / 10) + [digit]
  }

  /** A drawn source number as text, padded with zeros to nine characters. */
  function SsrcText(n: Draw): (s: string)
    ensures IsNumber(s) && |s| >= 9
  {
    var s := Decimal(n);
    seq(if |s| < 9 then 9 - |s| else 0, _ => '0') + s
  }

  function SsrcLine(ssrc: string, key: Key, value: string): string {
    "a=ssrc:" + (ssrc + ((" " + KeyText(key) + ":") + (value + "\r")))
  }

  function MsidLine(ssrc: string, found: Found): string {
    "a=ssrc:" + (ssrc + ((" msid:" + (found.mslabel + " ")) + (found.trackLabel + "\r")))
  }

  function FidLine(primary: string, repair: string): string {
    FID + (primary + (" " + (repair + "\r")))
  }

  /** The four attribute lines of one source. */
  function SourceLines(ssrc: string, found: Found): (lines: seq<string>)
    ensures |lines| == 4
  {
    [SsrcLine(ssrc, Cname, found.cname),
     MsidLine(ssrc, found),
     SsrcLine(ssrc, Mslabel, found.mslabel),
     SsrcLine(ssrc, TrackLabel, found.trackLabel)]
  }

  /** One simulcast layer: a new source, with a repair source of its own if the copied source has one. */
  function LayerLines(primary: string, repair: string, found: Found): (lines: seq<string>)
    ensures |lines| == if found.repair != "" then 9 else 4
  {
    if found.repair == "" then SourceLines(primary, found)
    else [FidLine(primary, repair)] + SourceLines(primary, found) + SourceLines(repair, found)
  }

  /** Layer `i` uses the draws `2 * i` and `2 * i + 1`. */
  function Layer(i: nat, found: Found, draws: nat -> Draw): (lines: seq<string>)
    ensures |lines| == if found.repair != "" then 9 else 4
  {
    LayerLines(SsrcText(draws(2 * i)), SsrcText(draws(2 * i + 1)), found)
  }

  function Layers(n: nat, found: Found, draws: nat -> Draw): (lines: seq<string>)
    ensures |lines| == if found.repair != "" then 9 * n else 4 * n
  {
    if n == 0 then [] else Layers(n - 1, found, draws) + Layer(n - 1, found, draws)
  }

  function Primary(i: nat, draws: nat -> Draw): (s: string)
    ensures IsNumber(s)
  {
    SsrcText(draws(2 * i))
  }

  /** The primaries of `n` layers, each after a space. */
  function Primaries(n: nat, draws: nat -> Draw): string {
    if n == 0 then "" else Primaries(n - 1, draws) + (" " + Primary(n - 1, draws))
  }

  function SimLine(n: nat, found: Found, draws: nat -> Draw): string {
    SIM + (found.ssrc + (Primaries(n, draws) + "\r"))
  }

  function Group(n: nat, found: Found, draws: nat -> Draw): (lines: seq<string>)
    ensures |lines| == 1 + if found.repair != "" then 9 * n else 4 * n
  {
    Layers(n, found, draws) + [SimLine(n, found, draws)]
  }

  // ---------- the rewriting ----------

  function Readings(lines: seq<string>): (readings: seq<Reading>)
    ensures |readings| == |lines|
    ensures forall i :: 0 <= i < |lines| ==> readings[i] == Read(lines[i])
  {
    seq(|lines|, i requires 0 <= i < |lines| => Read(lines[i]))
  }

  /** What the lines of the video sections say. */
  function Body(lines: seq<string>): seq<Reading> {
    Section(Readings(lines), KindOf, |lines|)
  }

  /** Where the group is inserted. */
  function InsertAt(lines: seq<string>): (n: nat)
    ensures n <= |lines|
  {
    var closing := Closing(Readings(lines), KindOf, |lines|);
    if closing == 0 then |lines| else closing
  }

  /** A group is inserted: the layer count is supported and the pass found a complete source and no group. */
  predicate Injects(simulcast: int, lines: seq<string>) {
    1 <= simulcast <= 2 && Search(Body(lines)).Complete()
  }

  function Munged(simulcast: int, lines: seq<string>, draws: nat -> Draw): seq<string> {
    if !Injects(simulcast, lines) then lines
    else
      var at := InsertAt(lines);
      lines[..at] + Group(simulcast, Search(Body(lines)), draws) + lines[at..]
  }

  lemma {:induction false} SectionCaptures(readings: seq<Reading>, n: nat)
    requires n <= |readings| && AllCapture(readings)
    ensures AllCapture(Section(readings, KindOf, n))
  {
    if n > 0 {
      SectionCaptures(readings, n - 1);
    }
  }

  lemma LinesCapture(lines: seq<string>)
    ensures AllCapture(Readings(lines))
  {
    forall i | 0 <= i < |lines| ensures Captures(Readings(lines)[i]) {
      ReadingIsUnique(lines[i]);
    }
  }

  // ---------- printing ----------

  method InjectSsrc(given: seq<string>, ssrc: string, found: Found) returns (lines: seq<string>)
    ensures lines == given + SourceLines(ssrc, found)
  {
    var assrc := "a=ssrc:" + ssrc;
    lines := given + [assrc + " cname:" + found.cname + "\r"];
    lines := lines + [assrc + " msid:" + found.mslabel + " " + found.trackLabel + "\r"];
    lines := lines + [assrc + " mslabel:" + found.mslabel + "\r"];
    lines := lines + [assrc + " label:" + found.trackLabel + "\r"];
    assert " " + KeyText(Cname) + ":" == " cname:" && " " + KeyText(Mslabel) + ":" == " mslabel:";
    assert " " + KeyText(TrackLabel) + ":" == " label:";
    AttributeText(assrc, ssrc, " cname:", found.cname);
    AttributeText(assrc, ssrc, " msid:" + (found.mslabel + " "), found.trackLabel);
    AttributeText(assrc, ssrc, " mslabel:", found.mslabel);
    AttributeText(assrc, ssrc, " label:", found.trackLabel);
    Regroup(assrc, " msid:", found.mslabel, " ");
  }

  lemma AttributeText(assrc: string, ssrc: string, mid: string, value: string)
    requires assrc == "a=ssrc:" + ssrc
    ensures assrc + mid + value + "\r" == "a=ssrc:" + (ssrc + (mid + (value + "\r")))
  {
    Regroup(assrc, mid, value, "\r");
    assert assrc + (mid + (value + "\r")) == "a=ssrc:" + (ssrc + (mid + (value + "\r")));
  }

  method InjectSsrcAndFid(given: seq<string>, found: Found, first: Draw, second: Draw)
    returns (lines: seq<string>, ssrc: string)
    ensures ssrc == SsrcText(first)
    ensures lines == given + LayerLines(SsrcText(first), SsrcText(second), found)
  {
    lines := given;
    ssrc := SsrcText(first);
    var ssrcFid := SsrcText(second);
    if found.repair != "" {
      lines := lines + ["a=ssrc-group:FID " + ssrc + " " + ssrcFid + "\r"];
      assert "a=ssrc-group:FID " + ssrc + " " + ssrcFid + "\r" == FidLine(ssrc, ssrcFid);
    }
    lines := InjectSsrc(lines, ssrc, found);
    if found.repair != "" {
      lines := InjectSsrc(lines, ssrcFid, found);
    }
  }

  method PrintGroup(simulcast: nat, found: Found, draws: nat -> Draw) returns (lines: seq<string>)
    ensures lines == Group(simulcast, found, draws)
  {
    var group := SIM + found.ssrc;
    lines := [];
    for i := 0 to simulcast
      invariant lines == Layers(i, found, draws)
      invariant group == SIM + found.ssrc + Primaries(i, draws)
    {
      var assrc;
      lines, assrc := InjectSsrcAndFid(lines, found, draws(2 * i), draws(2 * i + 1));
      Regroup(SIM + found.ssrc, Primaries(i, draws), " ", assrc);
      group := group + " " + assrc;
    }
    Regroup(SIM, found.ssrc, Primaries(simulcast, draws), "\r");
    group := group + "\r";
    lines := lines + [group];
  }

  lemma Regroup(a: string, b: string, c: string, d: string)
    ensures a + b + c + d == a + b + (c + d) == a + (b + (c + d))
  {
    assert a + b + c + d == a + (b + (c + d));
  }

  // ---------- the pass ----------

  /** What the pass does with one line of a video section; `body` is what the section said so far. */
  method ExamineLine(ghost body: seq<Reading>, line: string, found: Found) returns (next: Found)
    requires AllCapture(body) && MediaType(line).None?
    requires found == Search(body)
    ensures next == Search(body + [Read(line)])
  {
    next := found;
    ReadingIsUnique(line);
    if next.ssrc == "" {
      SearchBeforeAnchor(body, Read(line));
      SourceFoundAtAnchor(body);
      var fid := ParseFid(line);
      if fid.Some? {
        next := next.(ssrc := fid.value.0, repair := fid.value.1);
        return;
      }
      var named := ParseAttribute(line, Cname);
      if named.Some? {
        next := next.(ssrc := named.value.0, cname := named.value.1);
      }
    } else {
      SearchAfterAnchor(body, Read(line));
    }

    if next.ssrc != "" {
      var read := ParseAttribute(line, Cname);
      if next.cname == "" && read.Some? && read.value.0 == next.ssrc {
        next := next.(cname := read.value.1);
        return;
      }
      read := ParseAttribute(line, Mslabel);
      if next.mslabel == "" && read.Some? && read.value.0 == next.ssrc {
        next := next.(mslabel := read.value.1);
        return;
      }
      read := ParseAttribute(line, TrackLabel);
      if next.trackLabel == "" && read.Some? && read.value.0 == next.ssrc {
        next := next.(trackLabel := read.value.1);
        return;
      }
    }

    if IsSimLine(line) {
      next := next.(sim := true);
    }
  }

  /** What the pass knows after the first `n` lines. */
  predicate IsScanned(lines: seq<string>, n: nat, video: bool, index2inject: nat, found: Found)
    requires n <= |lines|
  {
    && video == Open(Readings(lines), KindOf, n)
    && index2inject == Closing(Readings(lines), KindOf, n)
    && found == Search(Section(Readings(lines), KindOf, n))
  }

  /** One turn of the loop: line `i` opens or closes a video section, or is examined if it is in one. */
  method ScanLine(lines: seq<string>, i: nat, video: bool, index2inject: nat, found: Found)
    returns (nextVideo: bool, nextIndex: nat, nextFound: Found)
    requires i < |lines| && IsScanned(lines, i, video, index2inject, found)
    ensures IsScanned(lines, i + 1, nextVideo, nextIndex, nextFound)
  {
    nextVideo, nextIndex, nextFound := video, index2inject, found;
    var line := lines[i];
    ReadingIsUnique(line);
    var mtype := MediaType(line);
    if mtype.Some? {
      if !video && mtype.value == "video" {
        nextVideo := true;
        return;
      }
      if video {
        nextVideo, nextIndex := false, i - 1;
        return;
      }
    }
    if !video {
      return;
    }
    ghost var readings := Readings(lines);
    LinesCapture(lines);
    SectionCaptures(readings, i);
    nextFound := ExamineLine(Section(readings, KindOf, i), line, found);
  }

  /** The pass over the lines: what it found, and where the last video section closed. */
  method Scan(lines: seq<string>) returns (found: Found, index2inject: nat)
    ensures found == Search(Body(lines))
    ensures index2inject == Closing(Readings(lines), KindOf, |lines|)
  {
    found := NOTHING;
    index2inject := 0;
    var video := false;
    for i := 0 to |lines|
      invariant IsScanned(lines, i, video, index2inject, found)
    {
      video, index2inject, found := ScanLine(lines, i, video, index2inject, found);
    }
  }

  method InjectSimulcast(simulcast: int, given: seq<string>, draws: nat -> Draw) returns (lines: seq<string>)
    ensures lines == Munged(simulcast, given, draws)
  {
    lines := given;
    if simulcast < 1 || simulcast > 2 {
      return;
    }
    var found, index2inject := Scan(lines);
    if found.Complete() {
      var simulcastLines := PrintGroup(simulcast, found, draws);
      var at := if index2inject != 0 then index2inject else |lines|;
      lines := lines[..at] + simulcastLines + lines[at..];
    }
  }
}
