/** The line recognisers of the SDP rewriter. The source writes them as regular expressions; here each one is
    a scanner, proved to accept exactly the lines of the form its pattern describes (letters of the pattern
    match in either case, as the `icase` flag asks). */
module SdpGrammar {
  import opened Option
  import opened SdpSearch

  predicate IsDigit(c: char) {
    '0' <= c <= '9'
  }

  /** The class `\s` of the patterns: space, tab, line feed, vertical tab, form feed, carriage return. */
  predicate IsSpace(c: char) {
    c == ' ' || c == '\t' || c == '\n' || c == '\U{0B}' || c == '\U{0C}' || c == '\r'
  }

  predicate NotSpace(c: char) {
    !IsSpace(c)
  }

  /** One or more digits: what `(\d+)` captures. */
  predicate IsNumber(s: string) {
    s != "" && forall i :: 0 <= i < |s| ==> IsDigit(s[i])
  }

  /** One or more characters other than white space: what `(\S+)` captures. */
  predicate IsToken(s: string) {
    s != "" && forall i :: 0 <= i < |s| ==> NotSpace(s[i])
  }

  function Lower(c: char): char {
    if 'A' <= c <= 'Z' then c - 'A' + 'a' else c
  }

  /** `s` spells `literal`, letters compared without regard to case. */
  predicate Spells(s: string, literal: string) {
    |s| == |literal| && forall i :: 0 <= i < |s| ==> Lower(s[i]) == Lower(literal[i])
  }

  predicate StartsLike(s: string, literal: string) {
    |literal| <= |s| && Spells(s[..|literal|], literal)
  }

  /** The length of the longest prefix of `s` whose characters all satisfy `p`. */
  function Run(s: string, p: char -> bool): (n: nat)
    ensures n <= |s|
    ensures forall i :: 0 <= i < n ==> p(s[i])
    ensures n < |s| ==> !p(s[n])
  {
    if s == "" || !p(s[0]) then 0 else 1 + Run(s[1..], p)
  }

  /** A run ends where the first character outside the class stands. */
  lemma {:induction false} RunOfPrefix(a: string, b: string, p: char -> bool)
    requires forall i :: 0 <= i < |a| ==> p(a[i])
    requires b == "" || !p(b[0])
    ensures Run(a + b, p) == |a|
  {
    if a == "" {
      assert a + b == b;
    } else {
      assert (a + b)[1..] == a[1..] + b;
      RunOfPrefix(a[1..], b, p);
    }
  }

  // ---------- m-lines ----------

  /** The media type of an m-line: the token between `m=` and the first space. */
  function MediaType(line: string): (t: Option<string>) {
    if !StartsLike(line, "m=") then None
    else
      var rest := line[2..];
      var n := Run(rest, NotSpace);
      if 0 < n < |rest| && rest[n] == ' ' then Some(rest[..n]) else None
  }

  ghost predicate IsMediaLine(line: string, media: string) {
    && IsToken(media)
    && 2 + |media| < |line|
    && Spells(line[..2], "m=")
    && line[2..2 + |media|] == media
    && line[2 + |media|] == ' '
  }

  lemma MediaTypeReadsMediaLines(line: string, media: string)
    ensures MediaType(line) == Some(media) <==> IsMediaLine(line, media)
  {
    if IsMediaLine(line, media) {
      var rest := line[2..];
      assert rest == media + rest[|media|..];
      RunOfPrefix(media, rest[|media|..], NotSpace);
    }
  }

  // ---------- attribute lines ----------

  /** `a=ssrc:<number> <key>:<token>\r`, the shape shared by the cname, mslabel and label attributes. */
  ghost predicate IsSsrcLine(line: string, key: string, ssrc: string, value: string) {
    exists head: string, mid: string ::
      && line == head + (ssrc + (mid + (value + "\r")))
      && Spells(head, "a=ssrc:")
      && Spells(mid, " " + key + ":")
      && IsNumber(ssrc)
      && IsToken(value)
  }

  function ParseSsrcLine(line: string, key: string): Option<(string, string)> {
    if !StartsLike(line, "a=ssrc:") then None
    else
      var rest := line[7..];
      var n := Run(rest, IsDigit);
      var tail := rest[n..];
      var mid := " " + key + ":";
      if n == 0 || !StartsLike(tail, mid) then None
      else
        var value := tail[|mid|..];
        var m := Run(value, NotSpace);
        if 0 < m && m + 1 == |value| && value[m] == '\r' then Some((rest[..n], value[..m])) else None
  }

  lemma ParseSsrcLineFinds(head: string, ssrc: string, mid: string, value: string, key: string)
    requires Spells(head, "a=ssrc:") && Spells(mid, " " + key + ":")
    requires IsNumber(ssrc) && IsToken(value)
    ensures ParseSsrcLine(head + (ssrc + (mid + (value + "\r"))), key) == Some((ssrc, value))
  {
    var tail := mid + (value + "\r");
    var line := head + (ssrc + tail);
    Divide(head, ssrc + tail);
    assert StartsLike(line, "a=ssrc:");
    assert !IsDigit(tail[0]) by {
      assert Lower(mid[0]) == Lower((" " + key + ":")[0]);
    }
    RunOfPrefix(ssrc, tail, IsDigit);
    Divide(ssrc, tail);
    Divide(mid, value + "\r");
    RunOfPrefix(value, "\r", NotSpace);
    Divide(value, "\r");
  }

  lemma Divide(a: string, b: string)
    ensures (a + b)[..|a|] == a && (a + b)[|a|..] == b
  {
  }

  lemma BeforeReturn(s: string, n: nat)
    requires |s| == n + 1 && s[n] == '\r'
    ensures s == s[..n] + "\r"
  {
  }

  /** The pieces between which a scanned line divides. */
  lemma ParseSsrcLineDivides(line: string, key: string) returns (head: string, mid: string)
    requires ParseSsrcLine(line, key).Some?
    ensures var (ssrc, value) := ParseSsrcLine(line, key).value;
            line == head + (ssrc + (mid + (value + "\r"))) && IsNumber(ssrc) && IsToken(value)
    ensures Spells(head, "a=ssrc:") && Spells(mid, " " + key + ":")
  {
    var (ssrc, value) := ParseSsrcLine(line, key).value;
    var lit := " " + key + ":";
    var rest := line[7..];
    var tail := rest[|ssrc|..];
    var last := tail[|lit|..];
    head, mid := line[..7], tail[..|lit|];
    BeforeReturn(last, |value|);
    Rejoin(tail, |lit|);
    Rejoin(rest, |ssrc|);
    Rejoin(line, 7);
  }

  lemma Rejoin(s: string, n: nat)
    requires n <= |s|
    ensures s == s[..n] + s[n..]
  {
  }

  /** The scanner accepts exactly the lines of that shape, and captures the same number and token. */
  lemma ParseSsrcLineReads(line: string, key: string, ssrc: string, value: string)
    ensures ParseSsrcLine(line, key) == Some((ssrc, value)) <==> IsSsrcLine(line, key, ssrc, value)
  {
    if ParseSsrcLine(line, key) == Some((ssrc, value)) {
      var head, mid := ParseSsrcLineDivides(line, key);
    } else if IsSsrcLine(line, key, ssrc, value) {
      var head, mid :|
        && line == head + (ssrc + (mid + (value + "\r")))
        && Spells(head, "a=ssrc:")
        && Spells(mid, " " + key + ":");
      ParseSsrcLineFinds(head, ssrc, mid, value, key);
    }
  }

  /** `<prefix><number> <number>\r`. */
  ghost predicate IsPairLine(line: string, prefix: string, first: string, second: string) {
    exists head: string ::
      && line == head + (first + (" " + (second + "\r")))
      && Spells(head, prefix)
      && IsNumber(first)
      && IsNumber(second)
  }

  function ParsePair(line: string, prefix: string): Option<(string, string)> {
    if !StartsLike(line, prefix) then None
    else
      var rest := line[|prefix|..];
      var n := Run(rest, IsDigit);
      var tail := rest[n..];
      if n == 0 || tail == "" || tail[0] != ' ' then None
      else
        var last := tail[1..];
        var m := Run(last, IsDigit);
        if 0 < m && m + 1 == |last| && last[m] == '\r' then Some((rest[..n], last[..m])) else None
  }

  lemma ParsePairFinds(head: string, prefix: string, first: string, second: string)
    requires Spells(head, prefix)
    requires IsNumber(first) && IsNumber(second)
    ensures ParsePair(head + (first + (" " + (second + "\r"))), prefix) == Some((first, second))
  {
    var tail := " " + (second + "\r");
    Divide(head, first + tail);
    RunOfPrefix(first, tail, IsDigit);
    Divide(first, tail);
    Divide(" ", second + "\r");
    RunOfPrefix(second, "\r", IsDigit);
    Divide(second, "\r");
  }

  lemma SecondNumber(tail: string, m: nat)
    requires |tail| == m + 2 && tail[0] == ' ' && tail[1..][m] == '\r'
    ensures tail == " " + (tail[1..][..m] + "\r")
  {
  }

  lemma ParsePairDivides(line: string, prefix: string) returns (head: string)
    requires ParsePair(line, prefix).Some?
    ensures var (first, second) := ParsePair(line, prefix).value;
            line == head + (first + (" " + (second + "\r"))) && IsNumber(first) && IsNumber(second)
    ensures Spells(head, prefix)
  {
    var (first, second) := ParsePair(line, prefix).value;
    var rest := line[|prefix|..];
    var tail := rest[|first|..];
    head := line[..|prefix|];
    SecondNumber(tail, |second|);
    Rejoin(rest, |first|);
    Rejoin(line, |prefix|);
  }

  lemma ParsePairReads(line: string, prefix: string, first: string, second: string)
    ensures ParsePair(line, prefix) == Some((first, second)) <==> IsPairLine(line, prefix, first, second)
  {
    if ParsePair(line, prefix) == Some((first, second)) {
      var head := ParsePairDivides(line, prefix);
    } else if IsPairLine(line, prefix, first, second) {
      var head :|
        && line == head + (first + (" " + (second + "\r")))
        && Spells(head, prefix);
      ParsePairFinds(head, prefix, first, second);
    }
  }

  // ---------- what a line says ----------

  const FID := "a=ssrc-group:FID "
  const SIM := "a=ssrc-group:SIM "

  function KeyText(key: Key): (s: string)
    ensures s != ""
  {
    match key
    case Cname => "cname"
    case Mslabel => "mslabel"
    case TrackLabel => "label"
  }

  /** The flow-identification group: a primary source and its repair source. */
  function ParseFid(line: string): Option<(string, string)> {
    ParsePair(line, FID)
  }

  function ParseAttribute(line: string, key: Key): Option<(string, string)> {
    ParseSsrcLine(line, KeyText(key))
  }

  /** A line that announces a simulcast group (compared by `std::string::find`, so letter case counts). */
  predicate IsSimLine(line: string) {
    SIM <= line
  }

  /** The one reading of a line. The media type is compared with "video" exactly, letter case included. */
  function Read(line: string): Reading {
    match MediaType(line)
    case Some(media) => Media(media == "video")
    case None =>
      match ParseFid(line)
      case Some(pair) => Fid(pair.0, pair.1)
      case None =>
        if ParseAttribute(line, Cname).Some? then
          var (ssrc, value) := ParseAttribute(line, Cname).value; Attribute(Cname, ssrc, value)
        else if ParseAttribute(line, Mslabel).Some? then
          var (ssrc, value) := ParseAttribute(line, Mslabel).value; Attribute(Mslabel, ssrc, value)
        else if ParseAttribute(line, TrackLabel).Some? then
          var (ssrc, value) := ParseAttribute(line, TrackLabel).value; Attribute(TrackLabel, ssrc, value)
        else if IsSimLine(line) then Sim
        else Other
  }

  /** The order of the tests in `Read` does not matter: every recogniser accepts exactly the lines with its reading. */
  lemma ReadingIsUnique(line: string)
    ensures MediaType(line).Some? <==> Read(line).Media?
    ensures ParseFid(line) == if Read(line).Fid? then Some((Read(line).ssrc, Read(line).repair)) else None
    ensures IsSimLine(line) <==> Read(line) == Sim
    ensures AttributeIsRead(line, Cname) && AttributeIsRead(line, Mslabel) && AttributeIsRead(line, TrackLabel)
    ensures Captures(Read(line))
  {
    MediaLinesAreNoAttributes(line, Cname);
    MediaLinesAreNoAttributes(line, Mslabel);
    MediaLinesAreNoAttributes(line, TrackLabel);
    GroupLinesAreNoSourceLines(line, Cname);
    GroupLinesAreNoSourceLines(line, Mslabel);
    GroupLinesAreNoSourceLines(line, TrackLabel);
    KeysAreExclusive(line, Cname, Mslabel);
    KeysAreExclusive(line, Cname, TrackLabel);
    KeysAreExclusive(line, Mslabel, TrackLabel);
  }

  predicate AttributeIsRead(line: string, key: Key) {
    ParseAttribute(line, key) ==
    if Read(line).Attribute? && Read(line).key == key then Some((Read(line).ssrc, Read(line).value)) else None
  }

  lemma DifferentStarts(line: string, a: string, b: string, i: nat)
    requires i < |a| && i < |b| && Lower(a[i]) != Lower(b[i])
    ensures !StartsLike(line, a) || !StartsLike(line, b)
  {
    if i < |line| {
      assert |a| <= |line| ==> line[..|a|][i] == line[i];
      assert |b| <= |line| ==> line[..|b|][i] == line[i];
    }
  }

  lemma SimLinesStartLikeSim(line: string)
    ensures IsSimLine(line) ==> StartsLike(line, SIM)
  {
    if SIM <= line {
      assert line[..|SIM|] == SIM;
    }
  }

  lemma MediaLinesAreNoAttributes(line: string, key: Key)
    ensures MediaType(line).Some? ==> ParseFid(line).None? && !IsSimLine(line) && ParseAttribute(line, key).None?
  {
    DifferentStarts(line, "m=", FID, 0);
    DifferentStarts(line, "m=", SIM, 0);
    DifferentStarts(line, "m=", "a=ssrc:", 0);
    SimLinesStartLikeSim(line);
  }

  lemma GroupLinesAreNoSourceLines(line: string, key: Key)
    ensures ParseFid(line).Some? || IsSimLine(line) ==> ParseAttribute(line, key).None?
    ensures ParseFid(line).None? || !IsSimLine(line)
  {
    DifferentStarts(line, FID, SIM, 13);
    DifferentStarts(line, FID, "a=ssrc:", 6);
    DifferentStarts(line, SIM, "a=ssrc:", 6);
    SimLinesStartLikeSim(line);
  }

  lemma KeysAreExclusive(line: string, key: Key, other: Key)
    requires key != other
    ensures ParseAttribute(line, key).None? || ParseAttribute(line, other).None?
  {
    if StartsLike(line, "a=ssrc:") {
      var rest := line[7..];
      DifferentStarts(rest[Run(rest, IsDigit)..], " " + KeyText(key) + ":", " " + KeyText(other) + ":", 1);
    }
  }

  // ---------- letter case ----------

  lemma SpellsInCapitals()
    ensures Spells("M=", "m=") && Spells("A=SSRC:", "a=ssrc:") && Spells(" CNAME:", " " + "cname" + ":")
  {
  }

  lemma FidInCapitals()
    ensures Spells("A=SSRC-GROUP:fid ", FID)
  {
  }

  /** Letters of a pattern match in either case; what is captured stays as it is. */
  lemma LetterCaseDoesNotCount(token: string, number: string, second: string)
    requires IsToken(token) && IsNumber(number) && IsNumber(second)
    ensures MediaType("M=" + (token + " ")) == Some(token)
    ensures ParseSsrcLine("A=SSRC:" + (number + (" CNAME:" + (token + "\r"))), "cname") == Some((number, token))
    ensures ParsePair("A=SSRC-GROUP:fid " + (number + (" " + (second + "\r"))), FID) == Some((number, second))
  {
    SpellsInCapitals();
    FidInCapitals();
    ParseSsrcLineFinds("A=SSRC:", number, " CNAME:", token, "cname");
    ParsePairFinds("A=SSRC-GROUP:fid ", FID, number, second);
    MediaLineInCapitals(token);
  }

  lemma MediaLineInCapitals(token: string)
    requires IsToken(token)
    ensures MediaType("M=" + (token + " ")) == Some(token)
  {
    SpellsInCapitals();
    var line := "M=" + (token + " ");
    Divide("M=", token + " ");
    Divide(token, " ");
    assert line[2..] == token + " ";
    RunOfPrefix(token, " ", NotSpace);
  }
}
