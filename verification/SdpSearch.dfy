/** What one pass of `SDPUtils::injectSimulcast` looks for, told declaratively over the lines of the video sections. */
module SdpSearch {
  import opened SdpSections

  datatype Key = Cname | Mslabel | TrackLabel

  /** What a line says: an m-line, a FID group, an attribute of a source, a SIM group, or nothing of interest. */
  datatype Reading =
    | Media(video: bool)
    | Fid(ssrc: string, repair: string)
    | Attribute(key: Key, ssrc: string, value: string)
    | Sim
    | Other

  function KindOf(r: Reading): Kind {
    match r
    case Media(video) => if video then Opener else Closer
    case _ => Plain
  }

  /** What one pass finds; an empty string stands for "not found". */
  datatype Found = Found(ssrc: string, repair: string, cname: string, mslabel: string, trackLabel: string, sim: bool) {
    /** A source with all its attributes, in sections without a simulcast group. */
    predicate Complete() {
      !sim && ssrc != "" && cname != "" && mslabel != "" && trackLabel != ""
    }
  }

  const NOTHING := Found("", "", "", "", "", false)

  /** A line that can name the source to copy. */
  predicate IsAnchor(r: Reading) {
    r.Fid? || (r.Attribute? && r.key == Cname)
  }

  /** The position of the first anchor; the length of `body` if it has none. */
  function FirstAnchor(body: seq<Reading>): (k: nat)
    ensures k <= |body|
    ensures k < |body| ==> IsAnchor(body[k])
    ensures forall j :: 0 <= j < k ==> !IsAnchor(body[j])
  {
    if body == [] || IsAnchor(body[0]) then 0 else 1 + FirstAnchor(body[1..])
  }

  predicate GivesFor(r: Reading, key: Key, ssrc: string) {
    r.Attribute? && r.key == key && r.ssrc == ssrc
  }

  /** The value of attribute `key` on the first line of `body` that gives it for `ssrc`. */
  function FirstValue(body: seq<Reading>, key: Key, ssrc: string): string {
    if body == [] then ""
    else if GivesFor(body[0], key, ssrc) then body[0].value
    else FirstValue(body[1..], key, ssrc)
  }

  predicate HasSim(body: seq<Reading>) {
    Sim in body
  }

  /** The first anchor names the source; each attribute is the first one given for that source from there on. */
  function Search(body: seq<Reading>): Found {
    var k := FirstAnchor(body);
    if k == |body| then NOTHING.(sim := HasSim(body))
    else
      var ssrc := body[k].ssrc;
      var rest := body[k..];
      Found(ssrc, if body[k].Fid? then body[k].repair else "",
            FirstValue(rest, Cname, ssrc), FirstValue(rest, Mslabel, ssrc), FirstValue(rest, TrackLabel, ssrc),
            HasSim(body))
  }

  /** `FirstValue` is the first: line `j` gives the value and none before it does; with no such line it is empty. */
  lemma {:induction false} FirstValueIsFirst(body: seq<Reading>, key: Key, ssrc: string) returns (j: nat)
    ensures j <= |body| && forall i :: 0 <= i < j ==> !GivesFor(body[i], key, ssrc)
    ensures j == |body| ==> FirstValue(body, key, ssrc) == ""
    ensures j < |body| ==> body[j] == Attribute(key, ssrc, FirstValue(body, key, ssrc))
  {
    if body == [] || GivesFor(body[0], key, ssrc) {
      j := 0;
    } else {
      j := FirstValueIsFirst(body[1..], key, ssrc);
      j := j + 1;
    }
  }

  // ---------- one more line ----------

  /** Numbers and tokens are never empty, so the empty string can mean "not found". */
  predicate Captures(r: Reading) {
    match r
    case Fid(ssrc, repair) => ssrc != "" && repair != ""
    case Attribute(_, ssrc, value) => ssrc != "" && value != ""
    case _ => true
  }

  predicate AllCapture(body: seq<Reading>) {
    forall i :: 0 <= i < |body| ==> Captures(body[i])
  }

  lemma {:induction false} FirstAnchorSnoc(body: seq<Reading>, r: Reading)
    ensures FirstAnchor(body + [r]) ==
              if FirstAnchor(body) < |body| || IsAnchor(r) then FirstAnchor(body) else |body| + 1
  {
    if body != [] {
      assert (body + [r])[1..] == body[1..] + [r];
      FirstAnchorSnoc(body[1..], r);
    } else {
      assert [r][1..] == [];
    }
  }

  lemma {:induction false} FirstValueSnoc(body: seq<Reading>, r: Reading, key: Key, ssrc: string)
    requires AllCapture(body)
    ensures FirstValue(body + [r], key, ssrc) ==
              if FirstValue(body, key, ssrc) == "" && GivesFor(r, key, ssrc) then r.value
              else FirstValue(body, key, ssrc)
  {
    if body != [] {
      assert (body + [r])[1..] == body[1..] + [r];
      FirstValueSnoc(body[1..], r, key, ssrc);
    } else {
      assert [r][1..] == [];
    }
  }

  lemma SourceFoundAtAnchor(body: seq<Reading>)
    requires AllCapture(body)
    ensures Search(body).ssrc == "" <==> FirstAnchor(body) == |body|
    ensures Search(body).ssrc == "" ==> Search(body) == NOTHING.(sim := HasSim(body))
  {
  }

  /** While no source is known, only an anchor or a SIM line changes what is found. */
  lemma SearchBeforeAnchor(body: seq<Reading>, r: Reading)
    requires AllCapture(body) && Captures(r)
    requires Search(body).ssrc == ""
    ensures
      var f, g := Search(body), Search(body + [r]);
      match r
      case Fid(ssrc, repair) => g == f.(ssrc := ssrc, repair := repair)
      case Attribute(Cname, ssrc, value) => g == f.(ssrc := ssrc, cname := value)
      case Sim => g == f.(sim := true)
      case _ => g == f
  {
    SourceFoundAtAnchor(body);
    FirstAnchorSnoc(body, r);
    if IsAnchor(r) {
      assert (body + [r])[|body|..] == [] + [r];
      FirstValueSnoc([], r, Cname, r.ssrc);
      FirstValueSnoc([], r, Mslabel, r.ssrc);
      FirstValueSnoc([], r, TrackLabel, r.ssrc);
    }
  }

  /** Once the source is known, each attribute keeps the first value given for it. */
  lemma SearchAfterAnchor(body: seq<Reading>, r: Reading)
    requires AllCapture(body)
    requires Search(body).ssrc != ""
    ensures
      var f, g := Search(body), Search(body + [r]);
      match r
      case Attribute(Cname, ssrc, value) => g == if ssrc == f.ssrc && f.cname == "" then f.(cname := value) else f
      case Attribute(Mslabel, ssrc, value) => g == if ssrc == f.ssrc && f.mslabel == "" then f.(mslabel := value) else f
      case Attribute(TrackLabel, ssrc, value) =>
        g == if ssrc == f.ssrc && f.trackLabel == "" then f.(trackLabel := value) else f
      case Sim => g == f.(sim := true)
      case _ => g == f
  {
    SourceFoundAtAnchor(body);
    FirstAnchorSnoc(body, r);
    var k, ssrc := FirstAnchor(body), Search(body).ssrc;
    assert (body + [r])[k..] == body[k..] + [r];
    FirstValueSnoc(body[k..], r, Cname, ssrc);
    FirstValueSnoc(body[k..], r, Mslabel, ssrc);
    FirstValueSnoc(body[k..], r, TrackLabel, ssrc);
  }
}
