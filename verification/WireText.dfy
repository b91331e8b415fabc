/** The text of a message as it is taken off the wire: two values that the gateway writes as strings are numbers to
    the models, and are replaced before the message is parsed. */
module WireText {
  const UNPUBLISHED := "\"unpublished\": \"ok\""
  const UNPUBLISHED_MENDED := "\"unpublished\": 0"
  const LEAVING := "\"leaving\": \"ok\""
  const LEAVING_MENDED := "\"leaving\": 0"

  predicate StandsAt(s: string, tag: string, n: nat) {
    n + |tag| <= |s| && s[n..n + |tag|] == tag
  }

  predicate Occurs(s: string, tag: string) {
    exists n :: 0 <= n <= |s| && StandsAt(s, tag, n)
  }

  /** `std::string::find`: the first place where the tag stands; past the end if it stands nowhere. */
  method Find(s: string, tag: string) returns (pos: nat)
    ensures pos <= |s| + 1 && (pos <= |s| <==> Occurs(s, tag))
    ensures pos <= |s| ==> StandsAt(s, tag, pos)
    ensures forall n :: 0 <= n < pos && n <= |s| ==> !StandsAt(s, tag, n)
  {
    pos := 0;
    while pos <= |s| && !StandsAt(s, tag, pos)
      invariant pos <= |s| + 1
      invariant forall n :: 0 <= n < pos ==> !StandsAt(s, tag, n)
    {
      pos := pos + 1;
    }
  }

  function FirstFrom(s: string, tag: string, from: nat): (n: nat)
    requires exists k :: from <= k <= |s| && StandsAt(s, tag, k)
    ensures from <= n <= |s| && StandsAt(s, tag, n)
    ensures forall k :: from <= k < n ==> !StandsAt(s, tag, k)
    decreases |s| - from
  {
    if StandsAt(s, tag, from) then from else FirstFrom(s, tag, from + 1)
  }

  /** The first occurrence of the tag replaced, if there is one. */
  function Replaced(s: string, tag: string, value: string): string {
    if !Occurs(s, tag) then s
    else
      var n := FirstFrom(s, tag, 0);
      s[..n] + value + s[n + |tag|..]
  }

  /** The message that is parsed. */
  function Mended(json: string): string {
    Replaced(Replaced(json, UNPUBLISHED, UNPUBLISHED_MENDED), LEAVING, LEAVING_MENDED)
  }

  method ReplaceFirst(s: string, tag: string, value: string) returns (data: string)
    ensures data == Replaced(s, tag, value)
  {
    data := s;
    var pos := Find(s, tag);
    if pos <= |s| {
      data := s[..pos] + value + s[pos + |tag|..];
    }
  }

  method Mend(json: string) returns (data: string)
    ensures data == Mended(json)
  {
    data := ReplaceFirst(json, UNPUBLISHED, UNPUBLISHED_MENDED);
    data := ReplaceFirst(data, LEAVING, LEAVING_MENDED);
  }

  lemma ReplacingShortens(s: string, tag: string, value: string)
    requires |value| < |tag|
    ensures |Replaced(s, tag, value)| <= |s|
    ensures Replaced(s, tag, value) == s <==> !Occurs(s, tag)
  {
  }

  /** A message is parsed as it was received exactly if neither value is in it. */
  lemma MendsOnlyWhatOccurs(json: string)
    ensures Mended(json) == json <==> !Occurs(json, UNPUBLISHED) && !Occurs(json, LEAVING)
  {
    ReplacingShortens(json, UNPUBLISHED, UNPUBLISHED_MENDED);
    ReplacingShortens(Replaced(json, UNPUBLISHED, UNPUBLISHED_MENDED), LEAVING, LEAVING_MENDED);
    if Occurs(json, UNPUBLISHED) {
      assert |Replaced(json, UNPUBLISHED, UNPUBLISHED_MENDED)| < |json|;
    }
  }

  // ---------- which text is replaced ----------

  /** The tag stands after `before` and nowhere earlier. */
  predicate FirstStandsAfter(before: string, tag: string, after: string) {
    forall n :: 0 <= n < |before| ==> !StandsAt(before + tag + after, tag, n)
  }

  lemma ReplacesTheFirst(before: string, tag: string, after: string, value: string)
    requires FirstStandsAfter(before, tag, after)
    ensures Replaced(before + tag + after, tag, value) == before + value + after
  {
    var s := before + tag + after;
    assert StandsAt(s, tag, |before|);
    assert FirstFrom(s, tag, 0) == |before|;
    assert s[..|before|] == before && s[|before| + |tag|..] == after;
  }

  /** The first `"unpublished": "ok"` becomes `"unpublished": 0`. */
  lemma UnpublishedIsMended(before: string, after: string)
    requires FirstStandsAfter(before, "\"unpublished\": \"ok\"", after)
    requires !Occurs(before + "\"unpublished\": 0" + after, "\"leaving\": \"ok\"")
    ensures Mended(before + "\"unpublished\": \"ok\"" + after) == before + "\"unpublished\": 0" + after
  {
    ReplacesTheFirst(before, UNPUBLISHED, after, UNPUBLISHED_MENDED);
  }

  /** The first `"leaving": "ok"` becomes `"leaving": 0`. */
  lemma LeavingIsMended(before: string, after: string)
    requires FirstStandsAfter(before, "\"leaving\": \"ok\"", after)
    requires !Occurs(before + "\"leaving\": \"ok\"" + after, "\"unpublished\": \"ok\"")
    ensures Mended(before + "\"leaving\": \"ok\"" + after) == before + "\"leaving\": 0" + after
  {
    ReplacesTheFirst(before, LEAVING, after, LEAVING_MENDED);
  }
}
