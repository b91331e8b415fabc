/** `SDPUtils::split` and `SDPUtils::join`. */
module SdpText {
  // ---------- split ----------

  /** The position of the first delimiter; the length of `s` if it has none. */
  function UpTo(s: string, delim: char): (n: nat)
    ensures n <= |s|
    ensures forall i :: 0 <= i < n ==> s[i] != delim
    ensures n < |s| ==> s[n] == delim
  {
    if s == "" || s[0] == delim then 0 else 1 + UpTo(s[1..], delim)
  }

  /** The pieces that repeated `std::getline` reads: a delimiter ends a piece, and no piece is read at the end. */
  function Pieces(s: string, delim: char): seq<string> {
    if s == "" then []
    else
      var n := UpTo(s, delim);
      if n == |s| then [s] else [s[..n]] + Pieces(s[n + 1..], delim)
  }

  /** One `std::getline`: the next piece and what is left of the stream. */
  method GetLine(stream: string, delim: char) returns (item: string, rest: string)
    requires stream != ""
    ensures Pieces(stream, delim) == [item] + Pieces(rest, delim)
    ensures |rest| < |stream|
  {
    var n := 0;
    while n < |stream| && stream[n] != delim
      invariant n <= |stream| && forall i :: 0 <= i < n ==> stream[i] != delim
    {
      n := n + 1;
    }
    assert n == UpTo(stream, delim);
    item := stream[..n];
    rest := if n == |stream| then "" else stream[n + 1..];
    assert n == |stream| ==> item == stream && [item] + [] == [stream];
  }

  method Split(str: string, delim: char) returns (elems: seq<string>)
    ensures elems == Pieces(str, delim)
  {
    elems := [];
    var sstr := str;
    while sstr != ""
      invariant Pieces(str, delim) == elems + Pieces(sstr, delim)
      decreases |sstr|
    {
      var item;
      item, sstr := GetLine(sstr, delim);
      elems := elems + [item];
    }
  }

  // ---------- join ----------

  function Joined(lines: seq<string>, separator: string): string {
    if lines == [] then ""
    else if |lines| == 1 then lines[0]
    else lines[0] + (separator + Joined(lines[1..], separator))
  }

  lemma {:induction false} JoinedSnoc(lines: seq<string>, line: string, separator: string)
    ensures Joined(lines + [line], separator) ==
              if lines == [] then line else Joined(lines, separator) + (separator + line)
  {
    if |lines| > 1 {
      assert (lines + [line])[1..] == lines[1..] + [line];
      JoinedSnoc(lines[1..], line, separator);
      var a, b := lines[0], Joined(lines[1..], separator);
      assert a + (separator + (b + (separator + line))) == a + (separator + b) + (separator + line);
    } else if |lines| == 1 {
      assert (lines + [line])[1..] == [line];
    }
  }

  method Join(lines: seq<string>, separator: string) returns (result: string)
    ensures result == Joined(lines, separator)
  {
    result := "";
    for i := 0 to |lines|
      invariant result == Joined(lines[..i], separator)
    {
      assert lines[..i + 1] == lines[..i] + [lines[i]];
      JoinedSnoc(lines[..i], lines[i], separator);
      if i != 0 {
        result := result + separator;
      }
      ghost var before := Joined(lines[..i], separator);
      assert i != 0 ==> before + separator + lines[i] == before + (separator + lines[i]);
      assert i == 0 ==> result + lines[i] == lines[i];
      result := result + lines[i];
    }
    assert lines[..|lines|] == lines;
  }

  // ---------- the two together ----------

  predicate EndsWith(s: string, c: char) {
    s != "" && s[|s| - 1] == c
  }

  predicate EndsTwice(s: string, c: char) {
    |s| >= 2 && s[|s| - 2] == s[|s| - 1] == c
  }

  predicate Free(lines: seq<string>, delim: char) {
    forall i, j :: 0 <= i < |lines| && 0 <= j < |lines[i]| ==> lines[i][j] != delim
  }

  /** `s` without its last character if that is the delimiter. */
  function Trimmed(s: string, delim: char): string {
    if EndsWith(s, delim) then s[..|s| - 1] else s
  }

  /** Splitting and joining drops the last delimiter of a text that ends in one, and nothing else. */
  lemma {:induction false} JoinAfterSplit(s: string, delim: char)
    ensures Joined(Pieces(s, delim), [delim]) == Trimmed(s, delim)
    decreases |s|
  {
    if s != "" {
      var n := UpTo(s, delim);
      if n < |s| {
        var first, rest := s[..n], s[n + 1..];
        JoinAfterSplit(rest, delim);
        assert s == first + ([delim] + rest);
        OnePieceMore(first, rest, delim);
      }
    }
  }

  lemma OnePieceMore(first: string, rest: string, delim: char)
    requires forall j :: 0 <= j < |first| ==> first[j] != delim
    requires Joined(Pieces(rest, delim), [delim]) == Trimmed(rest, delim)
    ensures Joined(Pieces(first + ([delim] + rest), delim), [delim]) == Trimmed(first + ([delim] + rest), delim)
  {
    PiecesOfFirst(first, rest, delim);
    JoinedCons(first, Pieces(rest, delim), delim);
    if rest == "" {
      assert first + ([delim] + rest) == first + [delim];
    } else {
      LastOfConcat(first, delim, rest);
    }
  }

  lemma LastOfConcat(first: string, delim: char, rest: string)
    requires rest != ""
    ensures
      var s := first + ([delim] + rest);
      EndsWith(s, delim) == EndsWith(rest, delim) && s[..|s| - 1] == first + ([delim] + rest[..|rest| - 1])
  {
  }

  lemma JoinedCons(first: string, lines: seq<string>, delim: char)
    ensures Joined([first] + lines, [delim]) ==
              if lines == [] then first else first + ([delim] + Joined(lines, [delim]))
  {
    assert ([first] + lines)[1..] == lines;
  }

  lemma {:induction false} PiecesAreFree(s: string, delim: char)
    ensures Free(Pieces(s, delim), delim)
    decreases |s|
  {
    if s != "" {
      var n := UpTo(s, delim);
      if n < |s| {
        PiecesAreFree(s[n + 1..], delim);
      }
    }
  }

  lemma PiecesOfFirst(first: string, rest: string, delim: char)
    requires forall j :: 0 <= j < |first| ==> first[j] != delim
    ensures Pieces(first + ([delim] + rest), delim) == [first] + Pieces(rest, delim)
  {
    var s := first + ([delim] + rest);
    assert s[|first|] == delim;
    assert UpTo(s, delim) == |first|;
    assert s[..|first|] == first && s[|first| + 1..] == rest;
  }

  /** The list without an empty string at its end. */
  function WithoutEmptyEnd(lines: seq<string>): seq<string> {
    if lines != [] && lines[|lines| - 1] == "" then lines[..|lines| - 1] else lines
  }

  lemma EmptyEndOfTail(lines: seq<string>)
    requires |lines| > 1
    ensures WithoutEmptyEnd(lines) == [lines[0]] + WithoutEmptyEnd(lines[1..])
  {
    assert lines == [lines[0]] + lines[1..];
    assert lines[1..][|lines| - 2] == lines[|lines| - 1];
  }

  /** Joining and splitting gives the list back, up to one empty string at its end. */
  lemma {:induction false} SplitAfterJoin(lines: seq<string>, delim: char)
    requires Free(lines, delim)
    ensures Pieces(Joined(lines, [delim]), delim) == WithoutEmptyEnd(lines)
    decreases |lines|
  {
    if |lines| == 1 {
      assert UpTo(lines[0], delim) == |lines[0]|;
    } else if |lines| > 1 {
      SplitAfterJoin(lines[1..], delim);
      PiecesOfFirst(lines[0], Joined(lines[1..], [delim]), delim);
      EmptyEndOfTail(lines);
    }
  }

  /** The round trip is exact for the lists it can be exact for, and for no other. */
  lemma SplitInvertsJoin(lines: seq<string>, delim: char)
    ensures Pieces(Joined(lines, [delim]), delim) == lines <==>
            Free(lines, delim) && (lines == [] || lines[|lines| - 1] != "")
  {
    PiecesAreFree(Joined(lines, [delim]), delim);
    if Free(lines, delim) {
      SplitAfterJoin(lines, delim);
    }
  }

  lemma EndOfConcat(first: string, rest: string, delim: char)
    requires forall j :: 0 <= j < |first| ==> first[j] != delim
    ensures
      var s := first + ([delim] + rest);
      && (EndsTwice(s, delim) <==> rest == [delim] || EndsTwice(rest, delim))
      && (s == [delim] <==> first == "" && rest == "")
  {
    var s := first + ([delim] + rest);
    assert s[|first|] == delim;
    if rest == "" {
      assert |first| > 0 ==> s[|s| - 2] == first[|first| - 1];
    } else {
      assert s[|s| - 1] == rest[|rest| - 1];
      assert |rest| >= 2 ==> s[|s| - 2] == rest[|rest| - 2];
      assert |rest| == 1 ==> rest == [rest[0]];
    }
  }

  predicate LastIsEmpty(lines: seq<string>) {
    lines != [] && lines[|lines| - 1] == ""
  }

  lemma LastOfCons(first: string, lines: seq<string>)
    ensures LastIsEmpty([first] + lines) <==> if lines == [] then first == "" else LastIsEmpty(lines)
  {
  }

  lemma PiecesOfSome(s: string, delim: char)
    ensures Pieces(s, delim) == [] <==> s == ""
  {
  }

  /** The last piece of a text is empty exactly if the text is a delimiter or ends in two of them. */
  lemma {:induction false} LastPieceIsEmpty(s: string, delim: char)
    ensures LastIsEmpty(Pieces(s, delim)) <==> s == [delim] || EndsTwice(s, delim)
    decreases |s|
  {
    var n := UpTo(s, delim);
    if n < |s| {
      var first, rest := s[..n], s[n + 1..];
      assert s == first + ([delim] + rest);
      LastPieceIsEmpty(rest, delim);
      LastPieceMore(first, rest, delim);
    }
  }

  lemma LastPieceMore(first: string, rest: string, delim: char)
    requires forall j :: 0 <= j < |first| ==> first[j] != delim
    requires LastIsEmpty(Pieces(rest, delim)) <==> rest == [delim] || EndsTwice(rest, delim)
    ensures
      var s := first + ([delim] + rest);
      LastIsEmpty(Pieces(s, delim)) <==> s == [delim] || EndsTwice(s, delim)
  {
    PiecesOfFirst(first, rest, delim);
    EndOfConcat(first, rest, delim);
    LastOfCons(first, Pieces(rest, delim));
    PiecesOfSome(rest, delim);
  }

  lemma OnePieceOnly(s: string, delim: char)
    ensures Pieces(s, delim) == [""] <==> s == [delim]
  {
    var n := UpTo(s, delim);
    if n < |s| {
      var first, rest := s[..n], s[n + 1..];
      assert s == first + ([delim] + rest);
      PiecesOfFirst(first, rest, delim);
      PiecesOfSome(rest, delim);
      assert [first] + [] == [first] && (rest != "" ==> |[first] + Pieces(rest, delim)| > 1);
      EndOfConcat(first, rest, delim);
    }
  }

  /** More than one line, the last of them empty. */
  predicate EndsEmpty(lines: seq<string>) {
    |lines| >= 2 && LastIsEmpty(lines)
  }

  lemma JoinedEndsWith(lines: seq<string>, delim: char)
    requires Free(lines, delim)
    ensures EndsWith(Joined(lines, [delim]), delim) <==> EndsEmpty(lines)
    ensures EndsEmpty(lines) ==>
              |Joined(lines, [delim])| == |Joined(lines[..|lines| - 1], [delim])| + 1
  {
    if lines != [] {
      var init, last := lines[..|lines| - 1], lines[|lines| - 1];
      assert lines == init + [last];
      JoinedSnoc(init, last, [delim]);
    }
  }

  /** A text has more than one piece, the last of them empty, exactly if it ends in two delimiters. */
  lemma LastOfTwo(s: string, delim: char)
    ensures EndsEmpty(Pieces(s, delim)) <==> EndsTwice(s, delim)
  {
    LastPieceIsEmpty(s, delim);
    OnePieceOnly(s, delim);
    var lines := Pieces(s, delim);
    assert |lines| == 1 ==> lines == [lines[0]];
  }
}
