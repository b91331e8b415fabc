/** Sections of a list of lines. What a line is does not matter here: `kind` tells the lines that can open a
    section (`Opener`) and the other ones that close it (`Closer`) from all the rest (`Plain`). */
module SdpSections {
  datatype Kind = Plain | Opener | Closer

  /** After the first `n` lines a section is open. Only an opener opens one, and anything but a plain line closes
      an open one, another opener too. */
  predicate Open<T>(lines: seq<T>, kind: T -> Kind, n: nat)
    requires n <= |lines|
  {
    n > 0 && if Open(lines, kind, n - 1) then kind(lines[n - 1]) == Plain else kind(lines[n - 1]) == Opener
  }

  /** Line `i` is examined: it stands inside a section. */
  predicate Examined<T>(lines: seq<T>, kind: T -> Kind, i: nat)
    requires i < |lines|
  {
    Open(lines, kind, i) && kind(lines[i]) == Plain
  }

  /** The examined lines among the first `n`. */
  function Section<T>(lines: seq<T>, kind: T -> Kind, n: nat): (section: seq<T>)
    requires n <= |lines|
  {
    if n == 0 then []
    else if Examined(lines, kind, n - 1) then Section(lines, kind, n - 1) + [lines[n - 1]]
    else Section(lines, kind, n - 1)
  }

  lemma {:induction false} SectionHasOnlyLines<T>(lines: seq<T>, kind: T -> Kind, n: nat)
    requires n <= |lines|
    ensures forall line :: line in Section(lines, kind, n) ==> line in lines
  {
    if n > 0 {
      SectionHasOnlyLines(lines, kind, n - 1);
      assert lines[n - 1] in lines;
    }
  }

  /** One less than the position of the line, among the first `n`, that closed the last closed section; 0 if there
      is none. */
  function Closing<T>(lines: seq<T>, kind: T -> Kind, n: nat): (c: nat)
    requires n <= |lines|
    ensures c == 0 || c < n
  {
    if n == 0 then 0
    else if Open(lines, kind, n - 1) && kind(lines[n - 1]) != Plain then n - 2
    else Closing(lines, kind, n - 1)
  }

  // ---------- lists that partly agree ----------

  /** The sections of a prefix depend on that prefix alone. */
  lemma {:induction false} SamePrefix<T>(a: seq<T>, b: seq<T>, kind: T -> Kind, n: nat)
    requires n <= |a| && n <= |b|
    requires a[..n] == b[..n]
    ensures Open(a, kind, n) == Open(b, kind, n) && Section(a, kind, n) == Section(b, kind, n)
  {
    if n > 0 {
      assert a[..n][..n - 1] == a[..n - 1] && b[..n][..n - 1] == b[..n - 1];
      assert a[n - 1] == a[..n][n - 1] && b[n - 1] == b[..n][n - 1];
      SamePrefix(a, b, kind, n - 1);
    }
  }

  /** Plain lines neither open nor close a section. */
  lemma {:induction false} PlainLines<T>(lines: seq<T>, kind: T -> Kind, n: nat, m: nat)
    requires n <= m <= |lines|
    requires forall i :: n <= i < m ==> kind(lines[i]) == Plain
    ensures Open(lines, kind, m) == Open(lines, kind, n)
    ensures Section(lines, kind, m) ==
              if Open(lines, kind, n) then Section(lines, kind, n) + lines[n..m] else Section(lines, kind, n)
    decreases m
  {
    if n < m {
      PlainLines(lines, kind, n, m - 1);
      assert lines[n..m - 1] + [lines[m - 1]] == lines[n..m];
    }
  }

  /** Reading on loses no examined line. */
  lemma {:induction false} SectionGrows<T>(lines: seq<T>, kind: T -> Kind, n: nat, m: nat)
    requires n <= m <= |lines|
    ensures Section(lines, kind, n) <= Section(lines, kind, m)
    decreases m
  {
    if n < m {
      SectionGrows(lines, kind, n, m - 1);
    }
  }

  /** Two readings that agree at one point agree for as long as they read the same lines. */
  lemma {:induction false} SameContinuation<T>(a: seq<T>, b: seq<T>, kind: T -> Kind, shift: nat, from: nat, n: nat)
    requires from <= n <= |a| && n + shift <= |b|
    requires Open(a, kind, from) == Open(b, kind, from + shift)
    requires Section(a, kind, from) == Section(b, kind, from + shift)
    requires from + shift <= |b| && a[from..] == b[from + shift..]
    ensures Open(a, kind, n) == Open(b, kind, n + shift) && Section(a, kind, n) == Section(b, kind, n + shift)
    decreases n
  {
    if from < n {
      SameContinuation(a, b, kind, shift, from, n - 1);
      assert a[n - 1] == a[from..][n - 1 - from] == b[n - 1 + shift];
    }
  }

  // ---------- inserting plain lines ----------

  /** `out` is `lines` with `group` inserted before position `at`. */
  predicate Inserted<T(==)>(lines: seq<T>, at: nat, group: seq<T>, out: seq<T>) {
    at <= |lines| && out == lines[..at] + group + lines[at..]
  }

  lemma InsertedAligns<T>(lines: seq<T>, at: nat, group: seq<T>, out: seq<T>)
    requires Inserted(lines, at, group, out)
    ensures |out| == |lines| + |group|
    ensures out[..at] == lines[..at] && out[at..at + |group|] == group && out[at + |group|..] == lines[at..]
  {
  }

  lemma UpToTheGroup<T>(lines: seq<T>, kind: T -> Kind, at: nat, group: seq<T>, out: seq<T>)
    requires Inserted(lines, at, group, out)
    requires forall line :: line in group ==> kind(line) == Plain
    ensures |out| == |lines| + |group|
    ensures Open(out, kind, at + |group|) == Open(lines, kind, at)
    ensures Section(out, kind, at + |group|) ==
              if Open(lines, kind, at) then Section(lines, kind, at) + group else Section(lines, kind, at)
  {
    InsertedAligns(lines, at, group, out);
    SamePrefix(lines, out, kind, at);
    forall i | at <= i < at + |group| ensures kind(out[i]) == Plain {
      assert out[i] == out[at..at + |group|][i - at];
      assert out[i] in group;
    }
    PlainLines(out, kind, at, at + |group|);
  }

  /** Plain lines inserted inside a section are examined. */
  lemma InsideIsExamined<T>(lines: seq<T>, kind: T -> Kind, at: nat, group: seq<T>, out: seq<T>)
    requires Inserted(lines, at, group, out)
    requires forall line :: line in group ==> kind(line) == Plain
    requires Open(lines, kind, at)
    ensures forall line :: line in group ==> line in Section(out, kind, |out|)
  {
    UpToTheGroup(lines, kind, at, group, out);
    SectionGrows(out, kind, at + |group|, |out|);
    forall line | line in group ensures line in Section(out, kind, |out|) {
      InPrefix(line, Section(lines, kind, at), group, Section(out, kind, |out|));
    }
  }

  lemma InPrefix<T>(x: T, a: seq<T>, b: seq<T>, all: seq<T>)
    requires x in b && a + b <= all
    ensures x in all
  {
    var i :| 0 <= i < |b| && b[i] == x;
    assert all[|a| + i] == (a + b)[|a| + i] == x;
  }

  /** Plain lines inserted outside leave the examined lines as they are. */
  lemma OutsideIsNotExamined<T>(lines: seq<T>, kind: T -> Kind, at: nat, group: seq<T>, out: seq<T>)
    requires Inserted(lines, at, group, out)
    requires forall line :: line in group ==> kind(line) == Plain
    requires !Open(lines, kind, at)
    ensures Section(out, kind, |out|) == Section(lines, kind, |lines|)
  {
    UpToTheGroup(lines, kind, at, group, out);
    InsertedAligns(lines, at, group, out);
    SameContinuation(lines, out, kind, |group|, at, |lines|);
  }

  /** The lines that are not plain, in order. */
  function Marks<T>(lines: seq<T>, kind: T -> Kind): seq<T> {
    if lines == [] then []
    else if kind(lines[0]) != Plain then [lines[0]] + Marks(lines[1..], kind)
    else Marks(lines[1..], kind)
  }

  lemma {:induction false} MarksOfConcat<T>(a: seq<T>, b: seq<T>, kind: T -> Kind)
    ensures Marks(a + b, kind) == Marks(a, kind) + Marks(b, kind)
  {
    if a == [] {
      assert a + b == b;
    } else {
      assert (a + b)[1..] == a[1..] + b;
      MarksOfConcat(a[1..], b, kind);
    }
  }

  lemma {:induction false} PlainLinesHaveNoMarks<T>(lines: seq<T>, kind: T -> Kind)
    requires forall line :: line in lines ==> kind(line) == Plain
    ensures Marks(lines, kind) == []
  {
    if lines != [] {
      assert lines[0] in lines;
      PlainLinesHaveNoMarks(lines[1..], kind);
    }
  }

  lemma InsertingKeepsMarks<T>(lines: seq<T>, kind: T -> Kind, at: nat, group: seq<T>, out: seq<T>)
    requires Inserted(lines, at, group, out)
    requires forall line :: line in group ==> kind(line) == Plain
    ensures Marks(out, kind) == Marks(lines, kind)
  {
    PlainLinesHaveNoMarks(group, kind);
    assert lines == lines[..at] + lines[at..];
    MarksOfConcat(lines[..at], lines[at..], kind);
    MarksOfConcat(lines[..at] + group, lines[at..], kind);
    MarksOfConcat(lines[..at], group, kind);
  }

  // ---------- a single section ----------

  /** The position of the first line at or after `from` that is not plain; the length of `lines` if there is none. */
  function NextMark<T>(lines: seq<T>, kind: T -> Kind, from: nat): (e: nat)
    requires from <= |lines|
    ensures from <= e <= |lines|
    ensures forall i :: from <= i < e ==> kind(lines[i]) == Plain
    ensures e < |lines| ==> kind(lines[e]) != Plain
    decreases |lines| - from
  {
    if from == |lines| || kind(lines[from]) != Plain then from else NextMark(lines, kind, from + 1)
  }

  /** Line `v` is the only opener. */
  predicate OnlyOpener<T>(lines: seq<T>, kind: T -> Kind, v: nat) {
    v < |lines| && forall i :: 0 <= i < |lines| ==> (kind(lines[i]) == Opener <==> i == v)
  }

  lemma {:induction false} NoOpenerYet<T>(lines: seq<T>, kind: T -> Kind, n: nat)
    requires n <= |lines| && forall i :: 0 <= i < n ==> kind(lines[i]) != Opener
    ensures !Open(lines, kind, n) && Closing(lines, kind, n) == 0 && Section(lines, kind, n) == []
  {
    if n > 0 {
      NoOpenerYet(lines, kind, n - 1);
    }
  }

  lemma {:induction false} WithinTheSection<T>(lines: seq<T>, kind: T -> Kind, v: nat, n: nat)
    requires OnlyOpener(lines, kind, v) && v < n <= NextMark(lines, kind, v + 1)
    ensures Open(lines, kind, n) && Closing(lines, kind, n) == 0 && Section(lines, kind, n) == lines[v + 1..n]
    decreases n
  {
    if n == v + 1 {
      NoOpenerYet(lines, kind, v);
    } else {
      WithinTheSection(lines, kind, v, n - 1);
      assert lines[v + 1..n - 1] + [lines[n - 1]] == lines[v + 1..n];
    }
  }

  lemma {:induction false} AfterTheSection<T>(lines: seq<T>, kind: T -> Kind, v: nat, n: nat)
    requires OnlyOpener(lines, kind, v) && NextMark(lines, kind, v + 1) < n <= |lines|
    ensures !Open(lines, kind, n)
    ensures Closing(lines, kind, n) == NextMark(lines, kind, v + 1) - 1
    ensures Section(lines, kind, n) == lines[v + 1..NextMark(lines, kind, v + 1)]
    decreases n
  {
    if n == NextMark(lines, kind, v + 1) + 1 {
      WithinTheSection(lines, kind, v, n - 1);
    } else {
      AfterTheSection(lines, kind, v, n - 1);
    }
  }

  /** A second, empty section: its opener is the line before the one that closes it, so the insertion point
      stands before that opener, outside every section. */
  lemma EmptySecondSection<T>(lines: seq<T>, kind: T -> Kind)
    requires |lines| == 8 && kind(lines[0]) == Opener
    requires kind(lines[1]) == kind(lines[2]) == kind(lines[3]) == kind(lines[4]) == Plain
    requires kind(lines[5]) == Closer && kind(lines[6]) == Opener && kind(lines[7]) == Closer
    ensures Section(lines, kind, 8) == lines[1..5]
    ensures Closing(lines, kind, 8) == 6 && !Open(lines, kind, 6)
  {
    assert Open(lines, kind, 1) && Section(lines, kind, 1) == [];
    assert Open(lines, kind, 2) && Section(lines, kind, 2) == lines[1..2];
    assert Open(lines, kind, 3) && Section(lines, kind, 3) == lines[1..3];
    assert Open(lines, kind, 4) && Section(lines, kind, 4) == lines[1..4];
    assert Open(lines, kind, 5) && Section(lines, kind, 5) == lines[1..5];
    assert !Open(lines, kind, 6) && Section(lines, kind, 6) == Section(lines, kind, 5);
    assert Open(lines, kind, 7) && Section(lines, kind, 7) == Section(lines, kind, 5);
  }

  /** An opener right behind an opener closes the section, and what follows is in none. */
  lemma {:induction false} SecondOpenerCloses<T>(lines: seq<T>, kind: T -> Kind, n: nat)
    requires 2 <= n <= |lines| && kind(lines[0]) == kind(lines[1]) == Opener
    requires forall i :: 2 <= i < n ==> kind(lines[i]) == Plain
    ensures !Open(lines, kind, n) && Section(lines, kind, n) == []
  {
    if n == 2 {
      NoOpenerYet(lines, kind, 0);
      assert !Examined(lines, kind, 0) && Section(lines, kind, 1) == Section(lines, kind, 0);
      assert Open(lines, kind, 1) && !Examined(lines, kind, 1);
    } else {
      SecondOpenerCloses(lines, kind, n - 1);
    }
  }
}
