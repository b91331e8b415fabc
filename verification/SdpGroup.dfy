/** What the lines of the inserted group say: the layers in order, new sources as decimal numbers, the msid lines and
    the SIM line word by word. */
module SdpGroup {
  import opened Gathering
  import opened Option
  import opened SdpSections
  import opened SdpSearch
  import opened SdpGrammar
  import opened SdpInjection
  import opened SdpReadback
  import opened SdpText

  // ---------- numbers ----------

  /** The number that a text of digits stands for. */
  function Value(s: string): int {
    if s == "" then 0 else 10 * Value(s[..|s| - 1]) + (s[|s| - 1] as int - '0' as int)
  }

  function Power(k: nat): (p: nat)
    ensures p > 0
  {
    if k == 0 then 1 else 10 * Power(k - 1)
  }

  lemma {:induction false} DecimalIsValue(n: nat)
    ensures Value(Decimal(n)) == n
  {
    var s := Decimal(n);
    if n >= 10 {
      DecimalIsValue(n / 10);
      assert s[..|s| - 1] == Decimal(n / 10);
    } else {
      assert s[..|s| - 1] == "";
    }
  }

  /** As few digits as the number needs. */
  lemma {:induction false} DecimalIsShort(n: nat, k: nat)
    requires k > 0
    ensures |Decimal(n)| <= k <==> n < Power(k)
  {
    if n >= 10 && k > 1 {
      DecimalIsShort(n / 10, k - 1);
    }
  }

  lemma {:induction false} ZerosDoNotCount(k: nat, s: string)
    ensures Value(seq(k, _ => '0') + s) == Value(s)
    decreases |s|, k
  {
    var zeros := seq(k, _ => '0');
    if s != "" {
      assert (zeros + s)[..|zeros + s| - 1] == zeros + s[..|s| - 1];
      ZerosDoNotCount(k, s[..|s| - 1]);
    } else if k > 0 {
      assert (zeros + s)[..k - 1] == seq(k - 1, _ => '0') + s;
      ZerosDoNotCount(k - 1, s);
    }
  }

  /** A drawn source number is written in decimal, with zeros in front up to nine characters. */
  lemma SsrcTextIsDecimal(n: Draw)
    ensures Value(SsrcText(n)) == n
    ensures |SsrcText(n)| == if n < 1_000_000_000 then 9 else 10
  {
    var s := Decimal(n);
    DecimalIsValue(n);
    ZerosDoNotCount(if |s| < 9 then 9 - |s| else 0, s);
    assert Power(4) == 10_000;
    assert Power(8) == 100_000_000;
    assert Power(9) == 1_000_000_000;
    assert Power(10) == 10_000_000_000;
    DecimalIsShort(n, 9);
    DecimalIsShort(n, 10);
  }

  // ---------- the layers ----------

  /** The parts `f(0)`, `f(1)` up to `f(n - 1)`, one after the other. */
  function Parts<T>(f: nat -> seq<T>, n: nat): seq<T> {
    if n == 0 then [] else Parts(f, n - 1) + f(n - 1)
  }

  lemma {:induction false} PartsInOrder<T>(f: nat -> seq<T>, n: nat, k: nat)
    requires k < n
    ensures
      var from := |Parts(f, k)|;
      from + |f(k)| <= |Parts(f, n)| && Parts(f, n)[from..from + |f(k)|] == f(k)
  {
    if k < n - 1 {
      PartsInOrder(f, n - 1, k);
      SliceOfFirst(Parts(f, n - 1), f(n - 1), |Parts(f, k)|, |Parts(f, k)| + |f(k)|);
    } else {
      SecondPart(Parts(f, k), f(k));
    }
  }

  lemma {:induction false} LayersAreParts(n: nat, found: Found, draws: nat -> Draw, f: nat -> seq<string>)
    requires forall i: nat :: f(i) == Layer(i, found, draws)
    ensures Layers(n, found, draws) == Parts(f, n)
  {
    if n > 0 {
      LayersAreParts(n - 1, found, draws, f);
    }
  }

  lemma SliceOfFirst<T>(a: seq<T>, b: seq<T>, from: nat, to: nat)
    requires from <= to <= |a|
    ensures (a + b)[from..to] == a[from..to]
  {
  }

  lemma SecondPart<T>(a: seq<T>, b: seq<T>)
    ensures (a + b)[|a|..|a| + |b|] == b
  {
  }

  lemma LayersInOrder(n: nat, found: Found, draws: nat -> Draw, k: nat) returns (from: nat)
    requires k < n
    ensures from == |Layers(k, found, draws)|
    ensures from + |Layer(k, found, draws)| <= |Layers(n, found, draws)|
    ensures Layers(n, found, draws)[from..from + |Layer(k, found, draws)|] == Layer(k, found, draws)
  {
    var f := (i: nat) => Layer(i, found, draws);
    LayersAreParts(n, found, draws, f);
    LayersAreParts(k, found, draws, f);
    PartsInOrder(f, n, k);
    from := |Parts(f, k)|;
  }

  /** The group is made of its layers, in order, of nine lines each if the source has a repair source and of four if
      not, and of the SIM line. */
  lemma GroupInOrder(n: nat, found: Found, draws: nat -> Draw, k: nat)
    requires k < n
    ensures
      var group := Group(n, found, draws);
      && group[|group| - 1] == SimLine(n, found, draws)
      && if found.repair != "" then
           |group| == 9 * n + 1 && group[9 * k..9 * k + 9] == Layer(k, found, draws)
         else
           |group| == 4 * n + 1 && group[4 * k..4 * k + 4] == Layer(k, found, draws)
  {
    var from := LayersInOrder(n, found, draws, k);
    SliceOfFirst(Layers(n, found, draws), [SimLine(n, found, draws)], from, from + |Layer(k, found, draws)|);
  }

  // ---------- the msid line ----------

  lemma ThreeWords(a: string, b: string, c: string)
    requires Free([a, b, c], ' ') && c != ""
    ensures Pieces(a + (" " + (b + (" " + c))), ' ') == [a, b, c]
  {
    var list := [a, b, c];
    assert list[1..] == [b, c] && [b, c][1..] == [c];
    assert Joined([b, c], " ") == b + (" " + c);
    assert Joined(list, " ") == a + (" " + (b + (" " + c)));
    SplitInvertsJoin(list, ' ');
  }

  lemma MsidLineIsWords(ssrc: string, found: Found)
    ensures MsidLine(ssrc, found) ==
            (("a=ssrc:" + ssrc) + (" " + (("msid:" + found.mslabel) + (" " + found.trackLabel)))) + "\r"
  {
    assert " " + "msid:" == " msid:";
    Words("a=ssrc:", ssrc, "msid:", found.mslabel, found.trackLabel);
  }

  lemma Words(a: string, b: string, c: string, d: string, e: string)
    ensures ((a + b) + (" " + ((c + d) + (" " + e)))) + "\r" == a + (b + (((" " + c) + (d + " ")) + (e + "\r")))
  {
    assert " " + ((c + d) + (" " + e)) + "\r" == ((" " + c) + (d + " ")) + (e + "\r");
    assert ((a + b) + (" " + ((c + d) + (" " + e)))) + "\r" == a + (b + (" " + ((c + d) + (" " + e)) + "\r"));
  }

  /** Split at its spaces, the msid line names the source, the stream and then the track. */
  lemma MsidLineLists(ssrc: string, found: Found)
    requires IsNumber(ssrc) && IsPrintable(found)
    ensures
      var line := MsidLine(ssrc, found);
      && EndsWith(line, '\r')
      && Pieces(line[..|line| - 1], ' ') == ["a=ssrc:" + ssrc, "msid:" + found.mslabel, found.trackLabel]
  {
    var a, b, c := "a=ssrc:" + ssrc, "msid:" + found.mslabel, found.trackLabel;
    MsidLineIsWords(ssrc, found);
    ThreeWords(a, b, c);
    CutLast(a + (" " + (b + (" " + c))));
  }

  // ---------- the SIM line ----------

  /** The primaries of `n` layers, in order. */
  function PrimaryList(n: nat, draws: nat -> Draw): seq<string> {
    if n == 0 then [] else PrimaryList(n - 1, draws) + [Primary(n - 1, draws)]
  }

  lemma {:induction false} JoinedPrimaries(head: seq<string>, n: nat, draws: nat -> Draw)
    requires head != []
    ensures Joined(head + PrimaryList(n, draws), " ") == Joined(head, " ") + Primaries(n, draws)
  {
    if n == 0 {
      assert head + [] == head && Joined(head, " ") + "" == Joined(head, " ");
    } else {
      JoinedPrimaries(head, n - 1, draws);
      var before, last := head + PrimaryList(n - 1, draws), Primary(n - 1, draws);
      assert head + PrimaryList(n, draws) == before + [last];
      JoinedSnoc(before, last, " ");
      Associates(Joined(head, " "), Primaries(n - 1, draws), " " + last);
    }
  }

  lemma {:induction false} PrimaryListIsSpaceless(n: nat, draws: nat -> Draw)
    ensures Free(PrimaryList(n, draws), ' ') && |PrimaryList(n, draws)| == n
    ensures forall i :: 0 <= i < n ==> PrimaryList(n, draws)[i] == Primary(i, draws)
  {
    if n > 0 {
      PrimaryListIsSpaceless(n - 1, draws);
    }
  }

  lemma SimLineIsJoined(n: nat, found: Found, draws: nat -> Draw)
    ensures SimLine(n, found, draws) == Joined(["a=ssrc-group:SIM", found.ssrc] + PrimaryList(n, draws), " ") + "\r"
  {
    var head := ["a=ssrc-group:SIM", found.ssrc];
    JoinedPrimaries(head, n, draws);
    assert head[1..] == [found.ssrc];
    assert Joined(head, " ") == SIM + found.ssrc;
    Regroup(SIM, found.ssrc, Primaries(n, draws), "\r");
  }

  /** Split at its spaces, the SIM line lists the original source and then the new primaries in order. */
  lemma SimLineLists(n: nat, found: Found, draws: nat -> Draw)
    requires IsPrintable(found)
    ensures
      var line := SimLine(n, found, draws);
      && EndsWith(line, '\r')
      && Pieces(line[..|line| - 1], ' ') == ["a=ssrc-group:SIM", found.ssrc] + PrimaryList(n, draws)
  {
    var list := ["a=ssrc-group:SIM", found.ssrc] + PrimaryList(n, draws);
    SimListIsSpaceless(n, found, draws);
    SimLineIsJoined(n, found, draws);
    SplitInvertsJoin(list, ' ');
    CutLast(Joined(list, " "));
  }

  lemma CutLast(s: string)
    ensures (s + "\r")[..|s + "\r"| - 1] == s && EndsWith(s + "\r", '\r')
  {
  }

  lemma SimListIsSpaceless(n: nat, found: Found, draws: nat -> Draw)
    requires IsNumber(found.ssrc)
    ensures
      var list := ["a=ssrc-group:SIM", found.ssrc] + PrimaryList(n, draws);
      Free(list, ' ') && list[|list| - 1] != ""
  {
    PrimaryListIsSpaceless(n, draws);
    var list := ["a=ssrc-group:SIM", found.ssrc] + PrimaryList(n, draws);
    assert n > 0 ==> list[|list| - 1] == Primary(n - 1, draws);
    forall i, j | 0 <= i < |list| && 0 <= j < |list[i]| ensures list[i][j] != ' ' {
      assert i >= 2 ==> list[i] == PrimaryList(n, draws)[i - 2];
    }
  }
}
