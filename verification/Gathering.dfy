/** Lists that are put together piece by piece, and what of them is of some kind. */
module Gathering {
  /** The pieces that `f` yields for the elements of `xs`, one after the other. */
  function Gather<A, B>(f: A -> seq<B>, xs: seq<A>): seq<B> {
    if xs == [] then [] else Gather(f, xs[..|xs| - 1]) + f(xs[|xs| - 1])
  }

  /** Those of the first `n` elements that satisfy `p`, in order. */
  function KeptUpTo<B>(p: B -> bool, ys: seq<B>, n: nat): seq<B>
    requires n <= |ys|
  {
    if n == 0 then []
    else if p(ys[n - 1]) then KeptUpTo(p, ys, n - 1) + [ys[n - 1]]
    else KeptUpTo(p, ys, n - 1)
  }

  /** The elements that satisfy `p`, in order. */
  function Kept<B>(p: B -> bool, ys: seq<B>): seq<B> {
    KeptUpTo(p, ys, |ys|)
  }

  lemma GatherMore<A, B>(f: A -> seq<B>, xs: seq<A>, x: A)
    ensures Gather(f, xs + [x]) == Gather(f, xs) + f(x)
  {
    assert (xs + [x])[..|xs|] == xs;
  }

  lemma {:induction false} KeptOfPrefix<B>(p: B -> bool, a: seq<B>, b: seq<B>, n: nat)
    requires n <= |a|
    ensures KeptUpTo(p, a + b, n) == KeptUpTo(p, a, n)
  {
    if n > 0 {
      KeptOfPrefix(p, a, b, n - 1);
    }
  }

  lemma {:induction false} KeptOfRest<B>(p: B -> bool, a: seq<B>, b: seq<B>, n: nat)
    requires n <= |b|
    ensures KeptUpTo(p, a + b, |a| + n) == Kept(p, a) + KeptUpTo(p, b, n)
  {
    if n == 0 {
      KeptOfPrefix(p, a, b, |a|);
      NothingMore(Kept(p, a));
    } else {
      KeptOfRest(p, a, b, n - 1);
      assert (a + b)[|a| + n - 1] == b[n - 1];
      Associates(Kept(p, a), KeptUpTo(p, b, n - 1), [b[n - 1]]);
    }
  }

  lemma KeptOfConcat<B>(p: B -> bool, a: seq<B>, b: seq<B>)
    ensures Kept(p, a + b) == Kept(p, a) + Kept(p, b)
  {
    KeptOfRest(p, a, b, |b|);
  }

  lemma KeptOne<B>(p: B -> bool, b: B)
    ensures Kept(p, [b]) == if p(b) then [b] else []
  {
    assert KeptUpTo(p, [b], 0) == [];
  }

  lemma KeptCons<B>(p: B -> bool, b: B, rest: seq<B>)
    ensures Kept(p, [b] + rest) == if p(b) then [b] + Kept(p, rest) else Kept(p, rest)
  {
    KeptOfConcat(p, [b], rest);
    KeptOne(p, b);
    NothingMore(Kept(p, rest));
  }

  lemma KeptSnoc<B>(p: B -> bool, list: seq<B>, b: B)
    ensures Kept(p, list + [b]) == if p(b) then Kept(p, list) + [b] else Kept(p, list)
  {
    KeptOfConcat(p, list, [b]);
    KeptOne(p, b);
    NothingMore(Kept(p, list));
  }

  lemma TakenOut<B>(list: seq<B>, i: nat)
    requires i < |list|
    ensures list == list[..i] + ([list[i]] + list[i + 1..])
  {
  }

  function Dropped<B>(list: seq<B>, i: nat): seq<B>
    requires i < |list|
  {
    list[..i] + list[i + 1..]
  }

  /** What is of some kind when one element is dropped. */
  lemma KeptWithout<B>(p: B -> bool, list: seq<B>, i: nat)
    requires i < |list|
    ensures Kept(p, Dropped(list, i)) == Kept(p, list[..i]) + Kept(p, list[i + 1..])
    ensures Kept(p, list) ==
            if p(list[i]) then Kept(p, list[..i]) + ([list[i]] + Kept(p, list[i + 1..])) else Kept(p, Dropped(list, i))
  {
    KeptOfConcat(p, list[..i], list[i + 1..]);
    TakenOut(list, i);
    KeptOfConcat(p, list[..i], [list[i]] + list[i + 1..]);
    KeptCons(p, list[i], list[i + 1..]);
  }

  lemma CountWithout<B>(p: B -> bool, list: seq<B>, i: nat)
    requires i < |list|
    ensures |Kept(p, list)| == |Kept(p, Dropped(list, i))| + if p(list[i]) then 1 else 0
  {
    KeptWithout(p, list, i);
  }

  lemma {:induction false} KeptIsKept<B>(p: B -> bool, list: seq<B>, n: nat)
    requires n <= |list|
    ensures forall x :: x in KeptUpTo(p, list, n) ==> x in list && p(x)
  {
    if n > 0 {
      KeptIsKept(p, list, n - 1);
    }
  }

  lemma {:induction false} NoneKeptUpTo<B>(p: B -> bool, list: seq<B>, n: nat)
    requires n <= |list| && forall x :: x in list ==> !p(x)
    ensures KeptUpTo(p, list, n) == []
  {
    if n > 0 {
      NoneKeptUpTo(p, list, n - 1);
      assert list[n - 1] in list;
    }
  }

  lemma NoneKept<B>(p: B -> bool, list: seq<B>)
    requires forall x :: x in list ==> !p(x)
    ensures Kept(p, list) == []
  {
    NoneKeptUpTo(p, list, |list|);
  }

  /** The first element of a kind is dropped. */
  lemma FirstDropped<B>(p: B -> bool, list: seq<B>, i: nat)
    requires i < |list| && p(list[i]) && forall x :: x in list[..i] ==> !p(x)
    ensures Kept(p, list) == [list[i]] + Kept(p, Dropped(list, i))
  {
    KeptWithout(p, list, i);
    NoneKept(p, list[..i]);
    NothingMore([list[i]] + Kept(p, list[i + 1..]));
    NothingMore(Kept(p, list[i + 1..]));
  }

  /** Two ways to yield pieces that agree on every element yield the same list. */
  lemma {:induction false} SamePieces<A, B>(f: A -> seq<B>, g: A -> seq<B>, xs: seq<A>)
    requires forall x :: x in xs ==> f(x) == g(x)
    ensures Gather(f, xs) == Gather(g, xs)
  {
    if xs != [] {
      SamePieces(f, g, xs[..|xs| - 1]);
    }
  }

  /** And they yield the same list at every point only then. */
  lemma SameAtEveryPoint<A, B>(f: A -> seq<B>, g: A -> seq<B>, xs: seq<A>)
    ensures (forall n :: 0 <= n <= |xs| ==> Gather(f, xs[..n]) == Gather(g, xs[..n])) <==>
            forall x :: x in xs ==> f(x) == g(x)
  {
    if forall x :: x in xs ==> f(x) == g(x) {
      forall n | 0 <= n <= |xs| ensures Gather(f, xs[..n]) == Gather(g, xs[..n]) {
        SamePieces(f, g, xs[..n]);
      }
    }
    if forall n :: 0 <= n <= |xs| ==> Gather(f, xs[..n]) == Gather(g, xs[..n]) {
      forall i | 0 <= i < |xs| ensures f(xs[i]) == g(xs[i]) {
        LastPieceAgrees(f, g, xs, i);
      }
    }
  }

  lemma LastPieceAgrees<A, B>(f: A -> seq<B>, g: A -> seq<B>, xs: seq<A>, i: nat)
    requires i < |xs| && Gather(f, xs[..i]) == Gather(g, xs[..i])
    requires Gather(f, xs[..i + 1]) == Gather(g, xs[..i + 1])
    ensures f(xs[i]) == g(xs[i])
  {
    assert xs[..i + 1] == xs[..i] + [xs[i]];
    GatherMore(f, xs[..i], xs[i]);
    GatherMore(g, xs[..i], xs[i]);
    Cancels(Gather(f, xs[..i]), f(xs[i]), g(xs[i]));
  }

  lemma {:induction false} SameKept<A, B>(f: A -> seq<B>, g: A -> seq<B>, p: B -> bool, xs: seq<A>)
    requires forall x :: x in xs ==> Kept(p, f(x)) == Kept(p, g(x))
    ensures Kept(p, Gather(f, xs)) == Kept(p, Gather(g, xs))
  {
    if xs != [] {
      var n := |xs| - 1;
      SameKept(f, g, p, xs[..n]);
      KeptOfConcat(p, Gather(f, xs[..n]), f(xs[n]));
      KeptOfConcat(p, Gather(g, xs[..n]), g(xs[n]));
    }
  }

  /** If no piece of `f` has more elements of a kind than that of `g`, neither has the whole list; and if one has
      fewer, so has the list. */
  lemma {:induction false} FewerKept<A, B>(f: A -> seq<B>, g: A -> seq<B>, p: B -> bool, xs: seq<A>)
    requires forall x :: x in xs ==> |Kept(p, f(x))| <= |Kept(p, g(x))|
    ensures |Kept(p, Gather(f, xs))| <= |Kept(p, Gather(g, xs))|
    ensures (exists x :: x in xs && |Kept(p, f(x))| < |Kept(p, g(x))|) ==>
              |Kept(p, Gather(f, xs))| < |Kept(p, Gather(g, xs))|
  {
    if xs != [] {
      var n := |xs| - 1;
      FewerKept(f, g, p, xs[..n]);
      KeptOfConcat(p, Gather(f, xs[..n]), f(xs[n]));
      KeptOfConcat(p, Gather(g, xs[..n]), g(xs[n]));
      if x :| x in xs && |Kept(p, f(x))| < |Kept(p, g(x))| {
        assert x in xs[..n] || x == xs[n];
      }
    }
  }

  lemma Associates<B>(a: seq<B>, b: seq<B>, c: seq<B>)
    ensures a + b + c == a + (b + c)
  {
  }

  lemma NothingMore<B>(a: seq<B>)
    ensures a + [] == a && [] + a == a
  {
  }

  /** One element moves through a list exactly if the list has no other element. */
  lemma {:induction false} Commutes<B>(one: B, list: seq<B>)
    ensures [one] + list == list + [one] <==> forall i :: 0 <= i < |list| ==> list[i] == one
  {
    if [one] + list == list + [one] {
      AllAreThatOne(one, list, |list|);
    }
  }

  lemma {:induction false} AllAreThatOne<B>(one: B, list: seq<B>, n: nat)
    requires [one] + list == list + [one] && n <= |list|
    ensures forall i :: 0 <= i < n ==> list[i] == one
  {
    if n > 0 {
      AllAreThatOne(one, list, n - 1);
      assert list[n - 1] == (list + [one])[n - 1] == ([one] + list)[n - 1];
    }
  }

  lemma Cancels<B>(front: seq<B>, a: seq<B>, b: seq<B>)
    ensures front + a == front + b <==> a == b
  {
    if front + a == front + b {
      assert (front + a)[|front|..] == a && (front + b)[|front|..] == b;
    }
  }

  /** The piece of every element stands where the pieces before it end. */
  lemma {:induction false} PieceStands<A, B>(f: A -> seq<B>, xs: seq<A>, i: nat)
    requires i < |xs|
    ensures
      var n := |Gather(f, xs[..i])|;
      n + |f(xs[i])| <= |Gather(f, xs)| && Gather(f, xs)[n..n + |f(xs[i])|] == f(xs[i])
    decreases |xs|
  {
    var last := |xs| - 1;
    if i < last {
      assert xs[..last][..i] == xs[..i];
      PieceStands(f, xs[..last], i);
    }
  }

  /** And every element of the list stands in the piece of one element. */
  lemma {:induction false} PieceOf<A, B>(f: A -> seq<B>, xs: seq<A>, n: nat) returns (i: nat)
    requires n < |Gather(f, xs)|
    ensures i < |xs|
    ensures |Gather(f, xs[..i])| <= n < |Gather(f, xs[..i])| + |f(xs[i])|
    ensures Gather(f, xs)[n] == f(xs[i])[n - |Gather(f, xs[..i])|]
    decreases |xs|
  {
    var last := |xs| - 1;
    if n < |Gather(f, xs[..last])| {
      i := PieceOf(f, xs[..last], n);
      assert xs[..last][..i] == xs[..i];
    } else {
      i := last;
    }
  }

  /** Pieces that are not empty stand apart. */
  lemma PiecesApart<A, B>(f: A -> seq<B>, xs: seq<A>, i: nat, j: nat)
    requires i < j < |xs| && f(xs[i]) != []
    ensures |Gather(f, xs[..i])| < |Gather(f, xs[..j])|
  {
    PieceStands(f, xs[..j], i);
    assert xs[..j][..i] == xs[..i];
  }
}
