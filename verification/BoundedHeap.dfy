/** The n best of a stream, kept in a heap with the worst of them on top
    (internal/store/store.go, counterpartyHeap, transferHeap; the heap operations are those of Go's
    container/heap). */
module BoundedHeap {
  import opened Sorting

  function Parent(i: nat): nat
    requires i > 0
  {
    (i - 1) / 2
  }

  predicate Below<T>(better: (T, T) -> bool, h: seq<T>, p: nat, i: nat)
    requires p < |h| && i < |h|
  {
    !better(h[p], h[i])
  }

  /** No parent is better than its child. */
  ghost predicate IsHeap<T>(better: (T, T) -> bool, h: seq<T>) {
    forall i {:trigger Parent(i)} :: 0 < i < |h| ==> Below(better, h, Parent(i), i)
  }

  /** A heap but for element j, which may have to rise. */
  ghost predicate Rising<T>(better: (T, T) -> bool, h: seq<T>, j: nat) {
    && j < |h|
    && (forall i {:trigger Parent(i)} :: 0 < i < |h| && i != j ==> Below(better, h, Parent(i), i))
    && (j > 0 ==> forall i {:trigger Parent(i)} :: 0 < i < |h| && Parent(i) == j ==> Below(better, h, Parent(j), i))
  }

  /** A heap but for element k, which may have to sink. */
  ghost predicate Sinking<T>(better: (T, T) -> bool, h: seq<T>, k: nat) {
    && (forall i {:trigger Parent(i)} :: 0 < i < |h| && Parent(i) != k ==> Below(better, h, Parent(i), i))
    && (k > 0 ==> forall i {:trigger Parent(i)} ::
        0 < i < |h| && Parent(i) == k ==> Parent(k) < |h| && Below(better, h, Parent(k), i))
  }

  lemma {:induction false} RootIsWorst<T(!new)>(better: (T, T) -> bool, h: seq<T>, i: nat)
    requires WeakOrder(better) && IsHeap(better, h) && i < |h|
    ensures !better(h[0], h[i])
  {
    if i > 0 {
      RootIsWorst(better, h, Parent(i));
    }
  }

  function Swap<T>(h: seq<T>, i: nat, j: nat): (r: seq<T>)
    requires i < |h| && j < |h|
    ensures |r| == |h| && multiset(r) == multiset(h)
  {
    h[i := h[j]][j := h[i]]
  }

  /** Appends an element and lets it rise. */
  method PushUp<T(!new)>(better: (T, T) -> bool, h: seq<T>, x: T) returns (r: seq<T>)
    requires WeakOrder(better) && IsHeap(better, h)
    ensures IsHeap(better, r) && |r| == |h| + 1 && multiset(r) == multiset(h) + multiset{x}
  {
    hide IsHeap, Rising, WeakOrder, Swap;
    r := h + [x];
    var j: nat := |h|;
    AppendedRises(better, h, x);
    while j > 0 && better(r[Parent(j)], r[j])
      invariant |r| == |h| + 1 && multiset(r) == multiset(h) + multiset{x}
      invariant j < |r| && Rising(better, r, j)
    {
      UpStep(better, r, j);
      r := Swap(r, j, Parent(j));
      j := Parent(j);
    }
    RisenIsHeap(better, r, j);
  }

  lemma AppendedRises<T>(better: (T, T) -> bool, h: seq<T>, x: T)
    requires IsHeap(better, h)
    ensures Rising(better, h + [x], |h|)
  {
    forall i {:trigger Parent(i)} | 0 < i < |h + [x]| && i != |h|
      ensures Below(better, h + [x], Parent(i), i)
    {
      assert Below(better, h, Parent(i), i);
    }
  }

  lemma RisenIsHeap<T>(better: (T, T) -> bool, h: seq<T>, j: nat)
    requires Rising(better, h, j) && (j > 0 ==> !better(h[Parent(j)], h[j]))
    ensures IsHeap(better, h)
  {
  }

  lemma UpStep<T(!new)>(better: (T, T) -> bool, h: seq<T>, j: nat)
    requires WeakOrder(better) && Rising(better, h, j) && j > 0 && better(h[Parent(j)], h[j])
    ensures Rising(better, Swap(h, j, Parent(j)), Parent(j))
  {
    var p := Parent(j);
    var r := Swap(h, j, p);
    forall i {:trigger Parent(i)} | 0 < i < |r| && i != p
      ensures Below(better, r, Parent(i), i)
    {
      if i != j {
        assert Below(better, h, Parent(i), i);
      }
    }
    if p > 0 {
      assert Below(better, h, Parent(p), p);
      forall i {:trigger Parent(i)} | 0 < i < |r| && Parent(i) == p
        ensures Below(better, r, Parent(p), i)
      {
        if i != j {
          assert Below(better, h, Parent(i), i);
        }
      }
    }
  }

  /** The child to sink to: the worse one. */
  function WorseChild<T>(better: (T, T) -> bool, h: seq<T>, i: nat): (j: nat)
    requires 2 * i + 1 < |h|
    ensures 0 < j < |h| && Parent(j) == i
  {
    if 2 * i + 2 < |h| && better(h[2 * i + 1], h[2 * i + 2]) then 2 * i + 2 else 2 * i + 1
  }

  /** Replaces the root and lets the new one sink. */
  method ReplaceDown<T(!new)>(better: (T, T) -> bool, h: seq<T>, x: T) returns (r: seq<T>)
    requires WeakOrder(better) && IsHeap(better, h) && h != []
    ensures IsHeap(better, r) && |r| == |h| && multiset(r) == multiset(h[0 := x])
  {
    hide IsHeap, Sinking, WeakOrder, Swap;
    r := h[0 := x];
    var k := 0;
    ReplacedSinks(better, h, x);
    while 2 * k + 1 < |r|
      invariant |r| == |h| && multiset(r) == multiset(h[0 := x])
      invariant Sinking(better, r, k)
      decreases |r| - k
    {
      var j := 2 * k + 1;
      if j + 1 < |r| && better(r[j], r[j + 1]) {
        j := j + 1;
      }
      assert j == WorseChild(better, r, k);
      if !better(r[k], r[j]) {
        break;
      }
      DownStep(better, r, k);
      r := Swap(r, k, j);
      k := j;
    }
    SunkIsHeap(better, r, k);
  }

  lemma ReplacedSinks<T>(better: (T, T) -> bool, h: seq<T>, x: T)
    requires IsHeap(better, h) && h != []
    ensures Sinking(better, h[0 := x], 0)
  {
    forall i {:trigger Parent(i)} | 0 < i < |h| && Parent(i) != 0
      ensures Below(better, h[0 := x], Parent(i), i)
    {
      assert Below(better, h, Parent(i), i);
    }
  }

  lemma SunkIsHeap<T(!new)>(better: (T, T) -> bool, h: seq<T>, k: nat)
    requires WeakOrder(better) && Sinking(better, h, k)
    requires 2 * k + 1 < |h| ==> !better(h[k], h[WorseChild(better, h, k)])
    ensures IsHeap(better, h)
  {
    forall i {:trigger Parent(i)} | 0 < i < |h|
      ensures Below(better, h, Parent(i), i)
    {
      if Parent(i) == k {
        assert i == 2 * k + 1 || i == 2 * k + 2;
        assert !better(h[WorseChild(better, h, k)], h[i]);
      }
    }
  }

  lemma DownStep<T(!new)>(better: (T, T) -> bool, h: seq<T>, k: nat)
    requires WeakOrder(better) && 2 * k + 1 < |h| && Sinking(better, h, k)
    requires better(h[k], h[WorseChild(better, h, k)])
    ensures Sinking(better, Swap(h, k, WorseChild(better, h, k)), WorseChild(better, h, k))
  {
    var j := WorseChild(better, h, k);
    var r := Swap(h, k, j);
    forall i {:trigger Parent(i)} | 0 < i < |r| && Parent(i) != j
      ensures Below(better, r, Parent(i), i)
    {
      if Parent(i) == k {
        assert i == 2 * k + 1 || i == 2 * k + 2;
        assert i != j ==> !better(h[j], h[i]);
      } else {
        assert Below(better, h, Parent(i), i);
        if i == k {
          assert Below(better, h, Parent(k), j);
        }
      }
    }
    forall i {:trigger Parent(i)} | 0 < i < |r| && Parent(i) == j
      ensures Below(better, r, Parent(j), i)
    {
      assert Below(better, h, Parent(i), i);
    }
  }

  // ---------- sorted sequences are unique ----------

  /** Different elements are told apart. */
  ghost predicate TellsApart<T(!new)>(better: (T, T) -> bool, s: seq<T>) {
    forall x, y {:trigger better(x, y)} :: x in s && y in s ==> x == y || better(x, y) || better(y, x)
  }

  lemma HeadsAgree<T(!new)>(better: (T, T) -> bool, s: seq<T>, t: seq<T>)
    requires Ordered(better, s) && Ordered(better, t) && multiset(s) == multiset(t) && s != [] && t != []
    requires WeakOrder(better) && TellsApart(better, s)
    ensures s[0] == t[0]
  {
    assert s[0] in multiset(t) && t[0] in multiset(s);
    var i :| 0 <= i < |t| && t[i] == s[0];
    var j :| 0 <= j < |s| && s[j] == t[0];
    assert i == 0 || !better(t[i], t[0]);
    assert j == 0 || !better(s[j], s[0]);
    assert better(s[0], t[0]) || better(t[0], s[0]) || s[0] == t[0];
  }

  lemma {:induction false} SortedUnique<T(!new)>(better: (T, T) -> bool, s: seq<T>, t: seq<T>)
    requires Ordered(better, s) && Ordered(better, t) && multiset(s) == multiset(t)
    requires WeakOrder(better) && TellsApart(better, s)
    ensures s == t
  {
    assert |s| == |multiset(s)| && |t| == |multiset(t)|;
    if s != [] {
      HeadsAgree(better, s, t);
      assert s == [s[0]] + s[1..] && t == [t[0]] + t[1..];
      assert multiset(s[1..]) == multiset(s) - multiset{s[0]};
      assert multiset(t[1..]) == multiset(t) - multiset{t[0]};
      SortedUnique(better, s[1..], t[1..]);
    }
  }

  // ---------- the n best ----------

  /** `h` holds the n best of `s`, `rest` the others. */
  ghost predicate Holds<T(!new)>(better: (T, T) -> bool, n: nat, h: seq<T>, rest: seq<T>, s: seq<T>) {
    && IsHeap(better, h)
    && multiset(h + rest) == multiset(s)
    && |h| <= n && (|h| < n ==> rest == [])
    && Dominates(better, h, rest)
  }

  /** Nothing in `rest` is better than anything in `h`. */
  ghost predicate Dominates<T(!new)>(better: (T, T) -> bool, h: seq<T>, rest: seq<T>) {
    forall x, y {:trigger better(y, x)} :: x in h && y in rest ==> !better(y, x)
  }

  lemma NothingDominated<T(!new)>(better: (T, T) -> bool, h: seq<T>)
    ensures Dominates(better, h, [])
  {
  }

  lemma DominatesPermuted<T(!new)>(better: (T, T) -> bool, h: seq<T>, rest: seq<T>, h': seq<T>, rest': seq<T>)
    requires Dominates(better, h, rest) && multiset(h') == multiset(h) && multiset(rest') == multiset(rest)
    ensures Dominates(better, h', rest')
  {
    forall x, y {:trigger better(y, x)} | x in h' && y in rest'
      ensures !better(y, x)
    {
      assert x in multiset(h) && y in multiset(rest);
    }
  }

  lemma DominatesWorse<T(!new)>(better: (T, T) -> bool, h: seq<T>, rest: seq<T>, x: T)
    requires WeakOrder(better) && IsHeap(better, h) && h != [] && Dominates(better, h, rest) && !better(x, h[0])
    ensures Dominates(better, h, rest + [x])
  {
    forall a, b {:trigger better(b, a)} | a in h && b in rest + [x]
      ensures !better(b, a)
    {
      if b !in rest {
        var i :| 0 <= i < |h| && h[i] == a;
        RootIsWorst(better, h, i);
      }
    }
  }

  lemma DominatesReplaced<T(!new)>(better: (T, T) -> bool, h: seq<T>, x: T, rest: seq<T>)
    requires WeakOrder(better) && IsHeap(better, h) && h != [] && better(x, h[0]) && Dominates(better, h, rest)
    ensures Dominates(better, h[0 := x], rest + [h[0]])
  {
    forall a, b {:trigger better(b, a)} | a in h[0 := x] && b in rest + [h[0]]
      ensures !better(b, a)
    {
      if a == x {
        if b in rest {
          assert h[0] in h && !better(b, h[0]);
        }
      } else {
        assert a in h;
        if b == h[0] {
          var i :| 0 <= i < |h| && h[i] == a;
          RootIsWorst(better, h, i);
        }
      }
    }
  }

  lemma SnocBag<T>(s: seq<T>, x: T)
    ensures multiset(s + [x]) == multiset(s) + multiset{x}
  {
  }

  lemma JoinBag<T>(s: seq<T>, t: seq<T>)
    ensures multiset(s + t) == multiset(s) + multiset(t)
  {
  }

  lemma ReplaceBag<T>(h: seq<T>, x: T)
    requires h != []
    ensures multiset(h[0 := x]) + multiset{h[0]} == multiset(h) + multiset{x}
  {
    assert h == [h[0]] + h[1..] && h[0 := x] == [x] + h[1..];
  }

  method Offer<T(!new)>(better: (T, T) -> bool, n: nat, h: seq<T>, x: T, ghost rest: seq<T>, ghost s: seq<T>)
    returns (r: seq<T>, ghost out: seq<T>)
    requires WeakOrder(better) && n > 0 && Holds(better, n, h, rest, s)
    ensures Holds(better, n, r, out, s + [x])
  {
    hide IsHeap, WeakOrder, Dominates;
    SnocBag(s, x);
    JoinBag(h, rest);
    if |h| < n {
      r := PushUp(better, h, x);
      out := [];
      NothingDominated(better, r);
    } else if better(x, h[0]) {
      r := ReplaceDown(better, h, x);
      out := rest + [h[0]];
      ReplaceBag(h, x);
      SnocBag(rest, h[0]);
      DominatesReplaced(better, h, x, rest);
      DominatesPermuted(better, h[0 := x], out, r, out);
    } else {
      r := h;
      out := rest + [x];
      SnocBag(rest, x);
      DominatesWorse(better, h, rest, x);
    }
    JoinBag(r, out);
  }

  function Least(a: nat, b: nat): nat { if a < b then a else b }

  lemma JoinOrdered<T(!new)>(better: (T, T) -> bool, a: seq<T>, b: seq<T>)
    requires Ordered(better, a) && Ordered(better, b) && Dominates(better, a, b)
    ensures Ordered(better, a + b)
  {
    forall i, j | 0 <= i < j < |a + b|
      ensures !better((a + b)[j], (a + b)[i])
    {
      if i < |a| <= j {
        assert a[i] in a && b[j - |a|] in b;
      }
    }
  }

  lemma TellsApartPermuted<T(!new)>(better: (T, T) -> bool, s: seq<T>, t: seq<T>)
    requires TellsApart(better, s) && multiset(t) == multiset(s)
    ensures TellsApart(better, t)
  {
    forall x | x in t
      ensures x in s
    {
      assert x in multiset(t);
    }
  }

  /** The n best of a sequence, in order: nothing left out is better than anything taken. */
  ghost predicate BestOf<T(!new)>(better: (T, T) -> bool, n: nat, best: seq<T>, s: seq<T>) {
    && Ordered(better, best) && |best| == Least(n, |s|)
    && exists rest: seq<T> :: multiset(best + rest) == multiset(s) && Dominates(better, best, rest)
  }

  /** What the heap holds, sorted, are the n best, whether or not the order tells elements apart. */
  lemma HeldIsBest<T(!new)>(better: (T, T) -> bool, n: nat, h: seq<T>, rest: seq<T>, s: seq<T>)
    requires WeakOrder(better) && Holds(better, n, h, rest, s)
    ensures BestOf(better, n, Sort(better, h), s)
  {
    hide Ordered, WeakOrder, Dominates, IsHeap, Sort;
    var a := Sort(better, h);
    SortOrdered(better, h);
    SortPermutes(better, h);
    DominatesPermuted(better, h, rest, a, rest);
    JoinBag(h, rest);
    JoinBag(a, rest);
    assert |s| == |multiset(s)| && |h + rest| == |multiset(h + rest)|;
  }

  /** If it tells them apart, the n best are the beginning of everything sorted. */
  lemma BestIsFirst<T(!new)>(better: (T, T) -> bool, n: nat, best: seq<T>, s: seq<T>)
    requires WeakOrder(better) && TellsApart(better, s) && BestOf(better, n, best, s)
    ensures best == Sort(better, s)[..Least(n, |s|)]
  {
    hide Ordered, WeakOrder, TellsApart, Dominates, Sort;
    var rest: seq<T> :| multiset(best + rest) == multiset(s) && Dominates(better, best, rest);
    var b := Sort(better, rest);
    SortOrdered(better, rest);
    SortOrdered(better, s);
    SortPermutes(better, rest);
    SortPermutes(better, s);
    DominatesPermuted(better, best, rest, best, b);
    JoinOrdered(better, best, b);
    JoinBag(best, rest);
    JoinBag(best, b);
    TellsApartPermuted(better, s, Sort(better, s));
    SortedUnique(better, Sort(better, s), best + b);
    assert (best + b)[..|best|] == best;
  }

  lemma HeldIsFirst<T(!new)>(better: (T, T) -> bool, n: nat, h: seq<T>, rest: seq<T>, s: seq<T>)
    requires WeakOrder(better) && TellsApart(better, s) && Holds(better, n, h, rest, s)
    ensures Sort(better, h) == Sort(better, s)[..Least(n, |s|)]
  {
    hide Ordered, WeakOrder, TellsApart, Holds, Sort, BestOf;
    HeldIsBest(better, n, h, rest, s);
    BestIsFirst(better, n, Sort(better, h), s);
  }

  /** Streaming through the heap gives the n best: the first n of the sorted stream, where the order
      tells its elements apart. */
  method SelectBest<T(!new)>(better: (T, T) -> bool, n: nat, s: seq<T>) returns (r: seq<T>)
    requires WeakOrder(better) && n > 0
    ensures BestOf(better, n, r, s)
    ensures TellsApart(better, s) ==> r == Sort(better, s)[..Least(n, |s|)]
  {
    var h := [];
    ghost var rest := [];
    for i := 0 to |s|
      invariant Holds(better, n, h, rest, s[..i])
    {
      h, rest := Offer(better, n, h, s[i], rest, s[..i]);
      assert s[..i] + [s[i]] == s[..i + 1];
    }
    assert s[..|s|] == s;
    HeldIsBest(better, n, h, rest, s);
    r := Sort(better, h);
    if TellsApart(better, s) {
      BestIsFirst(better, n, r, s);
    }
  }
}
