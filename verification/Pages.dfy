/** Pages of transfers by keyset cursor (internal/store/store.go, transferCursorCondition and
    QueryTransfers; internal/fundgraph/graph.go, Edges). */
module Pages {
  import opened Wrappers
  import opened Sorting
  import opened Decimal
  import opened BoundedHeap

  datatype Field = Num(value: int) | Txt(text: string)

  /** A transfer with the six fields of its identity. */
  datatype Row = Row(block: int, tx: string, source: string, traceId: string, logIndex: int, asset: string,
      payload: int)

  /** The sort fields, most significant first. */
  function Fields(row: Row): (f: seq<Field>)
    ensures |f| == 6
  {
    [Num(row.block), Txt(row.tx), Txt(row.source), Txt(row.traceId), Num(row.logIndex), Txt(row.asset)]
  }

  predicate Lt(x: Field, y: Field) {
    match (x, y)
    case (Num(a), Num(b)) => a < b
    case (Txt(a), Txt(b)) => CompareText(a, b) < 0
    case _ => false
  }

  /** Descending in every field. */
  predicate Precedes(x: seq<Field>, y: seq<Field>)
    requires |x| == |y|
    decreases |x|
  {
    x != [] && (Lt(y[0], x[0]) || (x[0] == y[0] && Precedes(x[1..], y[1..])))
  }

  function Before(): (Row, Row) -> bool {
    (x: Row, y: Row) => Precedes(Fields(x), Fields(y))
  }

  /** The row comes from a later block, or is told apart within its block: by transaction, source, trace, log
      index and asset, the larger one first. */
  predicate Newer(x: Row, y: Row) {
    || x.block > y.block
    || (x.block == y.block
        && (CompareText(x.tx, y.tx) > 0
            || (x.tx == y.tx
                && (CompareText(x.source, y.source) > 0
                    || (x.source == y.source
                        && (CompareText(x.traceId, y.traceId) > 0
                            || (x.traceId == y.traceId
                                && (x.logIndex > y.logIndex
                                    || (x.logIndex == y.logIndex && CompareText(x.asset, y.asset) > 0)))))))))
  }

  /** The sort order shows newer rows first. */
  lemma SortIsNewest(x: Row, y: Row)
    ensures Precedes(Fields(x), Fields(y)) <==> Newer(x, y)
  {
    var f, g := Fields(x), Fields(y);
    TextOrder(x.tx, y.tx, x.tx);
    TextOrder(x.source, y.source, x.source);
    TextOrder(x.traceId, y.traceId, x.traceId);
    TextOrder(x.asset, y.asset, x.asset);
    hide CompareText, Precedes;
    PrecedesLast(f, g);
    PrecedesStep(f, g, 4);
    PrecedesStep(f, g, 3);
    PrecedesStep(f, g, 2);
    PrecedesStep(f, g, 1);
    PrecedesStep(f, g, 0);
    assert f[0..] == f && g[0..] == g;
  }

  lemma PrecedesLast(f: seq<Field>, g: seq<Field>)
    requires |f| == |g| > 0
    ensures Precedes(f[|f| - 1..], g[|g| - 1..]) <==> Lt(g[|g| - 1], f[|f| - 1])
  {
    assert f[|f| - 1..] == [f[|f| - 1]] && g[|g| - 1..] == [g[|g| - 1]];
  }

  lemma PrecedesStep(f: seq<Field>, g: seq<Field>, i: nat)
    requires i < |f| == |g|
    ensures Precedes(f[i..], g[i..]) <==> Lt(g[i], f[i]) || (f[i] == g[i] && Precedes(f[i + 1..], g[i + 1..]))
  {
    assert f[i..][0] == f[i] && f[i..][1..] == f[i + 1..];
    assert g[i..][0] == g[i] && g[i..][1..] == g[i + 1..];
  }

  /** One clause of the cursor condition: equal up to field i, less there. */
  predicate Clause(cursor: seq<Field>, x: seq<Field>, i: nat)
    requires |cursor| == |x| && i < |x|
  {
    (forall p :: 0 <= p < i ==> x[p] == cursor[p]) && Lt(x[i], cursor[i])
  }

  predicate CursorCondition(cursor: seq<Field>, x: seq<Field>)
    requires |cursor| == |x|
  {
    exists i :: 0 <= i < |x| && Clause(cursor, x, i)
  }

  /** The clauses together are the sort order: a row passes exactly when it comes after the cursor. */
  lemma {:induction false} ConditionIsOrder(cursor: seq<Field>, x: seq<Field>)
    requires |cursor| == |x|
    ensures CursorCondition(cursor, x) <==> Precedes(cursor, x)
    decreases |x|
  {
    if x != [] {
      ConditionIsOrder(cursor[1..], x[1..]);
      if CursorCondition(cursor, x) {
        var i :| 0 <= i < |x| && Clause(cursor, x, i);
        if i > 0 {
          assert x[0] == cursor[0];
          assert forall p :: 0 <= p < i - 1 ==> x[1..][p] == x[p + 1] && cursor[1..][p] == cursor[p + 1];
          assert Clause(cursor[1..], x[1..], i - 1);
        }
      }
      if Precedes(cursor, x) {
        if Lt(x[0], cursor[0]) {
          assert Clause(cursor, x, 0);
        } else {
          var i :| 0 <= i < |x[1..]| && Clause(cursor[1..], x[1..], i);
          forall p | 0 <= p < i + 1
            ensures x[p] == cursor[p]
          {
            if p > 0 {
              assert x[1..][p - 1] == cursor[1..][p - 1];
            }
          }
          assert Clause(cursor, x, i + 1);
        }
      }
    }
  }

  // ---------- the order ----------

  predicate SameKinds(x: seq<Field>, y: seq<Field>) {
    |x| == |y| && forall i :: 0 <= i < |x| ==> x[i].Num? == y[i].Num?
  }

  lemma LtOrder(x: Field, y: Field, z: Field)
    requires x.Num? == y.Num? == z.Num?
    ensures x == y || Lt(x, y) || Lt(y, x)
    ensures Lt(x, y) ==> x != y && !Lt(y, x)
    ensures Lt(x, y) && Lt(y, z) ==> Lt(x, z)
    ensures Lt(z, y) && Lt(y, x) ==> Lt(z, x)
  {
    if x.Txt? {
      TextOrder(x.text, y.text, z.text);
      TextOrder(z.text, y.text, x.text);
    }
  }

  lemma {:induction false} PrecedesOrder(x: seq<Field>, y: seq<Field>, z: seq<Field>)
    requires SameKinds(x, y) && SameKinds(y, z)
    ensures Precedes(x, y) ==> !Precedes(y, x)
    ensures x == y || Precedes(x, y) || Precedes(y, x)
    ensures Precedes(x, y) && Precedes(y, z) ==> Precedes(x, z)
    decreases |x|
  {
    if x != [] {
      assert x == [x[0]] + x[1..] && y == [y[0]] + y[1..];
      LtOrder(x[0], y[0], z[0]);
      PrecedesOrder(x[1..], y[1..], z[1..]);
    }
  }

  ghost predicate UniqueIdentities(rows: seq<Row>) {
    forall i, j :: 0 <= i < j < |rows| ==> Fields(rows[i]) != Fields(rows[j])
  }

  lemma BeforeOrder()
    ensures WeakOrder(Before())
  {
    hide Precedes;
    forall x: Row, y: Row {:trigger Before()(x, y)}
      ensures Before()(x, y) ==> !Before()(y, x)
    {
      PrecedesOrder(Fields(x), Fields(y), Fields(x));
    }
    forall x: Row, y: Row, z: Row {:trigger Before()(z, y), Before()(y, x)}
      ensures !Before()(y, x) && !Before()(z, y) ==> !Before()(z, x)
    {
      PrecedesOrder(Fields(x), Fields(y), Fields(z));
      PrecedesOrder(Fields(z), Fields(x), Fields(y));
      PrecedesOrder(Fields(z), Fields(y), Fields(x));
      PrecedesOrder(Fields(x), Fields(z), Fields(y));
    }
  }

  lemma BeforeTellsApart(rows: seq<Row>)
    requires UniqueIdentities(rows)
    ensures TellsApart(Before(), rows)
  {
    hide Precedes;
    forall x: Row, y: Row {:trigger Before()(x, y)} | x in rows && y in rows
      ensures x == y || Before()(x, y) || Before()(y, x)
    {
      var i :| 0 <= i < |rows| && rows[i] == x;
      var j :| 0 <= j < |rows| && rows[j] == y;
      PrecedesOrder(Fields(x), Fields(y), Fields(x));
    }
  }

  // ---------- pages ----------

  function After(cursor: seq<Field>): Row -> bool
    requires |cursor| == 6
  {
    (row: Row) => CursorCondition(cursor, Fields(row))
  }

  /** The stored rows that match the query, and come after the cursor if there is one. */
  function Selected(rows: seq<Row>, after: Option<seq<Field>>): seq<Row>
    requires after.Some? ==> |after.value| == 6
  {
    if after.None? then rows else Filter(After(after.value), rows)
  }

  function QueryTransfers(rows: seq<Row>, after: Option<seq<Field>>, limit: nat): seq<Row>
    requires after.Some? ==> |after.value| == 6
  {
    var sorted := Sort(Before(), Selected(rows, after));
    sorted[..Least(limit, |sorted|)]
  }

  datatype Page = Page(items: seq<Row>, next: Option<seq<Field>>)

  /** A cursor without transaction, source or asset is refused. */
  predicate Accepted(cursor: seq<Field>) {
    |cursor| == 6 && cursor[1] != Txt("") && cursor[2] != Txt("") && cursor[5] != Txt("")
  }

  /** One more row than the page holds is asked for; it only tells whether there is a next page. */
  method Edges(rows: seq<Row>, after: Option<seq<Field>>, limit: nat) returns (r: Option<Page>)
    requires (after.Some? ==> |after.value| == 6) && limit > 0
    ensures r == PageOf(rows, after, limit)
    ensures r.None? <==>
      after.Some? && (after.value[1] == Txt("") || after.value[2] == Txt("") || after.value[5] == Txt(""))
  {
    if after.Some? && !Accepted(after.value) {
      return None;
    }
    var found := QueryTransfers(rows, after, limit + 1);
    var hasMore := |found| > limit;
    if hasMore {
      found := found[..limit];
    }
    var items: seq<Row> := [];
    for i := 0 to |found|
      invariant items == found[..i]
    {
      items := items + [found[i]];
    }
    assert items == found;
    var page := Page(items, None);
    if hasMore && |found| > 0 {
      page := page.(next := Some(Fields(found[|found| - 1])));
    }
    r := Some(page);
  }

  function PageOf(rows: seq<Row>, after: Option<seq<Field>>, limit: nat): (r: Option<Page>)
    requires (after.Some? ==> |after.value| == 6) && limit > 0
    ensures r.Some? && r.value.next.Some? ==> |r.value.next.value| == 6
  {
    if after.Some? && !Accepted(after.value) then None
    else
      var found := QueryTransfers(rows, after, limit + 1);
      Some(if |found| > limit then Page(found[..limit], Some(Fields(found[limit - 1]))) else Page(found, None))
  }

  /** The first `count` pages, one after the other, unless one is refused. */
  function Follow(rows: seq<Row>, after: Option<seq<Field>>, limit: nat, count: nat): Option<seq<Row>>
    requires (after.Some? ==> |after.value| == 6) && limit > 0
    decreases count
  {
    if count == 0 then Some([])
    else
      var page := PageOf(rows, after, limit);
      if page.None? || page.value.next.None? then (if page.None? then None else Some(page.value.items))
      else
        var rest := Follow(rows, page.value.next, limit, count - 1);
        if rest.None? then None else Some(page.value.items + rest.value)
  }

  // ---------- what a cursor leaves ----------

  lemma {:induction false} FilterInsert<T>(keep: T -> bool, less: (T, T) -> bool, x: T, s: seq<T>)
    ensures multiset(Filter(keep, Insert(less, x, s))) ==
      multiset(Filter(keep, s)) + multiset(if keep(x) then [x] else [])
  {
    if s == [] || !less(x, s[|s| - 1]) {
      assert (s + [x])[..|s|] == s;
    } else {
      var front, last := s[..|s| - 1], s[|s| - 1];
      FilterInsert(keep, less, x, front);
      assert (Insert(less, x, front) + [last])[..|s|] == Insert(less, x, front);
    }
  }

  /** Selecting from the sorted list selects the same rows. */
  lemma {:induction false} FilterSort<T>(keep: T -> bool, less: (T, T) -> bool, s: seq<T>)
    ensures multiset(Filter(keep, Sort(less, s))) == multiset(Filter(keep, s))
  {
    if s != [] {
      FilterSort(keep, less, s[..|s| - 1]);
      FilterInsert(keep, less, s[|s| - 1], Sort(less, s[..|s| - 1]));
    }
  }

  lemma {:induction false} FilterAll<T>(keep: T -> bool, s: seq<T>)
    requires forall x :: x in s ==> keep(x)
    ensures Filter(keep, s) == s
  {
    if s != [] {
      var front := s[..|s| - 1];
      forall x | x in front
        ensures keep(x)
      {
        assert x in s;
      }
      FilterAll(keep, front);
      assert s[|s| - 1] in s && s == front + [s[|s| - 1]];
    }
  }

  lemma {:induction false} FilterNone<T>(keep: T -> bool, s: seq<T>)
    requires forall x :: x in s ==> !keep(x)
    ensures Filter(keep, s) == []
  {
    if s != [] {
      var front := s[..|s| - 1];
      forall x | x in front
        ensures !keep(x)
      {
        assert x in s;
      }
      FilterNone(keep, front);
      assert s[|s| - 1] in s;
    }
  }

  lemma {:induction false} FilterJoin<T>(keep: T -> bool, s: seq<T>, t: seq<T>)
    ensures Filter(keep, s + t) == Filter(keep, s) + Filter(keep, t)
  {
    if t == [] {
      assert s + t == s;
    } else {
      FilterJoin(keep, s, t[..|t| - 1]);
      assert (s + t)[..|s + t| - 1] == s + t[..|t| - 1];
    }
  }

  ghost predicate Strictly(full: seq<Row>) {
    forall i, j :: 0 <= i < j < |full| ==> Before()(full[i], full[j])
  }

  lemma SortedUniqueIdentities(rows: seq<Row>)
    requires UniqueIdentities(rows)
    ensures
      var full := Sort(Before(), rows);
      && Ordered(Before(), full) && TellsApart(Before(), full)
      && Strictly(full)
  {
    hide Precedes, Fields;
    var full := Sort(Before(), rows);
    BeforeOrder();
    BeforeTellsApart(rows);
    SortOrdered(Before(), rows);
    SortPermutes(Before(), rows);
    TellsApartPermuted(Before(), rows, full);
    forall i, j | 0 <= i < j < |full|
      ensures Before()(full[i], full[j])
    {
      if full[i] == full[j] {
        TwiceInBag(full, i, j);
        NotTwice(rows, full[i]);
      }
    }
  }

  lemma TwiceInBag<T>(s: seq<T>, i: nat, j: nat)
    requires i < j < |s| && s[i] == s[j]
    ensures multiset(s)[s[i]] >= 2
  {
    assert s == s[..j] + [s[j]] + s[j + 1..];
    assert s[i] in multiset(s[..j]) by {
      assert s[..j][i] == s[i];
    }
  }

  lemma {:induction false} NotTwice(rows: seq<Row>, x: Row)
    requires UniqueIdentities(rows)
    ensures multiset(rows)[x] <= 1
  {
    hide Fields;
    if rows != [] {
      var front, last := rows[..|rows| - 1], rows[|rows| - 1];
      NotTwice(front, x);
      assert rows == front + [last];
      forall i | 0 <= i < |front|
        ensures front[i] != last
      {
        assert Fields(rows[i]) != Fields(rows[|rows| - 1]);
      }
      assert last !in front;
    }
  }

  lemma AfterMeansLater(full: seq<Row>, k: nat, i: nat)
    requires k < |full| && i < |full| && Strictly(full)
    ensures After(Fields(full[k]))(full[i]) <==> i > k
  {
    var cursor := Fields(full[k]);
    ConditionIsOrder(cursor, Fields(full[i]));
    PrecedesOrder(cursor, Fields(full[i]), cursor);
    if i < k {
      assert Before()(full[i], full[k]);
    } else if i > k {
      assert Before()(full[k], full[i]);
    }
  }

  lemma CursorCuts(full: seq<Row>, k: nat)
    requires k < |full| && Strictly(full)
    ensures Filter(After(Fields(full[k])), full) == full[k + 1..]
  {
    hide Fields, Strictly, After;
    var keep := After(Fields(full[k]));
    var head, tail := full[..k + 1], full[k + 1..];
    assert full == head + tail;
    FilterJoin(keep, head, tail);
    forall x | x in head
      ensures !keep(x)
    {
      var i :| 0 <= i < |head| && head[i] == x;
      AfterMeansLater(full, k, i);
    }
    FilterNone(keep, head);
    forall x | x in tail
      ensures keep(x)
    {
      var i :| 0 <= i < |tail| && tail[i] == x;
      AfterMeansLater(full, k, k + 1 + i);
    }
    FilterAll(keep, tail);
  }

  /** Selecting after the k-th row of the sorted list leaves exactly the rows behind it. */
  lemma CursorLeavesRest(rows: seq<Row>, k: nat)
    requires UniqueIdentities(rows) && k < |rows|
    ensures
      var full := Sort(Before(), rows);
      Sort(Before(), Selected(rows, Some(Fields(full[k])))) == full[k + 1..]
  {
    hide Precedes, Fields, CursorCondition, Sort, Ordered, WeakOrder, TellsApart, Before;
    var full := Sort(Before(), rows);
    var cursor := Fields(full[k]);
    SortedUniqueIdentities(rows);
    SortPermutes(Before(), rows);
    CursorCuts(full, k);
    FilterSort(After(cursor), Before(), rows);
    var rest := Filter(After(cursor), rows);
    assert rest == Selected(rows, Some(cursor));
    BeforeOrder();
    SortPermutes(Before(), rest);
    SortOrdered(Before(), rest);
    TellsApartPart(full, k + 1);
    SortedUnique(Before(), full[k + 1..], Sort(Before(), rest));
  }

  lemma TellsApartPart(full: seq<Row>, k: nat)
    requires Ordered(Before(), full) && TellsApart(Before(), full) && k <= |full|
    ensures Ordered(Before(), full[k..]) && TellsApart(Before(), full[k..])
  {
    forall x | x in full[k..]
      ensures x in full
    {
    }
  }

  /** The sorted rows, from the k-th on; the cursor before them is that of the row before. */
  ghost predicate At(rows: seq<Row>, after: Option<seq<Field>>, k: nat) {
    && k <= |rows|
    && if k == 0 then after == None else after == Some(Fields(Sort(Before(), rows)[k - 1]))
  }

  lemma SelectedAt(rows: seq<Row>, after: Option<seq<Field>>, k: nat)
    requires UniqueIdentities(rows) && At(rows, after, k)
    ensures Sort(Before(), Selected(rows, after)) == Sort(Before(), rows)[k..]
  {
    hide Precedes, CursorCondition, Sort, UniqueIdentities, Fields, Before, Filter;
    if k > 0 {
      CursorLeavesRest(rows, k - 1);
    } else {
      assert Sort(Before(), rows)[0..] == Sort(Before(), rows);
    }
  }

  /** A page is the next stretch of the sorted list, and its cursor the last row shown. */
  lemma PageAt(rows: seq<Row>, after: Option<seq<Field>>, k: nat, limit: nat)
    requires UniqueIdentities(rows) && limit > 0 && At(rows, after, k) && (after.Some? ==> Accepted(after.value))
    ensures PageOf(rows, after, limit).Some?
    ensures
      var full, page := Sort(Before(), rows), PageOf(rows, after, limit).value;
      && page.items == full[k..Least(k + limit, |full|)]
      && page.next == if k + limit < |full| then Some(Fields(full[k + limit - 1])) else None
  {
    hide Fields, Sort, Selected, UniqueIdentities, Before;
    var full := Sort(Before(), rows);
    SelectedAt(rows, after, k);
    var rest := full[k..];
    assert QueryTransfers(rows, after, limit + 1) == rest[..Least(limit + 1, |rest|)];
    if |rest| > limit {
      assert rest[..limit + 1][limit - 1] == full[k + limit - 1];
      assert rest[..limit + 1][..limit] == full[k..k + limit];
    } else {
      assert rest[..|rest|] == full[k..|full|];
    }
  }

  /** The last row of every page but the last gives a cursor that is accepted. */
  predicate EndsAccepted(full: seq<Row>, k: nat, limit: nat)
    requires limit > 0
    decreases |full| - k
  {
    k + limit < |full| ==> Accepted(Fields(full[k + limit - 1])) && EndsAccepted(full, k + limit, limit)
  }

  /** From any point of the sorted list, enough pages give the rest of it, if and only if the rows they
      end with give accepted cursors. */
  lemma {:induction false} FollowFrom(rows: seq<Row>, after: Option<seq<Field>>, k: nat, limit: nat, count: nat)
    requires UniqueIdentities(rows) && limit > 0 && At(rows, after, k) && |rows| - k < count
    requires after.Some? ==> Accepted(after.value)
    ensures
      var full := Sort(Before(), rows);
      Follow(rows, after, limit, count) == if EndsAccepted(full, k, limit) then Some(full[k..]) else None
    decreases count
  {
    hide Fields, Sort, PageOf, UniqueIdentities, Before, Accepted;
    var full := Sort(Before(), rows);
    PageAt(rows, after, k, limit);
    if k + limit < |full| {
      var next := PageOf(rows, after, limit).value.next;
      if Accepted(next.value) {
        FollowFrom(rows, next, k + limit, limit, count - 1);
        assert full[k..] == full[k..k + limit] + full[k + limit..];
      } else {
        CursorRefused(rows, next, limit, count - 1);
      }
    } else {
      assert full[k..] == full[k..|full|];
    }
  }

  lemma CursorRefused(rows: seq<Row>, after: Option<seq<Field>>, limit: nat, count: nat)
    requires after.Some? && |after.value| == 6 && !Accepted(after.value) && limit > 0 && count > 0
    ensures Follow(rows, after, limit, count) == None
  {
  }

  /** As every stored transfer has. */
  predicate Named(rows: seq<Row>) {
    forall row :: row in rows ==> row.tx != "" && row.source != "" && row.asset != ""
  }

  lemma {:induction false} NamedAccepted(full: seq<Row>, k: nat, limit: nat)
    requires Named(full) && limit > 0
    ensures EndsAccepted(full, k, limit)
    decreases |full| - k
  {
    if k + limit < |full| {
      assert full[k + limit - 1] in full;
      NamedAccepted(full, k + limit, limit);
    }
  }

  /** For every page size, following the cursor from the first page gives every matching row exactly
      once, newer ones first, unless a page ends with a row whose cursor is refused; no stored row is
      such. */
  lemma PagesAreComplete(rows: seq<Row>, limit: nat, count: nat)
    requires UniqueIdentities(rows) && limit > 0 && count > |rows|
    ensures
      var full := Sort(Before(), rows);
      && Follow(rows, None, limit, count) == (if EndsAccepted(full, 0, limit) then Some(full) else None)
      && multiset(full) == multiset(rows)
      && (Named(rows) ==> EndsAccepted(full, 0, limit))
      && forall i, j :: 0 <= i < j < |full| ==> Newer(full[i], full[j])
  {
    hide Newer;
    SortedUniqueIdentities(rows);
    forall i, j | 0 <= i < j < |Sort(Before(), rows)|
      ensures Newer(Sort(Before(), rows)[i], Sort(Before(), rows)[j])
    {
      SortIsNewest(Sort(Before(), rows)[i], Sort(Before(), rows)[j]);
    }
    var full := Sort(Before(), rows);
    FollowFrom(rows, None, 0, limit, count);
    assert full[0..] == full;
    SortPermutes(Before(), rows);
    if Named(rows) {
      SortKeepsMembers(Before(), rows);
      NamedAccepted(full, 0, limit);
    }
  }
}
