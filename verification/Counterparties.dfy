/** The largest counterparties of an address, streamed through a bounded heap
    (internal/store/store.go, TopCounterparties, TopRelationshipTransfers). */
module Counterparties {
  import opened Wrappers
  import opened Sorting
  import opened Decimal
  import opened BoundedHeap

  /** A stored transfer as the query projects it; amounts are text. */
  datatype Row = Row(
    other: string, amount: string, block: int, tx: string, source: string, traceId: string, logIndex: int,
    asset: string, token: Token)

  /** How the asset is displayed, and whether that is complete. */
  datatype Token = Token(symbol: string, decimals: int, complete: bool)

  datatype Summary = Summary(
    from: string, recipient: string, total: string, count: nat, earliest: int, latest: int,
    latestRow: Row, representative: Row, token: Token)

  // ---------- the two orders ----------

  /** Larger amount first, then identity. */
  function TransferBetter(l: Row, r: Row): bool {
    var c := CompareUnsigned(l.amount, r.amount);
    if c != 0 then c > 0
    else if l.tx != r.tx then CompareText(l.tx, r.tx) < 0
    else if l.source != r.source then CompareText(l.source, r.source) < 0
    else if l.traceId != r.traceId then CompareText(l.traceId, r.traceId) < 0
    else l.logIndex < r.logIndex
  }

  function SummaryBetter(l: Summary, r: Summary): bool {
    var c := CompareUnsigned(l.total, r.total);
    if c != 0 then c > 0
    else if l.from != r.from then CompareText(l.from, r.from) < 0
    else CompareText(l.recipient, r.recipient) < 0
  }

  lemma CompareOrder(x: string, y: string, z: string)
    ensures CompareUnsigned(x, y) == -CompareUnsigned(y, x)
    ensures CompareUnsigned(x, y) <= 0 && CompareUnsigned(y, z) <= 0 ==> CompareUnsigned(x, z) <= 0
    ensures CompareUnsigned(x, y) <= 0 && CompareUnsigned(y, z) < 0 ==> CompareUnsigned(x, z) < 0
    ensures CompareUnsigned(x, y) < 0 && CompareUnsigned(y, z) <= 0 ==> CompareUnsigned(x, z) < 0
  {
    TextOrder(Trimmed(x), Trimmed(y), Trimmed(z));
  }

  /** Larger totals come first, compared as numbers; the order is strict and tells summaries of
      different counterparties apart. */
  lemma SummaryOrder()
    ensures WeakOrder(SummaryBetter)
    ensures forall l: Summary, r: Summary {:trigger SummaryBetter(l, r)} ::
      (l.from, l.recipient) != (r.from, r.recipient) ==> SummaryBetter(l, r) || SummaryBetter(r, l)
  {
    hide CompareUnsigned, CompareText;
    forall x: Summary, y: Summary {:trigger SummaryBetter(x, y)}
      ensures SummaryBetter(x, y) ==> !SummaryBetter(y, x)
      ensures (x.from, x.recipient) != (y.from, y.recipient) ==> SummaryBetter(x, y) || SummaryBetter(y, x)
    {
      CompareOrder(x.total, y.total, x.total);
      TextOrder(x.from, y.from, x.from);
      TextOrder(x.recipient, y.recipient, x.recipient);
    }
    forall x: Summary, y: Summary, z: Summary {:trigger SummaryBetter(z, y), SummaryBetter(y, x)}
      ensures !SummaryBetter(y, x) && !SummaryBetter(z, y) ==> !SummaryBetter(z, x)
    {
      SummaryTransitive(x, y, z);
    }
  }

  lemma SummaryTransitive(x: Summary, y: Summary, z: Summary)
    ensures !SummaryBetter(y, x) && !SummaryBetter(z, y) ==> !SummaryBetter(z, x)
  {
    hide CompareUnsigned, CompareText;
    CompareOrder(x.total, y.total, z.total);
    CompareOrder(z.total, y.total, x.total);
    CompareOrder(z.total, x.total, y.total);
    CompareOrder(y.total, x.total, z.total);
    TextCycle(x.from, y.from, z.from);
    TextCycle(x.recipient, y.recipient, z.recipient);
  }

  lemma TransferTransitive(x: Row, y: Row, z: Row)
    ensures !TransferBetter(y, x) && !TransferBetter(z, y) ==> !TransferBetter(z, x)
  {
    hide CompareUnsigned, CompareText;
    CompareOrder(x.amount, y.amount, z.amount);
    CompareOrder(z.amount, y.amount, x.amount);
    CompareOrder(z.amount, x.amount, y.amount);
    CompareOrder(y.amount, x.amount, z.amount);
    TextCycle(x.tx, y.tx, z.tx);
    TextCycle(x.source, y.source, z.source);
    TextCycle(x.traceId, y.traceId, z.traceId);
  }

  lemma TextCycle(x: string, y: string, z: string)
    ensures CompareText(y, x) >= 0 && CompareText(z, y) >= 0 ==> CompareText(z, x) >= 0
    ensures CompareText(y, x) >= 0 && CompareText(z, y) > 0 ==> CompareText(z, x) > 0
    ensures CompareText(y, x) > 0 && CompareText(z, y) >= 0 ==> CompareText(z, x) > 0
    ensures CompareText(x, y) == 0 <==> x == y
    ensures CompareText(y, z) == 0 <==> y == z
    ensures CompareText(x, z) == 0 <==> x == z
    ensures CompareText(x, y) == -CompareText(y, x)
    ensures CompareText(y, z) == -CompareText(z, y)
    ensures CompareText(x, z) == -CompareText(z, x)
  {
    TextOrder(x, y, z);
    TextOrder(z, y, x);
    TextOrder(x, z, y);
  }

  lemma TransferOrder()
    ensures WeakOrder(TransferBetter)
  {
    hide CompareUnsigned, CompareText;
    forall x: Row, y: Row {:trigger TransferBetter(x, y)}
      ensures TransferBetter(x, y) ==> !TransferBetter(y, x)
    {
      CompareOrder(x.amount, y.amount, x.amount);
      TextOrder(x.tx, y.tx, x.tx);
      TextOrder(x.source, y.source, x.source);
      TextOrder(x.traceId, y.traceId, x.traceId);
    }
    forall x: Row, y: Row, z: Row {:trigger TransferBetter(z, y), TransferBetter(y, x)}
      ensures !TransferBetter(y, x) && !TransferBetter(z, y) ==> !TransferBetter(z, x)
    {
      TransferTransitive(x, y, z);
    }
  }

  // ---------- grouping ----------

  datatype Query = Query(address: string, outgoing: bool, n: nat)

  /** The summary being built; its total is printed when it is complete. */
  datatype Building = Building(
    other: string, total: nat, count: nat, earliest: int, latest: int,
    latestRow: Row, representative: Row, token: Token)

  predicate Readable(row: Row) { row.amount != "" && Digits(row.amount) }

  /** A query meets an unreadable amount only to fail; it counts as 0 here. */
  function Amount(row: Row): (amount: nat)
    ensures Readable(row) ==> amount == Value(row.amount)
  {
    if !Readable(row) then 0
    else
      ValueBounds(row.amount);
      Value(row.amount)
  }

  predicate AllReadable(rows: seq<Row>) {
    forall i :: 0 <= i < |rows| ==> Readable(rows[i])
  }

  function Open(row: Row): Building {
    Building(row.other, 0, 0, row.block, row.block, row, row, row.token)
  }

  function Add(g: Building, row: Row): Building {
    Building(
      g.other, g.total + Amount(row), g.count + 1,
      if row.block < g.earliest then row.block else g.earliest,
      if row.block > g.latest then row.block else g.latest,
      if row.block > g.latest then row else g.latestRow,
      if TransferBetter(row, g.representative) then row else g.representative,
      if row.token.complete then row.token else g.token)
  }

  function Fold(run: seq<Row>): Building
    requires run != []
  {
    var last := run[|run| - 1];
    Add(if |run| == 1 then Open(last) else Fold(run[..|run| - 1]), last)
  }

  function Close(q: Query, g: Building): Summary {
    Summary(if q.outgoing then q.address else g.other, if q.outgoing then g.other else q.address,
            Text(g.total), g.count, g.earliest, g.latest, g.latestRow, g.representative, g.token)
  }

  /** The rows cut where the counterparty changes. */
  function Runs(rows: seq<Row>): (r: seq<seq<Row>>)
    ensures forall k :: 0 <= k < |r| ==> r[k] != []
    ensures rows != [] ==> r != [] && r[|r| - 1][|r[|r| - 1]| - 1] == rows[|rows| - 1]
  {
    if rows == [] then []
    else
      var front, last := Runs(rows[..|rows| - 1]), rows[|rows| - 1];
      if |rows| > 1 && rows[|rows| - 2].other == last.other then front[..|front| - 1] + [front[|front| - 1] + [last]]
      else front + [[last]]
  }

  function Summaries(q: Query, runs: seq<seq<Row>>): (r: seq<Summary>)
    requires forall k :: 0 <= k < |runs| ==> runs[k] != []
    ensures |r| == |runs|
    ensures forall k :: 0 <= k < |r| ==> r[k] == Close(q, Fold(runs[k]))
  {
    seq(|runs|, k requires 0 <= k < |runs| => Close(q, Fold(runs[k])))
  }

  // ---------- what the groups are ----------

  function Sum(rows: seq<Row>): nat {
    if rows == [] then 0 else Sum(rows[..|rows| - 1]) + Amount(rows[|rows| - 1])
  }

  ghost predicate AddsUp(g: Building, run: seq<Row>) {
    g.total == Sum(run) && g.count == |run|
  }

  ghost predicate Spans(g: Building, run: seq<Row>) {
    && (forall i :: 0 <= i < |run| ==> g.earliest <= run[i].block <= g.latest)
    && (exists i :: 0 <= i < |run| && run[i].block == g.earliest)
    && (exists i :: 0 <= i < |run| && LatestAt(run, i) && g.latestRow == run[i] && g.latest == run[i].block)
  }

  /** The first row of the last block. */
  ghost predicate LatestAt(run: seq<Row>, i: nat)
    requires i < |run|
  {
    && (forall j :: 0 <= j < i ==> run[j].block < run[i].block)
    && forall j :: i < j < |run| ==> run[j].block <= run[i].block
  }

  ghost predicate Represented(g: Building, run: seq<Row>) {
    exists i :: 0 <= i < |run| && BestAt(run, i) && g.representative == run[i]
  }

  /** The first row that none beats. */
  ghost predicate BestAt(run: seq<Row>, i: nat)
    requires i < |run|
  {
    && (forall j :: 0 <= j < i ==> TransferBetter(run[i], run[j]))
    && forall j :: i < j < |run| ==> !TransferBetter(run[j], run[i])
  }

  /** The display data are those of the last row that has them complete, or else of the first row. */
  ghost predicate Named(g: Building, run: seq<Row>) {
    exists i :: 0 <= i < |run| && NamedBy(g, run, i)
  }

  ghost predicate NamedBy(g: Building, run: seq<Row>, i: nat)
    requires i < |run|
  {
    && g.token == run[i].token && (g.token.complete || i == 0)
    && forall j :: i < j < |run| ==> !run[j].token.complete
  }

  lemma AddNamed(g: Building, run: seq<Row>, row: Row)
    requires Named(g, run)
    ensures Named(Add(g, row), run + [row])
  {
    hide TransferBetter, Amount;
    var i :| 0 <= i < |run| && NamedBy(g, run, i);
    assert NamedBy(Add(g, row), run + [row], if row.token.complete then |run| else i);
  }

  lemma FirstRow(row: Row)
    ensures Named(Add(Open(row), row), [row])
    ensures Spans(Add(Open(row), row), [row]) && Represented(Add(Open(row), row), [row])
  {
    TransferOrder();
    assert !TransferBetter(row, row);
    hide TransferBetter, Amount;
    assert [row][0].block == row.block && LatestAt([row], 0) && BestAt([row], 0);
    assert NamedBy(Add(Open(row), row), [row], 0);
  }

  lemma AddSpans(g: Building, run: seq<Row>, row: Row)
    requires Spans(g, run)
    ensures Spans(Add(g, row), run + [row])
  {
    hide TransferBetter, Amount;
    var i :| 0 <= i < |run| && run[i].block == g.earliest;
    assert (run + [row])[i].block == g.earliest;
    assert (run + [row])[|run|].block == row.block;
    var k :| 0 <= k < |run| && LatestAt(run, k) && g.latestRow == run[k] && g.latest == run[k].block;
    assert LatestAt(run + [row], if row.block > g.latest then |run| else k);
  }

  lemma AddRepresented(g: Building, run: seq<Row>, row: Row)
    requires WeakOrder(TransferBetter) && Represented(g, run)
    ensures Represented(Add(g, row), run + [row])
  {
    hide TransferBetter, Amount;
    var k :| 0 <= k < |run| && BestAt(run, k) && g.representative == run[k];
    var all := run + [row];
    if TransferBetter(row, run[k]) {
      forall j | 0 <= j < |run|
        ensures TransferBetter(row, run[j])
      {
        NewBest(run, k, row, j);
      }
      assert BestAt(all, |run|);
    } else {
      assert BestAt(all, k);
    }
  }

  lemma NewBest(run: seq<Row>, k: nat, row: Row, j: nat)
    requires WeakOrder(TransferBetter) && k < |run| && j < |run| && BestAt(run, k) && TransferBetter(row, run[k])
    ensures TransferBetter(row, run[j])
  {
    hide TransferBetter;
    if !TransferBetter(row, run[j]) {
      assert !TransferBetter(run[j], run[k]);
      TransferTransitive(run[k], run[j], row);
    }
  }

  /** A summary adds up its rows, spans their blocks, represents them by one that none beats, and is
      displayed like the last row with complete data. */
  lemma {:induction false} FoldSums(run: seq<Row>)
    requires run != []
    ensures AddsUp(Fold(run), run) && Spans(Fold(run), run) && Represented(Fold(run), run) && Named(Fold(run), run)
    ensures Fold(run).other == run[0].other
  {
    hide TransferBetter, Amount, Spans, Represented, Named;
    var last := run[|run| - 1];
    TransferOrder();
    if |run| == 1 {
      assert run == [last] && run[..0] == [] && Sum(run[..0]) == 0;
      FirstRow(last);
    } else {
      var front := run[..|run| - 1];
      FoldSums(front);
      assert run == front + [last];
      AddSpans(Fold(front), front, last);
      AddNamed(Fold(front), front, last);
      AddRepresented(Fold(front), front, last);
    }
  }

  /** Rows come from the index in the order of the counterparty. */
  ghost predicate ByCounterparty(rows: seq<Row>) {
    forall i, j :: 0 <= i < j < |rows| ==> CompareText(rows[i].other, rows[j].other) <= 0
  }

  function Of(rows: seq<Row>, other: string): seq<Row> {
    Filter((row: Row) => row.other == other, rows)
  }

  /** One run for each counterparty, holding all its rows in order. */
  ghost predicate Grouped(rows: seq<Row>, runs: seq<seq<Row>>) {
    && (forall k :: 0 <= k < |runs| ==> runs[k] != [] && runs[k] == Of(rows, runs[k][0].other))
    && (forall k, l :: 0 <= k < l < |runs| ==> runs[k][0].other != runs[l][0].other)
    && (forall i :: 0 <= i < |rows| ==> HasRun(runs, rows[i].other))
  }

  ghost predicate HasRun(runs: seq<seq<Row>>, other: string) {
    exists k :: 0 <= k < |runs| && runs[k] != [] && runs[k][0].other == other
  }

  lemma {:induction false} NoneOf(rows: seq<Row>, other: string)
    requires forall i :: 0 <= i < |rows| ==> rows[i].other != other
    ensures Of(rows, other) == []
  {
    if rows != [] {
      NoneOf(rows[..|rows| - 1], other);
    }
  }

  lemma {:induction false} RunsGroup(rows: seq<Row>)
    requires ByCounterparty(rows)
    ensures Grouped(rows, Runs(rows))
    ensures rows != [] ==> Runs(rows)[|Runs(rows)| - 1][0].other == rows[|rows| - 1].other
  {
    if rows != [] {
      var front, last := rows[..|rows| - 1], rows[|rows| - 1];
      assert rows == front + [last];
      RunsGroup(front);
      if front != [] && front[|front| - 1].other == last.other {
        ExtendRun(rows, Runs(front));
      } else {
        forall i | 0 <= i < |front|
          ensures front[i].other != last.other
        {
          LaterCounterparty(rows, i);
        }
        NoneOf(front, last.other);
        NewRun(rows, Runs(front));
      }
    }
  }

  lemma LaterCounterparty(rows: seq<Row>, i: nat)
    requires ByCounterparty(rows) && i + 1 < |rows| && rows[|rows| - 2].other != rows[|rows| - 1].other
    ensures rows[i].other != rows[|rows| - 1].other
  {
    var x, y, z := rows[i].other, rows[|rows| - 2].other, rows[|rows| - 1].other;
    TextOrder(y, z, y);
    TextOrder(x, y, z);
    TextOrder(x, z, x);
  }

  lemma ExtendRun(rows: seq<Row>, runs: seq<seq<Row>>)
    requires rows != [] && runs != [] && Grouped(rows[..|rows| - 1], runs)
    requires runs[|runs| - 1][0].other == rows[|rows| - 1].other
    ensures Grouped(rows, runs[..|runs| - 1] + [runs[|runs| - 1] + [rows[|rows| - 1]]])
  {
    var front, last := rows[..|rows| - 1], rows[|rows| - 1];
    var r: seq<seq<Row>> := runs[..|runs| - 1] + [runs[|runs| - 1] + [last]];
    assert forall k :: 0 <= k < |r| ==> r[k][0].other == runs[k][0].other;
    forall i | 0 <= i < |rows|
      ensures HasRun(r, rows[i].other)
    {
      if i < |front| {
        var k :| 0 <= k < |runs| && runs[k] != [] && runs[k][0].other == front[i].other;
        assert r[k][0].other == rows[i].other;
      } else {
        assert r[|r| - 1][0].other == rows[i].other;
      }
    }
  }

  lemma NewRun(rows: seq<Row>, runs: seq<seq<Row>>)
    requires rows != [] && Grouped(rows[..|rows| - 1], runs)
    requires Of(rows[..|rows| - 1], rows[|rows| - 1].other) == []
    ensures Grouped(rows, runs + [[rows[|rows| - 1]]])
  {
    var front, last := rows[..|rows| - 1], rows[|rows| - 1];
    var r: seq<seq<Row>> := runs + [[last]];
    forall k | 0 <= k < |runs|
      ensures runs[k][0].other != last.other
    {
      assert runs[k] == Of(front, runs[k][0].other);
    }
    forall i | 0 <= i < |rows|
      ensures HasRun(r, rows[i].other)
    {
      if i < |front| {
        var k :| 0 <= k < |runs| && runs[k] != [] && runs[k][0].other == front[i].other;
        assert r[k][0].other == rows[i].other;
      } else {
        assert r[|runs|][0].other == rows[i].other;
      }
    }
  }

  // ---------- what the lists mean ----------

  /** In numbers: larger amounts first; equal ones by transaction, source, trace and log index. */
  lemma BetterInNumbers(l: Row, r: Row)
    requires Readable(l) && Readable(r)
    ensures TransferBetter(l, r) <==>
      || Value(l.amount) > Value(r.amount)
      || (Value(l.amount) == Value(r.amount)
          && (CompareText(l.tx, r.tx) < 0
              || (l.tx == r.tx
                  && (CompareText(l.source, r.source) < 0
                      || (l.source == r.source
                          && (CompareText(l.traceId, r.traceId) < 0
                              || (l.traceId == r.traceId && l.logIndex < r.logIndex)))))))
  {
    hide CompareUnsigned, CompareText, Value;
    CompareIsNumeric(l.amount, r.amount);
    TextOrder(l.tx, r.tx, l.tx);
    TextOrder(l.source, r.source, l.source);
    TextOrder(l.traceId, r.traceId, l.traceId);
  }

  /** The other side of a summary. */
  function OtherOf(q: Query, s: Summary): string {
    if q.outgoing then s.recipient else s.from
  }

  /** What a summary says of the rows of one counterparty: who pays whom, the sum of the amounts and their
      number, the blocks from the first to the last, the first row of the last block, the first row that
      none is listed before, and the display data of the last row that has them complete, or else of the
      first row. */
  ghost predicate Describes(q: Query, s: Summary, own: seq<Row>) {
    && own != []
    && (if q.outgoing then s.from == q.address && s.recipient == own[0].other
        else s.from == own[0].other && s.recipient == q.address)
    && Digits(s.total) && Value(s.total) == Sum(own) && s.count == |own|
    && (forall i :: 0 <= i < |own| ==> s.earliest <= own[i].block <= s.latest)
    && (exists i :: 0 <= i < |own| && own[i].block == s.earliest)
    && (exists i :: 0 <= i < |own| && LatestAt(own, i) && s.latestRow == own[i] && s.latest == own[i].block)
    && (exists i :: 0 <= i < |own| && BestAt(own, i) && s.representative == own[i])
    && (forall i :: 0 <= i < |own| ==> Value(own[i].amount) <= Value(s.representative.amount))
    && exists i :: 0 <= i < |own| && s.token == own[i].token && (s.token.complete || i == 0)
                   && forall j :: i < j < |own| ==> !own[j].token.complete
  }

  /** The list: a summary of all rows of its counterparty for each entry, no counterparty twice, totals in
      descending order; and a counterparty left out has no larger sum than any of n listed ones. */
  ghost predicate TopOf(q: Query, rows: seq<Row>, r: seq<Summary>) {
    && |r| <= q.n
    && (forall i :: 0 <= i < |r| ==> Describes(q, r[i], Of(rows, OtherOf(q, r[i]))))
    && (forall i, j :: 0 <= i < j < |r| ==>
          OtherOf(q, r[i]) != OtherOf(q, r[j]) && Value(r[i].total) >= Value(r[j].total))
    && forall k :: 0 <= k < |rows| ==> Listed(q, r, rows[k].other) || Outdone(q, rows, r, rows[k].other)
  }

  ghost predicate Listed(q: Query, r: seq<Summary>, other: string) {
    exists i :: 0 <= i < |r| && OtherOf(q, r[i]) == other
  }

  ghost predicate Outdone(q: Query, rows: seq<Row>, r: seq<Summary>, other: string) {
    |r| == q.n && forall i :: 0 <= i < |r| ==> Value(r[i].total) >= Sum(Of(rows, other))
  }

  /** The list of the largest transfers: in descending order, and none left out is larger. */
  ghost predicate LargestOf(limit: nat, rows: seq<Row>, r: seq<Row>) {
    && |r| == Least(limit, |rows|)
    && (forall i, j :: 0 <= i < j < |r| ==> Value(r[i].amount) >= Value(r[j].amount))
    && exists rest: seq<Row> :: multiset(r + rest) == multiset(rows)
         && forall i, j :: 0 <= i < |r| && 0 <= j < |rest| ==> Value(r[i].amount) >= Value(rest[j].amount)
  }

  lemma NotLarger(x: Row, y: Row)
    requires Readable(x) && Readable(y) && !TransferBetter(y, x)
    ensures Value(y.amount) <= Value(x.amount)
  {
    hide CompareText;
    BetterInNumbers(y, x);
  }

  lemma BestAreLargest(limit: nat, rows: seq<Row>, r: seq<Row>)
    requires AllReadable(rows) && BestOf(TransferBetter, limit, r, rows)
    ensures LargestOf(limit, rows, r)
  {
    hide TransferBetter, Value, Digits, Readable;
    var rest: seq<Row> :| multiset(r + rest) == multiset(rows) && Dominates(TransferBetter, r, rest);
    forall x | x in r + rest
      ensures Readable(x)
    {
      assert x in multiset(r + rest);
      assert x in multiset(rows);
    }
    forall i, j | 0 <= i < j < |r|
      ensures Value(r[i].amount) >= Value(r[j].amount)
    {
      assert r[i] in r + rest && r[j] in r + rest;
      NotLarger(r[i], r[j]);
    }
    forall i, j | 0 <= i < |r| && 0 <= j < |rest|
      ensures Value(r[i].amount) >= Value(rest[j].amount)
    {
      assert r[i] in r + rest && rest[j] in r + rest;
      NotLarger(r[i], rest[j]);
    }
  }

  lemma BestBeatsAll(run: seq<Row>, k: nat, i: nat)
    requires k < |run| && i < |run| && BestAt(run, k)
    ensures !TransferBetter(run[i], run[k])
  {
    TransferOrder();
    hide TransferBetter;
    assert i < k ==> TransferBetter(run[k], run[i]);
    assert !TransferBetter(run[k], run[k]);
  }

  lemma ClosedDescribes(q: Query, run: seq<Row>)
    requires run != [] && AllReadable(run)
    ensures Describes(q, Close(q, Fold(run)), run)
  {
    hide TransferBetter, Fold, Text, Value, Digits, Sum;
    FoldSums(run);
    var g := Fold(run);
    TextValue(g.total);
    var k :| 0 <= k < |run| && BestAt(run, k) && g.representative == run[k];
    forall i | 0 <= i < |run|
      ensures Value(run[i].amount) <= Value(g.representative.amount)
    {
      BestBeatsAll(run, k, i);
      NotLarger(run[k], run[i]);
    }
    var i :| 0 <= i < |run| && NamedBy(g, run, i);
  }

  lemma ReadableOf(rows: seq<Row>, other: string)
    requires AllReadable(rows)
    ensures AllReadable(Of(rows, other))
  {
    forall i | 0 <= i < |Of(rows, other)|
      ensures Readable(Of(rows, other)[i])
    {
      FilterMembers((row: Row) => row.other == other, rows, Of(rows, other)[i]);
    }
  }

  /** The summary of every run describes all rows of its counterparty. */
  lemma SummaryDescribes(q: Query, rows: seq<Row>, k: nat)
    requires ByCounterparty(rows) && AllReadable(rows) && k < |Runs(rows)|
    ensures
      var s := Summaries(q, Runs(rows))[k];
      && OtherOf(q, s) == Runs(rows)[k][0].other
      && Describes(q, s, Of(rows, OtherOf(q, s))) && Value(s.total) == Sum(Of(rows, OtherOf(q, s)))
  {
    hide ByCounterparty, AllReadable, Fold, Of, Sum;
    RunsGroup(rows);
    var run := Runs(rows)[k];
    ReadableOf(rows, run[0].other);
    ClosedDescribes(q, run);
  }

  lemma {:induction false} CountedOnce<T>(s: seq<T>, x: T)
    requires forall i, j :: 0 <= i < j < |s| ==> s[i] != s[j]
    ensures multiset(s)[x] <= 1
  {
    if s != [] {
      var front, last := s[..|s| - 1], s[|s| - 1];
      CountedOnce(front, x);
      assert s == front + [last];
      if x == last {
        assert x !in front;
      }
    }
  }

  lemma PermutedDistinct<T>(s: seq<T>, t: seq<T>)
    requires multiset(s) == multiset(t) && forall i, j :: 0 <= i < j < |s| ==> s[i] != s[j]
    ensures forall i, j :: 0 <= i < j < |t| ==> t[i] != t[j]
  {
    forall i, j | 0 <= i < j < |t|
      ensures t[i] != t[j]
    {
      CountedOnce(s, t[i]);
      assert t == t[..j] + [t[j]] + t[j + 1..];
      assert t[i] in t[..j];
    }
  }

  function Ranked(q: Query, rows: seq<Row>): (r: seq<Summary>)
    ensures |r| == |Runs(rows)|
  {
    Sort(SummaryBetter, Summaries(q, Runs(rows)))
  }

  /** The i-th of the sorted summaries is that of some run. */
  lemma RankedRun(q: Query, rows: seq<Row>, i: nat) returns (k: nat)
    requires ByCounterparty(rows) && AllReadable(rows) && i < |Runs(rows)|
    ensures k < |Runs(rows)| && Ranked(q, rows)[i] == Summaries(q, Runs(rows))[k]
    ensures
      var s := Ranked(q, rows)[i];
      && OtherOf(q, s) == Runs(rows)[k][0].other
      && Describes(q, s, Of(rows, OtherOf(q, s))) && Value(s.total) == Sum(Of(rows, OtherOf(q, s)))
  {
    hide SummaryBetter, Sort, Fold, Of, Sum, Describes, AllReadable, ByCounterparty, Runs;
    var all := Summaries(q, Runs(rows));
    SortKeepsMembers(SummaryBetter, all);
    assert Ranked(q, rows)[i] in Sort(SummaryBetter, all);
    k :| 0 <= k < |all| && all[k] == Ranked(q, rows)[i];
    SummaryDescribes(q, rows, k);
  }

  lemma RankedApart(q: Query, rows: seq<Row>, i: nat, j: nat)
    requires ByCounterparty(rows) && AllReadable(rows) && i < j < |Runs(rows)|
    ensures
      var s := Ranked(q, rows);
      OtherOf(q, s[i]) != OtherOf(q, s[j]) && Value(s[i].total) >= Value(s[j].total)
  {
    hide SummaryBetter, Sort, Fold, Of, Sum, Describes, AllReadable, ByCounterparty, Runs, WeakOrder;
    var all := Summaries(q, Runs(rows));
    var k := RankedRun(q, rows, i);
    var l := RankedRun(q, rows, j);
    RunsGroup(rows);
    forall m, n | 0 <= m < n < |all|
      ensures all[m] != all[n]
    {
      SummaryDescribes(q, rows, m);
      SummaryDescribes(q, rows, n);
    }
    SortPermutes(SummaryBetter, all);
    PermutedDistinct(all, Ranked(q, rows));
    TopMeansLargest(q, rows, i, j);
  }

  lemma RunOf(rows: seq<Row>, i: nat) returns (l: nat)
    requires ByCounterparty(rows) && i < |rows|
    ensures l < |Runs(rows)| && Runs(rows)[l][0].other == rows[i].other
  {
    hide ByCounterparty, Of, Runs;
    RunsGroup(rows);
    assert HasRun(Runs(rows), rows[i].other);
    l :| 0 <= l < |Runs(rows)| && Runs(rows)[l] != [] && Runs(rows)[l][0].other == rows[i].other;
  }

  /** The place of a counterparty. */
  lemma RankOf(q: Query, rows: seq<Row>, i: nat) returns (m: nat)
    requires ByCounterparty(rows) && AllReadable(rows) && i < |rows|
    ensures m < |Runs(rows)| && OtherOf(q, Ranked(q, rows)[m]) == rows[i].other
    ensures Value(Ranked(q, rows)[m].total) == Sum(Of(rows, rows[i].other))
  {
    hide SummaryBetter, Sort, Fold, Of, Sum, Describes, AllReadable, ByCounterparty, Runs, OtherOf, Value;
    var all := Summaries(q, Runs(rows));
    var l := RunOf(rows, i);
    SummaryDescribes(q, rows, l);
    SortKeepsMembers(SummaryBetter, all);
    assert all[l] in Sort(SummaryBetter, all);
    m :| 0 <= m < |Ranked(q, rows)| && Ranked(q, rows)[m] == all[l];
    assert Of(rows, OtherOf(q, all[l])) == Of(rows, rows[i].other) by {
      assert OtherOf(q, all[l]) == rows[i].other;
    }
    assert Value(Ranked(q, rows)[m].total) == Value(all[l].total);
  }

  /** The first n of the sorted summaries are that list. */
  lemma SortedIsTop(q: Query, rows: seq<Row>)
    requires ByCounterparty(rows) && AllReadable(rows)
    ensures TopOf(q, rows, Sort(SummaryBetter, Summaries(q, Runs(rows)))[..Least(q.n, |Runs(rows)|)])
  {
    hide SummaryBetter, Sort, Fold, Of, Sum, Describes, AllReadable, ByCounterparty, Runs, OtherOf, Value;
    var ranked := Ranked(q, rows);
    var r := ranked[..Least(q.n, |Runs(rows)|)];
    forall i | 0 <= i < |r|
      ensures Describes(q, r[i], Of(rows, OtherOf(q, r[i])))
    {
      var k := RankedRun(q, rows, i);
    }
    forall i, j | 0 <= i < j < |r|
      ensures OtherOf(q, r[i]) != OtherOf(q, r[j]) && Value(r[i].total) >= Value(r[j].total)
    {
      RankedApart(q, rows, i, j);
    }
    forall k | 0 <= k < |rows|
      ensures Listed(q, r, rows[k].other) || Outdone(q, rows, r, rows[k].other)
    {
      var m := RankOf(q, rows, k);
      if m < |r| {
        assert OtherOf(q, r[m]) == rows[k].other;
      } else {
        forall i | 0 <= i < |r|
          ensures Value(r[i].total) >= Sum(Of(rows, rows[k].other))
        {
          RankedApart(q, rows, i, m);
        }
      }
    }
  }

  // ---------- the streams ----------

  /** Different counterparties have different summaries, and the order tells them apart. */
  lemma SummariesTellApart(q: Query, rows: seq<Row>, runs: seq<seq<Row>>)
    requires Grouped(rows, runs)
    ensures TellsApart(SummaryBetter, Summaries(q, runs))
  {
    hide SummaryBetter, Of, Fold;
    SummaryOrder();
    var s := Summaries(q, runs);
    forall k | 0 <= k < |runs|
      ensures s[k].from == (if q.outgoing then q.address else runs[k][0].other)
      ensures s[k].recipient == (if q.outgoing then runs[k][0].other else q.address)
    {
      FoldSums(runs[k]);
    }
    forall x, y {:trigger SummaryBetter(x, y)} | x in s && y in s
      ensures x == y || SummaryBetter(x, y) || SummaryBetter(y, x)
    {
      var k :| 0 <= k < |s| && s[k] == x;
      var l :| 0 <= l < |s| && s[l] == y;
      if k != l {
        assert runs[k][0].other != runs[l][0].other;
      }
    }
  }

  /** The runs that are complete, and the one being read. */
  ghost predicate Streaming(q: Query, rows: seq<Row>, h: seq<Summary>, rest: seq<Summary>, current: Building)
    requires rows != []
  {
    var runs := Runs(rows);
    current == Fold(runs[|runs| - 1]) && Holds(SummaryBetter, q.n, h, rest, Summaries(q, runs[..|runs| - 1]))
  }

  lemma SameRun(q: Query, rows: seq<Row>, row: Row, h: seq<Summary>, rest: seq<Summary>, current: Building)
    requires rows != [] && Streaming(q, rows, h, rest, current)
    requires current.other == row.other && rows[|rows| - 1].other == current.other
    ensures Streaming(q, rows + [row], h, rest, Add(current, row))
  {
    hide Holds, SummaryBetter, Add;
    var runs, longer := Runs(rows), Runs(rows + [row]);
    assert (rows + [row])[..|rows|] == rows;
    var last := runs[|runs| - 1];
    assert longer[|longer| - 1] == last + [row] && longer[..|longer| - 1] == runs[..|runs| - 1];
    assert (last + [row])[..|last|] == last;
  }

  lemma RunsSnoc(rows: seq<Row>, row: Row)
    requires rows == [] || rows[|rows| - 1].other != row.other
    ensures Runs(rows + [row]) == Runs(rows) + [[row]]
  {
    assert (rows + [row])[..|rows|] == rows;
  }

  lemma NextRun(q: Query, rows: seq<Row>, row: Row, h: seq<Summary>, rest: seq<Summary>)
    requires rows == [] || rows[|rows| - 1].other != row.other
    requires Holds(SummaryBetter, q.n, h, rest, Summaries(q, Runs(rows)))
    ensures Streaming(q, rows + [row], h, rest, Add(Open(row), row))
  {
    hide Holds, Add, Runs;
    RunsSnoc(rows, row);
    var runs, longer := Runs(rows), Runs(rows + [row]);
    assert longer[|longer| - 1] == [row] && longer[..|longer| - 1] == runs;
    assert Fold([row]) == Add(Open(row), row);
    assert Streaming(q, rows + [row], h, rest, Add(Open(row), row));
  }

  lemma SummariesSnoc(q: Query, runs: seq<seq<Row>>)
    requires runs != [] && forall k :: 0 <= k < |runs| ==> runs[k] != []
    ensures Summaries(q, runs[..|runs| - 1]) + [Close(q, Fold(runs[|runs| - 1]))] == Summaries(q, runs)
  {
  }

  /** The current summary goes to the heap. */
  method Flush(q: Query, h: seq<Summary>, current: Building, ghost rest: seq<Summary>, ghost rows: seq<Row>)
    returns (r: seq<Summary>, ghost out: seq<Summary>)
    requires q.n > 0 && rows != [] && Streaming(q, rows, h, rest, current)
    ensures Holds(SummaryBetter, q.n, r, out, Summaries(q, Runs(rows)))
  {
    hide Holds, SummaryBetter, Fold, WeakOrder;
    SummaryOrder();
    ghost var runs := Runs(rows);
    SummariesSnoc(q, runs);
    r, out := Offer(SummaryBetter, q.n, h, Close(q, current), rest, Summaries(q, runs[..|runs| - 1]));
  }

  lemma NothingHeld(q: Query)
    ensures Holds(SummaryBetter, q.n, [], [], Summaries(q, Runs([])))
  {
  }

  lemma TopOfSummaries(q: Query, rows: seq<Row>, h: seq<Summary>, rest: seq<Summary>)
    requires ByCounterparty(rows) && Holds(SummaryBetter, q.n, h, rest, Summaries(q, Runs(rows)))
    ensures Sort(SummaryBetter, h) == Sort(SummaryBetter, Summaries(q, Runs(rows)))[..Least(q.n, |Runs(rows)|)]
  {
    hide Holds, SummaryBetter, WeakOrder, Sort, Runs, Grouped;
    SummaryOrder();
    RunsGroup(rows);
    SummariesTellApart(q, rows, Runs(rows));
    HeldIsFirst(SummaryBetter, q.n, h, rest, Summaries(q, Runs(rows)));
  }

  /** One pass over the rows of an address, with a heap of n summaries, gives the n largest
      counterparties in order; a row whose amount cannot be read fails the query. */
  method TopCounterparties(q: Query, rows: seq<Row>) returns (r: Option<seq<Summary>>)
    requires ByCounterparty(rows)
    ensures r.None? <==> q.n == 0 || !AllReadable(rows)
    ensures r.Some? ==> r.value == Sort(SummaryBetter, Summaries(q, Runs(rows)))[..Least(q.n, |Runs(rows)|)]
    ensures r.Some? ==> TopOf(q, rows, r.value)
  {
    hide Holds, SummaryBetter, Fold, WeakOrder, Streaming, Sort, Runs, ByCounterparty, Digits, Amount, TransferBetter,
         TopOf;
    if q.n == 0 {
      return None;
    }
    var h: seq<Summary> := [];
    ghost var rest: seq<Summary> := [];
    var current: Option<Building> := None;
    NothingHeld(q);
    for i := 0 to |rows|
      invariant AllReadable(rows[..i])
      invariant i == 0 ==> current.None? && Holds(SummaryBetter, q.n, h, rest, Summaries(q, Runs([])))
      invariant i > 0 ==>
        current.Some? && current.value.other == rows[i - 1].other && Streaming(q, rows[..i], h, rest, current.value)
    {
      var row := rows[i];
      if row.amount == "" || !Digits(row.amount) {
        return None;
      }
      assert rows[..i] + [row] == rows[..i + 1];
      if current.Some? && current.value.other == row.other {
        SameRun(q, rows[..i], row, h, rest, current.value);
      } else {
        if current.Some? {
          h, rest := Flush(q, h, current.value, rest, rows[..i]);
        } else {
          assert rows[..i] == [];
        }
        NextRun(q, rows[..i], row, h, rest);
        current := Some(Open(row));
      }
      current := Some(Add(current.value, row));
    }
    assert rows[..|rows|] == rows;
    if current.Some? {
      h, rest := Flush(q, h, current.value, rest, rows);
    }
    TopOfSummaries(q, rows, h, rest);
    SortedIsTop(q, rows);
    r := Some(Sort(SummaryBetter, h));
  }

  /** The largest transfers between two addresses, likewise: no transfer left out is better than one
      shown.  Where the order tells rows apart, they are the first of all in order. */
  method TopRelationshipTransfers(limit: nat, rows: seq<Row>) returns (r: Option<seq<Row>>)
    ensures r.None? <==> limit == 0 || !AllReadable(rows)
    ensures r.Some? ==> BestOf(TransferBetter, limit, r.value, rows) && LargestOf(limit, rows, r.value)
    ensures r.Some? && TellsApart(TransferBetter, rows) ==>
      r.value == Sort(TransferBetter, rows)[..Least(limit, |rows|)]
  {
    if limit == 0 {
      return None;
    }
    var h: seq<Row> := [];
    ghost var rest: seq<Row> := [];
    assert Holds(TransferBetter, limit, h, rest, []);
    hide Holds, TransferBetter, WeakOrder, Sort, TellsApart, BestOf, LargestOf;
    TransferOrder();
    for i := 0 to |rows|
      invariant AllReadable(rows[..i]) && Holds(TransferBetter, limit, h, rest, rows[..i])
    {
      if rows[i].amount == "" || !Digits(rows[i].amount) {
        return None;
      }
      h, rest := Offer(TransferBetter, limit, h, rows[i], rest, rows[..i]);
      assert rows[..i] + [rows[i]] == rows[..i + 1];
    }
    assert rows[..|rows|] == rows;
    HeldIsBest(TransferBetter, limit, h, rest, rows);
    BestAreLargest(limit, rows, Sort(TransferBetter, h));
    if TellsApart(TransferBetter, rows) {
      BestIsFirst(TransferBetter, limit, Sort(TransferBetter, h), rows);
    }
    r := Some(Sort(TransferBetter, h));
  }

  /** Rows that differ in transaction, source, trace or log index are told apart. */
  lemma IdentityTellsApart(rows: seq<Row>)
    requires forall i, j :: 0 <= i < j < |rows| ==>
      (rows[i].tx, rows[i].source, rows[i].traceId, rows[i].logIndex) != (rows[j].tx, rows[j].source, rows[j].traceId,
          rows[j].logIndex)
    ensures TellsApart(TransferBetter, rows)
  {
    hide CompareUnsigned, CompareText;
    forall x, y {:trigger TransferBetter(x, y)} | x in rows && y in rows
      ensures x == y || TransferBetter(x, y) || TransferBetter(y, x)
    {
      var i :| 0 <= i < |rows| && rows[i] == x;
      var j :| 0 <= j < |rows| && rows[j] == y;
      CompareOrder(x.amount, y.amount, x.amount);
      TextOrder(x.tx, y.tx, x.tx);
      TextOrder(x.source, y.source, x.source);
      TextOrder(x.traceId, y.traceId, x.traceId);
    }
  }

  lemma NotBetterNotLarger(x: Summary, y: Summary)
    requires !SummaryBetter(y, x)
    ensures CompareUnsigned(y.total, x.total) <= 0
  {
  }

  /** Sorting keeps the summaries, and a total is at least any further down, as numbers. */
  lemma TopMeansLargest(q: Query, rows: seq<Row>, i: nat, j: nat)
    requires ByCounterparty(rows) && i < j < |Runs(rows)|
    ensures
      var all := Summaries(q, Runs(rows));
      var sorted := Sort(SummaryBetter, all);
      && multiset(sorted) == multiset(all)
      && Value(sorted[i].total) >= Value(sorted[j].total)
  {
    hide SummaryBetter, WeakOrder, Sort, Fold;
    var all := Summaries(q, Runs(rows));
    var sorted := Sort(SummaryBetter, all);
    SummaryOrder();
    SortOrdered(SummaryBetter, all);
    SortPermutes(SummaryBetter, all);
    forall k | 0 <= k < |sorted|
      ensures Digits(sorted[k].total)
    {
      assert sorted[k] in multiset(sorted);
      var l :| 0 <= l < |all| && all[l] == sorted[k];
      TextValue(Fold(Runs(rows)[l]).total);
    }
    assert !SummaryBetter(sorted[j], sorted[i]);
    CompareIsNumeric(sorted[j].total, sorted[i].total);
    NotBetterNotLarger(sorted[i], sorted[j]);
  }
}
