/** Rows of a block explorer and how one page of them becomes transfers
    (internal/etherscan/normalize.go).

    A row keeps its fields as the explorer sends them: a decimal field can be absent,
    unreadable, or a number.  Addresses and hashes are lower-cased strings. */
module Normalize {
  import opened Wrappers

  datatype Action = Normal | Internal | Token

  datatype Field = Absent | Invalid(text: string) | Number(text: string, value: nat)

  /** `block` is where the explorer lists the row.  The row may not be readable at all, or carry a block
      number that is not. */
  datatype Row = Row(
    wellFormed: bool, block: nat, blockReadable: bool, timestamp: Field, isError: bool, receiptFailed: bool,
    hash: string, sender: string, recipient: string, contract: string,
    value: Field, traceId: string, logIndex: Field, decimals: Field)

  datatype Kind = Plain | Mint | Burn

  datatype Transfer = Transfer(
    source: Action, block: nat, hash: string, sender: string, recipient: string,
    asset: string, amount: nat, kind: Kind, traceId: string, logIndex: int, synthetic: bool)

  /** What identifies a token row that has no log index. */
  datatype TokenKey = TokenKey(hash: string, contract: string, sender: string, recipient: string, value: Field)

  /** A 63-bit digest of a key and its occurrence number; nothing is assumed about it. */
  type Digest = (TokenKey, nat) -> nat

  /** The number of rows seen so far for each key. */
  type Counts = map<TokenKey, nat>

  const ZERO_ADDRESS := "0x0000000000000000000000000000000000000000"

  datatype Reading = Skipped | Malformed | Accepted(transfer: Transfer)

  function KeyOf(row: Row): TokenKey {
    TokenKey(row.hash, row.contract, row.sender, row.recipient, row.value)
  }

  /** Rows of failed transactions are dropped before anything else is looked at. */
  predicate Dropped(action: Action, row: Row) {
    (action != Token && row.isError) || (action == Normal && row.receiptFailed)
  }

  /** Token rows without a log index receive a synthetic one and are counted. */
  predicate Counted(action: Action, row: Row) {
    action == Token && row.logIndex.Absent?
  }

  function Recipient(action: Action, row: Row): string {
    if action == Normal && row.recipient == "" then row.contract else row.recipient
  }

  function SyntheticLogIndex(digest: Digest, key: TokenKey, occurrence: nat): int {
    -1 - digest(key, occurrence)
  }

  /** One row that is not dropped.  An incomplete row is skipped, an unreadable one spoils its page. */
  function NormalizeOne(action: Action, row: Row, missingLogIndex: int): Reading {
    var recipient := Recipient(action, row);
    if !row.blockReadable || !row.timestamp.Number? then Malformed
    else if row.hash == "" || row.sender == "" || recipient == "" || row.value.Absent? then Skipped
    else if !row.value.Number? then Malformed
    else if action != Token then
      Accepted(Transfer(action, row.block, row.hash, row.sender, recipient, "ETH", row.value.value, Plain, row.traceId,
          0, false))
    else if row.decimals.Invalid? || (row.decimals.Number? && row.decimals.value > 255) then Malformed
    else if row.logIndex.Invalid? then Malformed
    else if row.contract == "" then Malformed
    else
      var kind := if row.sender == ZERO_ADDRESS then Mint else if recipient == ZERO_ADDRESS then Burn else Plain;
      var logIndex := if row.logIndex.Number? then row.logIndex.value else missingLogIndex;
      Accepted(Transfer(action, row.block, row.hash, row.sender, recipient, row.contract, row.value.value, kind,
          row.traceId, logIndex, row.logIndex.Absent?))
  }

  function RowOutcome(action: Action, digest: Digest, row: Row, occurrence: nat): Reading {
    if !row.wellFormed then Malformed
    else if Dropped(action, row) then Skipped
    else
      var missing := if Counted(action, row) then SyntheticLogIndex(digest, KeyOf(row), occurrence) else 0;
      NormalizeOne(action, row, missing)
  }

  /** A row of a failed transaction, or one that lacks hash, sender, recipient or value; the contract a
      transaction created stands in for a missing recipient. */
  predicate PassedOver(action: Action, row: Row) {
    || (action != Token && row.isError) || (action == Normal && row.receiptFailed)
    || (row.blockReadable && row.timestamp.Number?
        && (row.hash == "" || row.sender == "" || row.value.Absent?
            || (row.recipient == "" && (action != Normal || row.contract == ""))))
  }

  /** The transfer is the row's: its block, transaction, parties and value.  A token transfer names its
      contract, is minted by or burned to the zero address, and keeps its log index or is marked to have a
      synthetic one below zero; the others move ETH. */
  predicate Moves(action: Action, row: Row, t: Transfer) {
    && t.source == action && t.block == row.block && t.hash == row.hash && t.traceId == row.traceId
    && t.sender == row.sender
    && t.recipient == (if row.recipient == "" && action == Normal then row.contract else row.recipient)
    && row.value.Number? && t.amount == row.value.value
    && if action != Token then t.asset == "ETH" && t.kind == Plain && t.logIndex == 0 && !t.synthetic
       else
         && t.asset == row.contract
         && (t.kind == Mint <==> row.sender == ZERO_ADDRESS)
         && (t.kind == Burn <==> row.sender != ZERO_ADDRESS && row.recipient == ZERO_ADDRESS)
         && (t.synthetic <==> row.logIndex.Absent?)
         && (if t.synthetic then t.logIndex < 0 else row.logIndex.Number? && t.logIndex == row.logIndex.value)
  }

  /** A row is skipped exactly for those reasons, and what is accepted is the row's transfer. */
  lemma ReadingSpelled(action: Action, digest: Digest, row: Row, occurrence: nat)
    ensures
      var o := RowOutcome(action, digest, row, occurrence);
      && (o.Skipped? <==> row.wellFormed && PassedOver(action, row))
      && (o.Accepted? ==> Moves(action, row, o.transfer))
      && (o.Malformed? <==> Unreadable(action, row))
  {
  }

  /** The k-th transfer is that of the row in place k, in the order of the rows, and no acceptable row is
      without a place. */
  ghost predicate Placed(action: Action, rows: seq<Row>, r: seq<Transfer>, places: seq<nat>) {
    && |places| == |r|
    && (forall k :: 0 <= k < |r| ==> places[k] < |rows| && Moves(action, rows[places[k]], r[k]))
    && (forall k, l :: 0 <= k < l < |r| ==> places[k] < places[l])
    && (forall i :: 0 <= i < |rows| && Acceptable(action, rows[i]) ==> i in places)
  }

  predicate Acceptable(action: Action, row: Row) {
    !Unreadable(action, row) && !PassedOver(action, row)
  }

  lemma PlacedLater(action: Action, row: Row, rows: seq<Row>, r: seq<Transfer>, places: seq<nat>)
    requires Placed(action, rows, r, places) && !Acceptable(action, row)
    ensures Placed(action, [row] + rows, r, seq(|places|, k requires 0 <= k < |places| => places[k] + 1))
  {
    hide Moves, Acceptable;
    var shifted: seq<nat> := seq(|places|, k requires 0 <= k < |places| => places[k] + 1);
    forall i | 0 <= i < |[row] + rows| && Acceptable(action, ([row] + rows)[i])
      ensures i in shifted
    {
      assert rows[i - 1] == ([row] + rows)[i];
      var k :| 0 <= k < |places| && places[k] == i - 1;
      assert shifted[k] == i;
    }
  }

  /** A place for the first row, and the places of the others moved by one. */
  function PlacesAfter(places: seq<nat>): (all: seq<nat>)
    ensures |all| == |places| + 1 && all[0] == 0
    ensures forall k :: 0 <= k < |places| ==> all[k + 1] == places[k] + 1
  {
    [0] + seq(|places|, k requires 0 <= k < |places| => places[k] + 1)
  }

  lemma PlacedFirst(action: Action, row: Row, rows: seq<Row>, t: Transfer, r: seq<Transfer>, places: seq<nat>)
    requires Placed(action, rows, r, places) && Moves(action, row, t)
    ensures Placed(action, [row] + rows, [t] + r, PlacesAfter(places))
  {
    hide Moves, Acceptable, PlacesAfter;
    var all := PlacesAfter(places);
    forall i | 0 <= i < |[row] + rows| && Acceptable(action, ([row] + rows)[i])
      ensures i in all
    {
      if i > 0 {
        assert rows[i - 1] == ([row] + rows)[i];
        var k :| 0 <= k < |places| && places[k] == i - 1;
        assert all[k + 1] == i;
      }
    }
    forall k | 0 <= k < |all|
      ensures all[k] < |[row] + rows| && Moves(action, ([row] + rows)[all[k]], ([t] + r)[k])
    {
      if k > 0 {
        assert all[k] == places[k - 1] + 1;
        assert ([row] + rows)[all[k]] == rows[places[k - 1]];
      }
    }
    forall k, l | 0 <= k < l < |all|
      ensures all[k] < all[l]
    {
      assert all[l] == places[l - 1] + 1 && (k > 0 ==> all[k] == places[k - 1] + 1);
    }
  }

  /** The transfers of a page are those of its acceptable rows. */
  lemma {:induction false} PageMoves(action: Action, digest: Digest, rows: seq<Row>, counts: Counts)
    returns (places: seq<nat>)
    requires forall row :: row in rows ==> !Unreadable(action, row)
    ensures Placed(action, rows, Normalized(action, digest, rows, counts), places)
  {
    places := [];
    if rows != [] {
      hide RowOutcome, Unreadable, PassedOver, Moves, Count, Placed;
      var row, rest := rows[0], rows[1..];
      ReadingSpelled(action, digest, row, Seen(counts, KeyOf(row)));
      var outcome := RowOutcome(action, digest, row, Seen(counts, KeyOf(row)));
      var later := PageMoves(action, digest, rest, Count(action, row, counts));
      var r := Normalized(action, digest, rest, Count(action, row, counts));
      assert rows == [row] + rest;
      if outcome.Accepted? {
        PlacedFirst(action, row, rest, outcome.transfer, r, later);
        places := PlacesAfter(later);
      } else {
        PlacedLater(action, row, rest, r, later);
        places := seq(|later|, k requires 0 <= k < |later| => later[k] + 1);
      }
    } else {
      assert Placed(action, [], [], []);
    }
  }

  predicate Unreadable(action: Action, row: Row) {
    !row.wellFormed || (!Dropped(action, row) && NormalizeOne(action, row, 0).Malformed?)
  }

  function Seen(counts: Counts, key: TokenKey): nat {
    if key in counts then counts[key] else 0
  }

  function Count(action: Action, row: Row, counts: Counts): Counts {
    if Counted(action, row) then counts[KeyOf(row) := Seen(counts, KeyOf(row)) + 1] else counts
  }

  function CountAll(action: Action, rows: seq<Row>, counts: Counts): Counts {
    if rows == [] then counts else CountAll(action, rows[1..], Count(action, rows[0], counts))
  }

  /** The transfers a page yields when the keys in `counts` have been seen before it. */
  function Normalized(action: Action, digest: Digest, rows: seq<Row>, counts: Counts): seq<Transfer> {
    if rows == [] then []
    else
      var outcome := RowOutcome(action, digest, rows[0], Seen(counts, KeyOf(rows[0])));
      var rest := Normalized(action, digest, rows[1..], Count(action, rows[0], counts));
      if outcome.Accepted? then [outcome.transfer] + rest else rest
  }

  lemma {:induction false} NormalizedSnoc(action: Action, digest: Digest, rows: seq<Row>, row: Row, counts: Counts)
    ensures CountAll(action, rows + [row], counts) == Count(action, row, CountAll(action, rows, counts))
    ensures Normalized(action, digest, rows + [row], counts)
         == Normalized(action, digest, rows, counts)
          + Normalized(action, digest, [row], CountAll(action, rows, counts))
  {
    if rows == [] {
      assert [] + [row] == [row];
    } else {
      assert (rows + [row])[1..] == rows[1..] + [row];
      NormalizedSnoc(action, digest, rows[1..], row, Count(action, rows[0], counts));
    }
  }

  /** The loop over one page: it stops at the first unreadable row and otherwise appends
      every accepted row, updating the shared occurrence counts as it goes. */
  method NormalizeWithState(action: Action, digest: Digest, rows: seq<Row>, counts: Counts)
    returns (transfers: Option<seq<Transfer>>, counts': Counts)
    ensures transfers.None? <==> exists row :: row in rows && Unreadable(action, row)
    ensures transfers.Some? ==>
      transfers.value == Normalized(action, digest, rows, counts) && counts' == CountAll(action, rows, counts)
  {
    var result: seq<Transfer> := [];
    counts' := counts;
    for i := 0 to |rows|
      invariant forall row :: row in rows[..i] ==> !Unreadable(action, row)
      invariant result == Normalized(action, digest, rows[..i], counts)
      invariant counts' == CountAll(action, rows[..i], counts)
    {
      var row := rows[i];
      assert rows[..i + 1] == rows[..i] + [row];
      NormalizedSnoc(action, digest, rows[..i], row, counts);
      if !row.wellFormed {
        assert Unreadable(action, row) && row in rows;
        return None, counts';
      }
      if Dropped(action, row) {
        continue;
      }
      var missingLogIndex := 0;
      if Counted(action, row) {
        var key := KeyOf(row);
        missingLogIndex := SyntheticLogIndex(digest, key, Seen(counts', key));
        counts' := counts'[key := Seen(counts', key) + 1];
      }
      match NormalizeOne(action, row, missingLogIndex)
      case Malformed =>
        assert Unreadable(action, row) && row in rows;
        return None, counts';
      case Skipped =>
      case Accepted(transfer) =>
        result := result + [transfer];
    }
    assert rows[..|rows|] == rows;
    return Some(result), counts';
  }
}
