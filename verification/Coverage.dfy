/** Interval arithmetic on covered block ranges (internal/syncer/manager.go, coverageIntervals,
    coverageContains, mergeCoverage, validCoverage).  A range that was never covered is stored as 0..0. */
module Coverage {

  datatype Span = Span(lo: nat, hi: nat)

  function Min(a: int, b: int): int { if a < b then a else b }

  function Max(a: int, b: int): int { if a < b then b else a }

  predicate ValidCoverage(span: Span) {
    span.hi >= span.lo && (span.lo != 0 || span.hi != 0)
  }

  /** The blocks a stored range vouches for. */
  predicate Covers(have: Span, block: nat) {
    ValidCoverage(have) && have.lo <= block <= have.hi
  }

  predicate Within(span: Span, block: nat) {
    span.lo <= block <= span.hi
  }

  /** What still has to be fetched for `want` when `have` is covered. */
  function CoverageIntervals(want: Span, have: Span): seq<Span> {
    if !ValidCoverage(have) then [want]
    else
      (if want.lo < have.lo then [Span(want.lo, have.lo - 1)] else [])
      + (if want.hi > have.hi then [Span(Max(want.lo, have.hi + 1), want.hi)] else [])
  }

  predicate CoverageContains(have: Span, lo: nat, hi: nat) {
    ValidCoverage(have) && have.lo <= lo && have.hi >= hi
  }

  function MergeCoverage(want: Span, have: Span): Span {
    if !ValidCoverage(have) || want.hi + 1 < have.lo || have.hi + 1 < want.lo then want
    else Span(Min(want.lo, have.lo), Max(want.hi, have.hi))
  }

  ghost predicate Fetched(spans: seq<Span>, block: nat) {
    exists i :: 0 <= i < |spans| && Within(spans[i], block)
  }

  /** Every wanted block is covered or in an interval; intervals are non-empty, in order, disjoint
      from the cover, start inside `want`, and there are at most two. */
  lemma IntervalsCover(want: Span, have: Span)
    requires want.lo <= want.hi
    ensures var spans := CoverageIntervals(want, have);
      && |spans| <= 2
      && (forall i :: 0 <= i < |spans| ==> want.lo <= spans[i].lo <= spans[i].hi)
      && (|spans| == 2 ==> spans[0].hi < have.lo <= have.hi < spans[1].lo)
      && (forall block: nat :: Within(want, block) ==> Covers(have, block) || Fetched(spans, block))
      && (forall block: nat :: Fetched(spans, block) ==> !Covers(have, block))
  {
    var spans := CoverageIntervals(want, have);
    forall block: nat | Within(want, block) && !Covers(have, block)
      ensures Fetched(spans, block)
    {
      assert Within(spans[0], block) || Within(spans[|spans| - 1], block);
    }
  }

  /** The intervals are exactly the wanted blocks not yet covered, if and only if the cover does
      not start beyond the block after `want`; otherwise they also reach into that gap. */
  lemma IntervalsExact(want: Span, have: Span)
    requires want.lo <= want.hi
    ensures (forall block: nat ::
      Fetched(CoverageIntervals(want, have), block) <==> Within(want, block) && !Covers(have, block))
       <==> (ValidCoverage(have) ==> have.lo <= want.hi + 1)
  {
    var spans := CoverageIntervals(want, have);
    IntervalsCover(want, have);
    if ValidCoverage(have) && have.lo > want.hi + 1 {
      assert spans[0] == Span(want.lo, have.lo - 1);
      assert Within(spans[0], want.hi + 1);
      assert Fetched(spans, want.hi + 1) && !Within(want, want.hi + 1);
    } else {
      forall block: nat | Fetched(spans, block)
        ensures Within(want, block) && !Covers(have, block)
      {
      }
    }
  }

  /** A merged range contains `want` (unless it is the genesis block alone, which reads as "never"),
      vouches for nothing beyond `want` and the old cover, and keeps the old cover exactly when the two
      touch or overlap. */
  lemma MergeIsUnion(want: Span, have: Span)
    requires want.lo <= want.hi
    ensures var merged := MergeCoverage(want, have);
      && (merged != Span(0, 0) ==> forall block: nat :: Within(want, block) ==> Covers(merged, block))
      && (forall block: nat :: Covers(merged, block) ==> Within(want, block) || Covers(have, block))
      && ((forall block: nat :: Covers(have, block) ==> Covers(merged, block))
          <==> (ValidCoverage(have) ==> have.lo <= want.hi + 1 && want.lo <= have.hi + 1))
  {
    var merged := MergeCoverage(want, have);
    if ValidCoverage(have) && !(have.lo <= want.hi + 1 && want.lo <= have.hi + 1) {
      assert Covers(have, have.lo) && !Covers(merged, have.lo);
    }
  }
}
