/** When a job is answered from what is stored, and what a job that ran has covered, in blocks
    (internal/syncer/manager.go, syncAddress). */
module SyncCache {
  import opened Normalize
  import opened Wrappers
  import opened Timeline
  import opened RangeFetch
  import opened SyncRuns
  import opened SyncJobs
  import C = Coverage

  /** Every action covers the block. */
  ghost predicate Common(have: Covered, block: nat) {
    forall action :: C.Covers(have.Of(action), block)
  }

  ghost predicate CommonFromTo(have: Covered, lo: nat, hi: nat) {
    forall block :: lo <= block <= hi ==> Common(have, block)
  }

  /** The last block that every action covers. */
  ghost predicate LastCommon(have: Covered, last: nat) {
    Common(have, last) && forall block :: block > last ==> !Common(have, block)
  }

  /** The address vouches for the requested snapshot, or lately for everything from the start through the last
      block that all its actions cover. */
  ghost predicate Vouches(address: Address, start: nat, end: nat, recent: bool) {
    address.synced &&
    ((end > 0 && CommonFromTo(address.have, start, end))
    || (recent && exists last :: LastCommon(address.have, last) && CommonFromTo(address.have, start, last)))
  }

  lemma CommonSpelled(have: Covered, block: nat)
    ensures Common(have, block) <==>
      C.Covers(have.normal, block) && C.Covers(have.internal, block) && C.Covers(have.token, block)
  {
    assert have.Of(Normal) == have.normal && have.Of(Internal) == have.internal && have.Of(Token) == have.token;
  }

  /** The common water mark is the last block that every action covers, if there is one. */
  lemma WaterMark(have: Covered)
    ensures
      var from, through := CommonFrom(have), CommonThrough(have);
      && (through >= from && (from != 0 || through != 0) <==> exists last :: LastCommon(have, last))
      && forall last :: LastCommon(have, last) ==> last == through
  {
    var from, through := CommonFrom(have), CommonThrough(have);
    forall block: nat
      ensures Common(have, block) <==> (from <= block <= through && (from != 0 || through != 0))
    {
      CommonSpelled(have, block);
    }
    if through >= from && (from != 0 || through != 0) {
      assert LastCommon(have, through);
    }
  }

  lemma ContainsInBlocks(have: Covered, lo: nat, hi: nat)
    requires lo <= hi
    ensures AllContain(have, lo, hi) <==> CommonFromTo(have, lo, hi)
  {
    if AllContain(have, lo, hi) {
      forall block | lo <= block <= hi
        ensures Common(have, block)
      {
        CommonSpelled(have, block);
      }
    }
    if CommonFromTo(have, lo, hi) {
      CommonSpelled(have, lo);
      CommonSpelled(have, hi);
    }
  }

  /** An answer comes from the cache if and only if the address vouches for it. */
  lemma CachedInBlocks(address: Address, start: nat, end: nat, recent: bool)
    requires end == 0 || start <= end
    ensures Cached(address, start, end, recent) <==> Vouches(address, start, end, recent)
  {
    hide LastCommon, CommonFromTo;
    if end > 0 {
      ContainsInBlocks(address.have, start, end);
    }
    WaterMark(address.have);
    var through := CommonThrough(address.have);
    if exists last :: LastCommon(address.have, last) {
      FromStart(address.have, start, through);
    }
  }

  lemma FromStart(have: Covered, start: nat, last: nat)
    requires LastCommon(have, last)
    ensures AllContain(have, start, last) <==> CommonFromTo(have, start, last)
  {
    if start <= last {
      ContainsInBlocks(have, start, last);
    } else {
      CommonSpelled(have, last);
    }
  }

  /** A job that is not stopped, with blocks to fetch, runs no pass if and only if the address vouches for the
      answer; then the address stays as it is and, when its claims are true, the store holds the requested
      snapshot or everything from the start through the last block covered by all actions. */
  lemma AnsweredFromStore(history: History, cap: nat, w: World, e: Event)
    requires ValidHistory(history) && e.Process? && e.start in w.jobs && w.jobs[e.start].status != Stopped
    requires e.start <= e.head && (e.end == 0 || e.start <= e.end)
    ensures PassOf(history, cap, w, e).None? <==> Vouches(w.address, e.start, e.end, e.recent)
    ensures PassOf(history, cap, w, e).None? ==> Step(history, cap, w, e).address == w.address
    ensures ClaimsTrue(history, w) && PassOf(history, cap, w, e).None? ==> forall action ::
      || (e.end > 0 && Holds(w.address.stored, history.Of(action), e.start, e.end))
      || exists last: nat :: LastCommon(w.address.have, last)
           && Holds(w.address.stored, history.Of(action), e.start, last)
  {
    CachedInBlocks(w.address, e.start, e.end, e.recent);
    hide Common, CommonFromTo, SyncPass, Vouches, Merge;
    if ClaimsTrue(history, w) && PassOf(history, cap, w, e).None? {
      CachedTrue(history, w, e.start, e.end);
      WaterMark(w.address.have);
    }
  }

  // ---------- a job that ran ----------

  /** The blocks a job wants: from its start through the head, and not beyond its end if it has one. */
  ghost predicate Requested(e: Event, block: nat)
    requires e.Process?
  {
    e.start <= block <= e.head && (e.end > 0 ==> block <= e.end)
  }

  /** The job ran and its last writes succeeded. */
  predicate Completes(history: History, cap: nat, w: World, e: Event)
    requires ValidHistory(history)
  {
    var p := PassOf(history, cap, w, e);
    p.Some? && p.value.error.None? && !p.value.truncated && e.closes
  }

  /** A job that completes has covered and stored what it wants, for all actions, and marks the address as
      synced; the one exception is the genesis block alone, which reads as never covered.  A job that ran and
      does not complete claims nothing new.  In any case nothing stored is lost, and the coverage of other
      blocks is no claim but an old one. */
  lemma JobCovers(history: History, cap: nat, w: World, e: Event)
    requires ValidHistory(history) && ClaimsTrue(history, w) && CheckpointsTrue(history, w)
    requires e.Process? && PassOf(history, cap, w, e).Some?
    ensures
      var u := Step(history, cap, w, e).address;
      && (u.synced <==> Completes(history, cap, w, e))
      && w.address.stored <= u.stored
      && (!Completes(history, cap, w, e) ==> u.have == w.address.have)
      && forall action, block: nat {:trigger C.Covers(u.have.Of(action), block)} ::
           && (Completes(history, cap, w, e) && Requested(e, block) ==>
                 C.Covers(u.have.Of(action), block) || u.have.Of(action) == C.Span(0, 0))
           && (C.Covers(u.have.Of(action), block) ==> Requested(e, block) || C.Covers(w.address.have.Of(action), block))
           && (C.Covers(u.have.Of(action), block) ==> Holds(u.stored, history.Of(action), block, block))
  {
    StepTrue(history, cap, w, e);
    hide SyncPass, Holds;
    var u := Step(history, cap, w, e).address;
    var want := Wanted(e.start, e.end, e.head);
    forall action, block: nat {:trigger C.Covers(u.have.Of(action), block)}
      ensures Completes(history, cap, w, e) && Requested(e, block) ==>
        C.Covers(u.have.Of(action), block) || u.have.Of(action) == C.Span(0, 0)
      ensures C.Covers(u.have.Of(action), block) ==> Requested(e, block) || C.Covers(w.address.have.Of(action), block)
      ensures C.Covers(u.have.Of(action), block) ==> Holds(u.stored, history.Of(action), block, block)
    {
      C.MergeIsUnion(want, w.address.have.Of(action));
      MergedOf(want, w.address.have, action);
      if C.Covers(u.have.Of(action), block) {
        HoldsPart(u.stored, history.Of(action), u.have.Of(action), block);
      }
    }
  }

  lemma MergedOf(want: C.Span, have: Covered, action: Action)
    ensures Merge(want, have).Of(action) == C.MergeCoverage(want, have.Of(action))
  {
  }

  lemma HoldsPart(stored: set<Identity>, line: Line, span: C.Span, block: nat)
    requires Holds(stored, line, span.lo, span.hi) && span.lo <= block <= span.hi
    ensures Holds(stored, line, block, block)
  {
  }
}
