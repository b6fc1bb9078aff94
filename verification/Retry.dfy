/** The dependency retry loops of a trace job (internal/tracer/manager.go, process and
    processExtension): trace, synchronise the address the trace misses, trace again.

    What the repository holds changes from round to round, so a round is an arbitrary answer. */
module Retry {
  import opened Wrappers
  import opened Fifo

  /** The block range asked for; 0 leaves a side open. */
  datatype Dependency = Dependency(address: Address, start: nat, end: nat)

  datatype Answer = Done | Missing(dependency: Dependency)

  /** `first` is the range asked for before the first trace, if any: none for a seed of high
      frequency.  `attempt(n, terminal)` is the trace of round n with those addresses taken as
      terminal; `syncs(n)` says that the synchronisation asked for in round n succeeds, round 0
      being the one before the loop. */
  datatype Setting = Setting(
    first: Option<Dependency>, attempt: (nat, set<Address>) -> Answer, syncs: nat -> bool)

  /** `requests` are those made inside the loop. */
  datatype Job = Job(
    answer: Answer, attempted: set<Dependency>, terminal: set<Address>,
    requests: seq<Dependency>, failed: bool, partly: bool)

  /** A terminal address is not reported again, unless it is among `unguarded`. */
  ghost predicate Guarded(s: Setting, unguarded: set<Address>) {
    forall n, terminal {:trigger s.attempt(n, terminal)} ::
      s.attempt(n, terminal).Missing? ==>
        var a := s.attempt(n, terminal).dependency.address;
        a !in terminal || a in unguarded
  }

  /** Only finitely many dependencies can be asked for. */
  ghost predicate Within(s: Setting, all: set<Dependency>) {
    && (s.first.Some? ==> s.first.value in all)
    && forall n, terminal {:trigger s.attempt(n, terminal)} ::
      s.attempt(n, terminal).Missing? ==> s.attempt(n, terminal).dependency in all
  }

  function Waiting(j: Job): bool { j.answer.Missing? && !j.failed }

  /** One round of the loop; `n` numbers the trace that ends it. */
  function Round(s: Setting, n: nat, j: Job): Job
    requires Waiting(j)
  {
    var d := j.answer.dependency;
    if d in j.attempted then
      var terminal := j.terminal + {d.address};
      j.(terminal := terminal, partly := true, answer := s.attempt(n, terminal))
    else
      var asked := j.(attempted := j.attempted + {d}, requests := j.requests + [d]);
      if s.syncs(n) then asked.(answer := s.attempt(n, j.terminal)) else asked.(failed := true)
  }

  /** The job when the loop begins: the first request is not among those attempted in it. */
  function Begin(s: Setting): Job {
    if s.first.Some? && !s.syncs(0) then Job(Missing(s.first.value), {}, {}, [], true, false)
    else Job(s.attempt(0, {}), {}, {}, [], false, false)
  }

  /** All ranges a job has asked for, in order. */
  function Requests(s: Setting, j: Job): seq<Dependency> {
    (if s.first.Some? then [s.first.value] else []) + j.requests
  }

  /** The job after n rounds, or where it stopped before. */
  function After(s: Setting, n: nat): Job {
    if n == 0 then Begin(s)
    else
      var j := After(s, n - 1);
      if Waiting(j) then Round(s, n, j) else j
  }

  ghost predicate Halts(s: Setting) {
    exists n :: !Waiting(After(s, n))
  }

  // ---------- what every round keeps ----------

  function Places(all: set<Dependency>): set<Address> { set d | d in all :: d.address }

  ghost predicate JobSound(s: Setting, all: set<Dependency>, j: Job) {
    && j.attempted <= all && j.terminal <= Places(all)
    && (j.answer.Missing? ==> j.answer.dependency in all)
    && (forall d :: d in j.attempted <==> d in j.requests)
    && (forall i, k :: 0 <= i < k < |j.requests| ==> j.requests[i] != j.requests[k])
    && (forall a :: a in j.terminal ==> exists d :: d in j.attempted && d.address == a)
    && (j.terminal != {} ==> j.partly)
  }

  lemma {:induction false} AfterSound(s: Setting, all: set<Dependency>, n: nat)
    requires Within(s, all)
    ensures JobSound(s, all, After(s, n))
  {
    if n > 0 {
      AfterSound(s, all, n - 1);
      var j := After(s, n - 1);
      if Waiting(j) {
        RoundSound(s, all, n, j);
      }
    }
  }

  lemma RoundSound(s: Setting, all: set<Dependency>, n: nat, j: Job)
    requires Within(s, all) && JobSound(s, all, j) && Waiting(j)
    ensures JobSound(s, all, Round(s, n, j))
  {
    var d := j.answer.dependency;
    var r := Round(s, n, j);
    assert d.address in Places(all);
    forall a | a in r.terminal
      ensures exists x :: x in r.attempted && x.address == a
    {
      if a in j.terminal {
        var x :| x in j.attempted && x.address == a;
        assert x in r.attempted;
      } else {
        assert d in r.attempted;
      }
    }
  }

  // ---------- the history of a job ----------

  /** Round k reports a range that the loop has not asked for yet, and asks for it; round 0 is the request before
      the loop. */
  ghost predicate Asks(s: Setting, k: nat) {
    if k == 0 then s.first.Some?
    else Waiting(After(s, k - 1)) && After(s, k - 1).answer.dependency !in After(s, k - 1).requests
  }

  /** Round k is reported a range that the loop has asked for already. */
  ghost predicate Again(s: Setting, k: nat) {
    k > 0 && Waiting(After(s, k - 1)) && After(s, k - 1).answer.dependency in After(s, k - 1).requests
  }

  ghost predicate FailsUpTo(s: Setting, n: nat) {
    exists k: nat :: k <= n && Asks(s, k) && !s.syncs(k)
  }

  ghost predicate RepeatsUpTo(s: Setting, n: nat) {
    exists k: nat :: k <= n && Again(s, k)
  }

  ghost predicate GivesUpBy(s: Setting, n: nat, a: Address) {
    exists k: nat :: k <= n && Again(s, k) && After(s, k - 1).answer.dependency.address == a
  }

  /** A job has failed exactly when a synchronisation it asked for failed; it has given up exactly the addresses
      of ranges that were reported once more after they had been asked for, and is partial exactly then. */
  lemma {:induction false} JobHistory(s: Setting, n: nat)
    ensures
      var j := After(s, n);
      && (j.failed <==> FailsUpTo(s, n)) && (j.partly <==> RepeatsUpTo(s, n))
      && (forall a :: a in j.terminal <==> GivesUpBy(s, n, a))
      && (forall d :: d in j.attempted <==> d in j.requests)
  {
    if n == 0 {
      assert Asks(s, 0) <==> s.first.Some?;
    } else {
      JobHistory(s, n - 1);
      HistoryStep(s, n);
      var i, j := After(s, n - 1), After(s, n);
      forall a
        ensures a in j.terminal <==> GivesUpBy(s, n, a)
      {
        GivenUpStep(s, n, a);
      }
    }
  }

  lemma HistoryStep(s: Setting, n: nat)
    requires n > 0
    ensures FailsUpTo(s, n) <==> FailsUpTo(s, n - 1) || (Asks(s, n) && !s.syncs(n))
    ensures RepeatsUpTo(s, n) <==> RepeatsUpTo(s, n - 1) || Again(s, n)
  {
    hide After;
  }

  lemma GivenUpStep(s: Setting, n: nat, a: Address)
    requires n > 0
    ensures GivesUpBy(s, n, a) <==>
      GivesUpBy(s, n - 1, a) || (Again(s, n) && After(s, n - 1).answer.dependency.address == a)
  {
    hide After;
  }

  /** The trace of round m reports that range, and the loop goes on. */
  predicate Reports(s: Setting, m: nat, d: Dependency) {
    Waiting(After(s, m)) && After(s, m).answer.dependency == d
  }

  /** The range asked for before the loop was reported in a round before n. */
  ghost predicate FirstReported(s: Setting, n: nat) {
    s.first.Some? && exists m: nat :: m < n && Reports(s, m, s.first.value)
  }

  lemma {:induction false} AttemptedReports(s: Setting, all: set<Dependency>, n: nat, d: Dependency)
    requires Within(s, all)
    ensures
      d in After(s, n).attempted <==>
      exists m: nat :: m < n && Reports(s, m, d)
  {
    if n > 0 {
      AttemptedReports(s, all, n - 1, d);
      var j := After(s, n - 1);
      if d in After(s, n).attempted && d !in j.attempted {
        assert Reports(s, n - 1, d);
      }
    }
  }

  /** However the repository answers, a job asks for a range once, with one exception: the range
      asked for before the loop is asked for a second time exactly when a trace reports it.  An
      address is given up only after a request for it inside the loop. */
  lemma RequestedOnce(s: Setting, all: set<Dependency>, n: nat)
    requires Within(s, all)
    ensures
      var j := After(s, n);
      var r := Requests(s, j);
      && (forall i, k :: 0 <= i < k < |r| && r[i] == r[k] ==> i == 0 && s.first == Some(r[k]))
      && (s.first.Some? ==> (s.first.value in r[1..] <==> FirstReported(s, n)))
      && (forall a :: a in j.terminal ==> exists d :: d in j.requests && d.address == a)
      && |r| <= |all| + 1
  {
    hide After, Waiting, Within, FirstReported, Requests, JobSound, Places;
    AfterSound(s, all, n);
    RequestsOfJob(s, all, After(s, n));
    FirstAgain(s, all, n);
  }

  /** What a job has asked for, whatever it was told. */
  lemma RequestsOfJob(s: Setting, all: set<Dependency>, j: Job)
    requires JobSound(s, all, j)
    ensures
      var r := Requests(s, j);
      && (forall i, k :: 0 <= i < k < |r| && r[i] == r[k] ==> i == 0 && s.first == Some(r[k]))
      && (forall a :: a in j.terminal ==> exists d :: d in j.requests && d.address == a)
      && |r| <= |all| + 1
  {
    forall a | a in j.terminal
      ensures exists d :: d in j.requests && d.address == a
    {
      var d :| d in j.attempted && d.address == a;
      assert d in j.requests;
    }
    DistinctFit(j.requests, j.attempted);
    CardinalityFits(j.attempted, all);
    RequestsDiffer(s, j);
  }

  lemma FirstAgain(s: Setting, all: set<Dependency>, n: nat)
    requires Within(s, all) && JobSound(s, all, After(s, n))
    ensures
      var r := Requests(s, After(s, n));
      s.first.Some? ==> (s.first.value in r[1..] <==> FirstReported(s, n))
  {
    hide After, Reports, Within;
    if s.first.Some? {
      var j := After(s, n);
      assert Requests(s, j)[1..] == j.requests;
      AttemptedReports(s, all, n, s.first.value);
    }
  }

  /** Distinct requests in the loop leave only the first one to be repeated. */
  lemma RequestsDiffer(s: Setting, j: Job)
    requires forall i, k :: 0 <= i < k < |j.requests| ==> j.requests[i] != j.requests[k]
    ensures
      var r := Requests(s, j);
      forall i, k :: 0 <= i < k < |r| && r[i] == r[k] ==> i == 0 && s.first == Some(r[k])
  {
    var r := Requests(s, j);
    var before := |r| - |j.requests|;
    forall i, k | before <= i < k < |r|
      ensures r[i] != r[k]
    {
      assert r[i] == j.requests[i - before] && r[k] == j.requests[k - before];
    }
  }

  lemma {:induction false} DistinctFit<T>(s: seq<T>, all: set<T>)
    requires forall x :: x in s ==> x in all
    requires forall i, k :: 0 <= i < k < |s| ==> s[i] != s[k]
    ensures |s| <= |all|
  {
    if s != [] {
      var x := s[0];
      assert x in all;
      forall y | y in s[1..]
        ensures y in all - {x}
      {
        var i :| 0 <= i < |s[1..]| && s[1..][i] == y;
        assert s[i + 1] == y;
      }
      DistinctFit(s[1..], all - {x});
    }
  }

  lemma {:induction false} CardinalityFits<T>(few: set<T>, all: set<T>)
    requires few <= all
    ensures |few| <= |all| && (few != all ==> |few| < |all|)
  {
    assert all == few + (all - few);
    if few != all {
      var x :| x in all && x !in few;
      assert x in all - few;
    }
  }

  // ---------- termination ----------

  /** Rounds that can still add something. */
  function Room(all: set<Dependency>, j: Job): nat {
    Gap(all, j.attempted) + Gap(Places(all), j.terminal)
  }

  function Gap<T>(all: set<T>, few: set<T>): nat { |all - few| }

  lemma RoomShrinks<T>(all: set<T>, few: set<T>, x: T)
    requires x in all
    ensures Gap(all, few + {x}) <= Gap(all, few)
    ensures x !in few ==> Gap(all, few + {x}) < Gap(all, few)
  {
    assert (all - few) - {x} == all - (few + {x});
  }

  lemma AnswerKnown(s: Setting, all: set<Dependency>, j: Job)
    requires JobSound(s, all, j) && Waiting(j)
    ensures j.answer.dependency in all && j.answer.dependency.address in Places(all)
  {
  }

  lemma RoundProgress(s: Setting, all: set<Dependency>, n: nat, j: Job)
    requires JobSound(s, all, j) && Waiting(j)
    ensures Room(all, Round(s, n, j)) <= Room(all, j)
    ensures j.answer.dependency.address !in j.terminal ==> Room(all, Round(s, n, j)) < Room(all, j)
  {
    hide Places, JobSound, Gap;
    var d := j.answer.dependency;
    AnswerKnown(s, all, j);
    if d in j.attempted {
      RoomShrinks(Places(all), j.terminal, d.address);
      assert Round(s, n, j).attempted == j.attempted && Round(s, n, j).terminal == j.terminal + {d.address};
    } else {
      RoomShrinks(all, j.attempted, d);
      assert Round(s, n, j).attempted == j.attempted + {d} && Round(s, n, j).terminal == j.terminal;
    }
  }

  lemma {:induction false} AnswerGuarded(s: Setting, unguarded: set<Address>, n: nat)
    requires Guarded(s, unguarded)
    ensures
      var j := After(s, n);
      Waiting(j) ==> j.answer.dependency.address !in j.terminal || j.answer.dependency.address in unguarded
  {
    if n > 0 {
      AnswerGuarded(s, unguarded, n - 1);
    }
  }

  lemma RoomAtFirst(s: Setting, all: set<Dependency>)
    ensures Room(all, Begin(s)) == |all| + |Places(all)|
  {
    assert all - {} == all && Places(all) - {} == Places(all);
  }

  lemma {:induction false} GuardedRoom(s: Setting, all: set<Dependency>, n: nat)
    requires Within(s, all) && Guarded(s, {})
    ensures !Waiting(After(s, n)) || n + Room(all, After(s, n)) <= |all| + |Places(all)|
  {
    hide Places, JobSound, Within, Guarded, Round, Gap, Room;
    if n == 0 {
      RoomAtFirst(s, all);
    } else {
      GuardedRoom(s, all, n - 1);
      AfterSound(s, all, n - 1);
      var j := After(s, n - 1);
      if Waiting(j) {
        AnswerGuarded(s, {}, n - 1);
        RoundProgress(s, all, n, j);
      }
    }
  }

  /** Where terminal addresses are never reported, the loop ends within as many rounds as there are
      dependencies and addresses. */
  lemma GuardedHalts(s: Setting, all: set<Dependency>)
    requires Within(s, all) && Guarded(s, {})
    ensures !Waiting(After(s, |all| + |Places(all)| + 1))
    ensures Halts(s)
  {
    GuardedRoom(s, all, |all| + |Places(all)| + 1);
  }

  // ---------- the seed of a root trace ----------

  /** A root trace reports its seed whenever the seed is not ready, terminal or not; any other
      address only while it is not terminal. */
  ghost predicate Gated(s: Setting, seed: Address, ready: nat -> bool) {
    forall n, terminal {:trigger s.attempt(n, terminal)} ::
      if ready(n) then s.attempt(n, terminal).Missing? ==> s.attempt(n, terminal).dependency.address !in terminal
      else s.attempt(n, terminal) == Missing(Dependency(seed, 0, 0))
  }

  /** The seed was asked for once and is never ready again. */
  ghost predicate StuckAt(s: Setting, seed: Address, ready: nat -> bool, k: nat) {
    var j := After(s, k);
    && Waiting(j) && j.answer == Missing(Dependency(seed, 0, 0)) && Dependency(seed, 0, 0) in j.attempted
    && forall n :: n > k ==> !ready(n)
  }

  lemma {:induction false} StuckStays(s: Setting, seed: Address, ready: nat -> bool, k: nat, n: nat)
    requires Gated(s, seed, ready) && StuckAt(s, seed, ready, k) && k <= n
    ensures StuckAt(s, seed, ready, n)
  {
    if k < n {
      StuckStays(s, seed, ready, k, n - 1);
      assert !ready(n);
    }
  }

  lemma {:induction false} WaitingBefore(s: Setting, n: nat, m: nat)
    requires Waiting(After(s, m)) && n <= m
    ensures Waiting(After(s, n))
  {
    if n < m {
      WaitingBefore(s, n, m - 1);
    }
  }

  lemma ReadyProgress(s: Setting, all: set<Dependency>, seed: Address, ready: nat -> bool, n: nat)
    requires Within(s, all) && Gated(s, seed, ready) && Waiting(After(s, n))
    ensures Room(all, After(s, n + 1)) <= Room(all, After(s, n))
    ensures ready(n) ==> Room(all, After(s, n + 1)) < Room(all, After(s, n))
  {
    hide Room, JobSound, Within, Places;
    AfterSound(s, all, n);
    RoundProgress(s, all, n + 1, After(s, n));
    AnswerGate(s, seed, ready, n);
  }

  lemma AnswerGate(s: Setting, seed: Address, ready: nat -> bool, n: nat)
    requires Gated(s, seed, ready) && Waiting(After(s, n))
    ensures ready(n) ==> After(s, n).answer.dependency.address !in After(s, n).terminal
    ensures !ready(n) ==> After(s, n).answer == Missing(Dependency(seed, 0, 0))
  {
  }

  lemma {:induction false} RoomFalls(
      s: Setting, all: set<Dependency>, seed: Address, ready: nat -> bool, n: nat, m: nat)
    requires Within(s, all) && Gated(s, seed, ready) && n <= m && Waiting(After(s, m))
    ensures Room(all, After(s, m)) <= Room(all, After(s, n))
  {
    hide Room, After, Within, Gated;
    if n < m {
      WaitingBefore(s, m - 1, m);
      RoomFalls(s, all, seed, ready, n, m - 1);
      ReadyProgress(s, all, seed, ready, m - 1);
    }
  }

  /** A loop that never ends meets a ready seed only finitely often. */
  lemma {:induction false} EventuallyUnready(
      s: Setting, all: set<Dependency>, seed: Address, ready: nat -> bool, n: nat) returns (k: nat)
    requires Within(s, all) && Gated(s, seed, ready) && !Halts(s)
    ensures k >= n && forall m :: m >= k ==> !ready(m)
    decreases Room(all, After(s, n))
  {
    hide Room, After, Within, Gated;
    if forall m :: m >= n ==> !ready(m) {
      k := n;
    } else {
      var m :| m >= n && ready(m);
      assert Waiting(After(s, m)) && Waiting(After(s, m + 1));
      RoomFalls(s, all, seed, ready, n, m);
      ReadyProgress(s, all, seed, ready, m);
      k := EventuallyUnready(s, all, seed, ready, m + 1);
    }
  }

  /** The loop of a root trace fails to end exactly when its seed, once asked for, is never ready
      again: the seed is reported although it is terminal. */
  lemma RootHaltsUnlessStuck(s: Setting, all: set<Dependency>, seed: Address, ready: nat -> bool)
    requires Within(s, all) && Gated(s, seed, ready)
    ensures Halts(s) <==> !exists k :: StuckAt(s, seed, ready, k)
  {
    if exists k :: StuckAt(s, seed, ready, k) {
      var k :| StuckAt(s, seed, ready, k);
      forall n
        ensures Waiting(After(s, n))
      {
        if k <= n {
          StuckStays(s, seed, ready, k, n);
        } else {
          WaitingBefore(s, n, k);
        }
      }
    } else if !Halts(s) {
      var k := EventuallyUnready(s, all, seed, ready, 0);
      assert Waiting(After(s, k)) && Waiting(After(s, k + 1));
      AnswerGate(s, seed, ready, k);
      AnswerGate(s, seed, ready, k + 1);
      assert StuckAt(s, seed, ready, k + 1);
    }
  }

  /** With a seed whose state does not change, the job ends if and only if the seed is ready or a
      synchronisation of it fails, the one before the loop or the one inside. */
  lemma FixedSeedHalts(s: Setting, all: set<Dependency>, seed: Address, ready: nat -> bool)
    requires Within(s, all) && Gated(s, seed, ready) && forall n :: ready(n) == ready(0)
    ensures Halts(s) <==> ready(0) || Begin(s).failed || !s.syncs(1)
  {
    RootHaltsUnlessStuck(s, all, seed, ready);
    if ready(0) {
      forall k: nat
        ensures !StuckAt(s, seed, ready, k)
      {
        assert ready(k + 1);
      }
    } else if Begin(s).failed {
      assert !Waiting(After(s, 0));
    } else {
      assert s.attempt(0, {}) == Missing(Dependency(seed, 0, 0));
      assert After(s, 1) == Round(s, 1, After(s, 0));
      if s.syncs(1) {
        assert s.attempt(1, {}) == Missing(Dependency(seed, 0, 0));
        assert StuckAt(s, seed, ready, 1);
      } else {
        assert !Waiting(After(s, 1));
      }
    }
  }

  // ---------- the loop ----------

  /** The retry loop: with nothing but guarded reports it ends. */
  method Resolve(s: Setting, ghost all: set<Dependency>) returns (j: Job)
    requires Within(s, all) && Guarded(s, {})
    ensures exists n :: j == After(s, n) && !Waiting(j)
  {
    hide Places, Gap, Within, Guarded;
    var attempted: set<Dependency>, terminal: set<Address>, requests: seq<Dependency> := {}, {}, [];
    var failed, partly := s.first.Some? && !s.syncs(0), false;
    var answer := if failed then Missing(s.first.value) else s.attempt(0, {});
    var n := 0;
    while answer.Missing? && !failed
      invariant After(s, n) == Job(answer, attempted, terminal, requests, failed, partly)
      decreases Room(all, Job(answer, attempted, terminal, requests, failed, partly)), !failed
    {
      ghost var before := After(s, n);
      AfterSound(s, all, n);
      AnswerGuarded(s, {}, n);
      RoundProgress(s, all, n + 1, before);
      n := n + 1;
      var d := answer.dependency;
      if d in attempted {
        terminal := terminal + {d.address};
        partly := true;
        answer := s.attempt(n, terminal);
      } else {
        attempted := attempted + {d};
        requests := requests + [d];
        if !s.syncs(n) {
          failed := true;
        } else {
          answer := s.attempt(n, terminal);
        }
      }
    }
    j := Job(answer, attempted, terminal, requests, failed, partly);
  }
}
