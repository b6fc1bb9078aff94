/** The queue of synchronisation jobs as interleaved steps of enqueuers and one worker
    (internal/syncer/manager.go, Enqueue, Run, process, release).

    A step is one critical section or one channel operation.  A release deletes by key; that it
    deletes the entry of the releasing job and no other is proved. */
module JobQueue {
  import opened Wrappers

  /** The key is chain and address. */
  datatype Job = Job(id: nat, key: string)

  /** `pushing` jobs are active but not in the channel yet; `dropping` ones found it full and are not
      released yet.  The last three fields record what happened. */
  datatype State = State(
    active: map<string, nat>, pushing: set<Job>, dropping: set<Job>, queue: seq<Job>, processing: Option<Job>,
    admitted: nat, pushed: seq<Job>, taken: seq<Job>, released: seq<Job>)

  const EMPTY := State(map[], {}, {}, [], None, 0, [], [], [])

  datatype Event =
    | Admit(key: string, fails: bool)
    | Push(job: Job)
    | Drop(job: Job)
    | Take
    | Finish

  function Release(s: State, job: Job): State {
    s.(active := s.active - {job.key}, released := s.released + [job])
  }

  /** One step; an event that cannot happen changes nothing. */
  function Step(size: nat, s: State, e: Event): State {
    match e
    case Admit(key, fails) =>
      if key in s.active || fails then s
      else
        s.(active := s.active[key := s.admitted], pushing := s.pushing + {Job(s.admitted, key)},
           admitted := s.admitted + 1)
    case Push(job) =>
      if job !in s.pushing then s
      else if |s.queue| < size then
        s.(pushing := s.pushing - {job}, queue := s.queue + [job], pushed := s.pushed + [job])
      else s.(pushing := s.pushing - {job}, dropping := s.dropping + {job})
    case Drop(job) =>
      if job !in s.dropping then s else Release(s.(dropping := s.dropping - {job}), job)
    case Take =>
      if s.processing.Some? || s.queue == [] then s
      else s.(processing := Some(s.queue[0]), queue := s.queue[1..], taken := s.taken + [s.queue[0]])
    case Finish =>
      if s.processing.None? then s else Release(s.(processing := None), s.processing.value)
  }

  function Run(size: nat, s: State, es: seq<Event>): State
    decreases |es|
  {
    if es == [] then s else Run(size, Step(size, s, es[0]), es[1..])
  }

  // ---------- the invariant ----------

  predicate Live(s: State, job: Job) {
    job in s.pushing || job in s.dropping || job in s.queue || s.processing == Some(job)
  }

  /** A job is in one place only. */
  ghost predicate OnePlace(s: State) {
    && s.pushing !! s.dropping
    && (forall i ::
        0 <= i < |s.queue| ==>
            s.queue[i] !in s.pushing && s.queue[i] !in s.dropping && s.processing != Some(s.queue[i]))
    && (forall i, k :: 0 <= i < k < |s.queue| ==> s.queue[i] != s.queue[k])
    && (s.processing.Some? ==> s.processing.value !in s.pushing && s.processing.value !in s.dropping)
  }

  /** The active entries are the live jobs, key by key. */
  ghost predicate ActiveExact(s: State) {
    && (forall key :: key in s.active ==> Live(s, Job(s.active[key], key)))
    && (forall job :: Live(s, job) ==> job.key in s.active && s.active[job.key] == job.id)
  }

  /** Every job admitted so far is live or was released, never both, and released once. */
  ghost predicate Accounted(s: State) {
    && (forall job :: Live(s, job) || job in s.released ==> job.id < s.admitted)
    && (forall id: nat :: id < s.admitted ==> Known(s, id))
    && (forall job, other ::
        (Live(s, job) || job in s.released) && (Live(s, other) || other in s.released) && job.id == other.id ==>
            job == other)
    && (forall job :: job in s.released ==> !Live(s, job))
    && (forall i, k :: 0 <= i < k < |s.released| ==> s.released[i] != s.released[k])
  }

  ghost predicate Known(s: State, id: nat) {
    exists key :: Live(s, Job(id, key)) || Job(id, key) in s.released
  }

  ghost predicate Inv(size: nat, s: State) {
    OnePlace(s) && ActiveExact(s) && Accounted(s) && |s.queue| <= size && s.pushed == s.taken + s.queue
  }

  lemma AdmitKeeps(size: nat, s: State, key: string)
    requires Inv(size, s) && key !in s.active
    ensures Inv(size, Step(size, s, Admit(key, false)))
  {
    var u := Step(size, s, Admit(key, false));
    var job := Job(s.admitted, key);
    assert forall x :: Live(u, x) <==> Live(s, x) || x == job;
    KnownStay(s, u, job);
    assert Live(u, job);
  }

  /** Jobs stay known while they move. */
  lemma KnownStay(s: State, u: State, job: Job)
    requires forall x :: Live(s, x) ==> Live(u, x) || x in u.released
    requires forall x :: x in s.released ==> x in u.released
    ensures forall id :: Known(s, id) ==> Known(u, id)
  {
    forall id | Known(s, id)
      ensures Known(u, id)
    {
      var key :| Live(s, Job(id, key)) || Job(id, key) in s.released;
      assert Live(u, Job(id, key)) || Job(id, key) in u.released;
    }
  }

  /** A job that only moves changes neither the entries nor the accounts. */
  lemma MovedKeeps(s: State, u: State, job: Job)
    requires ActiveExact(s) && Accounted(s)
    requires u.active == s.active && u.admitted == s.admitted && u.released == s.released
    requires forall x :: Live(u, x) <==> Live(s, x)
    ensures ActiveExact(u) && Accounted(u)
  {
    hide Live, Known;
    KnownStay(s, u, job);
  }

  lemma PushKeeps(size: nat, s: State, job: Job)
    requires Inv(size, s) && job in s.pushing
    ensures Inv(size, Step(size, s, Push(job)))
  {
    hide ActiveExact, Accounted;
    var u := Step(size, s, Push(job));
    assert forall x :: x in s.queue + [job] <==> x in s.queue || x == job;
    assert forall x :: Live(u, x) <==> Live(s, x);
    MovedKeeps(s, u, job);
  }

  lemma TakeKeeps(size: nat, s: State)
    requires Inv(size, s) && s.processing.None? && s.queue != []
    ensures Inv(size, Step(size, s, Take))
  {
    hide ActiveExact, Accounted;
    var u := Step(size, s, Take);
    assert s.queue == [s.queue[0]] + u.queue;
    assert forall x :: Live(u, x) <==> Live(s, x);
    MovedKeeps(s, u, s.queue[0]);
    assert u.pushed == u.taken + u.queue;
  }

  /** A job that is released gives up its own entry. */
  lemma ReleasedKeeps(s: State, u: State, job: Job)
    requires ActiveExact(s) && Accounted(s) && Live(s, job)
    requires u.active == s.active - {job.key} && u.admitted == s.admitted && u.released == s.released + [job]
    requires forall x :: Live(u, x) <==> Live(s, x) && x != job
    ensures ActiveExact(u) && Accounted(u)
  {
    hide Live, Known;
    assert forall x :: x in u.released <==> x in s.released || x == job;
    KnownStay(s, u, job);
  }

  lemma ReleaseKeeps(size: nat, s: State, e: Event)
    requires Inv(size, s) && (e.Drop? || e.Finish?)
    ensures Inv(size, Step(size, s, e))
  {
    hide ActiveExact, Accounted;
    var u := Step(size, s, e);
    if u != s {
      var job := if e.Drop? then e.job else s.processing.value;
      assert forall x :: Live(u, x) <==> Live(s, x) && x != job;
      ReleasedKeeps(s, u, job);
    }
  }

  lemma StepKeeps(size: nat, s: State, e: Event)
    requires Inv(size, s)
    ensures Inv(size, Step(size, s, e))
  {
    match e
    case Admit(key, fails) =>
      if key !in s.active && !fails {
        AdmitKeeps(size, s, key);
      }
    case Push(job) =>
      if job in s.pushing {
        PushKeeps(size, s, job);
      }
    case Take =>
      if s.processing.None? && s.queue != [] {
        TakeKeeps(size, s);
      }
    case Drop(_) => ReleaseKeeps(size, s, e);
    case Finish => ReleaseKeeps(size, s, e);
  }

  lemma {:induction false} RunKeeps(size: nat, s: State, es: seq<Event>)
    requires Inv(size, s)
    ensures Inv(size, Run(size, s, es))
    decreases |es|
  {
    hide Inv, Step;
    if es != [] {
      StepKeeps(size, s, es[0]);
      RunKeeps(size, Step(size, s, es[0]), es[1..]);
    }
  }

  /** Under every interleaving: a key is active exactly while one job of that key is being pushed,
      queued, processed or dropped, under that job's id; the queue fits the channel; jobs are taken in
      the order they were pushed; every admitted job is live or was released once. */
  lemma EveryInterleaving(size: nat, es: seq<Event>)
    ensures Inv(size, Run(size, EMPTY, es))
  {
    RunKeeps(size, EMPTY, es);
  }

  /** A release removes the entry of the job that releases, and changes no other entry. */
  lemma ReleaseOwnEntry(size: nat, es: seq<Event>, e: Event)
    requires e.Drop? || e.Finish?
    ensures
      var s := Run(size, EMPTY, es);
      var u := Step(size, s, e);
      u != s ==>
        var job := if e.Drop? then e.job else s.processing.value;
        && job.key in s.active && s.active[job.key] == job.id
        && u.active.Keys == s.active.Keys - {job.key}
        && forall other :: Live(u, other) ==> other.key in u.active && u.active[other.key] == other.id
  {
    EveryInterleaving(size, es);
    StepKeeps(size, Run(size, EMPTY, es), e);
  }

  /** Two live jobs never share a key, and an admission of a live key is refused. */
  lemma OneJobPerKey(size: nat, es: seq<Event>, x: Job, y: Job)
    requires
      var s := Run(size, EMPTY, es);
      Live(s, x) && Live(s, y) && x.key == y.key
    ensures x == y
    ensures
      var s := Run(size, EMPTY, es);
      forall fails :: Step(size, s, Admit(x.key, fails)) == s
  {
    EveryInterleaving(size, es);
  }

  // ---------- no job is stranded ----------

  lemma RunCons(size: nat, s: State, e: Event, es: seq<Event>)
    ensures Run(size, s, [e] + es) == Run(size, Step(size, s, e), es)
  {
    assert ([e] + es)[1..] == es;
  }

  /** The worker comes to every job in the channel. */
  lemma {:induction false} QueueFinishes(size: nat, s: State, i: nat) returns (more: seq<Event>)
    requires i < |s.queue|
    ensures s.queue[i] in Run(size, s, more).released
    decreases i, s.processing.Some?
  {
    hide Run;
    if s.processing.Some? {
      more := QueueFinishes(size, Step(size, s, Finish), i);
      RunCons(size, s, Finish, more);
      more := [Finish] + more;
    } else {
      var u := Step(size, s, Take);
      if i > 0 {
        more := QueueFinishes(size, u, i - 1);
      } else {
        more := [Finish];
        RunOne(size, u, Finish);
      }
      RunCons(size, s, Take, more);
      more := [Take] + more;
    }
  }

  lemma RunOne(size: nat, s: State, e: Event)
    ensures Run(size, s, [e]) == Step(size, s, e)
  {
    assert [e][1..] == [];
  }

  lemma LiveFinishes(size: nat, s: State, job: Job) returns (more: seq<Event>)
    requires Live(s, job)
    ensures job in Run(size, s, more).released
  {
    hide Run;
    if job in s.pushing {
      var u := Step(size, s, Push(job));
      if |s.queue| < size {
        assert u.queue[|s.queue|] == job;
        more := QueueFinishes(size, u, |s.queue|);
      } else {
        more := [Drop(job)];
        RunOne(size, u, Drop(job));
      }
      RunCons(size, s, Push(job), more);
      more := [Push(job)] + more;
    } else if job in s.dropping {
      more := [Drop(job)];
      RunOne(size, s, Drop(job));
    } else if job in s.queue {
      var i :| 0 <= i < |s.queue| && s.queue[i] == job;
      more := QueueFinishes(size, s, i);
    } else {
      more := [Finish];
      RunOne(size, s, Finish);
    }
  }

  /** From every reachable state every live job can still be released, and its key be admitted again. */
  lemma NeverStranded(size: nat, es: seq<Event>, job: Job) returns (more: seq<Event>)
    requires Live(Run(size, EMPTY, es), job)
    ensures
      var s := Run(size, EMPTY, es);
      job in Run(size, s, more).released && !Live(Run(size, s, more), job)
  {
    EveryInterleaving(size, es);
    more := LiveFinishes(size, Run(size, EMPTY, es), job);
    RunKeeps(size, Run(size, EMPTY, es), more);
  }

  // ---------- the manager ----------

  /** The shared fields of the manager.  The ghost fields say where its callers and its worker are. */
  class Manager {
    const size: nat
    var active: map<string, nat>
    var queue: seq<Job>
    var admitted: nat
    ghost var pushing: set<Job>
    ghost var dropping: set<Job>
    ghost var processing: Option<Job>
    ghost var pushed: seq<Job>
    ghost var taken: seq<Job>
    ghost var released: seq<Job>

    ghost function View(): State
      reads this
    {
      State(active, pushing, dropping, queue, processing, admitted, pushed, taken, released)
    }

    constructor (size: nat)
      ensures View() == EMPTY && this.size == size
    {
      this.size := size;
      active, queue, admitted := map[], [], 0;
      pushing, dropping, processing, pushed, taken, released := {}, {}, None, [], [], [];
    }

    /** The locked part of Enqueue; `fails` stands for the repository. */
    method Admit(key: string, fails: bool) returns (id: Option<nat>)
      modifies this
      ensures View() == Step(size, old(View()), Event.Admit(key, fails))
      ensures
        if old(key in active) then id == Some(old(active)[key])
        else if fails then id == None
        else id == Some(old(admitted))
      ensures
        if old(key in active) || fails then active == old(active) && pushing == old(pushing)
        else active == old(active)[key := old(admitted)] && pushing == old(pushing) + {Job(old(admitted), key)}
    {
      if key in active {
        return Some(active[key]);
      }
      if fails {
        return None;
      }
      id := Some(admitted);
      pushing := pushing + {Job(admitted, key)};
      active := active[key := admitted];
      admitted := admitted + 1;
    }

    /** Sending to the channel, or finding it full. */
    method Push(job: Job) returns (ok: bool)
      requires job in pushing
      modifies this
      ensures View() == Step(size, old(View()), Event.Push(job)) && ok == (old(|queue|) < size)
      ensures queue == if ok then old(queue) + [job] else old(queue)
      ensures dropping == if ok then old(dropping) else old(dropping) + {job}
    {
      pushing := pushing - {job};
      ok := |queue| < size;
      if ok {
        queue := queue + [job];
        pushed := pushed + [job];
      } else {
        dropping := dropping + {job};
      }
    }

    method Take() returns (job: Job)
      requires queue != [] && processing.None?
      modifies this
      ensures View() == Step(size, old(View()), Event.Take) && processing == Some(job)
      ensures old(queue) == [job] + queue
    {
      job := queue[0];
      queue := queue[1..];
      processing := Some(job);
      taken := taken + [job];
    }

    /** The release of a dropped job, and of a job whose processing ended. */
    method Release(job: Job)
      requires job in dropping || processing == Some(job)
      modifies this
      ensures View() == Step(size, old(View()), if old(job in dropping) then Event.Drop(job) else Event.Finish)
      ensures active == old(active) - {job.key} && released == old(released) + [job]
      ensures old(job in dropping) ==> dropping == old(dropping) - {job} && processing == old(processing)
      ensures !old(job in dropping) ==> processing == None && dropping == old(dropping)
    {
      if job in dropping {
        dropping := dropping - {job};
      } else {
        processing := None;
      }
      released := released + [job];
      active := active - {job.key};
    }
  }
}
