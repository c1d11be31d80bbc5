/** The table of jobs that requests register in and workers update, one lock at a time. */
module Registry {
  import opened FileSystem
  import opened Jobs
  import opened PathText

  /** What a client asks for, with the destination already decided.  Both are texts as
      the client and the handler wrote them, and are compared as texts. */
  datatype Request = Request(op: Op, src: string, dst: string)

  /** How far the worker of a job is. */
  datatype Worker = Spawned | Working | Gone

  datatype Reply = Started(id: nat) | Deduped(id: nat)

  /** `waiting` are the requests that have drawn an id but not yet taken the lock. */
  datatype Table = Table(jobs: map<nat, Job>, next: nat, waiting: map<nat, Request>, workers: map<nat, Worker>)

  const EMPTY := Table(map[], 1, map[], map[])

  predicate Active(j: Job) {
    j.status == Queued || j.status == Running
  }

  /** The job already does what is asked for.  Deletes are never looked up. */
  predicate Duplicates(rq: Request, j: Job) {
    && rq.op != Delete && Active(j) && j.op == rq.op && j.src == rq.src
    && (rq.op == Move || j.dst == rq.dst)
  }

  ghost predicate HasDuplicate(jobs: map<nat, Job>, rq: Request) {
    exists id :: id in jobs && Duplicates(rq, jobs[id])
  }

  /** A worker changes anything but what the job is and its status. */
  predicate SameWork(a: Job, b: Job) {
    a.op == b.op && a.src == b.src && a.dst == b.dst
  }

  /** The atomic steps.  The scan of the table comes upon its entries in no particular
      order, so `found` is any duplicate there is. */
  datatype Event =
    | Draw(rq: Request)
    | Dedupe(id: nat, found: nat)
    | Insert(id: nat)
    | Begin(id: nat)
    | Progress(id: nat, job: Job)
    | Finish(id: nat, job: Job)

  ghost predicate Enabled(t: Table, e: Event) {
    match e
    case Draw(rq) => true
    case Dedupe(id, found) => id in t.waiting && found in t.jobs && Duplicates(t.waiting[id], t.jobs[found])
    case Insert(id) => id in t.waiting && !HasDuplicate(t.jobs, t.waiting[id])
    case Begin(id) => id in t.jobs && id in t.workers && t.workers[id] == Spawned
    case Progress(id, job) =>
      && id in t.jobs && id in t.workers && t.workers[id] == Working
      && SameWork(job, t.jobs[id]) && job.status == t.jobs[id].status
    case Finish(id, job) =>
      && id in t.jobs && id in t.workers && t.workers[id] == Working
      && SameWork(job, t.jobs[id]) && (job.status == Done || job.status == Failed)
  }

  ghost function Step(t: Table, e: Event): Table
    requires Enabled(t, e)
  {
    match e
    case Draw(rq) => t.(next := t.next + 1, waiting := t.waiting[t.next := rq])
    case Dedupe(id, found) => t.(waiting := t.waiting - {id})
    case Insert(id) =>
      var rq := t.waiting[id];
      t.(waiting := t.waiting - {id},
         jobs := t.jobs[id := NewJob(rq.op, rq.src, rq.dst)],
         workers := t.workers[id := Spawned])
    case Begin(id) =>
      t.(jobs := t.jobs[id := t.jobs[id].(status := Running)], workers := t.workers[id := Working])
    case Progress(id, job) => t.(jobs := t.jobs[id := job])
    case Finish(id, job) => t.(jobs := t.jobs[id := job], workers := t.workers[id := Gone])
  }

  /** A run takes the steps it can, in the order given. */
  ghost function Run(t: Table, events: seq<Event>): Table
    decreases |events|
  {
    if events == [] then t
    else
      var before := Run(t, events[..|events| - 1]);
      if Enabled(before, events[|events| - 1]) then Step(before, events[|events| - 1]) else before
  }

  // ----- what every step keeps -----

  /** Both are under way and do the same: the same source for moves, and also the same
      destination for copies. */
  predicate Clash(a: Job, b: Job) {
    && Active(a) && Active(b) && a.op == b.op && a.src == b.src
    && (a.op == Move || (a.op == Copy && a.dst == b.dst))
  }

  ghost predicate NoClash(jobs: map<nat, Job>) {
    forall i, k :: i in jobs && k in jobs && i != k ==> !Clash(jobs[i], jobs[k])
  }

  /** Every id in use was drawn, and none both waits and runs. */
  ghost predicate Drawn(t: Table) {
    && (forall id :: id in t.jobs ==> 0 < id < t.next && id !in t.waiting)
    && (forall id :: id in t.waiting ==> 0 < id < t.next)
    && t.workers.Keys == t.jobs.Keys && t.next > 0
  }

  /** A job's status is where its worker is. */
  predicate InStep(w: Worker, s: Status) {
    match w
    case Spawned => s == Queued
    case Working => s == Running
    case Gone => s == Done || s == Failed
  }

  ghost predicate AllInStep(t: Table) {
    forall id :: id in t.jobs && id in t.workers ==> InStep(t.workers[id], t.jobs[id].status)
  }

  ghost predicate Inv(t: Table) {
    Drawn(t) && AllInStep(t) && NoClash(t.jobs)
  }

  /** A job that replaces one that was at least as active clashes with nothing new. */
  lemma StillNoClash(jobs: map<nat, Job>, id: nat, job: Job)
    requires NoClash(jobs) && id in jobs && SameWork(job, jobs[id]) && (Active(job) ==> Active(jobs[id]))
    ensures NoClash(jobs[id := job])
  {
    hide Active;
    var after := jobs[id := job];
    forall i, k | i in after && k in after && i != k ensures !Clash(after[i], after[k]) {
      assert !Clash(jobs[i], jobs[k]);
    }
  }

  lemma InsertNoClash(jobs: map<nat, Job>, id: nat, rq: Request)
    requires NoClash(jobs) && id !in jobs && !HasDuplicate(jobs, rq)
    ensures NoClash(jobs[id := NewJob(rq.op, rq.src, rq.dst)])
  {
    var job := NewJob(rq.op, rq.src, rq.dst);
    var after := jobs[id := job];
    assert job.op == Delete ==> forall k :: k in jobs ==> !Clash(job, jobs[k]) && !Clash(jobs[k], job);
    assert forall k :: k in jobs ==> !Duplicates(rq, jobs[k]);
  }

  lemma StepInv(t: Table, e: Event)
    requires Inv(t) && Enabled(t, e)
    ensures Inv(Step(t, e))
  {
    match e
    case Draw(rq) =>
    case Dedupe(id, found) =>
    case Insert(id) =>
      InsertNoClash(t.jobs, id, t.waiting[id]);
    case Begin(id) =>
      StillNoClash(t.jobs, id, t.jobs[id].(status := Running));
    case Progress(id, job) =>
      StillNoClash(t.jobs, id, job);
    case Finish(id, job) =>
      StillNoClash(t.jobs, id, job);
  }

  lemma {:induction false} RunInv(events: seq<Event>)
    ensures Inv(Run(EMPTY, events))
    decreases |events|
  {
    if events != [] {
      var before := events[..|events| - 1];
      RunInv(before);
      hide Inv, Enabled, Step;
      if Enabled(Run(EMPTY, before), events[|events| - 1]) {
        StepInv(Run(EMPTY, before), events[|events| - 1]);
      }
    }
  }

  /** However requests and workers interleave, at most one move per source text and one
      copy per pair of texts is queued or running. */
  lemma NeverTwoAtOnce(events: seq<Event>, i: nat, k: nat)
    requires var t := Run(EMPTY, events); i in t.jobs && k in t.jobs && i != k
    ensures var t := Run(EMPTY, events);
            && !(t.jobs[i].op == t.jobs[k].op == Move && t.jobs[i].src == t.jobs[k].src
                 && Active(t.jobs[i]) && Active(t.jobs[k]))
            && !(t.jobs[i].op == t.jobs[k].op == Copy && t.jobs[i].src == t.jobs[k].src
                 && t.jobs[i].dst == t.jobs[k].dst && Active(t.jobs[i]) && Active(t.jobs[k]))
  {
    RunInv(events);
    assert !Clash(Run(EMPTY, events).jobs[i], Run(EMPTY, events).jobs[k]);
    hide Run;
  }

  /** Two jobs for these requests are under way at once in some run. */
  ghost predicate Coexist(a: Request, b: Request) {
    exists events: seq<Event>, i: nat, k: nat :: BothActive(Run(EMPTY, events), a, b, i, k)
  }

  ghost predicate BothActive(t: Table, a: Request, b: Request, i: nat, k: nat) {
    && i in t.jobs && k in t.jobs && i != k && Active(t.jobs[i]) && Active(t.jobs[k])
    && SameWork(t.jobs[i], NewJob(a.op, a.src, a.dst)) && SameWork(t.jobs[k], NewJob(b.op, b.src, b.dst))
  }

  lemma RunSnoc(events: seq<Event>, e: Event)
    ensures var before := Run(EMPTY, events);
            Run(EMPTY, events + [e]) == if Enabled(before, e) then Step(before, e) else before
  {
    assert (events + [e])[..|events|] == events;
  }

  /** Both requests draw their ids, then both take the lock. */
  lemma BothInserted(a: Request, b: Request)
    requires !Duplicates(b, NewJob(a.op, a.src, a.dst))
    ensures var events := [Draw(a)] + [Draw(b)] + [Insert(1)] + [Insert(2)];
            BothActive(Run(EMPTY, events), a, b, 1, 2)
  {
    var t1 := EMPTY.(next := 2, waiting := map[1 := a]);
    var t2 := t1.(next := 3, waiting := map[1 := a, 2 := b]);
    var e1 := [Draw(a)];
    assert [] + e1 == e1;
    RunSnoc([], Draw(a));
    assert Run(EMPTY, e1) == t1;
    RunSnoc(e1, Draw(b));
    assert Run(EMPTY, e1 + [Draw(b)]) == t2;
    RunSnoc(e1 + [Draw(b)], Insert(1));
    assert Enabled(t2, Insert(1));
    var t3 := Step(t2, Insert(1));
    assert t3.jobs == map[1 := NewJob(a.op, a.src, a.dst)] && t3.waiting[2] == b;
    RunSnoc(e1 + [Draw(b)] + [Insert(1)], Insert(2));
    assert Enabled(t3, Insert(2));
  }

  /** Exactly which moves and copies can be under way at once: any two unless their
      source texts, and for copies also their destination texts, are the same.  What
      paths the texts denote does not matter. */
  lemma CoexistExactly(a: Request, b: Request)
    requires a.op == b.op && a.op != Delete
    ensures Coexist(a, b) <==> a.src != b.src || (a.op == Copy && a.dst != b.dst)
  {
    if a.src != b.src || (a.op == Copy && a.dst != b.dst) {
      BothInserted(a, b);
    }
    if Coexist(a, b) {
      var events: seq<Event>, i: nat, k: nat :| BothActive(Run(EMPTY, events), a, b, i, k);
      NeverTwoAtOnce(events, i, k);
      hide Run;
    }
  }

  /** So two moves of one path are under way at once when its text is written in two
      ways: every path but the root has two. */
  lemma TwoSpellings(p: Path, dst: string)
    requires p != [] && AllPlain(p)
    ensures Components(Text(p)) == Components(Text(p) + "/") == p
    ensures Coexist(Request(Move, Text(p), dst), Request(Move, Text(p) + "/", dst))
  {
    TextDenotes(p);
    SlashDenotes(Text(p));
    assert |Text(p) + "/"| > |Text(p)|;
    hide Text, Components, Coexist;
    CoexistExactly(Request(Move, Text(p), dst), Request(Move, Text(p) + "/", dst));
  }

  /** A request that waits for the lock gets through: it is answered with an active job
      for the same work, or with a new job of its own under an id never used before;
      one of the two, and only one, can happen. */
  lemma EveryRequestAnswered(events: seq<Event>, id: nat)
    requires id in Run(EMPTY, events).waiting
    ensures var t := Run(EMPTY, events);
            var rq := t.waiting[id];
            && id !in t.jobs
            && (Enabled(t, Insert(id)) <==> forall k :: k in t.jobs ==> !Duplicates(rq, t.jobs[k]))
            && (!Enabled(t, Insert(id)) <==> exists found :: Enabled(t, Dedupe(id, found)))
            && (forall found :: Enabled(t, Dedupe(id, found)) ==>
                  Active(t.jobs[found]) && t.jobs[found].op == rq.op && t.jobs[found].src == rq.src
                  && (rq.op == Copy ==> t.jobs[found].dst == rq.dst))
  {
    RunInv(events);
    var t := Run(EMPTY, events);
    hide Run, NoClash, AllInStep;
    if HasDuplicate(t.jobs, t.waiting[id]) {
      var found :| found in t.jobs && Duplicates(t.waiting[id], t.jobs[found]);
      assert Enabled(t, Dedupe(id, found));
    }
  }

  // ----- along a run -----

  function Rank(s: Status): nat {
    match s
    case Queued => 0
    case Running => 1
    case Done => 2
    case Failed => 2
  }

  /** The job under an id stays the same job, its status only moves on, and once it is
      finished nothing about it changes. */
  ghost predicate Advances(a: Table, b: Table) {
    && a.next <= b.next
    && forall id :: id in a.jobs ==>
         && id in b.jobs && SameWork(a.jobs[id], b.jobs[id])
         && Rank(a.jobs[id].status) <= Rank(b.jobs[id].status)
         && (Rank(a.jobs[id].status) == 2 ==> a.jobs[id] == b.jobs[id])
  }

  lemma OneAdvances(a: Table, b: Table, id: nat, job: Job)
    requires a.next <= b.next && b.jobs == a.jobs[id := job]
    requires id in a.jobs ==>
               SameWork(a.jobs[id], job) && Rank(a.jobs[id].status) <= Rank(job.status)
               && Rank(a.jobs[id].status) < 2
    ensures Advances(a, b)
  {
    hide Rank;
  }

  lemma StepAdvances(t: Table, e: Event)
    requires Inv(t) && Enabled(t, e)
    ensures Advances(t, Step(t, e))
  {
    hide NoClash, HasDuplicate, Advances;
    match e
    case Draw(rq) => NothingAdvances(t, Step(t, e));
    case Dedupe(id, found) => NothingAdvances(t, Step(t, e));
    case Insert(id) => OneAdvances(t, Step(t, e), id, Step(t, e).jobs[id]);
    case Begin(id) => OneAdvances(t, Step(t, e), id, Step(t, e).jobs[id]);
    case Progress(id, job) => OneAdvances(t, Step(t, e), id, job);
    case Finish(id, job) => OneAdvances(t, Step(t, e), id, job);
  }

  lemma NothingAdvances(a: Table, b: Table)
    requires a.next <= b.next && a.jobs == b.jobs
    ensures Advances(a, b)
  {
  }

  lemma AdvancesOn(a: Table, b: Table, c: Table)
    requires Advances(a, b) && Advances(b, c)
    ensures Advances(a, c)
  {
    forall id | id in a.jobs
      ensures id in c.jobs && SameWork(a.jobs[id], c.jobs[id])
        && Rank(a.jobs[id].status) <= Rank(c.jobs[id].status)
        && (Rank(a.jobs[id].status) == 2 ==> a.jobs[id] == c.jobs[id])
    {
      assert id in b.jobs;
    }
  }

  /** From any moment of any run to any later one. */
  lemma {:induction false} StatusOnlyAdvances(events: seq<Event>, m: nat)
    requires m <= |events|
    ensures Advances(Run(EMPTY, events[..m]), Run(EMPTY, events))
    decreases |events|
  {
    if m == |events| {
      assert events[..m] == events;
      hide Run;
    } else {
      var before, last := events[..|events| - 1], events[|events| - 1];
      StatusOnlyAdvances(before, m);
      assert before[..m] == events[..m];
      RunInv(before);
      var t := Run(EMPTY, before);
      assert Run(EMPTY, events) == if Enabled(t, last) then Step(t, last) else t;
      hide Run, Inv, Enabled, Step, Advances;
      if Enabled(t, last) {
        StepAdvances(t, last);
        AdvancesOn(Run(EMPTY, events[..m]), t, Step(t, last));
      }
    }
  }

  /** An id is drawn once: the one a request draws was in no earlier state. */
  lemma IdsAreFresh(events: seq<Event>, m: nat, rq: Request)
    requires m <= |events|
    ensures var early, late := Run(EMPTY, events[..m]), Run(EMPTY, events);
            late.next !in early.jobs && late.next !in early.waiting && late.next !in late.jobs
            && late.next !in late.waiting && late.next in Step(late, Draw(rq)).waiting
  {
    RunInv(events);
    RunInv(events[..m]);
    StatusOnlyAdvances(events, m);
    hide Run, NoClash, AllInStep;
  }

  // ----- the code -----

  /** The shared table and the id counter; which requests wait and how far the workers
      are is recorded besides. */
  class Shared {
    var jobs: map<nat, Job>
    var next: nat
    ghost var waiting: map<nat, Request>
    ghost var workers: map<nat, Worker>

    ghost function Now(): Table
      reads this
    {
      Table(jobs, next, waiting, workers)
    }

    constructor ()
      ensures Now() == EMPTY
    {
      jobs, next, waiting, workers := map[], 1, map[], map[];
    }

    /** `NEXT_ID.fetch_add(1)`. */
    method DrawId(ghost rq: Request) returns (id: nat)
      modifies this
      ensures id == old(next) && Now() == Step(old(Now()), Draw(rq))
    {
      id := next;
      next := next + 1;
      waiting := waiting[id := rq];
    }

    /** The block of `handle_move_copy` under the lock: an existing job for the same
        work answers the request, and only if there is none the new job is inserted. */
    method Register(id: nat, rq: Request) returns (reply: Reply)
      requires rq.op != Delete && id in waiting && waiting[id] == rq
      modifies this
      ensures reply.Deduped? <==> HasDuplicate(old(jobs), rq)
      ensures reply.Deduped? ==>
                && Enabled(old(Now()), Dedupe(id, reply.id)) && Now() == Step(old(Now()), Dedupe(id, reply.id))
                && jobs == old(jobs)
      ensures reply.Started? ==>
                reply.id == id && Enabled(old(Now()), Insert(id)) && Now() == Step(old(Now()), Insert(id))
    {
      waiting := waiting - {id};
      if found: nat :| found in jobs && Duplicates(rq, jobs[found]) {
        return Deduped(found);
      }
      jobs := jobs[id := NewJob(rq.op, rq.src, rq.dst)];
      workers := workers[id := Spawned];
      reply := Started(id);
    }

    /** The delete handler inserts without looking. */
    method RegisterDelete(id: nat, src: string) returns (reply: Reply)
      requires id in waiting && waiting[id] == Request(Delete, src, [])
      modifies this
      ensures reply == Started(id)
      ensures Enabled(old(Now()), Insert(id)) && Now() == Step(old(Now()), Insert(id))
    {
      waiting := waiting - {id};
      jobs := jobs[id := NewJob(Delete, src, [])];
      workers := workers[id := Spawned];
      reply := Started(id);
    }

    /** `job_update`: what a worker does to its job is one of its steps, and a change to
        a job that is not in the table is dropped. */
    method JobUpdate(id: nat, f: Job -> Job, ghost e: Event)
      requires id in jobs ==> ChangedBy(Now(), id, f, e)
      modifies this
      ensures Now() == if id in old(jobs) then Step(old(Now()), e) else old(Now())
    {
      if id in jobs {
        workers := Step(Now(), e).workers;
        jobs := jobs[id := f(jobs[id])];
      }
    }
  }

  /** The step `e` of job `id`'s worker is what `f` does to its record. */
  ghost predicate ChangedBy(t: Table, id: nat, f: Job -> Job, e: Event) {
    && Enabled(t, e) && id in t.jobs
    && match e
       case Begin(i) => i == id && f(t.jobs[id]) == t.jobs[id].(status := Running)
       case Progress(i, job) => i == id && f(t.jobs[id]) == job
       case Finish(i, job) => i == id && f(t.jobs[id]) == job
       case _ => false
  }
}
