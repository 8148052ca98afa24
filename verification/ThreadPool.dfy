/**
 The work-stealing thread pool of base/threading.cc: any number of workers, submitting threads and the
 destructor, interleaved at the granularity of queue operations.
 */
module ThreadPools {
  /** What a queue holds: a job, or the null pointer that ends its worker. */
  datatype Entry = Job(id: int) | Pill

  /** A worker in one of the stages of its loop, `pos` counting the victims it has tried; or running a job; or ended. */
  datatype Worker = Seeks(stage: nat, pos: nat) | Runs(job: int) | Gone

  /**
   `handed` are the jobs of threads that have passed the test of should_stop_ but not pushed yet;
   `pills` counts the queues the destructor has pushed to, and `passed` those it has found empty in its
   last pass.  `accepted` and `ran` are what run_async took and what was run.
   */
  datatype Pool = Pool(
    queues: seq<seq<Entry>>, workers: seq<Worker>, orders: seq<seq<nat>>,
    stop: bool, pills: nat, joined: bool, passed: nat,
    handed: multiset<int>, accepted: multiset<int>, ran: multiset<int>)

  // ---- the order in which a worker steals

  predicate Permutation(order: seq<nat>, n: nat)
  {
    |order| == n && (forall i :: 0 <= i < n ==> order[i] < n) && forall i, j :: 0 <= i < j < n ==> order[i] != order[j]
  }

  /** The random order of the victims; `r` stands for the random numbers drawn. */
  method StealOrder(n: nat, r: seq<nat>) returns (order: array<nat>)
    requires |r| >= n && forall i :: 0 <= i < n ==> i <= r[i] < n
    ensures fresh(order) && Permutation(order[..], n)
  {
    order := new nat[n](i => i);
    for i := 0 to if n > 0 then n - 1 else 0
      invariant Permutation(order[..], n)
    {
      var j := r[i];
      if j != i {
        var t := order[j];
        order[j] := order[i];
        order[i] := t;
      }
    }
  }

  // ---- the steps

  /**
   A thread passes the test in run_async, and pushes its job; the destructor forbids more, pushes the
   next death pill, and goes on when all workers have ended; a worker makes one turn of its loop; the
   destructor makes one try_pop in its pass over the queues, and goes on to the next one when it fails.
   */
  datatype Step = Check(job: int) | Push(job: int, queue: nat) | Stop | PushPill | Turn(worker: nat) | Join | Drain

  predicate Fits(p: Pool)
  {
    |p.queues| == |p.workers| == |p.orders| && p.pills <= |p.queues| && p.passed <= |p.queues| &&
    forall i :: 0 <= i < |p.orders| ==> Permutation(p.orders[i], |p.queues|)
  }

  predicate Enabled(p: Pool, step: Step)
    requires Fits(p)
  {
    match step
    case Check(_) => !p.stop
    case Push(job, q) => job in p.handed && q < |p.queues|
    case Stop => !p.stop
    case PushPill => p.stop && p.pills < |p.queues|
    case Turn(i) => i < |p.workers| && !p.workers[i].Gone? && !Blocked(p, i)
    case Join => p.stop && !p.joined && p.pills == |p.queues| && forall i :: 0 <= i < |p.workers| ==> p.workers[i].Gone?
    case Drain => p.joined && p.passed < |p.queues|
  }

  /** The worker waits in pop. */
  predicate Blocked(p: Pool, i: nat)
    requires Fits(p) && i < |p.workers|
  {
    p.workers[i].Seeks? && p.workers[i].stage >= 4 && p.queues[i] == []
  }

  function Next(p: Pool, step: Step): Pool
    requires Fits(p) && Enabled(p, step)
  {
    match step
    case Check(job) => p.(handed := p.handed + multiset{job}, accepted := p.accepted + multiset{job})
    case Push(job, q) => p.(handed := p.handed - multiset{job}, queues := p.queues[q := p.queues[q] + [Job(job)]])
    case Stop => p.(stop := true)
    case PushPill => p.(queues := p.queues[p.pills := p.queues[p.pills] + [Pill]], pills := p.pills + 1)
    case Turn(i) => Turned(p, i)
    case Join => p.(joined := true)
    case Drain => Drained(p)
  }

  /** One try_pop of the destructor. */
  function Drained(p: Pool): Pool
    requires p.passed < |p.queues|
  {
    var q := p.passed;
    if p.queues[q] == [] then p.(passed := q + 1) else
    var popped := p.(queues := p.queues[q := p.queues[q][1..]]);
    match p.queues[q][0]
    case Job(j) => popped.(ran := popped.ran + multiset{j})
    case Pill => popped
  }

  /** The worker takes the front entry of queue `v`. */
  function Taken(p: Pool, i: nat, v: nat): Pool
    requires Fits(p) && i < |p.workers| && v < |p.queues| && p.queues[v] != []
  {
    p.(queues := p.queues[v := p.queues[v][1..]],
       workers := p.workers[i := match p.queues[v][0] case Job(j) => Runs(j) case Pill => Gone])
  }

  function Turned(p: Pool, i: nat): Pool
    requires Fits(p) && i < |p.workers| && !p.workers[i].Gone? && !Blocked(p, i)
  {
    match p.workers[i]
    case Runs(j) => p.(workers := p.workers[i := Seeks(0, 0)], ran := p.ran + multiset{j})
    case Seeks(stage, pos) =>
      if stage == 0 || stage == 2 then
        if p.queues[i] != [] then Taken(p, i, i) else p.(workers := p.workers[i := Seeks(stage + 1, 0)])
      else if stage == 1 then
        p.(workers := p.workers[i := Seeks(2, 0)])
      else if stage == 3 then
        if pos >= |p.queues| then p.(workers := p.workers[i := Seeks(4, 0)]) else
        var v := p.orders[i][pos];
        if v != i && p.queues[v] != [] && p.queues[v][0] != Pill then Taken(p, i, v)
        else p.(workers := p.workers[i := Seeks(3, pos + 1)])
      else
        Taken(p, i, i)
  }

  // ---- nothing is lost or repeated

  /** How often job `j` is in a queue. */
  function JobsIn(q: seq<Entry>, j: int): nat
  {
    if q == [] then 0 else JobsIn(q[1..], j) + if q[0] == Job(j) then 1 else 0
  }

  function Queued(queues: seq<seq<Entry>>, j: int): nat
  {
    if queues == [] then 0 else Queued(queues[..|queues| - 1], j) + JobsIn(queues[|queues| - 1], j)
  }

  function InHand(w: Worker, j: int): nat
  {
    if w == Runs(j) then 1 else 0
  }

  function Running(workers: seq<Worker>, j: int): nat
  {
    if workers == [] then 0 else Running(workers[..|workers| - 1], j) + InHand(workers[|workers| - 1], j)
  }

  lemma {:induction false} QueuedUpdate(queues: seq<seq<Entry>>, i: nat, q: seq<Entry>, j: int)
    requires i < |queues|
    ensures Queued(queues[i := q], j) + JobsIn(queues[i], j) == Queued(queues, j) + JobsIn(q, j)
  {
    var n := |queues| - 1;
    if i < n {
      QueuedUpdate(queues[..n], i, q, j);
      assert queues[i := q][..n] == queues[..n][i := q];
    } else {
      assert queues[i := q][..n] == queues[..n];
    }
  }

  lemma {:induction false} RunningUpdate(workers: seq<Worker>, i: nat, w: Worker, j: int)
    requires i < |workers|
    ensures Running(workers[i := w], j) + InHand(workers[i], j) == Running(workers, j) + InHand(w, j)
  {
    var n := |workers| - 1;
    if i < n {
      RunningUpdate(workers[..n], i, w, j);
      assert workers[i := w][..n] == workers[..n][i := w];
    } else {
      assert workers[i := w][..n] == workers[..n];
    }
  }

  lemma {:induction false} JobsPushed(q: seq<Entry>, e: Entry, j: int)
    ensures JobsIn(q + [e], j) == JobsIn(q, j) + if e == Job(j) then 1 else 0
  {
    if q == [] {
      assert q + [e] == [e] && [e][1..] == [];
    } else {
      JobsPushed(q[1..], e, j);
      assert (q + [e])[1..] == q[1..] + [e];
    }
  }

  /** Every accepted job is with its submitter, in a queue, in the hands of a worker, or has run; and it is so once. */
  predicate Accounted(p: Pool, j: int)
  {
    p.accepted[j] == p.handed[j] + Queued(p.queues, j) + Running(p.workers, j) + p.ran[j]
  }

  lemma Victim(p: Pool, i: nat, pos: nat)
    requires Fits(p) && i < |p.orders| && pos < |p.queues|
    ensures pos < |p.orders[i]| && p.orders[i][pos] < |p.queues|
  {
    assert Permutation(p.orders[i], |p.queues|);
  }

  lemma TurnAccounts(p: Pool, i: nat, j: int)
    requires Fits(p) && i < |p.workers| && !p.workers[i].Gone? && !Blocked(p, i) && Accounted(p, j)
    ensures Accounted(Turned(p, i), j)
  {
    hide Permutation, Queued, Running;
    RunningUpdate(p.workers, i, Turned(p, i).workers[i], j);
    if p.workers[i].Seeks? {
      var stage, pos := p.workers[i].stage, p.workers[i].pos;
      if stage != 3 {
        QueuedUpdate(p.queues, i, if p.queues[i] == [] then [] else p.queues[i][1..], j);
      } else if pos < |p.queues| {
        Victim(p, i, pos);
        var v := p.orders[i][pos];
        QueuedUpdate(p.queues, v, if p.queues[v] == [] then [] else p.queues[v][1..], j);
      }
    }
  }

  lemma StepAccounts(p: Pool, step: Step, j: int)
    requires Fits(p) && Enabled(p, step) && Accounted(p, j)
    ensures Accounted(Next(p, step), j)
  {
    hide Permutation, Queued, Running, Turned;
    match step {
      case Push(job, q) =>
        JobsPushed(p.queues[q], Job(job), j);
        QueuedUpdate(p.queues, q, p.queues[q] + [Job(job)], j);
      case PushPill =>
        JobsPushed(p.queues[p.pills], Pill, j);
        QueuedUpdate(p.queues, p.pills, p.queues[p.pills] + [Pill], j);
      case Turn(i) => TurnAccounts(p, i, j);
      case Drain =>
        var q := p.queues[p.passed];
        QueuedUpdate(p.queues, p.passed, if q == [] then [] else q[1..], j);
      case _ =>
    }
  }

  // ---- every worker gets its own pill, and only that

  function PillsIn(q: seq<Entry>): nat
  {
    if q == [] then 0 else PillsIn(q[1..]) + if q[0] == Pill then 1 else 0
  }

  lemma {:induction false} PillsPushed(q: seq<Entry>, e: Entry)
    ensures PillsIn(q + [e]) == PillsIn(q) + if e == Pill then 1 else 0
  {
    if q == [] {
      assert q + [e] == [e] && [e][1..] == [];
    } else {
      PillsPushed(q[1..], e);
      assert (q + [e])[1..] == q[1..] + [e];
    }
  }

  /** A pill that was pushed for worker `i` is in its queue or was taken by it; nobody else's is there. */
  predicate OwnPill(p: Pool, i: nat)
    requires Fits(p) && i < |p.queues|
  {
    PillsIn(p.queues[i]) + (if p.workers[i].Gone? then 1 else 0) == if i < p.pills then 1 else 0
  }

  ghost predicate OwnPills(p: Pool)
    requires Fits(p)
  {
    (p.pills > 0 ==> p.stop) && (p.joined ==> p.stop && p.pills == |p.queues|) && (!p.joined ==> p.passed == 0) && forall i :: 0 <= i < |p.queues| ==> if p.joined then p.workers[i].Gone? else OwnPill(p, i)
  }

  lemma StepFits(p: Pool, step: Step)
    requires Fits(p) && Enabled(p, step)
    ensures Fits(Next(p, step))
  {
    hide Permutation, Turned;
    if step.Turn? {
      TurnFits(p, step.worker);
    }
  }

  lemma TurnFits(p: Pool, i: nat)
    requires Fits(p) && i < |p.workers| && !p.workers[i].Gone? && !Blocked(p, i)
    ensures Fits(Turned(p, i))
  {
    hide Permutation;
    if p.workers[i].Seeks? && p.workers[i].pos < |p.queues| {
      Victim(p, i, p.workers[i].pos);
    }
  }

  /** Whoever takes an entry takes no pill but its own. */
  lemma TakenKeepsPills(p: Pool, i: nat, v: nat, k: nat)
    requires Fits(p) && i < |p.workers| && !p.workers[i].Gone? && OwnPill(p, i) && k < |p.queues| && OwnPill(p, k)
    requires v < |p.queues| && p.queues[v] != [] && (v == i || p.queues[v][0] != Pill)
    ensures Fits(Taken(p, i, v)) && OwnPill(Taken(p, i, v), k)
  {
    hide Permutation;
  }

  lemma TurnKeepsPills(p: Pool, i: nat, k: nat)
    requires Fits(p) && i < |p.workers| && !p.workers[i].Gone? && !Blocked(p, i) && OwnPill(p, i)
    requires k < |p.queues| && OwnPill(p, k)
    ensures Fits(Turned(p, i)) && OwnPill(Turned(p, i), k)
  {
    hide Permutation, PillsIn, Taken;
    if p.workers[i].Seeks? {
      var stage, pos := p.workers[i].stage, p.workers[i].pos;
      if stage == 3 {
        if pos < |p.queues| {
          Victim(p, i, pos);
          var v := p.orders[i][pos];
          if v != i && p.queues[v] != [] && p.queues[v][0] != Pill {
            TakenKeepsPills(p, i, v, k);
          }
        }
      } else if stage != 1 && p.queues[i] != [] {
        TakenKeepsPills(p, i, i, k);
      }
    }
  }

  lemma StepKeepsPills(p: Pool, step: Step)
    requires Fits(p) && Enabled(p, step) && OwnPills(p)
    ensures Fits(Next(p, step)) && OwnPills(Next(p, step))
  {
    hide Permutation, PillsIn, Turned;
    StepFits(p, step);
    match step {
      case Push(job, q) => PillsPushed(p.queues[q], Job(job));
      case PushPill => PillsPushed(p.queues[p.pills], Pill);
      case Turn(i) =>
        TurnLeaves(p, i);
        forall k | 0 <= k < |p.queues|
          ensures OwnPill(Turned(p, i), k)
        {
          assert OwnPill(p, i) && OwnPill(p, k);
          TurnKeepsPills(p, i, k);
        }
      case _ =>
    }
  }

  lemma TurnLeaves(p: Pool, i: nat)
    requires Fits(p) && i < |p.workers| && !p.workers[i].Gone? && !Blocked(p, i)
    ensures var v := Turned(p, i);
      |v.queues| == |p.queues| && v.pills == p.pills && v.stop == p.stop && v.joined == p.joined && v.passed == p.passed
  {
  }

  /** A worker whose pill is on its way never waits for an entry. */
  lemma NeverStuck(p: Pool, i: nat)
    requires Fits(p) && OwnPills(p) && i < p.pills && !p.workers[i].Gone?
    ensures !Blocked(p, i) && Enabled(p, Turn(i))
  {
    assert p.joined || OwnPill(p, i);
  }

  // ---- every worker ends

  /** How far a worker is from taking an entry. */
  function Rank(w: Worker, n: nat): nat
  {
    match w
    case Gone => 0
    case Runs(_) => n + 7
    case Seeks(stage, pos) =>
      if stage == 0 then n + 6 else if stage == 1 then n + 5 else if stage == 2 then n + 4
      else if stage == 3 then (if pos < n then n - pos else 0) + 2 else 1
  }

  function Ranks(workers: seq<Worker>, n: nat): nat
  {
    if workers == [] then 0 else Ranks(workers[..|workers| - 1], n) + Rank(workers[|workers| - 1], n)
  }

  function Entries(queues: seq<seq<Entry>>): nat
  {
    if queues == [] then 0 else Entries(queues[..|queues| - 1]) + |queues[|queues| - 1]|
  }

  lemma {:induction false} RanksUpdate(workers: seq<Worker>, n: nat, i: nat, w: Worker)
    requires i < |workers|
    ensures Ranks(workers[i := w], n) + Rank(workers[i], n) == Ranks(workers, n) + Rank(w, n)
  {
    var m := |workers| - 1;
    if i < m {
      RanksUpdate(workers[..m], n, i, w);
      assert workers[i := w][..m] == workers[..m][i := w];
    } else {
      assert workers[i := w][..m] == workers[..m];
    }
  }

  lemma {:induction false} EntriesUpdate(queues: seq<seq<Entry>>, i: nat, q: seq<Entry>)
    requires i < |queues|
    ensures Entries(queues[i := q]) + |queues[i]| == Entries(queues) + |q|
  {
    var n := |queues| - 1;
    if i < n {
      EntriesUpdate(queues[..n], i, q);
      assert queues[i := q][..n] == queues[..n][i := q];
    } else {
      assert queues[i := q][..n] == queues[..n];
    }
  }

  /** Either an entry is taken, or the worker that made the turn has come closer to taking one. */
  lemma TurnProgresses(p: Pool, i: nat)
    requires Fits(p) && i < |p.workers| && !p.workers[i].Gone? && !Blocked(p, i)
    ensures var p', n := Turned(p, i), |p.queues|;
      Entries(p'.queues) < Entries(p.queues) || (p'.queues == p.queues && Ranks(p'.workers, n) < Ranks(p.workers, n))
  {
    hide Permutation, Ranks, Entries;
    var p', n := Turned(p, i), |p.queues|;
    RanksUpdate(p.workers, n, i, p'.workers[i]);
    if p.workers[i].Seeks? {
      var stage, pos := p.workers[i].stage, p.workers[i].pos;
      if (stage == 0 || stage == 2 || stage >= 4) && p.queues[i] != [] {
        EntriesUpdate(p.queues, i, p.queues[i][1..]);
      } else if stage == 3 && pos < n && (Victim(p, i, pos); p.queues[p.orders[i][pos]] != []) {
        EntriesUpdate(p.queues, p.orders[i][pos], p.queues[p.orders[i][pos]][1..]);
      }
    }
  }

  // ---- whole runs

  function Start(orders: seq<seq<nat>>): Pool
  {
    var n := |orders|;
    Pool(seq(n, _ => []), seq(n, _ => Seeks(0, 0)), orders, false, 0, false, 0, multiset{}, multiset{}, multiset{})
  }

  ghost predicate Inv(p: Pool)
  {
    Fits(p) && OwnPills(p) && forall j :: Accounted(p, j)
  }

  predicate Orders(orders: seq<seq<nat>>)
  {
    forall i :: 0 <= i < |orders| ==> Permutation(orders[i], |orders|)
  }

  lemma {:induction false} NoneQueued(queues: seq<seq<Entry>>, j: int)
    requires forall i :: 0 <= i < |queues| ==> queues[i] == []
    ensures Queued(queues, j) == 0
  {
    if queues != [] {
      NoneQueued(queues[..|queues| - 1], j);
    }
  }

  lemma {:induction false} NoneRunning(workers: seq<Worker>, j: int)
    requires forall i :: 0 <= i < |workers| ==> !workers[i].Runs?
    ensures Running(workers, j) == 0
  {
    if workers != [] {
      NoneRunning(workers[..|workers| - 1], j);
    }
  }

  lemma StartInv(orders: seq<seq<nat>>)
    requires Orders(orders)
    ensures Inv(Start(orders))
  {
    hide Permutation, Queued, Running;
    var p := Start(orders);
    forall j
      ensures Accounted(p, j)
    {
      NoneQueued(p.queues, j);
      NoneRunning(p.workers, j);
    }
  }

  lemma StepKeeps(p: Pool, step: Step)
    requires Inv(p) && Enabled(p, step)
    ensures Inv(Next(p, step))
  {
    hide Accounted, Next, Permutation, OwnPills, Enabled;
    StepKeepsPills(p, step);
    forall j
      ensures Accounted(Next(p, step), j)
    {
      StepAccounts(p, step, j);
    }
  }

  /** The states an interleaving can lead to. */
  ghost predicate Reachable(p: Pool, steps: seq<Step>, q: Pool)
    decreases |steps|
  {
    if steps == [] then p == q else
    exists m :: Reachable(p, steps[..|steps| - 1], m) && Fits(m) && Enabled(m, steps[|steps| - 1]) && Next(m, steps[|steps| - 1]) == q
  }

  /** Every reachable state meets the invariant. */
  lemma {:induction false} Safety(orders: seq<seq<nat>>, steps: seq<Step>, p: Pool)
    requires Orders(orders) && Reachable(Start(orders), steps, p)
    ensures Inv(p)
    decreases |steps|
  {
    hide Inv, Next, Enabled, Fits;
    if steps == [] {
      StartInv(orders);
    } else {
      var front, step := steps[..|steps| - 1], steps[|steps| - 1];
      var m :| Reachable(Start(orders), front, m) && Fits(m) && Enabled(m, step) && Next(m, step) == p;
      Safety(orders, front, m);
      StepKeeps(m, step);
    }
  }

  /** The jobs that run_async took. */
  function Submitted(steps: seq<Step>): multiset<int>
  {
    if steps == [] then multiset{} else
    Submitted(steps[..|steps| - 1]) + if steps[|steps| - 1].Check? then multiset{steps[|steps| - 1].job} else multiset{}
  }

  lemma {:induction false} AcceptedAre(orders: seq<seq<nat>>, steps: seq<Step>, p: Pool)
    requires Reachable(Start(orders), steps, p)
    ensures p.accepted == Submitted(steps)
    decreases |steps|
  {
    hide Next, Enabled, Fits;
    if steps != [] {
      var front, step := steps[..|steps| - 1], steps[|steps| - 1];
      var m :| Reachable(Start(orders), front, m) && Fits(m) && Enabled(m, step) && Next(m, step) == p;
      AcceptedAre(orders, front, m);
      AcceptStep(m, step);
    }
  }

  lemma AcceptStep(p: Pool, step: Step)
    requires Fits(p) && Enabled(p, step)
    ensures Next(p, step).accepted == p.accepted + if step.Check? then multiset{step.job} else multiset{}
  {
    hide Permutation;
  }

  // ---- what the destructor leaves behind

  lemma {:induction false} OneOutcome(start: Pool, steps: seq<Step>, p: Pool, q: Pool)
    requires Reachable(start, steps, p) && Reachable(start, steps, q)
    ensures p == q
    decreases |steps|
  {
    hide Next, Enabled, Fits;
    if steps != [] {
      var front, step := steps[..|steps| - 1], steps[|steps| - 1];
      var m :| Reachable(start, front, m) && Fits(m) && Enabled(m, step) && Next(m, step) == p;
      var n :| Reachable(start, front, n) && Fits(n) && Enabled(n, step) && Next(n, step) == q;
      OneOutcome(start, front, m, n);
    }
  }

  /** Step `i` pushes a job to a queue that the destructor has passed already. */
  ghost predicate Missed(start: Pool, steps: seq<Step>, i: nat)
  {
    i < |steps| && steps[i].Push? && exists m :: Reachable(start, steps[..i], m) && steps[i].queue < m.passed
  }

  /** Something is in a queue that the destructor will not look at again. */
  ghost predicate Left(p: Pool)
    requires Fits(p)
  {
    exists q :: 0 <= q < p.passed && p.queues[q] != []
  }

  /** Only jobs can be there. */
  ghost predicate OnlyJobs(p: Pool)
    requires Fits(p)
  {
    forall q, e :: 0 <= q < p.passed && e in p.queues[q] ==> e.Job?
  }

  lemma LeftStep(p: Pool, step: Step)
    requires Fits(p) && OwnPills(p) && Enabled(p, step)
    ensures Fits(Next(p, step)) && (Left(Next(p, step)) <==> Left(p) || (step.Push? && step.queue < p.passed))
    ensures OnlyJobs(p) ==> OnlyJobs(Next(p, step))
  {
    hide Permutation, PillsIn, Turned;
    StepFits(p, step);
    match step {
      case Push(job, q) =>
        var p' := Next(p, step);
        assert forall k :: 0 <= k < p.passed && k != q ==> p'.queues[k] == p.queues[k];
        assert p'.queues[q] != [];
      case Turn(i) => TurnLeaves(p, i);
      case Drain =>
        var p' := Next(p, step);
        assert forall k :: 0 <= k < p.passed ==> p'.queues[k] == p.queues[k];
        assert p'.passed > p.passed ==> p'.queues[p.passed] == [];
      case _ =>
    }
  }

  lemma {:induction false} LeftMeans(orders: seq<seq<nat>>, steps: seq<Step>, p: Pool)
    requires Orders(orders) && Reachable(Start(orders), steps, p)
    ensures Inv(p) && OnlyJobs(p) && (Left(p) <==> exists i :: Missed(Start(orders), steps, i))
    decreases |steps|
  {
    hide Permutation, Next, Enabled, Fits, OwnPills, Accounted, Left, OnlyJobs;
    Safety(orders, steps, p);
    if steps == [] {
      NothingAtStart(orders);
    } else {
      var front, step := steps[..|steps| - 1], steps[|steps| - 1];
      var m :| Reachable(Start(orders), front, m) && Fits(m) && Enabled(m, step) && Next(m, step) == p;
      LeftMeans(orders, front, m);
      LeftStep(m, step);
      MissedBefore(Start(orders), steps);
      MissedLast(Start(orders), steps, m);
      if i :| Missed(Start(orders), front, i) {
        assert Missed(Start(orders), steps, i);
      }
    }
  }

  lemma NothingAtStart(orders: seq<seq<nat>>)
    requires Orders(orders)
    ensures Fits(Start(orders)) && !Left(Start(orders)) && OnlyJobs(Start(orders))
  {
  }

  lemma MissedBefore(start: Pool, steps: seq<Step>)
    requires steps != []
    ensures forall i :: 0 <= i < |steps| - 1 ==> (Missed(start, steps, i) <==> Missed(start, steps[..|steps| - 1], i))
  {
    hide Reachable;
    var front := steps[..|steps| - 1];
    forall i | 0 <= i < |front|
      ensures Missed(start, steps, i) <==> Missed(start, front, i)
    {
      assert steps[..i] == front[..i];
    }
  }

  lemma MissedLast(start: Pool, steps: seq<Step>, m: Pool)
    requires steps != [] && Reachable(start, steps[..|steps| - 1], m)
    ensures Missed(start, steps, |steps| - 1) <==> steps[|steps| - 1].Push? && steps[|steps| - 1].queue < m.passed
  {
    hide Reachable;
    if Missed(start, steps, |steps| - 1) {
      var n :| Reachable(start, steps[..|steps| - 1], n) && steps[|steps| - 1].queue < n.passed;
      OneOutcome(start, steps[..|steps| - 1], m, n);
    }
  }

  /** The destructor has been through all queues. */
  predicate Finished(p: Pool)
  {
    p.joined && p.passed == |p.queues|
  }

  /** When the pass is over, what ran is what was accepted unless something is left in a queue. */
  lemma AllRun(p: Pool)
    requires Inv(p) && OnlyJobs(p) && Finished(p) && p.handed == multiset{}
    ensures p.ran == p.accepted <==> !Left(p)
  {
    hide Permutation, Queued, Running;
    forall j
      ensures p.accepted[j] == Queued(p.queues, j) + p.ran[j]
    {
      assert Accounted(p, j);
      NoneRunning(p.workers, j);
    }
    if Left(p) {
      var q :| 0 <= q < p.passed && p.queues[q] != [];
      assert p.queues[q][0] in p.queues[q];
      SomeQueued(p.queues, q);
      assert p.accepted[p.queues[q][0].id] > p.ran[p.queues[q][0].id];
    } else {
      forall j
        ensures p.ran[j] == p.accepted[j]
      {
        NoneQueued(p.queues, j);
      }
    }
  }

  lemma {:induction false} SomeQueued(queues: seq<seq<Entry>>, q: nat)
    requires q < |queues| && queues[q] != [] && queues[q][0].Job?
    ensures Queued(queues, queues[q][0].id) > 0
  {
    if q < |queues| - 1 {
      SomeQueued(queues[..|queues| - 1], q);
    }
  }

  /**
   The exact condition: when the destructor is done and no submission is under way, what ran is what was
   accepted, with the same multiplicities, if and only if no job was pushed to a queue it had passed.
   */
  lemma JobsMissed(orders: seq<seq<nat>>, steps: seq<Step>, p: Pool)
    requires Orders(orders) && Reachable(Start(orders), steps, p) && Finished(p) && p.handed == multiset{}
    ensures p.ran == Submitted(steps) <==> !exists i :: Missed(Start(orders), steps, i)
  {
    hide Reachable, Missed, Inv, Left, OnlyJobs;
    AcceptedAre(orders, steps, p);
    LeftMeans(orders, steps, p);
    AllRun(p);
  }

  /**
   Every job exactly once, if at some moment between the stop and the destructor's last pass no submission
   was under way.
   */
  lemma EveryJobOnce(orders: seq<seq<nat>>, steps: seq<Step>, k: nat, m: Pool, p: Pool)
    requires Orders(orders) && k <= |steps| && Reachable(Start(orders), steps[..k], m) && Reachable(Start(orders), steps, p)
    requires m.stop && m.passed == 0 && m.handed == multiset{} && Finished(p)
    ensures p.ran == Submitted(steps)
  {
    hide Reachable, Inv, Left, OnlyJobs;
    AcceptedAre(orders, steps, p);
    Quiet(orders, steps, k, m, p);
    LeftMeans(orders, steps, p);
    AllRun(p);
  }

  lemma {:induction false} Quiet(orders: seq<seq<nat>>, steps: seq<Step>, k: nat, m: Pool, p: Pool)
    requires Orders(orders) && k <= |steps| && Reachable(Start(orders), steps[..k], m) && Reachable(Start(orders), steps, p)
    requires m.stop && m.passed == 0 && m.handed == multiset{}
    ensures Inv(p) && p.stop && p.handed == multiset{} && !Left(p)
    decreases |steps|
  {
    hide Permutation, Next, Enabled, Fits, OwnPills, Accounted, Left;
    Safety(orders, steps, p);
    if k == |steps| {
      assert steps[..k] == steps;
      OneOutcome(Start(orders), steps, m, p);
      NonePassed(p);
    } else {
      var front, step := steps[..|steps| - 1], steps[|steps| - 1];
      var n :| Reachable(Start(orders), front, n) && Fits(n) && Enabled(n, step) && Next(n, step) == p;
      assert front[..k] == steps[..k];
      Quiet(orders, front, k, m, n);
      LeftStep(n, step);
      QuietStep(n, step);
    }
  }

  lemma NonePassed(p: Pool)
    requires Fits(p) && p.passed == 0
    ensures !Left(p)
  {
  }

  lemma QuietStep(p: Pool, step: Step)
    requires Fits(p) && Enabled(p, step) && p.stop && p.handed == multiset{}
    ensures Next(p, step).stop && Next(p, step).handed == multiset{} && !step.Push?
  {
    hide Permutation;
  }

  /** A job can be lost: a thread passes the test, the destructor runs to its end, and only then the job is pushed. */
  lemma LostJob()
    ensures exists p ::
      Reachable(Start([[0]]), [Check(7), Stop, PushPill, Turn(0), Join, Drain, Push(7, 0)], p) &&
      Finished(p) && p.handed == multiset{} && p.accepted == multiset{7} && p.ran == multiset{}
  {
    var p0 := Start([[0]]);
    var p1 := p0.(handed := multiset{7}, accepted := multiset{7});
    var p2 := p1.(stop := true);
    var p3 := p2.(queues := [[Pill]], pills := 1);
    var p4 := p3.(queues := [[]], workers := [Gone]);
    var p5 := p4.(joined := true);
    var p6 := p5.(passed := 1);
    var p7 := p6.(queues := [[Job(7)]], handed := multiset{});
    LostBefore(p0, p1, p2, p3, p4);
    LostAfter(p4, p5, p6, p7);
    hide Reachable, Next, Enabled, Fits, Start;
    Trace([Check(7), Stop, PushPill, Turn(0), Join, Drain, Push(7, 0)], [p0, p1, p2, p3, p4, p5, p6, p7]);
  }

  lemma {:induction false} Trace(steps: seq<Step>, states: seq<Pool>)
    requires |states| == |steps| + 1
    requires forall i :: 0 <= i < |steps| ==> Fits(states[i]) && Enabled(states[i], steps[i]) && Next(states[i], steps[i]) == states[i + 1]
    ensures Reachable(states[0], steps, states[|steps|])
  {
    hide Next, Enabled, Fits;
    if steps != [] {
      Trace(steps[..|steps| - 1], states[..|steps|]);
    }
  }

  /** The steps of `LostJob`, one by one. */
  lemma LostBefore(p0: Pool, p1: Pool, p2: Pool, p3: Pool, p4: Pool)
    requires p0 == Start([[0]]) && p1 == p0.(handed := multiset{7}, accepted := multiset{7}) && p2 == p1.(stop := true)
    requires p3 == p2.(queues := [[Pill]], pills := 1) && p4 == p3.(queues := [[]], workers := [Gone])
    ensures Fits(p0) && Enabled(p0, Check(7)) && Next(p0, Check(7)) == p1
    ensures Fits(p1) && Enabled(p1, Stop) && Next(p1, Stop) == p2
    ensures Fits(p2) && Enabled(p2, PushPill) && Next(p2, PushPill) == p3
    ensures Fits(p3) && Enabled(p3, Turn(0)) && Next(p3, Turn(0)) == p4
    ensures p4 == Pool([[]], [Gone], [[0]], true, 1, false, 0, multiset{7}, multiset{7}, multiset{})
  {
    assert p0.orders == [[0]] && Permutation([0], 1);
    hide Permutation;
    assert p0.queues == [[]] && p0.workers == [Seeks(0, 0)];
    assert [] + [Pill] == [Pill] && [Pill][1..] == [];
    assert p3.queues[0 := []] == [[]] && p3.workers[0 := Gone] == [Gone];
  }

  lemma LostAfter(p4: Pool, p5: Pool, p6: Pool, p7: Pool)
    requires p4 == Pool([[]], [Gone], [[0]], true, 1, false, 0, multiset{7}, multiset{7}, multiset{})
    requires p5 == p4.(joined := true) && p6 == p5.(passed := 1) && p7 == p6.(queues := [[Job(7)]], handed := multiset{})
    ensures Fits(p4) && Enabled(p4, Join) && Next(p4, Join) == p5
    ensures Fits(p5) && Enabled(p5, Drain) && Next(p5, Drain) == p6
    ensures Fits(p6) && Enabled(p6, Push(7, 0)) && Next(p6, Push(7, 0)) == p7
  {
    assert Permutation([0], 1);
    hide Permutation, Turned;
    assert [] + [Job(7)] == [Job(7)] && p6.queues[0 := [Job(7)]] == [[Job(7)]];
  }

  // ---- the destructor returns

  /**
   More than the number of steps that can still be made without new submissions: entries to take, jobs
   and pills to push, the stages of the workers, the stop, the join and the queues to pass.
   */
  function Potential(p: Pool): nat
    requires Fits(p)
  {
    Ahead(p) * (|p.queues| + 8) + Ranks(p.workers, |p.queues|) + (if p.stop then 0 else 1) + (if p.joined then 0 else 1) + |p.queues| - p.passed
  }

  /** The entries to take; one that is still to be pushed counts twice. */
  function Ahead(p: Pool): nat
    requires Fits(p)
  {
    Entries(p.queues) + 2 * (|p.handed| + |p.queues| - p.pills)
  }

  lemma LessTimes(a: nat, b: nat, k: nat)
    requires a < b
    ensures a * k + k <= b * k
  {
    var d := b - a - 1;
    assert b * k == a * k + k + d * k;
  }

  lemma {:induction false} TurnCosts(p: Pool, i: nat)
    requires Fits(p) && i < |p.workers| && !p.workers[i].Gone? && !Blocked(p, i)
    ensures Fits(Turned(p, i)) && |Turned(p, i).queues| == |p.queues| && Potential(Turned(p, i)) < Potential(p)
  {
    hide Permutation, Ranks, Entries;
    var p', n := Turned(p, i), |p.queues|;
    StepFits(p, Turn(i));
    TurnLeaves(p, i);
    TurnProgresses(p, i);
    RanksUpdate(p.workers, n, i, p'.workers[i]);
    OneChanges(p, i);
    if Entries(p'.queues) < Entries(p.queues) {
      LessTimes(Ahead(p'), Ahead(p), n + 8);
    }
  }

  lemma OneChanges(p: Pool, i: nat)
    requires Fits(p) && i < |p.workers| && !p.workers[i].Gone? && !Blocked(p, i)
    ensures |Turned(p, i).workers| == |p.workers| && Turned(p, i).workers == p.workers[i := Turned(p, i).workers[i]]
    ensures Turned(p, i).handed == p.handed && Turned(p, i).passed == p.passed
  {
  }

  lemma StepCosts(p: Pool, step: Step)
    requires Fits(p) && Enabled(p, step) && !step.Check?
    ensures Fits(Next(p, step)) && Potential(Next(p, step)) < Potential(p)
  {
    hide Permutation, Ranks, Entries, Turned;
    StepFits(p, step);
    var q, n := Next(p, step), |p.queues|;
    match step {
      case Push(job, k) => EntriesUpdate(p.queues, k, p.queues[k] + [Job(job)]);
      case PushPill => EntriesUpdate(p.queues, p.pills, p.queues[p.pills] + [Pill]);
      case Turn(i) => TurnCosts(p, i);
      case Drain =>
        if p.queues[p.passed] != [] {
          EntriesUpdate(p.queues, p.passed, p.queues[p.passed][1..]);
        }
      case _ =>
    }
    if step.Push? || step.PushPill? || (step.Drain? && p.queues[p.passed] != []) {
      LessTimes(Ahead(q), Ahead(p), n + 8);
    }
  }

  /** However workers, submitting threads and the destructor are scheduled, they make only so many steps unless more is submitted. */
  lemma {:induction false} StepsEnd(p: Pool, steps: seq<Step>, q: Pool)
    requires Fits(p) && Reachable(p, steps, q) && forall i :: 0 <= i < |steps| ==> !steps[i].Check?
    ensures Fits(q) && |steps| + Potential(q) <= Potential(p)
    decreases |steps|
  {
    hide Potential, Next, Fits, Enabled;
    if steps != [] {
      var front, step := steps[..|steps| - 1], steps[|steps| - 1];
      var m :| Reachable(p, front, m) && Fits(m) && Enabled(m, step) && Next(m, step) == q;
      StepsEnd(p, front, m);
      StepCosts(m, step);
    }
  }

  /** Once all pills are out, the turns only end when every worker has ended: none is left waiting in pop. */
  lemma WorkersEnd(p: Pool)
    requires Inv(p) && p.pills == |p.queues| && forall i :: 0 <= i < |p.workers| ==> !Enabled(p, Turn(i))
    ensures forall i :: 0 <= i < |p.workers| ==> p.workers[i].Gone?
  {
    hide Permutation, Accounted;
    forall i | 0 <= i < |p.workers| && !p.workers[i].Gone?
      ensures false
    {
      NeverStuck(p, i);
    }
  }

  ghost predicate Stuck(p: Pool)
  {
    Fits(p) && forall step: Step :: !Enabled(p, step)
  }

  /**
   After the stop the steps only end when the destructor is done: it has joined every worker and been
   through all queues, no submission is under way, and what ran is what was accepted unless a job was
   pushed too late.
   */
  lemma NothingLeft(orders: seq<seq<nat>>, steps: seq<Step>, p: Pool)
    requires Orders(orders) && Reachable(Start(orders), steps, p)
    requires p.stop && p.queues != [] && Stuck(p)
    ensures Finished(p) && p.handed == multiset{}
    ensures p.ran == Submitted(steps) <==> !exists i :: Missed(Start(orders), steps, i)
  {
    hide Permutation, Accounted, Missed, Reachable;
    Safety(orders, steps, p);
    assert !Enabled(p, PushPill);
    WorkersEnd(p);
    assert !Enabled(p, Join) && !Enabled(p, Drain);
    forall job
      ensures job !in p.handed
    {
      assert !Enabled(p, Push(job, 0));
    }
    assert p.handed == multiset{};
    JobsMissed(orders, steps, p);
  }

  // ---- the code of the pool, one atomic step at a time

  class ThreadPool {
    const n: nat
    const orders: seq<seq<nat>>
    var queues: seq<seq<Entry>>
    var shouldStop: bool
    var roundRobin: nat

    /** Where each worker stands in its loop, and what has happened. */
    ghost var state: Pool

    ghost predicate Valid()
      reads this
    {
      Fits(state) && state.queues == queues && state.orders == orders && |queues| == n && state.stop == shouldStop
    }

    constructor (orders: seq<seq<nat>>)
      requires Orders(orders)
      ensures Valid() && state == Start(orders)
    {
      n, this.orders := |orders|, orders;
      queues, shouldStop, roundRobin := seq(|orders|, _ => []), false, 0;
      state := Start(orders);
    }

    // ---- Queue

    method PushBack(q: nat, e: Entry)
      requires q < |queues|
      modifies this`queues
      ensures queues == old(queues[q := queues[q] + [e]])
    {
      queues := queues[q := queues[q] + [e]];
    }

    method TryPop(q: nat) returns (ok: bool, e: Entry)
      requires q < |queues|
      modifies this`queues
      ensures ok <==> old(queues[q]) != []
      ensures if ok then e == old(queues[q][0]) && queues == old(queues[q := queues[q][1..]]) else queues == old(queues)
    {
      ok, e := false, Pill;
      if queues[q] != [] {
        ok, e := true, queues[q][0];
        queues := queues[q := queues[q][1..]];
      }
    }

    method TryPopButIgnore(q: nat, ignore: Entry) returns (ok: bool, e: Entry)
      requires q < |queues|
      modifies this`queues
      ensures ok <==> old(queues[q]) != [] && old(queues[q][0]) != ignore
      ensures if ok then e == old(queues[q][0]) && queues == old(queues[q := queues[q][1..]]) else queues == old(queues)
    {
      ok, e := false, Pill;
      if queues[q] != [] && queues[q][0] != ignore {
        ok, e := true, queues[q][0];
        queues := queues[q := queues[q][1..]];
      }
    }

    /** `pop`, which returns once there is an entry. */
    method Pop(q: nat) returns (e: Entry)
      requires q < |queues| && queues[q] != []
      modifies this`queues
      ensures e == old(queues[q][0]) && queues == old(queues[q := queues[q][1..]])
    {
      e := queues[q][0];
      queues := queues[q := queues[q][1..]];
    }

    // ---- run_async

    /** The test of should_stop_: EPERM, or the choice of a queue; `channel` is negative for any. */
    method Accept(job: int, channel: int) returns (ok: bool, queue: nat)
      requires Valid() && n > 0
      modifies this`state, this`roundRobin
      ensures Valid() && ok == !shouldStop && queue < n
      ensures ok ==> queue == if channel >= 0 then channel % n else old(roundRobin) % n
      ensures roundRobin == if ok && channel < 0 then old(roundRobin) + 1 else old(roundRobin)
      ensures state == if ok then Next(old(state), Check(job)) else old(state)
    {
      queue := 0;
      ok := !shouldStop;
      if ok {
        if channel >= 0 {
          queue := channel % n;
        } else {
          queue := roundRobin % n;
          roundRobin := roundRobin + 1;
        }
        state := Next(state, Check(job));
      }
    }

    method Submit(job: int, queue: nat)
      requires Valid() && job in state.handed && queue < n
      modifies this`state, this`queues
      ensures Valid() && state == Next(old(state), Push(job, queue))
    {
      hide Permutation;
      PushBack(queue, Job(job));
      state := Next(state, Push(job, queue));
    }

    // ---- run_thread

    /** One round of the worker's loop that looks for an entry; stage and victim are its local variables. */
    method Seek(id: nat, stage: nat, pos: nat) returns (worker: Worker)
      requires Valid() && id < n && state.workers[id] == Seeks(stage, pos) && !Blocked(state, id)
      modifies this`state, this`queues
      ensures Valid() && state == Next(old(state), Turn(id)) && worker == state.workers[id]
    {
      hide Permutation;
      var ok, e := false, Pill;
      var stage', pos' := stage + 1, 0;
      if stage == 0 || stage == 2 {
        ok, e := TryPop(id);
      } else if stage == 1 {
      } else if stage == 3 {
        if pos < n {
          Victim(state, id, pos);
          if orders[id][pos] != id {
            ok, e := TryPopButIgnore(orders[id][pos], Pill);
          }
          stage', pos' := 3, pos + 1;
        }
      } else {
        ok := true;
        e := Pop(id);
      }
      worker := if !ok then Seeks(stage', pos') else if e.Job? then Runs(e.id) else Gone;
      StepFits(state, Turn(id));
      state := Next(state, Turn(id));
    }

    // ---- the destructor

    /** One round of the loop that pushes the death pills. */
    method PushDeathPill(i: nat)
      requires Valid() && shouldStop && i == state.pills < n
      modifies this`state, this`queues
      ensures Valid() && state == Next(old(state), PushPill)
    {
      hide Permutation;
      PushBack(i, Pill);
      state := Next(state, PushPill);
    }

    /** The final check for jobs that are left over, when nobody else pushes: runs them all, and drops the pills. */
    method DrainAll()
      requires Valid() && state.joined && state.passed == 0
      modifies this`state, this`queues
      ensures Valid() && Finished(state) && state.handed == old(state.handed) && state.accepted == old(state.accepted)
      ensures forall i :: 0 <= i < n ==> queues[i] == []
      ensures Inv(old(state)) ==> Inv(state)
    {
      hide Permutation, Inv;
      for i := 0 to n
        invariant Valid() && state.joined && state.passed == i
        invariant state.handed == old(state.handed) && state.accepted == old(state.accepted)
        invariant forall k :: 0 <= k < i ==> queues[k] == []
        invariant Inv(old(state)) ==> Inv(state)
      {
        var ok, e := TryPopAndRun(i);
        while ok
          invariant Valid() && state.joined && state.passed == if ok then i else i + 1
          invariant state.handed == old(state.handed) && state.accepted == old(state.accepted)
          invariant forall k :: 0 <= k < i ==> queues[k] == []
          invariant !ok ==> queues[i] == []
          invariant Inv(old(state)) ==> Inv(state)
          decreases ok, |queues[i]|
        {
          ok, e := TryPopAndRun(i);
        }
      }
    }

    method TryPopAndRun(i: nat) returns (ok: bool, e: Entry)
      requires Valid() && state.joined && i == state.passed < n
      modifies this`state, this`queues
      ensures ok <==> old(queues[i]) != []
      ensures Valid() && state == Next(old(state), Drain)
      ensures Inv(old(state)) ==> Inv(state)
    {
      hide Permutation;
      ok, e := TryPop(i);
      if Inv(state) {
        StepKeeps(state, Drain);
      }
      state := Next(state, Drain);
    }
  }
}
