/**
 The deferred runner of base/threading.cc: one worker, any number of submitting threads and the
 destructor, interleaved where the mutex is taken and should_stop_ is read.
 */
module RunLaters {
  /** An entry of the priority queue; the pointer is 0 for the death pill. */
  datatype Item = Item(due: real, ptr: nat)

  /** The death pill. */
  const PILL := Item(0.0, 0)

  /** std::greater on pairs puts the earliest deadline first, and the lower address among equal ones. */
  predicate Before(a: Item, b: Item)
  {
    a.due < b.due || (a.due == b.due && a.ptr <= b.ptr)
  }

  /** The priority queue, as the list of its entries from the top on. */
  predicate Sorted(jobs: seq<Item>)
  {
    forall i, j :: 0 <= i < j < |jobs| ==> Before(jobs[i], jobs[j])
  }

  function Insert(jobs: seq<Item>, x: Item): (r: seq<Item>)
    ensures |r| == |jobs| + 1
  {
    if jobs == [] || Before(x, jobs[0]) then [x] + jobs else [jobs[0]] + Insert(jobs[1..], x)
  }

  lemma {:induction false} InsertMembers(jobs: seq<Item>, x: Item)
    ensures forall y :: y in Insert(jobs, x) <==> y in jobs || y == x
  {
    if jobs != [] && !Before(x, jobs[0]) {
      InsertMembers(jobs[1..], x);
      assert jobs == [jobs[0]] + jobs[1..];
    }
  }

  lemma {:induction false} InsertCounts(jobs: seq<Item>, x: Item)
    ensures multiset(Insert(jobs, x)) == multiset(jobs) + multiset{x}
  {
    if jobs != [] && !Before(x, jobs[0]) {
      InsertCounts(jobs[1..], x);
      assert jobs == [jobs[0]] + jobs[1..];
    }
  }

  lemma {:induction false} InsertSorted(jobs: seq<Item>, x: Item)
    requires Sorted(jobs)
    ensures Sorted(Insert(jobs, x))
  {
    if jobs != [] && !Before(x, jobs[0]) {
      InsertSorted(jobs[1..], x);
      InsertMembers(jobs[1..], x);
      var rest := Insert(jobs[1..], x);
      forall k | 0 <= k < |rest|
        ensures Before(jobs[0], rest[k])
      {
        assert rest[k] in rest;
      }
    }
  }

  /**
   Where the worker stands: about to test should_stop_, about to try a job, waiting for an insertion or
   for a deadline; and the same in the second loop, which ends on an empty queue.
   */
  datatype Place = Testing | Trying | WaitingEmpty | WaitingDue | Checking | Draining | DrainingDue | Ended

  /** A job that was run, and when. */
  datatype Run = Run(item: Item, at: real)

  /**
   `handed` are the jobs of threads that have passed the test in run_later; `pills` counts the death
   pill once it has been pushed.
   */
  datatype State = State(
    jobs: seq<Item>, stop: bool, pills: nat, now: real, place: Place,
    handed: multiset<Item>, accepted: multiset<Item>, ran: seq<Run>)

  const START := State([], false, 0, 1.0, Testing, multiset{}, multiset{}, [])

  /**
   The clock advances; a thread passes the test in run_later; it pushes its job; the destructor forbids
   more; it pushes the death pill; the worker goes on; a waiting worker wakes up, for whatever reason.
   */
  datatype Step = Tick(t: real) | Check(sec: real, ptr: nat) | Push(item: Item) | Stop | PushPill | Work | Wake

  predicate Enabled(s: State, step: Step)
  {
    match step
    case Tick(t) => s.now <= t
    case Check(_, ptr) => !s.stop && ptr > 0
    case Push(item) => item in s.handed
    case Stop => !s.stop
    case PushPill => s.stop && s.pills == 0
    case Work => s.place in {Testing, Trying, Checking, Draining}
    case Wake => s.place in {WaitingEmpty, WaitingDue, DrainingDue}
  }

  function Next(s: State, step: Step): State
    requires Enabled(s, step)
  {
    match step
    case Tick(t) => s.(now := t)
    case Check(sec, ptr) =>
      var item := Item(if sec > 0.0 then s.now + sec else s.now, ptr);
      s.(handed := s.handed + multiset{item}, accepted := s.accepted + multiset{item})
    case Push(item) => s.(handed := s.handed - multiset{item}, jobs := Insert(s.jobs, item))
    case Stop => s.(stop := true)
    case PushPill => s.(pills := 1, jobs := Insert(s.jobs, PILL))
    case Work => Worked(s)
    case Wake => s.(place := if s.place == DrainingDue then Checking else Testing)
  }

  function Worked(s: State): State
    requires s.place in {Testing, Trying, Checking, Draining}
  {
    match s.place
    case Testing => s.(place := if s.stop then Checking else Trying)
    case Trying => TryOneJob(s, Testing, WaitingDue)
    case Checking => s.(place := if s.jobs == [] then Ended else Draining)
    case Draining => TryOneJob(s, Checking, DrainingDue)
  }

  /** Runs the top job if its time has come, drops the pill, or starts to wait. */
  function TryOneJob(s: State, back: Place, wait: Place): State
  {
    if s.jobs == [] then
      s.(place := WaitingEmpty)
    else
      var top := s.jobs[0];
      if top.due - s.now < 0.0 then
        if top.ptr == 0 then s.(jobs := s.jobs[1..], place := back)
        else s.(jobs := s.jobs[1..], ran := s.ran + [Run(top, s.now)], place := back)
      else
        s.(place := wait)
  }

  // ---- what every step keeps

  /** How often an item was run. */
  function Times(runs: seq<Run>, x: Item): nat
  {
    if runs == [] then 0 else Times(runs[..|runs| - 1], x) + if runs[|runs| - 1].item == x then 1 else 0
  }

  /** The queue is in order, and the only null pointer in it is the pill. */
  ghost predicate Ordered(jobs: seq<Item>)
  {
    Sorted(jobs) && (forall i :: 0 <= i < |jobs| && jobs[i].ptr == 0 ==> jobs[i] == PILL)
  }

  ghost predicate Queue(s: State)
  {
    Ordered(s.jobs)
  }

  /** Every accepted job is with its submitter, in the queue, or has run; and it is so once. */
  predicate Accounted(s: State, x: Item)
  {
    s.accepted[x] == s.handed[x] + multiset(s.jobs)[x] + Times(s.ran, x)
  }

  /** No job has run before its deadline, and the pill is not run. */
  ghost predicate InTime(s: State)
  {
    s.now > 0.0 && forall i :: 0 <= i < |s.ran| ==> s.ran[i].item.due < s.ran[i].at <= s.now && s.ran[i].item.ptr > 0
  }

  /** How shutdown proceeds; in particular the pill stays in the queue until the worker looks at should_stop_ again. */
  ghost predicate Shutdown(s: State)
  {
    (s.pills > 0 ==> s.stop) && (s.pills > 0 && s.place in {Trying, WaitingEmpty} ==> PILL in s.jobs) &&
    (s.place in {Checking, Draining, DrainingDue, Ended} ==> s.stop) && (s.place == Draining ==> s.jobs != [])
  }

  ghost predicate Inv(s: State)
  {
    Queue(s) && (forall x: Item :: x.ptr > 0 ==> Accounted(s, x)) && InTime(s) && Shutdown(s) && HandedJobs(s)
  }

  ghost predicate HandedJobs(s: State)
  {
    forall x :: x in s.handed ==> x.ptr > 0
  }

  lemma TimesSnoc(runs: seq<Run>, r: Run, x: Item)
    ensures Times(runs + [r], x) == Times(runs, x) + if r.item == x then 1 else 0
  {
    assert (runs + [r])[..|runs|] == runs;
  }

  lemma TryAccounts(s: State, back: Place, wait: Place, x: Item)
    requires Accounted(s, x) && x.ptr > 0
    ensures Accounted(TryOneJob(s, back, wait), x)
  {
    hide Times, Accounted;
    if s.jobs != [] {
      PopAccounts(s, x);
    }
    SameAccounts(s, x);
  }

  lemma SameAccounts(s: State, x: Item)
    requires Accounted(s, x)
    ensures forall p: Place :: Accounted(s.(place := p), x)
  {
    hide Times;
  }

  lemma PopAccounts(s: State, x: Item)
    requires Accounted(s, x) && x.ptr > 0 && s.jobs != []
    ensures var top := s.jobs[0];
      forall p: Place :: Accounted(
        if top.ptr == 0 then s.(jobs := s.jobs[1..], place := p)
        else s.(jobs := s.jobs[1..], ran := s.ran + [Run(top, s.now)], place := p), x)
  {
    hide Times;
    assert s.jobs == [s.jobs[0]] + s.jobs[1..];
    TimesSnoc(s.ran, Run(s.jobs[0], s.now), x);
  }

  lemma TakenOver(handed: multiset<Item>, item: Item, x: Item)
    requires item in handed
    ensures (handed - multiset{item})[x] + (if item == x then 1 else 0) == handed[x]
  {
  }

  lemma WorkAccounts(s: State, x: Item)
    requires Enabled(s, Work) && Accounted(s, x) && x.ptr > 0
    ensures Accounted(Worked(s), x)
  {
    hide Times, TryOneJob;
    TryAccounts(s, Testing, WaitingDue, x);
    TryAccounts(s, Checking, DrainingDue, x);
  }

  lemma StepAccounts(s: State, step: Step, x: Item)
    requires Enabled(s, step) && Accounted(s, x) && x.ptr > 0
    ensures Accounted(Next(s, step), x)
  {
    hide Times, Insert, Worked;
    match step {
      case Push(item) =>
        InsertCounts(s.jobs, item);
        TakenOver(s.handed, item, x);
      case PushPill => InsertCounts(s.jobs, PILL);
      case Work => WorkAccounts(s, x);
      case _ =>
    }
  }

  lemma StepKeepsQueue(s: State, step: Step)
    requires Enabled(s, step) && Queue(s) && HandedJobs(s)
    ensures Queue(Next(s, step))
  {
    hide Insert, Ordered, TryOneJob;
    match step {
      case Push(item) => QueueAfterInsert(s.jobs, item);
      case PushPill => QueueAfterInsert(s.jobs, PILL);
      case Work =>
        QueueAfterTry(s, Testing, WaitingDue);
        QueueAfterTry(s, Checking, DrainingDue);
      case _ =>
    }
  }

  lemma QueueAfterTry(s: State, back: Place, wait: Place)
    requires Queue(s)
    ensures Queue(TryOneJob(s, back, wait))
  {
    hide Ordered;
    if s.jobs != [] {
      QueueAfterPop(s.jobs);
    }
  }

  lemma QueueAfterPop(jobs: seq<Item>)
    requires Ordered(jobs) && jobs != []
    ensures Ordered(jobs[1..])
  {
    hide Before;
  }

  lemma StepKeepsHanded(s: State, step: Step)
    requires Enabled(s, step) && HandedJobs(s)
    ensures HandedJobs(Next(s, step))
  {
    hide Insert;
  }

  lemma QueueAfterInsert(jobs: seq<Item>, x: Item)
    requires Ordered(jobs) && (x.ptr == 0 ==> x == PILL)
    ensures Ordered(Insert(jobs, x))
  {
    InsertSorted(jobs, x);
    InsertMembers(jobs, x);
    var r := Insert(jobs, x);
    forall i | 0 <= i < |r| && r[i].ptr == 0
      ensures r[i] == PILL
    {
      assert r[i] in r;
    }
  }

  lemma StepKeepsTime(s: State, step: Step)
    requires Enabled(s, step) && InTime(s)
    ensures InTime(Next(s, step))
  {
    hide Insert;
  }

  lemma StepKeepsShutdown(s: State, step: Step)
    requires Enabled(s, step) && Shutdown(s)
    ensures Shutdown(Next(s, step))
  {
    hide Insert;
    match step {
      case Push(item) => InsertMembers(s.jobs, item);
      case PushPill => InsertMembers(s.jobs, PILL);
      case _ =>
    }
  }

  lemma StepKeeps(s: State, step: Step)
    requires Inv(s) && Enabled(s, step)
    ensures Inv(Next(s, step))
  {
    hide Queue, Accounted, InTime, Shutdown, HandedJobs, Next, Enabled;
    StepKeepsQueue(s, step);
    StepKeepsHanded(s, step);
    StepKeepsTime(s, step);
    StepKeepsShutdown(s, step);
    forall x: Item | x.ptr > 0
      ensures Accounted(Next(s, step), x)
    {
      StepAccounts(s, step, x);
    }
  }

  /** The states an interleaving can lead to; in an orderly one no submission is under way at the stop. */
  ghost predicate Reachable(steps: seq<Step>, orderly: bool, s: State)
    decreases |steps|
  {
    if steps == [] then s == START else
    exists m :: Reachable(steps[..|steps| - 1], orderly, m) && Enabled(m, steps[|steps| - 1]) &&
      (orderly && steps[|steps| - 1] == Stop ==> m.handed == multiset{}) && Next(m, steps[|steps| - 1]) == s
  }

  lemma StartInv()
    ensures Inv(START)
  {
  }

  lemma {:induction false} Safety(steps: seq<Step>, orderly: bool, s: State)
    requires Reachable(steps, orderly, s)
    ensures Inv(s) && (orderly && s.stop ==> s.handed == multiset{})
    decreases |steps|
  {
    hide Inv, Next, Enabled;
    if steps == [] {
      StartInv();
    } else {
      var front, step := steps[..|steps| - 1], steps[|steps| - 1];
      var m :| Reachable(front, orderly, m) && Enabled(m, step) && (orderly && step == Stop ==> m.handed == multiset{}) && Next(m, step) == s;
      Safety(front, orderly, m);
      StepKeeps(m, step);
      if m.handed == multiset{} && (m.stop || step == Stop) {
        QuietStep(m, step);
      }
      StopStep(m, step);
    }
  }

  lemma StopStep(s: State, step: Step)
    requires Enabled(s, step)
    ensures Next(s, step).stop <==> s.stop || step == Stop
  {
    hide Insert;
  }

  /** After the stop nothing new is handed over. */
  lemma QuietStep(s: State, step: Step)
    requires Enabled(s, step) && s.handed == multiset{} && (s.stop || step == Stop)
    ensures Next(s, step).handed == multiset{}
  {
    hide Insert;
  }

  // ---- what it means

  /** What the clock shows after these steps. */
  function Clock(steps: seq<Step>): real
  {
    if steps == [] then 1.0 else
    var step := steps[|steps| - 1];
    if step.Tick? then step.t else Clock(steps[..|steps| - 1])
  }

  /** A call of run_later at the time `now` asks for this: the delay counts from there, and one that is not positive as none. */
  predicate Asks(now: real, step: Step, x: Item)
  {
    step.Check? && step.ptr == x.ptr && x.due >= now && x.due >= now + step.sec && (x.due == now || x.due == now + step.sec)
  }

  /** How many of the calls in a run ask for this. */
  function Calls(steps: seq<Step>, x: Item): nat
  {
    if steps == [] then 0 else
    var front, step := steps[..|steps| - 1], steps[|steps| - 1];
    Calls(front, x) + if Asks(Clock(front), step, x) then 1 else 0
  }

  /** What is accepted is exactly what the calls ask for. */
  lemma {:induction false} AcceptedAre(steps: seq<Step>, orderly: bool, s: State, x: Item)
    requires Reachable(steps, orderly, s)
    ensures s.now == Clock(steps) && s.accepted[x] == Calls(steps, x)
    decreases |steps|
  {
    hide Insert;
    if steps != [] {
      var front, step := steps[..|steps| - 1], steps[|steps| - 1];
      var m :| Reachable(front, orderly, m) && Enabled(m, step) && (orderly && step == Stop ==> m.handed == multiset{}) && Next(m, step) == s;
      AcceptedAre(front, orderly, m, x);
      CallStep(m, step, x);
    }
  }

  lemma CallStep(s: State, step: Step, x: Item)
    requires Enabled(s, step)
    ensures Next(s, step).accepted[x] == s.accepted[x] + if Asks(s.now, step, x) then 1 else 0
    ensures Next(s, step).now == if step.Tick? then step.t else s.now
  {
    hide Insert;
  }

  /** A call at step `k` asked for what was run, which is later than that call by more than the delay. */
  predicate AskedFor(steps: seq<Step>, k: nat, r: Run)
  {
    k < |steps| && steps[k].Check? && steps[k].ptr == r.item.ptr &&
    var asked := Clock(steps[..k]); r.at > asked && r.at > asked + steps[k].sec
  }

  lemma {:induction false} CallBehind(steps: seq<Step>, r: Run)
    requires Calls(steps, r.item) > 0 && r.item.due < r.at
    ensures exists k: nat :: AskedFor(steps, k, r)
  {
    var front, step := steps[..|steps| - 1], steps[|steps| - 1];
    if Asks(Clock(front), step, r.item) {
      assert AskedFor(steps, |front|, r);
    } else {
      CallBehind(front, r);
      var k: nat :| AskedFor(front, k, r);
      assert front[..k] == steps[..k];
      assert AskedFor(steps, k, r);
    }
  }

  /**
   In every run, whatever runs was asked for, by a call that lies back by more than the delay it gave; and
   nothing runs more often than there are calls that ask for it.
   */
  lemma NeverEarlyNeverTwice(steps: seq<Step>, s: State)
    requires Reachable(steps, false, s)
    ensures forall r <- s.ran :: exists k: nat :: AskedFor(steps, k, r)
    ensures forall x: Item :: x.ptr > 0 ==> Times(s.ran, x) <= Calls(steps, x)
  {
    hide Accounted, AskedFor, Calls;
    Safety(steps, false, s);
    forall x: Item | x.ptr > 0
      ensures Times(s.ran, x) <= Calls(steps, x)
    {
      AtMostAccepted(s, x);
      AcceptedAre(steps, false, s, x);
    }
    forall r | r in s.ran
      ensures exists k: nat :: AskedFor(steps, k, r)
    {
      RanOnce(s.ran, r);
      CallBehind(steps, r);
    }
  }

  lemma AtMostAccepted(s: State, x: Item)
    requires Accounted(s, x)
    ensures Times(s.ran, x) <= s.accepted[x]
  {
  }

  lemma {:induction false} RanOnce(runs: seq<Run>, r: Run)
    requires r in runs
    ensures Times(runs, r.item) > 0
  {
    if runs[|runs| - 1] != r {
      RanOnce(runs[..|runs| - 1], r);
    }
  }

  /** The job that runs is one with the earliest deadline among those in the queue. */
  lemma EarliestFirst(s: State, step: Step)
    requires Inv(s) && Enabled(s, step) && Next(s, step).ran != s.ran
    ensures |Next(s, step).ran| == |s.ran| + 1
    ensures var item := Next(s, step).ran[|s.ran|].item;
      item in s.jobs && forall x :: x in s.jobs ==> item.due <= x.due
  {
  }

  /** Once the pill has been pushed the worker never waits on an empty queue. */
  lemma NeverStuck(steps: seq<Step>, s: State)
    requires Reachable(steps, false, s) && s.pills > 0
    ensures s.place == WaitingEmpty ==> s.jobs != []
  {
    Safety(steps, false, s);
  }

  /** Every job exactly once: if no submission was under way at the stop, every call's job has run when the worker has ended. */
  lemma EveryJobOnce(steps: seq<Step>, s: State)
    requires Reachable(steps, true, s) && s.place == Ended
    ensures forall x: Item :: x.ptr > 0 ==> Times(s.ran, x) == Calls(steps, x)
    ensures s.jobs == [] || s.jobs == [PILL]
  {
    hide Reachable, Queue, InTime;
    Safety(steps, true, s);
    EndsEmpty(steps, s);
    forall x: Item | x.ptr > 0
      ensures Times(s.ran, x) == Calls(steps, x)
    {
      AcceptedAre(steps, true, s, x);
      assert s.stop;
      assert s.handed == multiset{};
      assert multiset([PILL])[x] == 0;
      assert Accounted(s, x);
    }
  }

  /** Once the worker has ended nothing but the pill is left. */
  lemma {:induction false} EndsEmpty(steps: seq<Step>, s: State)
    requires Reachable(steps, true, s) && s.place == Ended
    ensures (s.pills == 0 ==> s.jobs == []) && (s.jobs == [] || s.jobs == [PILL])
    decreases |steps|
  {
    hide Inv, Next, Enabled;
    if steps != [] {
      var front, step := steps[..|steps| - 1], steps[|steps| - 1];
      var m :| Reachable(front, true, m) && Enabled(m, step) && (step == Stop ==> m.handed == multiset{}) && Next(m, step) == s;
      Safety(front, true, m);
      StopsAtEnd(m);
      if m.place == Ended {
        EndsEmpty(front, m);
      }
      EndStep(m, step);
    }
  }

  lemma EndStep(s: State, step: Step)
    requires Enabled(s, step) && Next(s, step).place == Ended && (s.place == Ended ==> s.stop && s.handed == multiset{})
    requires s.place == Ended ==> (s.pills == 0 ==> s.jobs == []) && (s.jobs == [] || s.jobs == [PILL])
    ensures var t := Next(s, step);
      (t.pills == 0 ==> t.jobs == []) && (t.jobs == [] || t.jobs == [PILL])
  {
    assert [PILL] + [] == [PILL];
  }

  lemma StopsAtEnd(s: State)
    requires Inv(s)
    ensures s.place == Ended ==> s.stop
  {
  }

  lemma {:induction false} OneOutcome(steps: seq<Step>, orderly: bool, s: State, t: State)
    requires Reachable(steps, orderly, s) && Reachable(steps, orderly, t)
    ensures s == t
    decreases |steps|
  {
    hide Next, Enabled;
    if steps != [] {
      var front, step := steps[..|steps| - 1], steps[|steps| - 1];
      var m :| Reachable(front, orderly, m) && Enabled(m, step) && (orderly && step == Stop ==> m.handed == multiset{}) && Next(m, step) == s;
      var n :| Reachable(front, orderly, n) && Enabled(n, step) && (orderly && step == Stop ==> n.handed == multiset{}) && Next(n, step) == t;
      OneOutcome(front, orderly, m, n);
    }
  }

  /** Step `i` pushes the pill when the worker has ended already. */
  ghost predicate Late(steps: seq<Step>, i: nat)
  {
    i < |steps| && steps[i] == PushPill && exists m :: Reachable(steps[..i], true, m) && m.place == Ended
  }

  /**
   The queue need not be empty in the end: the pill stays in it if and only if it was pushed after the
   worker had ended, which it may do between the two statements of the destructor.
   */
  lemma PillLeft(steps: seq<Step>, s: State)
    requires Reachable(steps, true, s) && s.place == Ended
    ensures s.jobs == [PILL] <==> exists i :: Late(steps, i)
  {
    LateMeans(steps, s);
  }

  lemma {:induction false} LateMeans(steps: seq<Step>, s: State)
    requires Reachable(steps, true, s)
    ensures (exists i :: Late(steps, i)) <==> s.place == Ended && s.jobs == [PILL]
    decreases |steps|
  {
    hide Inv, Next, Enabled;
    if steps != [] {
      var front, step := steps[..|steps| - 1], steps[|steps| - 1];
      var m :| Reachable(front, true, m) && Enabled(m, step) && (step == Stop ==> m.handed == multiset{}) && Next(m, step) == s;
      Safety(front, true, m);
      StopsAtEnd(m);
      LateMeans(front, m);
      if m.place == Ended {
        EndsEmpty(front, m);
      }
      LateStep(m, step);
      forall i | 0 <= i < |front|
        ensures Late(steps, i) <==> Late(front, i)
      {
        assert steps[..i] == front[..i];
      }
      assert steps[..|front|] == front;
      assert Late(steps, |front|) <==> step == PushPill && m.place == Ended by {
        if Late(steps, |front|) {
          var n :| Reachable(front, true, n) && n.place == Ended;
          OneOutcome(front, true, m, n);
        }
      }
    }
  }

  lemma LateStep(s: State, step: Step)
    requires Enabled(s, step) && (s.place == Ended ==> s.stop && s.handed == multiset{} && (s.pills == 0 ==> s.jobs == []))
    ensures var t := Next(s, step);
      t.place == Ended && t.jobs == [PILL] <==> s.place == Ended && (s.jobs == [PILL] || step == PushPill)
  {
  }

  lemma PillLeftOver()
    ensures exists s :: Reachable([Stop, Work, Work, PushPill], true, s) && s.place == Ended && s.jobs == [PILL]
  {
    var s1 := START.(stop := true);
    var s2, s3 := s1.(place := Checking), s1.(place := Ended);
    var s4 := s3.(pills := 1, jobs := [PILL]);
    assert [PILL] + [] == [PILL];
    assert [Stop][..0] == [] && [Stop, Work][..1] == [Stop] && [Stop, Work, Work][..2] == [Stop, Work];
    assert [Stop, Work, Work, PushPill][..3] == [Stop, Work, Work];
    assert Reachable([], true, START);
    assert Next(START, Stop) == s1 && Reachable([Stop], true, s1);
    assert Next(s1, Work) == s2 && Reachable([Stop, Work], true, s2);
    assert Next(s2, Work) == s3 && Reachable([Stop, Work, Work], true, s3);
    assert Next(s3, PushPill) == s4 && Reachable([Stop, Work, Work, PushPill], true, s4);
  }

  /** Step `i` pushes a job when the worker has ended already. */
  ghost predicate Missed(steps: seq<Step>, i: nat)
  {
    i < |steps| && steps[i].Push? && exists m :: Reachable(steps[..i], false, m) && m.place == Ended
  }

  ghost predicate HoldsJob(jobs: seq<Item>)
  {
    exists x :: x in jobs && x.ptr > 0
  }

  /**
   In any run, orderly or not: when the worker has ended and no thread is between the two halves of
   run_later any more, every accepted job has run once, if and only if none was pushed after that end.
   */
  lemma JobsMissed(steps: seq<Step>, s: State)
    requires Reachable(steps, false, s) && s.place == Ended && s.handed == multiset{}
    ensures (forall x: Item :: x.ptr > 0 ==> Times(s.ran, x) == s.accepted[x]) <==> !exists i :: Missed(steps, i)
  {
    hide Reachable, Queue, InTime, Shutdown, Times;
    Safety(steps, false, s);
    MissedMeans(steps, s);
    assert forall x: Item :: x.ptr > 0 ==> Accounted(s, x);
    forall x: Item | x.ptr > 0
      ensures Times(s.ran, x) == s.accepted[x] <==> x !in s.jobs
    {
      assert Accounted(s, x);
      assert x in s.jobs <==> x in multiset(s.jobs);
    }
  }

  lemma {:induction false} MissedMeans(steps: seq<Step>, s: State)
    requires Reachable(steps, false, s)
    ensures (exists i :: Missed(steps, i)) <==> s.place == Ended && HoldsJob(s.jobs)
    decreases |steps|
  {
    hide Inv, Next, Enabled, HoldsJob;
    if steps != [] {
      var front, step := steps[..|steps| - 1], steps[|steps| - 1];
      var m :| Reachable(front, false, m) && Enabled(m, step) && Next(m, step) == s;
      Safety(front, false, m);
      MissedMeans(front, m);
      MissStep(m, step);
      MissedBefore(steps);
      MissedLast(steps, m);
      if i :| Missed(front, i) {
        assert Missed(steps, i);
      }
    }
  }

  lemma MissedBefore(steps: seq<Step>)
    requires steps != []
    ensures forall i :: 0 <= i < |steps| - 1 ==> (Missed(steps, i) <==> Missed(steps[..|steps| - 1], i))
  {
    hide Reachable;
    var front := steps[..|steps| - 1];
    forall i | 0 <= i < |front|
      ensures Missed(steps, i) <==> Missed(front, i)
    {
      assert steps[..i] == front[..i];
    }
  }

  lemma MissedLast(steps: seq<Step>, m: State)
    requires steps != [] && Reachable(steps[..|steps| - 1], false, m)
    ensures Missed(steps, |steps| - 1) <==> steps[|steps| - 1].Push? && m.place == Ended
  {
    hide Reachable;
    if Missed(steps, |steps| - 1) {
      var n :| Reachable(steps[..|steps| - 1], false, n) && n.place == Ended;
      OneOutcome(steps[..|steps| - 1], false, m, n);
    }
  }

  lemma MissStep(s: State, step: Step)
    requires Inv(s) && Enabled(s, step)
    ensures var t := Next(s, step);
      t.place == Ended && HoldsJob(t.jobs) <==> s.place == Ended && (HoldsJob(s.jobs) || step.Push?)
  {
    hide Insert, Queue, Accounted, InTime, Shutdown;
    match step {
      case Push(item) => InsertMembers(s.jobs, item);
      case PushPill => InsertMembers(s.jobs, PILL);
      case _ =>
    }
  }

  /** Step `j` finds the queue empty when it tries a job, and since then nothing was pushed and nobody woke the worker. */
  ghost predicate FoundEmpty(steps: seq<Step>, orderly: bool, j: nat)
  {
    j < |steps| && steps[j] == Work &&
    (exists m :: Reachable(steps[..j], orderly, m) && m.place == Trying && m.jobs == []) &&
    forall k :: j < k < |steps| ==> !steps[k].Push? && !steps[k].PushPill? && !steps[k].Wake?
  }

  /**
   The worker waits on an empty queue if and only if its last try found it empty and nothing has happened
   to either since, whether or not the destructor has already forbidden more; only the pill rules it out.
   */
  lemma {:induction false} WaitsOnEmpty(steps: seq<Step>, orderly: bool, s: State)
    requires Reachable(steps, orderly, s)
    ensures s.place == WaitingEmpty && s.jobs == [] <==> exists j :: FoundEmpty(steps, orderly, j)
    decreases |steps|
  {
    hide Inv, Next, Enabled;
    if steps != [] {
      var front, step := steps[..|steps| - 1], steps[|steps| - 1];
      var m :| Reachable(front, orderly, m) && Enabled(m, step) && (orderly && step == Stop ==> m.handed == multiset{}) && Next(m, step) == s;
      Safety(front, orderly, m);
      WaitsOnEmpty(front, orderly, m);
      hide FoundEmpty;
      WaitStep(m, step);
      FoundBefore(steps, orderly);
      FoundLast(steps, orderly, m);
    }
  }

  lemma FoundBefore(steps: seq<Step>, orderly: bool)
    requires steps != []
    ensures var front, step := steps[..|steps| - 1], steps[|steps| - 1];
      forall j :: 0 <= j < |front| ==>
        (FoundEmpty(steps, orderly, j) <==> FoundEmpty(front, orderly, j) && !step.Push? && !step.PushPill? && !step.Wake?)
  {
    hide Reachable;
    var front, step := steps[..|steps| - 1], steps[|steps| - 1];
    forall j | 0 <= j < |front|
      ensures FoundEmpty(steps, orderly, j) <==> FoundEmpty(front, orderly, j) && !step.Push? && !step.PushPill? && !step.Wake?
    {
      assert steps[..j] == front[..j];
    }
  }

  lemma FoundLast(steps: seq<Step>, orderly: bool, m: State)
    requires steps != [] && Reachable(steps[..|steps| - 1], orderly, m)
    ensures FoundEmpty(steps, orderly, |steps| - 1) <==> steps[|steps| - 1] == Work && m.place == Trying && m.jobs == []
  {
    hide Reachable;
    if FoundEmpty(steps, orderly, |steps| - 1) {
      var n :| Reachable(steps[..|steps| - 1], orderly, n) && n.place == Trying && n.jobs == [];
      OneOutcome(steps[..|steps| - 1], orderly, m, n);
    }
  }

  lemma WaitStep(s: State, step: Step)
    requires Inv(s) && Enabled(s, step)
    ensures var t := Next(s, step);
      t.place == WaitingEmpty && t.jobs == [] <==>
      (step == Work && s.place == Trying && s.jobs == []) ||
      (s.place == WaitingEmpty && s.jobs == [] && !step.Push? && !step.PushPill? && !step.Wake?)
  {
    hide Queue, Accounted, InTime, HandedJobs, Insert;
  }

  /** It can do so after the stop: if it tested should_stop_ before. */
  lemma WaitsAfterStop()
    ensures exists s :: Reachable([Work, Stop, Work], true, s) && s.stop && s.place == WaitingEmpty && s.jobs == []
  {
    var s1 := START.(place := Trying);
    var s2 := s1.(stop := true);
    var s3 := s2.(place := WaitingEmpty);
    assert [Work][..0] == [] && [Work, Stop][..1] == [Work] && [Work, Stop, Work][..2] == [Work, Stop];
    assert Reachable([], true, START);
    assert Next(START, Work) == s1 && Reachable([Work], true, s1);
    assert Next(s1, Stop) == s2 && Reachable([Work, Stop], true, s2);
    assert Next(s2, Work) == s3 && Reachable([Work, Stop, Work], true, s3);
  }

  // ---- the worker ends

  /** The clock has passed every deadline. */
  predicate Ripe(s: State)
  {
    (forall x :: x in s.jobs ==> x.due < s.now) && forall x :: x in s.handed ==> x.due < s.now
  }

  function Rank(p: Place): nat
  {
    match p
    case Ended => 0
    case Draining => 1
    case Checking => 2
    case DrainingDue => 3
    case Testing => 3
    case Trying => 4
    case WaitingEmpty => 4
    case WaitingDue => 4
  }

  /** What is still to be done: entries to take, jobs to push, and the way to the end of the second loop. */
  function Potential(s: State): nat
  {
    2 * |s.jobs| + 3 * |s.handed| + Rank(s.place)
  }

  lemma TurnSpends(s: State, step: Step)
    requires Inv(s) && s.pills > 0 && Ripe(s) && Enabled(s, step)
    ensures var t := Next(s, step); t.pills > 0 && Ripe(t) && Potential(t) + (if step.Tick? then 0 else 1) <= Potential(s)
  {
    hide Insert, Accounted, Queue, InTime, HandedJobs, Worked, Rank;
    match step {
      case Push(item) => InsertMembers(s.jobs, item);
      case Work => WorkSpends(s);
      case Wake => WakeSpends(s);
      case _ =>
    }
  }

  lemma WakeSpends(s: State)
    requires Enabled(s, Wake)
    ensures Rank(Next(s, Wake).place) < Rank(s.place)
  {
  }

  lemma WorkSpends(s: State)
    requires Shutdown(s) && s.pills > 0 && Ripe(s) && Enabled(s, Work)
    ensures var t := Worked(s);
      t == s.(jobs := t.jobs, ran := t.ran, place := t.place) && |t.jobs| <= |s.jobs| && (forall x :: x in t.jobs ==> x in s.jobs) &&
      2 * |t.jobs| + Rank(t.place) < 2 * |s.jobs| + Rank(s.place)
  {
    if s.place in {Trying, Draining} && s.jobs != [] {
      assert s.jobs[0] in s.jobs;
    }
  }

  /** A run from one state to another. */
  predicate Leads(s: State, steps: seq<Step>, t: State)
    decreases |steps|
  {
    if steps == [] then s == t else Enabled(s, steps[0]) && Leads(Next(s, steps[0]), steps[1..], t)
  }

  /** The steps other than the passing of time. */
  function Turns(steps: seq<Step>): nat
  {
    if steps == [] then 0 else Turns(steps[1..]) + if steps[0].Tick? then 0 else 1
  }

  /**
   Shutdown ends: once the pill has been pushed and the clock has passed every deadline, only so many
   steps are left, whatever threads that had passed the test still push; and as long as the worker has
   not ended it can go on.
   */
  lemma {:induction false} TurnsEnd(s: State, steps: seq<Step>, t: State)
    requires Inv(s) && s.pills > 0 && Ripe(s) && Leads(s, steps, t)
    ensures Turns(steps) + Potential(t) <= Potential(s)
    ensures t.place != Ended ==> Enabled(t, Work) || Enabled(t, Wake)
    decreases |steps|
  {
    hide Inv, Next, Potential, Ripe;
    if steps != [] {
      StepKeeps(s, steps[0]);
      TurnSpends(s, steps[0]);
      TurnsEnd(Next(s, steps[0]), steps[1..], t);
    }
  }

  // ---- the code

  class RunLater {
    /** jobs_, from the top on. */
    var jobs: seq<Item>
    var shouldStop: bool

    /** Where the worker stands, and what has happened. */
    ghost var state: State

    ghost predicate Valid()
      reads this
    {
      state.jobs == jobs && state.stop == shouldStop
    }

    constructor ()
      ensures Valid() && state == START
    {
      jobs, shouldStop := [], false;
      state := START;
    }

    /** The first half of run_later: the test of should_stop_, and the deadline. */
    method Accept(sec: real, now: real, ptr: nat) returns (ok: bool, item: Item)
      requires Valid() && now == state.now && ptr > 0
      modifies this`state
      ensures Valid() && ok == !shouldStop
      ensures ok ==> Enabled(old(state), Check(sec, ptr)) && state == Next(old(state), Check(sec, ptr)) && item in state.handed
      ensures Asks(now, Check(sec, ptr), item)
      ensures !ok ==> state == old(state)
    {
      ok := !shouldStop;
      var later := now;
      if sec > 0.0 {
        later := later + sec;
      }
      item := Item(later, ptr);
      if ok {
        state := Next(state, Check(sec, ptr));
      }
    }

    /** jobs_.push. */
    method PushJob(item: Item)
      modifies this`jobs
      ensures jobs == Insert(old(jobs), item)
    {
      jobs := Insert(jobs, item);
    }

    /** The second half of run_later. */
    method Submit(item: Item)
      requires Valid() && item in state.handed
      modifies this`state, this`jobs
      ensures Valid() && state == Next(old(state), Push(item))
    {
      PushJob(item);
      state := Next(state, Push(item));
    }

    /** `try_one_job`, up to where it starts to wait; `job` is what it runs, if it runs anything. */
    method TryOneJob(now: real) returns (job: nat)
      requires Valid() && now == state.now && state.place in {Trying, Draining}
      modifies this`state, this`jobs
      ensures Valid() && Enabled(old(state), Work) && state == Next(old(state), Work)
      ensures job > 0 <==> state.ran != old(state.ran)
      ensures job > 0 ==> old(jobs) != [] && job == old(jobs)[0].ptr && old(jobs)[0].due < now
    {
      job := 0;
      if jobs != [] {
        var wait := jobs[0].due - now;
        if wait < 0.0 {
          job := jobs[0].ptr;
          jobs := jobs[1..];
        }
      }
      state := Next(state, Work);
    }

    /** The test of the first loop, or the check for an empty queue of the second. */
    method LoopTest(first: bool) returns (more: bool)
      requires Valid() && state.place == if first then Testing else Checking
      modifies this`state
      ensures Valid() && Enabled(old(state), Work) && state == Next(old(state), Work)
      ensures more <==> state.place in {Trying, Draining}
    {
      more := if first then !shouldStop else jobs != [];
      state := Next(state, Work);
    }
  }
}
