/** What the workers of base/threading.cc take, and in which order: their own entries, other workers' jobs, and when they wait. */
module Stealing {
  import opened ThreadPools

  // ---- every victim is in the order

  lemma {:induction false} EveryVictim(order: seq<nat>, n: nat, v: nat)
    requires Permutation(order, n) && v < n
    ensures v in order
  {
    if v !in order {
      var s := set i | 0 <= i < n :: order[i];
      Injective(order, n);
      Bounded(s, n, v);
    }
  }

  lemma {:induction false} Injective(order: seq<nat>, k: nat)
    requires k <= |order| && forall i, j :: 0 <= i < j < k ==> order[i] != order[j]
    ensures |set i | 0 <= i < k :: order[i]| == k
  {
    if k > 0 {
      Injective(order, k - 1);
      assert (set i | 0 <= i < k :: order[i]) == (set i | 0 <= i < k - 1 :: order[i]) + {order[k - 1]};
    }
  }

  /** A set of numbers below `n` that lacks one of them has fewer than `n` elements. */
  lemma {:induction false} Bounded(s: set<nat>, n: nat, v: nat)
    requires (forall x :: x in s ==> x < n) && v < n && v !in s
    ensures |s| < n
  {
    if n - 1 == v {
      if v > 0 {
        Small(s, v);
      }
    } else {
      Bounded(s - {n - 1}, n - 1, v);
    }
  }

  lemma {:induction false} Small(s: set<nat>, n: nat)
    requires forall x :: x in s ==> x < n
    ensures |s| <= n
  {
    if n > 0 {
      Small(s - {n - 1}, n - 1);
    }
  }

  // ---- a worker that makes its turns alone

  /** A job is in front of queue `v`. */
  predicate Robbable(p: Pool, v: nat)
  {
    v < |p.queues| && p.queues[v] != [] && p.queues[v][0].Job?
  }

  /** At most `turns` turns of the worker, until it has an entry, or waits. */
  function Alone(p: Pool, i: nat, turns: nat): (q: Pool)
    requires Fits(p) && i < |p.workers|
    ensures Fits(q) && |q.workers| == |p.workers|
    decreases turns
  {
    if turns == 0 || !p.workers[i].Seeks? || Blocked(p, i) then p else
    TurnFits(p, i); TurnLeaves(p, i); Alone(Turned(p, i), i, turns - 1)
  }

  /** The first victims of the worker have nothing to steal. */
  predicate NothingAmong(p: Pool, i: nat, from: nat, to: nat)
    requires Fits(p) && i < |p.workers|
  {
    forall k :: from <= k < to && k < |p.orders[i]| && p.orders[i][k] != i ==> !Robbable(p, p.orders[i][k])
  }

  function At(p: Pool, i: nat, w: Worker): Pool
    requires i < |p.workers|
  {
    p.(workers := p.workers[i := w])
  }

  lemma Held(p: Pool, i: nat, turns: nat)
    requires Fits(p) && i < |p.workers| && (!p.workers[i].Seeks? || Blocked(p, i))
    ensures Alone(p, i, turns) == p
  {
  }

  lemma OneTurn(p: Pool, i: nat, turns: nat)
    requires Fits(p) && i < |p.workers| && p.workers[i].Seeks? && !Blocked(p, i) && turns > 0
    ensures Fits(Turned(p, i)) && Alone(p, i, turns) == Alone(Turned(p, i), i, turns - 1)
  {
    TurnFits(p, i);
  }

  /** Where a worker stands does not matter to the rest. */
  lemma AtOnly(p: Pool, i: nat, w: Worker)
    requires Fits(p) && i < |p.workers|
    ensures Fits(At(p, i, w)) && forall u :: At(At(p, i, w), i, u) == At(p, i, u)
    ensures forall v :: Robbable(At(p, i, w), v) <==> Robbable(p, v)
  {
    hide Permutation;
    forall u
      ensures At(At(p, i, w), i, u) == At(p, i, u)
    {
      assert p.workers[i := w][i := u] == p.workers[i := u];
    }
  }

  lemma Stays(p: Pool, i: nat)
    requires i < |p.workers|
    ensures At(p, i, p.workers[i]) == p
  {
  }

  lemma TryFails(p: Pool, i: nat, pos: nat)
    requires Fits(p) && i < |p.workers| && p.workers[i] == Seeks(3, pos) && pos < |p.queues| && NothingAmong(p, i, pos, pos + 1)
    ensures var q := Turned(p, i); q == At(p, i, Seeks(3, pos + 1)) && q.workers[i] == Seeks(3, pos + 1) && q.orders == p.orders
    ensures |Turned(p, i).queues| == |p.queues| && |Turned(p, i).workers| == |p.workers|
  {
    hide Permutation;
    OrderLength(p, i);
    Victim(p, i, pos);
  }

  /** Victims without a job in front are passed one by one. */
  lemma {:induction false} Passes(p: Pool, i: nat, from: nat, to: nat, turns: nat)
    requires Fits(p) && i < |p.workers| && p.workers[i] == Seeks(3, from) && from <= to <= |p.queues|
    requires NothingAmong(p, i, from, to) && turns >= to - from
    ensures Fits(At(p, i, Seeks(3, to))) && Alone(p, i, turns) == Alone(At(p, i, Seeks(3, to)), i, turns - (to - from))
    decreases turns
  {
    hide Permutation, Alone, Turned, Robbable, At, Fits;
    AtOnly(p, i, Seeks(3, from + 1));
    Stays(p, i);
    if from < to {
      TryFails(p, i, from);
      OneTurn(p, i, turns);
      var q := Turned(p, i);
      assert NothingAmong(q, i, from + 1, to);
      Passes(q, i, from + 1, to, turns - 1);
    }
  }

  lemma TryOwnFails(p: Pool, i: nat, stage: nat)
    requires Fits(p) && i < |p.workers| && p.workers[i] == Seeks(stage, 0) && stage < 3 && p.queues[i] == []
    ensures !Blocked(p, i) && Turned(p, i) == At(p, i, Seeks(stage + 1, 0))
  {
  }

  /** A worker that finds its own queue empty comes to stealing. */
  lemma {:induction false} ComesToSteal(p: Pool, i: nat, stage: nat, turns: nat)
    requires Fits(p) && i < |p.workers| && p.workers[i] == Seeks(stage, 0) && stage <= 3 <= stage + turns
    requires stage == 3 || p.queues[i] == []
    ensures Fits(At(p, i, Seeks(3, 0))) && Alone(p, i, turns) == Alone(At(p, i, Seeks(3, 0)), i, turns - (3 - stage))
    decreases turns
  {
    hide Permutation, Alone, Turned;
    Stays(p, i);
    if stage < 3 {
      TryOwnFails(p, i, stage);
      OneTurn(p, i, turns);
      AtOnly(p, i, Seeks(stage + 1, 0));
      ComesToSteal(Turned(p, i), i, stage + 1, turns - 1);
    }
  }

  /** What holds an entry is to a worker: a job to run, or its end. */
  function Holding(e: Entry): Worker
  {
    if e == Pill then Gone else Runs(e.id)
  }

  /** Its own queue comes first. */
  lemma OwnFirst(p: Pool, i: nat, stage: nat, turns: nat)
    requires Fits(p) && i < |p.workers| && p.workers[i] == Seeks(stage, 0) && stage <= 2 && turns >= 2 && p.queues[i] != []
    ensures Alone(p, i, turns) == p.(queues := p.queues[i := p.queues[i][1..]], workers := p.workers[i := Holding(p.queues[i][0])])
  {
    hide Permutation;
    OneTurn(p, i, turns);
    var q := Turned(p, i);
    if stage == 1 {
      OneTurn(q, i, turns - 1);
      Held(Turned(q, i), i, turns - 2);
    } else {
      Held(q, i, turns - 1);
    }
  }

  /** The worker has found its own queue empty, or is about to steal. */
  predicate AboutToSteal(p: Pool, i: nat, stage: nat)
    requires Fits(p) && i < |p.workers|
  {
    p.workers[i] == Seeks(stage, 0) && stage <= 3 && (stage == 3 || p.queues[i] == [])
  }

  /** The victim with number `pos` has a job in front, and those before it do not. */
  predicate First(p: Pool, i: nat, pos: nat)
    requires Fits(p) && i < |p.workers|
  {
    pos < |p.orders[i]| && p.orders[i][pos] != i && Robbable(p, p.orders[i][pos]) && NothingAmong(p, i, 0, pos)
  }

  lemma StealsAt(p: Pool, i: nat, pos: nat, turns: nat)
    requires Fits(p) && i < |p.workers| && First(p, i, pos) && p.workers[i] == Seeks(3, pos) && turns > 0
    ensures var v := p.orders[i][pos];
      Alone(p, i, turns) == p.(queues := p.queues[v := p.queues[v][1..]], workers := p.workers[i := Holding(p.queues[v][0])])
  {
    hide Permutation;
    OrderLength(p, i);
    Victim(p, i, pos);
    OneTurn(p, i, turns);
    Held(Turned(p, i), i, turns - 1);
  }

  /** Then the first victim in its order that has a job in front. */
  lemma FirstVictim(p: Pool, i: nat, stage: nat, pos: nat, turns: nat)
    requires Fits(p) && i < |p.workers| && AboutToSteal(p, i, stage) && First(p, i, pos) && turns >= |p.queues| + 4
    ensures var v := p.orders[i][pos];
      Alone(p, i, turns) == p.(queues := p.queues[v := p.queues[v][1..]], workers := p.workers[i := Holding(p.queues[v][0])])
  {
    hide Permutation, Alone;
    ComesToSteal(p, i, stage, turns);
    var a, left := At(p, i, Seeks(3, 0)), turns - (3 - stage);
    OrderLength(p, i);
    assert NothingAmong(a, i, 0, pos);
    Passes(a, i, 0, pos, left);
    AtOnly(p, i, Seeks(3, 0));
    AtOnly(p, i, Seeks(3, pos));
    var b := At(p, i, Seeks(3, pos));
    assert First(b, i, pos);
    StealsAt(b, i, pos, left - pos);
    assert b.workers[i := Runs(p.queues[p.orders[i][pos]][0].id)] == p.workers[i := Runs(p.queues[p.orders[i][pos]][0].id)];
  }

  lemma OrderLength(p: Pool, i: nat)
    requires Fits(p) && i < |p.workers|
    ensures |p.orders[i]| == |p.queues|
  {
    assert Permutation(p.orders[i], |p.queues|);
  }

  /** And if no victim has one, its own queue again, for which it waits. */
  lemma NoVictim(p: Pool, i: nat, stage: nat, turns: nat)
    requires Fits(p) && i < |p.workers| && AboutToSteal(p, i, stage) && turns >= |p.queues| + 5
    requires forall v :: v != i ==> !Robbable(p, v)
    ensures Alone(p, i, turns) == if p.queues[i] == [] then p.(workers := p.workers[i := Seeks(4, 0)])
      else p.(queues := p.queues[i := p.queues[i][1..]], workers := p.workers[i := Holding(p.queues[i][0])])
    ensures p.queues[i] == [] ==> Blocked(Alone(p, i, turns), i)
  {
    hide Permutation, Alone;
    hide Turned;
    ComesToSteal(p, i, stage, turns);
    var a, left, n := At(p, i, Seeks(3, 0)), turns - (3 - stage), |p.queues|;
    AtOnly(p, i, Seeks(3, 0));
    AtOnly(p, i, Seeks(3, n));
    AtOnly(p, i, Seeks(4, 0));
    Passes(a, i, 0, n, left);
    Waits(At(p, i, Seeks(3, n)), i, left - n);
    assert p.workers[i := Seeks(3, n)][i := Seeks(4, 0)] == p.workers[i := Seeks(4, 0)];
    if p.queues[i] != [] {
      assert p.workers[i := Seeks(3, n)][i := Holding(p.queues[i][0])] == p.workers[i := Holding(p.queues[i][0])];
    }
  }

  /** With all victims tried, only its own queue is left. */
  lemma Waits(p: Pool, i: nat, turns: nat)
    requires Fits(p) && i < |p.workers| && p.workers[i] == Seeks(3, |p.queues|) && turns >= 2
    ensures Alone(p, i, turns) == if p.queues[i] == [] then p.(workers := p.workers[i := Seeks(4, 0)])
      else p.(queues := p.queues[i := p.queues[i][1..]], workers := p.workers[i := Holding(p.queues[i][0])])
    ensures p.queues[i] == [] ==> Blocked(Alone(p, i, turns), i)
  {
    hide Permutation, Alone;
    OneTurn(p, i, turns);
    var c := Turned(p, i);
    if p.queues[i] == [] {
      Held(c, i, turns - 1);
    } else {
      OneTurn(c, i, turns - 1);
      assert c.workers[i := Holding(p.queues[i][0])] == p.workers[i := Holding(p.queues[i][0])];
      Held(Turned(c, i), i, turns - 2);
    }
  }

  lemma Somewhere(p: Pool, i: nat, v: nat)
    requires Fits(p) && i < |p.workers| && v < |p.queues|
    ensures exists k :: 0 <= k < |p.orders[i]| && p.orders[i][k] == v
  {
    EveryVictim(p.orders[i], |p.queues|, v);
  }

  /** The first of the victims from `k` on that has a job in front. */
  lemma {:induction false} Least(p: Pool, i: nat, k: nat) returns (pos: nat)
    requires Fits(p) && i < |p.workers| && k < |p.orders[i]| && p.orders[i][k] != i && Robbable(p, p.orders[i][k])
    ensures pos <= k && p.orders[i][pos] != i && Robbable(p, p.orders[i][pos]) && NothingAmong(p, i, 0, pos)
  {
    hide Permutation;
    pos := k;
    if j :| 0 <= j < k && p.orders[i][j] != i && Robbable(p, p.orders[i][j]) {
      pos := Least(p, i, j);
    }
  }

  /**
   While any queue has a job in front a worker does not wait: however far it is in looking for one, at most n + 5
   turns later it runs a job, unless what it took was the pill in front of its own queue.
   */
  lemma NeverIdle(p: Pool, i: nat, stage: nat, v: nat)
    requires Fits(p) && i < |p.workers| && p.workers[i] == Seeks(stage, 0) && stage <= 3 && Robbable(p, v)
    ensures var w := Alone(p, i, |p.queues| + 5).workers[i];
      w.Runs? || (w.Gone? && p.queues[i] != [] && p.queues[i][0] == Pill)
  {
    hide Permutation, Alone;
    var turns := |p.queues| + 5;
    if stage <= 2 && p.queues[i] != [] {
      OwnFirst(p, i, stage, turns);
    } else if u :| u != i && Robbable(p, u) {
      Somewhere(p, i, u);
      var k :| 0 <= k < |p.orders[i]| && p.orders[i][k] == u;
      var pos := Least(p, i, k);
      FirstVictim(p, i, stage, pos, turns);
    } else {
      NoVictim(p, i, stage, turns);
    }
  }

  // ---- among all the others

  /** How often worker `i` makes a turn. */
  function TurnsOf(steps: seq<Step>, i: nat): nat
  {
    if steps == [] then 0 else TurnsOf(steps[..|steps| - 1], i) + if steps[|steps| - 1] == Turn(i) then 1 else 0
  }

  /** How far a worker is in its round, with `n` victims to try. */
  function Place(w: Worker, n: nat): nat
  {
    if !w.Seeks? then 0 else if w.stage < 3 then w.stage else if w.stage == 3 then 3 + w.pos else n + 4
  }

  /** Where the worker looks next there is nothing for it. */
  predicate InVain(p: Pool, i: nat)
    requires Fits(p) && i < |p.workers|
  {
    p.workers[i].Seeks? && var stage, pos := p.workers[i].stage, p.workers[i].pos;
    if stage == 0 || stage == 2 then p.queues[i] == []
    else if stage == 3 then pos < |p.orders[i]| ==> NothingAmong(p, i, pos, pos + 1)
    else stage == 1
  }

  /** The worker has not tried more victims than there are. */
  predicate Regular(p: Pool, i: nat)
  {
    Fits(p) && i < |p.workers| && (p.workers[i].Seeks? && p.workers[i].stage == 3 ==> p.workers[i].pos <= |p.queues|)
  }

  /** A step brings a worker one place further exactly when it is its turn, and in vain. */
  lemma OnePlace(p: Pool, i: nat, step: Step)
    requires Regular(p, i) && Enabled(p, step)
    ensures var q := Next(p, step); Regular(q, i) && q.orders == p.orders && |q.queues| == |p.queues|
    ensures var w, n := Next(p, step).workers[i], |p.queues|;
      if step != Turn(i) then w == p.workers[i]
      else if InVain(p, i) then Place(w, n) == Place(p.workers[i], n) + 1
      else Place(w, n) <= Place(p.workers[i], n)
  {
    hide Permutation, Turned, InVain;
    StepFits(p, step);
    if step.Turn? {
      OthersStay(p, step.worker, i);
      if step.worker == i {
        OwnTurn(p, i);
      }
    }
  }

  lemma OthersStay(p: Pool, k: nat, i: nat)
    requires Fits(p) && k < |p.workers| && i < |p.workers| && !p.workers[k].Gone? && !Blocked(p, k)
    ensures var q := Turned(p, k); q.orders == p.orders && |q.queues| == |p.queues| && |q.workers| == |p.workers|
    ensures k != i ==> Turned(p, k).workers[i] == p.workers[i]
  {
    hide Permutation;
    if p.workers[k].Seeks? && p.workers[k].pos < |p.queues| {
      Victim(p, k, p.workers[k].pos);
    }
  }

  lemma OwnTurn(p: Pool, i: nat)
    requires Regular(p, i) && !p.workers[i].Gone? && !Blocked(p, i) && i < |Turned(p, i).workers|
    ensures var w := Turned(p, i).workers[i]; w.Seeks? && w.stage == 3 ==> w.pos <= |p.queues|
    ensures var w, n := Turned(p, i).workers[i], |p.queues|;
      if InVain(p, i) then Place(w, n) == Place(p.workers[i], n) + 1 else Place(w, n) <= Place(p.workers[i], n)
  {
    hide Permutation;
    OrderLength(p, i);
    if p.workers[i].Seeks? && p.workers[i].pos < |p.queues| {
      Victim(p, i, p.workers[i].pos);
    }
  }

  /** Worker `i` makes its turn at step `j` from place `x`, and in vain. */
  ghost predicate Tried(start: Pool, steps: seq<Step>, j: nat, i: nat, x: nat)
  {
    j < |steps| && steps[j] == Turn(i) && exists m :: Reachable(start, steps[..j], m) && Tries(m, i, x) && m.orders == start.orders
  }

  predicate Tries(p: Pool, i: nat, x: nat)
  {
    Regular(p, i) && Place(p.workers[i], |p.queues|) == x && InVain(p, i)
  }

  lemma TriedStays(start: Pool, front: seq<Step>, step: Step, j: nat, i: nat, x: nat)
    requires Tried(start, front, j, i, x)
    ensures Tried(start, front + [step], j, i, x)
  {
    hide Reachable, Tries;
    assert (front + [step])[..j] == front[..j];
  }

  lemma TriedNow(start: Pool, front: seq<Step>, m: Pool, i: nat, x: nat)
    requires Reachable(start, front, m) && Tries(m, i, x) && m.orders == start.orders
    ensures Tried(start, front + [Turn(i)], |front|, i, x)
  {
    hide Reachable, Tries;
    assert (front + [Turn(i)])[..|front|] == front;
  }

  ghost predicate SomeTry(start: Pool, steps: seq<Step>, i: nat, x: nat)
  {
    exists j: nat :: Tried(start, steps, j, i, x)
  }

  ghost predicate TriedAll(start: Pool, steps: seq<Step>, i: nat, from: nat, to: nat)
  {
    forall x :: from <= x < to ==> SomeTry(start, steps, i, x)
  }

  lemma TriedAllStays(start: Pool, front: seq<Step>, step: Step, i: nat, from: nat, to: nat)
    requires TriedAll(start, front, i, from, to)
    ensures TriedAll(start, front + [step], i, from, to)
  {
    hide Tried;
    forall x | from <= x < to
      ensures SomeTry(start, front + [step], i, x)
    {
      assert SomeTry(start, front, i, x);
      var j: nat :| Tried(start, front, j, i, x);
      TriedStays(start, front, step, j, i, x);
    }
  }

  /** Whatever the others do in between, a worker comes further by one place a turn at most, and only over places tried in vain. */
  lemma {:induction false} PlaceByPlace(p: Pool, steps: seq<Step>, q: Pool, i: nat)
    requires Regular(p, i) && Reachable(p, steps, q)
    ensures Regular(q, i) && q.orders == p.orders && |q.queues| == |p.queues|
    ensures var x, y := Place(p.workers[i], |p.queues|), Place(q.workers[i], |p.queues|);
      y <= x + TurnsOf(steps, i) && (y == x + TurnsOf(steps, i) ==> TriedAll(p, steps, i, x, y))
    decreases |steps|
  {
    hide Next, Enabled, Fits, Place, Tried, InVain, Tries;
    if steps != [] {
      var front, step := steps[..|steps| - 1], steps[|steps| - 1];
      assert steps == front + [step];
      var m :| Reachable(p, front, m) && Fits(m) && Enabled(m, step) && Next(m, step) == q;
      PlaceByPlace(p, front, m, i);
      OnePlace(m, i, step);
      var x, y := Place(p.workers[i], |p.queues|), Place(m.workers[i], |p.queues|);
      if y == x + TurnsOf(front, i) {
        TriedAllStays(p, front, step, i, x, y);
        if step == Turn(i) && InVain(m, i) {
          assert Tries(m, i, y) by { TriesAt(m, i); }
          TriedNow(p, front, m, i, y);
          assert SomeTry(p, steps, i, y);
        }
      }
    }
  }

  lemma TriesAt(m: Pool, i: nat)
    requires Regular(m, i) && InVain(m, i)
    ensures Tries(m, i, Place(m.workers[i], |m.queues|))
  {
  }

  /** At step `j` worker `i` looks into queue `v` and takes nothing: its own is empty, or another has no job in front. */
  ghost predicate LooksInVain(start: Pool, steps: seq<Step>, j: nat, i: nat, v: nat)
  {
    j < |steps| && steps[j] == Turn(i) && exists m :: Reachable(start, steps[..j], m) && Unfit(m, i, v)
  }

  predicate Unfit(m: Pool, i: nat, v: nat)
  {
    v < |m.queues| && if v == i then m.queues[v] == [] else !Robbable(m, v)
  }

  lemma FoundUnfit(m: Pool, i: nat, v: nat, k: nat)
    requires Fits(m) && i < |m.workers| && k < |m.orders[i]| && m.orders[i][k] == v && Tries(m, i, if v == i then 2 else 3 + k)
    ensures Unfit(m, i, v)
  {
    OrderLength(m, i);
    Victim(m, i, k);
    hide Permutation;
  }

  /**
   A worker comes to wait only after it has looked into every queue, its own and all the others, and found nothing: from
   the start of its round that takes n + 4 turns, whatever the other threads do in between.
   */
  lemma WaitsAfterAll(p: Pool, steps: seq<Step>, q: Pool, i: nat, v: nat)
    requires Fits(p) && i < |p.workers| && p.workers[i] == Seeks(0, 0) && v < |p.queues| && Reachable(p, steps, q)
    requires i < |q.workers| && q.workers[i] == Seeks(4, 0)
    ensures TurnsOf(steps, i) >= |p.queues| + 4
    ensures TurnsOf(steps, i) == |p.queues| + 4 ==> exists j: nat :: LooksInVain(p, steps, j, i, v)
  {
    hide Permutation, Reachable, Unfit, InVain;
    PlaceByPlace(p, steps, q, i);
    if TurnsOf(steps, i) == |p.queues| + 4 {
      Somewhere(p, i, v);
      var k :| 0 <= k < |p.orders[i]| && p.orders[i][k] == v;
      OrderLength(p, i);
      var x := if v == i then 2 else 3 + k;
      assert SomeTry(p, steps, i, x);
      var j: nat :| Tried(p, steps, j, i, x);
      var m :| Reachable(p, steps[..j], m) && Tries(m, i, x) && m.orders == p.orders;
      FoundUnfit(m, i, v, k);
      assert LooksInVain(p, steps, j, i, v);
    }
  }

  // ---- entries leave a queue in the order in which they came

  function PillsOut(steps: seq<Step>): nat
  {
    if steps == [] then 0 else PillsOut(steps[..|steps| - 1]) + if steps[|steps| - 1] == PushPill then 1 else 0
  }

  /** All that was ever pushed to queue `k`, in this order: the destructor's pills go to one queue after the other. */
  function Pushed(steps: seq<Step>, k: nat): seq<Entry>
  {
    if steps == [] then [] else
    var front, step := steps[..|steps| - 1], steps[|steps| - 1];
    Pushed(front, k) +
    if step.Push? && step.queue == k then [Job(step.job)] else if step == PushPill && PillsOut(front) == k then [Pill] else []
  }

  /** `rest` is what is left of `all` when a number of entries have left at the front. */
  predicate Remains(rest: seq<Entry>, all: seq<Entry>)
  {
    |rest| <= |all| && rest == all[|all| - |rest|..]
  }

  lemma QueueStep(p: Pool, step: Step, k: nat)
    requires Fits(p) && Enabled(p, step) && k < |p.queues|
    ensures var q := Next(p, step); |q.queues| == |p.queues| && q.pills == p.pills + (if step == PushPill then 1 else 0)
    ensures var now, was := Next(p, step).queues[k], p.queues[k];
      if step.Push? && step.queue == k then now == was + [Job(step.job)]
      else if step == PushPill && p.pills == k then now == was + [Pill]
      else Remains(now, was)
  {
    hide Fits, Turned, Drained, Remains, Blocked;
    AllRemains(p.queues[k]);
    match step {
      case Turn(i) =>
        TurnLeaves(p, i);
        TurnTakes(p, i, k);
      case Drain => DrainTakes(p, k);
      case _ =>
    }
  }

  lemma DrainTakes(p: Pool, k: nat)
    requires p.passed < |p.queues| && k < |p.queues|
    ensures var q := Drained(p); |q.queues| == |p.queues| && q.pills == p.pills && Remains(q.queues[k], p.queues[k])
  {
  }

  lemma TurnTakes(p: Pool, i: nat, k: nat)
    requires Fits(p) && i < |p.workers| && !p.workers[i].Gone? && !Blocked(p, i) && k < |p.queues|
    ensures k < |Turned(p, i).queues| && Remains(Turned(p, i).queues[k], p.queues[k])
  {
    hide Permutation, Taken, Remains;
    AllRemains(p.queues[k]);
    if p.workers[i].Seeks? {
      if p.queues[i] != [] {
        TakenRemains(p, i, i, k);
      }
      if p.workers[i].pos < |p.queues| {
        Victim(p, i, p.workers[i].pos);
        var v := p.orders[i][p.workers[i].pos];
        if p.queues[v] != [] {
          TakenRemains(p, i, v, k);
        }
      }
    }
  }

  lemma TakenRemains(p: Pool, i: nat, v: nat, k: nat)
    requires Fits(p) && i < |p.workers| && v < |p.queues| && p.queues[v] != [] && k < |p.queues|
    ensures k < |Taken(p, i, v).queues| && Remains(Taken(p, i, v).queues[k], p.queues[k])
  {
    hide Permutation;
  }

  lemma AllRemains(q: seq<Entry>)
    ensures Remains(q, q)
  {
  }

  /** In every reachable state a queue holds the last entries that were pushed to it, in the order in which they were pushed. */
  lemma {:induction false} FirstInFirstOut(orders: seq<seq<nat>>, steps: seq<Step>, p: Pool, k: nat)
    requires Orders(orders) && Reachable(Start(orders), steps, p) && k < |orders|
    ensures |p.queues| == |orders| && p.pills == PillsOut(steps) && Remains(p.queues[k], Pushed(steps, k))
    decreases |steps|
  {
    hide Next, Enabled, Fits, Orders, Remains;
    if steps == [] {
      AllRemains([]);
    } else {
      var front, step := steps[..|steps| - 1], steps[|steps| - 1];
      var m :| Reachable(Start(orders), front, m) && Fits(m) && Enabled(m, step) && Next(m, step) == p;
      FirstInFirstOut(orders, front, m, k);
      QueueStep(m, step, k);
      RemainsLater(p.queues[k], m.queues[k], Pushed(front, k));
    }
  }

  lemma RemainsLater(now: seq<Entry>, was: seq<Entry>, all: seq<Entry>)
    requires Remains(was, all)
    ensures Remains(now, was) ==> Remains(now, all + [])
    ensures forall e :: now == was + [e] ==> Remains(now, all + [e])
  {
    assert all + [] == all;
  }
}
