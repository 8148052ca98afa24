/** Generator.calculate of pylib/yapps/parsetree.py, with the setup and update of every node class. */
module Generators {
  import opened Grammars
  import opened Nullability
  import opened FirstFollow
  import opened Least

  class Generator {
    const g: Grammar
    const goals: seq<nat>
    var eps: seq<bool>
    var lists: Lists
    var changeCount: nat

    /** What every step of both loops keeps. */
    ghost predicate Valid()
      reads this
    {
      WellFormed(g) && Covered(g, goals) && |eps| == |g| && |lists| == 2 * |g| && Justified(g, eps) && Good(g, lists) &&
      Minimal(g, lists)
    }

    constructor (g: Grammar, goals: seq<nat>)
      requires WellFormed(g) && Covered(g, goals)
      ensures Valid() && this.g == g && this.goals == goals && changeCount == 0
    {
      this.g, this.goals, changeCount := g, goals, 0;
      eps := seq(|g|, _ => false);
      lists := seq(2 * |g|, _ => []);
      new;
      NothingIsMinimal(g, lists);
    }

    // ---- accepts_epsilon

    /** Marks a node, once. */
    method Mark(i: nat, ghost e0: seq<bool>, ghost c0: nat)
      requires Valid() && i < |g| && Raised(e0, c0, eps, changeCount) && !eps[i] && Nullable(g, i)
      requires (g[i].NonTerminal? ==> eps[g[i].target]) && (g[i].Plus? ==> eps[g[i].child])
      modifies this`eps, this`changeCount
      ensures Valid() && Raised(e0, c0, eps, changeCount) && changeCount > old(changeCount) && eps == old(eps)[i := true]
    {
      RaisedOnce(eps, changeCount, i, changeCount + 1);
      RaisedTwice(e0, c0, eps, changeCount, eps[i := true], changeCount + 1);
      eps := eps[i := true];
      changeCount := changeCount + 1;
    }

    /** The trees of all children, then the node itself; `e0` and `c0` are where the pass started. */
    method SetupAll(cs: seq<nat>, i: nat, ghost e0: seq<bool>, ghost c0: nat)
      requires Valid() && i < |g| && cs == Children(g[i]) && Raised(e0, c0, eps, changeCount)
      modifies this`eps, this`changeCount
      ensures Valid() && Raised(e0, c0, eps, changeCount) && changeCount >= old(changeCount)
      ensures changeCount == c0 ==> forall k :: 0 <= k < |cs| ==> SettledBelow(g, e0, cs[k])
      decreases i, 0
    {
      hide Minimal, Nullable, Settled, Good;
      for k := 0 to |cs|
        invariant Valid() && Raised(e0, c0, eps, changeCount) && changeCount >= old(changeCount)
        invariant changeCount == c0 ==> forall j :: 0 <= j < k ==> SettledBelow(g, e0, cs[j])
      {
        Setup(cs[k], e0, c0);
      }
    }

    /** `setup` of a node. */
    method Setup(i: nat, ghost e0: seq<bool>, ghost c0: nat)
      requires Valid() && i < |g| && Raised(e0, c0, eps, changeCount)
      modifies this`eps, this`changeCount
      ensures Valid() && Raised(e0, c0, eps, changeCount) && changeCount >= old(changeCount)
      ensures changeCount == c0 ==> SettledBelow(g, e0, i)
      decreases i, 1
    {
      hide Minimal, Nullable, Good, SettledBelow;
      SetupAll(Children(g[i]), i, e0, c0);
      SetupNode(i, e0, c0);
      if changeCount == c0 {
        SettledTree(g, e0, i);
      }
    }

    /** The part of `setup` that sets the mark of the node itself. */
    method SetupNode(i: nat, ghost e0: seq<bool>, ghost c0: nat)
      requires Valid() && i < |g| && Raised(e0, c0, eps, changeCount)
      modifies this`eps, this`changeCount
      ensures Valid() && Raised(e0, c0, eps, changeCount) && changeCount >= old(changeCount)
      ensures changeCount == c0 ==> Settled(g, e0, i)
    {
      hide Minimal, Nullable, Good;
      match g[i] {
        case Terminal(_) =>
        case NonTerminal(j) =>
          if eps[i] != eps[j] {
            CallNullable(g, i);
            Mark(i, e0, c0);
          }
        case Sequence(cs) => SetupSequence(i, cs, e0, c0);
        case Choice(cs) => SetupChoice(i, cs, e0, c0);
        case Plus(c) =>
          if eps[i] != eps[c] {
            PlusNullable(g, i);
            Mark(i, e0, c0);
          }
        case _ =>
          NothingNullable(g, i);
          if !eps[i] {
            Mark(i, e0, c0);
          }
      }
    }

    method SetupSequence(i: nat, cs: seq<nat>, ghost e0: seq<bool>, ghost c0: nat)
      requires Valid() && i < |g| && g[i] == Sequence(cs) && Raised(e0, c0, eps, changeCount)
      modifies this`eps, this`changeCount
      ensures Valid() && Raised(e0, c0, eps, changeCount) && changeCount >= old(changeCount)
      ensures changeCount == c0 ==> Settled(g, e0, i)
    {
      hide Minimal, Nullable, Good;
      if !eps[i] {
        var k := 0;
        while k < |cs| && eps[cs[k]]
          invariant k <= |cs| && forall j :: 0 <= j < k ==> eps[cs[j]]
        {
          k := k + 1;
        }
        if k == |cs| {
          SequenceNullable(g, i);
          Mark(i, e0, c0);
        }
      }
    }

    /** Every child that accepts the empty sequence counts as a change, although only the first one is. */
    method SetupChoice(i: nat, cs: seq<nat>, ghost e0: seq<bool>, ghost c0: nat)
      requires Valid() && i < |g| && g[i] == Choice(cs) && Raised(e0, c0, eps, changeCount)
      modifies this`eps, this`changeCount
      ensures Valid() && Raised(e0, c0, eps, changeCount) && changeCount >= old(changeCount)
      ensures changeCount == c0 ==> Settled(g, e0, i)
    {
      hide Minimal, Nullable, Good;
      if !eps[i] {
        for k := 0 to |cs|
          invariant Valid() && Raised(e0, c0, eps, changeCount) && changeCount >= old(changeCount)
          invariant changeCount == c0 ==> forall j :: 0 <= j < k ==> !e0[cs[j]]
          invariant changeCount > old(changeCount) <==> eps[i]
        {
          if eps[cs[k]] {
            ChoiceNullable(g, i, k);
            if !eps[i] {
              Mark(i, e0, c0);
            } else {
              changeCount := changeCount + 1;
            }
          }
        }
      }
    }

    /** The first loop of `calculate`. */
    method CalculateEpsilon()
      requires Valid() && changeCount == 0
      modifies this`eps, this`changeCount
      ensures Valid() && changeCount == 0
      ensures forall i :: 0 <= i < |g| ==> (eps[i] <==> Nullable(g, i))
    {
      hide Minimal, Good, Nullable, Settled;
      var more := true;
      while more
        invariant Valid() && changeCount == 0
        invariant !more ==> forall i :: 0 <= i < |g| ==> Settled(g, eps, i)
        decreases more, |g| - Trues(eps)
      {
        SetupPass();
        if changeCount == 0 {
          SettledEverywhere(g, eps, goals);
          more := false;
        }
        changeCount := 0;
      }
      Exact(g, eps);
    }

    method SetupPass()
      requires Valid() && changeCount == 0
      modifies this`eps, this`changeCount
      ensures Valid() && Raised(old(eps), 0, eps, changeCount)
      ensures changeCount == 0 ==> forall k :: 0 <= k < |goals| ==> SettledBelow(g, eps, goals[k])
    {
      hide Minimal, Good, Nullable, Settled;
      for k := 0 to |goals|
        invariant Valid() && Raised(old(eps), 0, eps, changeCount)
        invariant changeCount == 0 ==> forall j :: 0 <= j < k ==> SettledBelow(g, old(eps), goals[j])
      {
        Setup(goals[k], old(eps), 0);
      }
    }

    // ---- FIRST and FOLLOW

    /** The invariant of the second loop: the marks are final. */
    ghost predicate Ready()
      reads this
    {
      Valid() && forall i :: 0 <= i < |g| ==> (eps[i] <==> Nullable(g, i))
    }

    ghost function Size(): nat
    {
      |Tokens(g)|
    }

    /** A later state of the lists in the same pass. */
    ghost predicate Since(s0: Lists, c0: nat)
      reads this`lists, this`changeCount
    {
      |s0| == |lists| && c0 <= changeCount && Grown(Size(), s0, c0, lists, changeCount)
    }

    /** parent.append(x), counted. */
    method Append(p: nat, x: Token, ghost s0: Lists, ghost c0: nat)
      requires Ready() && Since(s0, c0) && p < |lists| && x !in lists[p] && x in Tokens(g) && MayTake(g, p, x) && Owed(g, p, x)
      modifies this`lists, this`changeCount
      ensures Ready() && Since(s0, c0) && changeCount == old(changeCount) + 1 && lists == old(lists[p := lists[p] + [x]])
    {
      hide Minimal, Owed, Nullable, MayTake, Room, Sane;
      MinimalSnoc(g, lists, p, x);
      GoodSnoc(g, lists, p, x);
      GrownOnce(Size(), lists, changeCount, p, x);
      GrownTwice(Size(), s0, c0, lists, changeCount, lists[p := lists[p] + [x]], changeCount + 1);
      lists := lists[p := lists[p] + [x]];
      changeCount := changeCount + 1;
    }

    /** `add_to`: extends list `p` by the elements of list `q` that it lacks. */
    method AddTo(p: nat, q: nat, ghost s0: Lists, ghost c0: nat)
      requires Ready() && Since(s0, c0) && p < |lists| && q < |lists| && forall x :: x in lists[q] ==> MayTake(g, p, x)
      requires Demanded(g, p, q)
      modifies this`lists, this`changeCount
      ensures Ready() && Since(s0, c0) && changeCount >= old(changeCount)
      ensures changeCount == c0 ==> Within(s0[q], s0[p])
      ensures Within(old(lists[q]), lists[p]) && forall k :: 0 <= k < |lists| && k != p ==> lists[k] == old(lists[k])
      ensures forall x :: x in lists[p] ==> x in old(lists[p]) || x in old(lists[q])
    {
      hide Minimal, Demanded, Owed, Nullable, MayTake, Room, Good;
      var additions := lists[q];
      InTokens(q);
      forall x | x in additions
        ensures Owed(g, p, x)
      {
        DemandedIsOwed(g, lists, p, q, x);
      }
      for k := 0 to |additions|
        invariant Ready() && Since(s0, c0) && |lists| == old(|lists|) && changeCount >= old(changeCount)
        invariant forall j :: 0 <= j < k ==> additions[j] in lists[p]
        invariant forall j :: 0 <= j < |lists| && j != p ==> lists[j] == old(lists[j])
        invariant forall x :: x in lists[p] ==> x in old(lists[p]) || x in additions
      {
        if additions[k] !in lists[p] {
          Append(p, additions[k], s0, c0);
        }
      }
    }

    lemma InTokens(q: nat)
      requires Ready() && q < |lists|
      ensures forall x :: x in lists[q] ==> x in Tokens(g)
    {
      assert Sane(g, lists[q]);
    }

    /** `equate` for the lists of a node and of its target. */
    method Equate(p: nat, q: nat, ghost s0: Lists, ghost c0: nat)
      requires Ready() && Since(s0, c0) && p < |lists| && q < |lists|
      requires forall x :: x in lists[q] || x in lists[p] ==> MayTake(g, p, x) && MayTake(g, q, x)
      requires Demanded(g, p, q) && Demanded(g, q, p)
      modifies this`lists, this`changeCount
      ensures Ready() && Since(s0, c0) && changeCount >= old(changeCount)
      ensures changeCount == c0 ==> Within(s0[q], s0[p]) && Within(s0[p], s0[q])
    {
      hide Minimal, Nullable, MayTake, Room, Good;
      AddTo(p, q, s0, c0);
      AddTo(q, p, s0, c0);
    }

    /** Node.update. */
    method UpdateBase(i: nat, ghost s0: Lists, ghost c0: nat)
      requires Ready() && Since(s0, c0) && i < |g|
      modifies this`lists, this`changeCount
      ensures Ready() && Since(s0, c0) && changeCount >= old(changeCount)
      ensures changeCount == c0 && eps[i] ==> Within(s0[Flw(i)], s0[Fst(i)])
    {
      hide Minimal, Nullable, MayTake, Room, Good;
      if eps[i] {
        forall x | x in lists[Flw(i)]
          ensures MayTake(g, Fst(i), x)
        {
          MarkedTakes(g, eps, i, x);
        }
        BaseDemands(g, i);
        AddTo(Fst(i), Flw(i), s0, c0);
      }
    }

    /** Extends a FOLLOW list, which may take anything. */
    method AddToFollow(i: nat, q: nat, ghost s0: Lists, ghost c0: nat)
      requires Ready() && Since(s0, c0) && i < |g| && q < |lists|
      requires Demanded(g, Flw(i), q)
      modifies this`lists, this`changeCount
      ensures Ready() && Since(s0, c0) && changeCount >= old(changeCount)
      ensures changeCount == c0 ==> Within(s0[q], s0[Flw(i)])
    {
      hide Minimal, Nullable, MayTake, Room, Good, Within;
      forall x | x in lists[q]
        ensures MayTake(g, Flw(i), x)
      {
        FollowTakes(g, i, x);
      }
      AddTo(Flw(i), q, s0, c0);
    }

    /** Extends the FIRST list of an inner node. */
    method AddToFirst(i: nat, q: nat, ghost s0: Lists, ghost c0: nat)
      requires Ready() && Since(s0, c0) && i < |g| && q < |lists| && !g[i].Terminal? && !g[i].NonTerminal?
      requires Demanded(g, Fst(i), q)
      modifies this`lists, this`changeCount
      ensures Ready() && Since(s0, c0) && changeCount >= old(changeCount)
      ensures changeCount == c0 ==> Within(s0[q], s0[Fst(i)])
    {
      hide Minimal, Nullable, MayTake, Room, Good, Within;
      forall x | x in lists[q]
        ensures MayTake(g, Fst(i), x)
      {
        OthersTake(g, i, x);
      }
      AddTo(Fst(i), q, s0, c0);
    }

    method EquateFollow(i: nat, j: nat, ghost s0: Lists, ghost c0: nat)
      requires Ready() && Since(s0, c0) && i < |g| && j < |g|
      requires Demanded(g, Flw(i), Flw(j)) && Demanded(g, Flw(j), Flw(i))
      modifies this`lists, this`changeCount
      ensures Ready() && Since(s0, c0) && changeCount >= old(changeCount)
      ensures changeCount == c0 ==> Within(s0[Flw(i)], s0[Flw(j)]) && Within(s0[Flw(j)], s0[Flw(i)])
    {
      hide Minimal, Nullable, MayTake, Room, Good, Within;
      forall x
        ensures MayTake(g, Flw(i), x) && MayTake(g, Flw(j), x)
      {
        FollowTakes(g, i, x);
        FollowTakes(g, j, x);
      }
      Equate(Flw(i), Flw(j), s0, c0);
    }

    /** Terminal.update: the FIRST list becomes the token. */
    method UpdateTerminal(i: nat, ghost s0: Lists, ghost c0: nat)
      requires Ready() && Since(s0, c0) && i < |g| && g[i].Terminal?
      modifies this`lists, this`changeCount
      ensures Ready() && Since(s0, c0) && changeCount >= old(changeCount)
      ensures changeCount == c0 ==> s0[Fst(i)] == [g[i].token]
    {
      hide Minimal, Nullable, MayTake, Room, Good;
      TerminalFirst(g, lists, i);
      TerminalDemands(g, i);
      if lists[Fst(i)] != [g[i].token] {
        assert [] + [g[i].token] == [g[i].token];
        Append(Fst(i), g[i].token, s0, c0);
      }
    }

    method UpdateNonTerminal(i: nat, ghost s0: Lists, ghost c0: nat)
      requires Ready() && Since(s0, c0) && i < |g| && g[i].NonTerminal?
      modifies this`lists, this`changeCount
      ensures Ready() && Since(s0, c0) && changeCount >= old(changeCount)
      ensures changeCount == c0 ==> var j := g[i].target;
        Within(s0[Fst(i)], s0[Fst(j)]) && Within(s0[Fst(j)], s0[Fst(i)]) && Within(s0[Flw(i)], s0[Flw(j)]) && Within(s0[Flw(j)], s0[Flw(i)])
    {
      hide Minimal, Nullable, MayTake, Room, Good, Within;
      var j := g[i].target;
      forall x | x in lists[Fst(i)] || x in lists[Fst(j)]
        ensures MayTake(g, Fst(i), x) && MayTake(g, Fst(j), x)
      {
        TargetTakes(g, lists, i, x);
      }
      CallDemands(g, i);
      Equate(Fst(i), Fst(j), s0, c0);
      EquateFollow(i, j, s0, c0);
    }

    lemma NoneMarked(cs: seq<nat>)
      requires forall j :: 0 <= j < |cs| ==> cs[j] < |eps|
      ensures AllMarked(eps, cs, 0)
    {
    }

    lemma OneMoreMarked(cs: seq<nat>, k: nat)
      requires k < |cs| && forall j :: 0 <= j < |cs| ==> cs[j] < |eps|
      ensures AllMarked(eps, cs, k + 1) <==> AllMarked(eps, cs, k) && eps[cs[k]]
    {
    }

    /** Sequence.update, after the children. */
    method UpdateSequence(i: nat, cs: seq<nat>, ghost s0: Lists, ghost c0: nat)
      requires Ready() && Since(s0, c0) && i < |g| && g[i] == Sequence(cs)
      modifies this`lists, this`changeCount
      ensures Ready() && Since(s0, c0) && changeCount >= old(changeCount)
      ensures changeCount == c0 ==> Chained(eps, s0, i, cs)
    {
      hide Minimal, Nullable, Grown, Good, Within, Justified, Covered, AllMarked;
      NoneMarked(cs);
      var empty := true;
      for k := 0 to |cs|
        invariant Ready() && Since(s0, c0) && changeCount >= old(changeCount) && empty == AllMarked(eps, cs, k)
        invariant changeCount == c0 ==> ChainedUpto(eps, s0, i, cs, k)
      {
        empty := UpdateLink(i, cs, k, empty, s0, c0);
        OneMoreMarked(cs, k);
      }
      if cs != [] {
        SequenceDemands(g, i, 0);
        AddToFollow(i, Flw(cs[|cs| - 1]), s0, c0);
      }
    }

    /** One round of the loop of Sequence.update. */
    method UpdateLink(i: nat, cs: seq<nat>, k: nat, empty: bool, ghost s0: Lists, ghost c0: nat) returns (empty': bool)
      requires Ready() && Since(s0, c0) && i < |g| && g[i] == Sequence(cs) && k < |cs| && empty == AllMarked(eps, cs, k)
      modifies this`lists, this`changeCount
      ensures Ready() && Since(s0, c0) && changeCount >= old(changeCount) && empty' == (empty && eps[cs[k]])
      ensures changeCount == c0 && empty ==> Within(s0[Fst(cs[k])], s0[Fst(i)])
      ensures changeCount == c0 ==> Within(s0[Next(i, cs, k)], s0[Flw(cs[k])])
    {
      hide Minimal, Nullable, Grown, Good, Within, Justified, Covered;
      SequenceDemands(g, i, k);
      assert eps == Marks(g);
      empty' := empty;
      if empty {
        AddToFirst(i, Fst(cs[k]), s0, c0);
      }
      if !eps[cs[k]] {
        empty' := false;
      }
      if k == |cs| - 1 {
        AddToFollow(cs[k], Flw(i), s0, c0);
      } else {
        AddToFollow(cs[k], Fst(cs[k + 1]), s0, c0);
      }
    }

    /** Choice.update, after the children. */
    method UpdateChoice(i: nat, cs: seq<nat>, ghost s0: Lists, ghost c0: nat)
      requires Ready() && Since(s0, c0) && i < |g| && g[i] == Choice(cs)
      modifies this`lists, this`changeCount
      ensures Ready() && Since(s0, c0) && changeCount >= old(changeCount)
      ensures changeCount == c0 ==> Offered(s0, i, cs)
    {
      hide Minimal, Nullable, Room, Good, Within, Demanded;
      TakeOffers(i, cs, s0, c0);
      PassFollow(i, cs, s0, c0);
      if eps[i] {
        BaseDemands(g, i);
        AddToFirst(i, Flw(i), s0, c0);
      }
    }

    /** The first loop of Choice.update. */
    method TakeOffers(i: nat, cs: seq<nat>, ghost s0: Lists, ghost c0: nat)
      requires Ready() && Since(s0, c0) && i < |g| && g[i] == Choice(cs)
      modifies this`lists, this`changeCount
      ensures Ready() && Since(s0, c0) && changeCount >= old(changeCount)
      ensures changeCount == c0 ==> forall j :: 0 <= j < |cs| ==> Within(s0[Fst(cs[j])], s0[Fst(i)]) && Within(s0[Flw(cs[j])], s0[Flw(i)])
    {
      hide Minimal, Nullable, Room, Good, Within, Demanded;
      for k := 0 to |cs|
        invariant Ready() && Since(s0, c0) && changeCount >= old(changeCount)
        invariant changeCount == c0 ==> forall j :: 0 <= j < k ==> Within(s0[Fst(cs[j])], s0[Fst(i)]) && Within(s0[Flw(cs[j])], s0[Flw(i)])
      {
        ChoiceDemands(g, i, k);
        AddToFirst(i, Fst(cs[k]), s0, c0);
        AddToFollow(i, Flw(cs[k]), s0, c0);
      }
    }

    /** The second loop of Choice.update. */
    method PassFollow(i: nat, cs: seq<nat>, ghost s0: Lists, ghost c0: nat)
      requires Ready() && Since(s0, c0) && i < |g| && g[i] == Choice(cs)
      modifies this`lists, this`changeCount
      ensures Ready() && Since(s0, c0) && changeCount >= old(changeCount)
      ensures changeCount == c0 ==> forall j :: 0 <= j < |cs| ==> Within(s0[Flw(i)], s0[Flw(cs[j])])
    {
      hide Minimal, Nullable, Room, Good, Within, Demanded;
      for k := 0 to |cs|
        invariant Ready() && Since(s0, c0) && changeCount >= old(changeCount)
        invariant changeCount == c0 ==> forall j :: 0 <= j < k ==> Within(s0[Flw(i)], s0[Flw(cs[j])])
      {
        ChoiceDemands(g, i, k);
        AddToFollow(cs[k], Flw(i), s0, c0);
      }
    }

    /** Wrapper.update, after the child. */
    method UpdateWrapper(i: nat, c: nat, ghost s0: Lists, ghost c0: nat)
      requires Ready() && Since(s0, c0) && i < |g| && c < |g| && g[i] in {Option(c), Plus(c), Star(c)}
      modifies this`lists, this`changeCount
      ensures Ready() && Since(s0, c0) && changeCount >= old(changeCount)
      ensures changeCount == c0 ==> Wrapped(s0, i, c)
    {
      hide Minimal, Nullable, Room, Good, Within;
      WrapperDemands(g, i, c);
      AddToFirst(i, Fst(c), s0, c0);
      EquateFollow(i, c, s0, c0);
    }

    method UpdateRepetition(i: nat, c: nat, ghost s0: Lists, ghost c0: nat)
      requires Ready() && Since(s0, c0) && i < |g| && c < |g| && g[i] in {Plus(c), Star(c)}
      modifies this`lists, this`changeCount
      ensures Ready() && Since(s0, c0) && changeCount >= old(changeCount)
      ensures changeCount == c0 ==> Wrapped(s0, i, c) && Within(s0[Fst(c)], s0[Flw(c)])
    {
      hide Minimal, Nullable, Room, Good, Wrapped, Within;
      UpdateWrapper(i, c, s0, c0);
      WrapperDemands(g, i, c);
      AddToFollow(c, Fst(c), s0, c0);
    }

    method UpdateAll(cs: seq<nat>, i: nat, ghost s0: Lists, ghost c0: nat)
      requires Ready() && Since(s0, c0) && i < |g| && cs == Children(g[i])
      modifies this`lists, this`changeCount
      ensures Ready() && Since(s0, c0) && changeCount >= old(changeCount)
      ensures changeCount == c0 ==> forall k :: 0 <= k < |cs| ==> ClosedBelow(g, eps, s0, cs[k])
      decreases i, 0
    {
      hide Minimal, Nullable, Room, Good, Closed;
      for k := 0 to |cs|
        invariant Ready() && Since(s0, c0) && changeCount >= old(changeCount)
        invariant changeCount == c0 ==> forall j :: 0 <= j < k ==> ClosedBelow(g, eps, s0, cs[j])
      {
        Update(cs[k], s0, c0);
      }
    }

    /** `update` of a node: first what all nodes do, then the children, then what the class adds. */
    method Update(i: nat, ghost s0: Lists, ghost c0: nat)
      requires Ready() && Since(s0, c0) && i < |g|
      modifies this`lists, this`changeCount
      ensures Ready() && Since(s0, c0) && changeCount >= old(changeCount)
      ensures changeCount == c0 ==> ClosedBelow(g, eps, s0, i)
      decreases i, 1
    {
      hide Minimal, Nullable, Grown, Good, ClosedBelow, Within, Own;
      UpdateBase(i, s0, c0);
      UpdateAll(Children(g[i]), i, s0, c0);
      UpdateNode(i, s0, c0);
      if changeCount == c0 {
        ClosedTree(g, eps, s0, i);
      }
    }

    method UpdateNode(i: nat, ghost s0: Lists, ghost c0: nat)
      requires Ready() && Since(s0, c0) && i < |g|
      modifies this`lists, this`changeCount
      ensures Ready() && Since(s0, c0) && changeCount >= old(changeCount)
      ensures changeCount == c0 ==> Own(g, eps, s0, i)
    {
      hide Minimal, Nullable, Grown, Good, Within, Justified, Wrapped, Chained, Offered, Covered;
      match g[i] {
        case Terminal(_) => UpdateTerminal(i, s0, c0);
        case Eval =>
        case NonTerminal(_) => UpdateNonTerminal(i, s0, c0);
        case Sequence(cs) => UpdateSequence(i, cs, s0, c0);
        case Choice(cs) => UpdateChoice(i, cs, s0, c0);
        case Option(c) => UpdateWrapper(i, c, s0, c0);
        case Plus(c) => UpdateRepetition(i, c, s0, c0);
        case Star(c) => UpdateRepetition(i, c, s0, c0);
      }
    }

    method UpdatePass()
      requires Ready() && changeCount == 0
      modifies this`lists, this`changeCount
      ensures Ready() && Grown(Size(), old(lists), 0, lists, changeCount)
      ensures changeCount == 0 ==> forall k :: 0 <= k < |goals| ==> ClosedBelow(g, eps, lists, goals[k])
    {
      hide Minimal, Nullable, Room, Good, Closed;
      for k := 0 to |goals|
        invariant Ready() && Since(old(lists), 0)
        invariant changeCount == 0 ==> forall j :: 0 <= j < k ==> ClosedBelow(g, eps, old(lists), goals[j])
      {
        Update(goals[k], old(lists), 0);
      }
    }

    /** The second loop of `calculate`. */
    method CalculateSets()
      requires Ready() && changeCount == 0
      modifies this`lists, this`changeCount
      ensures Ready() && changeCount == 0 && AllClosed(g, eps, lists)
    {
      hide Minimal, Nullable, Room, Closed;
      var more := true;
      while more
        invariant Ready() && changeCount == 0
        invariant !more ==> forall i :: 0 <= i < |g| ==> Closed(g, eps, lists, i)
        decreases more, Room(lists, Size())
      {
        UpdatePass();
        if changeCount == 0 {
          ClosedEverywhere(g, eps, lists, goals);
          more := false;
        }
        RoomLeft(g, lists);
        changeCount := 0;
      }
    }

    /**
     `calculate` ends, and then a node is marked exactly when it derives the empty sequence, FIRST holds
     every token that can begin a derivation of the node, and FOLLOW every token that can come right
     after it in a derivation from a goal.  The lists are the least solution of the equations; so where
     nothing at the front of a node can be empty, FIRST is exactly the tokens that begin its derivations.
     */
    method Calculate()
      requires Valid() && changeCount == 0
      modifies this`eps, this`lists, this`changeCount
      ensures Valid() && changeCount == 0
      ensures forall i :: 0 <= i < |g| ==> (eps[i] <==> Nullable(g, i))
      ensures AllClosed(g, eps, lists) && forall s :: AllClosed(g, eps, s) ==> Under(lists, s)
      ensures Productive(g) ==> forall i, x :: 0 <= i < |g| && !Leaky(g, i) ==> (x in lists[Fst(i)] <==> Begins(g, i, x))
      ensures forall i, t :: 0 <= i < |g| && Derives(g, i, t) && Yield(t) != [] ==> Yield(t)[0] in lists[Fst(i)]
      ensures forall i, t, path {:trigger Locate(g, i, t, [], path)} :: i in goals && Derives(g, i, t) ==>
        var o := Locate(g, i, t, [], path);
        o.At? ==> o.i < |g| && (o.rest != [] ==> o.rest[0] in lists[Flw(o.i)])
    {
      hide Minimal, Nullable, Good, AllClosed, Derives, Yield, Productive, Leaky, Begins, Under;
      CalculateEpsilon();
      CalculateSets();
      assert eps == Marks(g);
      LeastSolution(g, lists);
      forall i, x | Productive(g) && 0 <= i < |g| && !Leaky(g, i)
        ensures x in lists[Fst(i)] <==> Begins(g, i, x)
      {
        FirstExact(g, lists, i, x);
      }
      forall i, t | 0 <= i < |g| && Derives(g, i, t) && Yield(t) != []
        ensures Yield(t)[0] in lists[Fst(i)]
      {
        FirstComplete(g, eps, lists, i, t);
      }
      forall i, t, path: seq<nat> | i in goals && Derives(g, i, t)
        ensures var o := Locate(g, i, t, [], path);
          o.At? ==> o.i < |g| && (o.rest != [] ==> o.rest[0] in lists[Flw(o.i)])
      {
        FollowComplete(g, eps, lists, i, t, [], path);
      }
    }
  }
}
