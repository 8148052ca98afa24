/** Which nodes accept the empty sequence: what the first loop of Generator.calculate keeps and reaches. */
module Nullability {
  import opened Grammars

  /** No node is marked without a reason, and none is marked before the node it takes its mark from. */
  ghost predicate Justified(g: Grammar, eps: seq<bool>)
    requires WellFormed(g)
  {
    |eps| == |g| &&
    forall i :: 0 <= i < |g| && eps[i] ==>
      Nullable(g, i) && (g[i].NonTerminal? ==> eps[g[i].target]) && (g[i].Plus? ==> eps[g[i].child])
  }

  /** The equation of a node holds. */
  predicate Settled(g: Grammar, eps: seq<bool>, i: nat)
    requires WellFormed(g) && |eps| == |g| && i < |g|
  {
    match g[i]
    case Terminal(_) => true
    case Eval => eps[i]
    case NonTerminal(j) => eps[i] == eps[j]
    case Sequence(cs) => eps[i] || exists k :: 0 <= k < |cs| && !eps[cs[k]]
    case Choice(cs) => eps[i] || forall k :: 0 <= k < |cs| ==> !eps[cs[k]]
    case Option(_) => eps[i]
    case Plus(c) => eps[i] == eps[c]
    case Star(_) => eps[i]
  }

  predicate SettledBelow(g: Grammar, eps: seq<bool>, r: nat)
    requires WellFormed(g) && |eps| == |g| && r < |g|
  {
    forall i :: 0 <= i < |g| && Below(g, r, i) ==> Settled(g, eps, i)
  }

  lemma SettledTree(g: Grammar, eps: seq<bool>, i: nat)
    requires WellFormed(g) && |eps| == |g| && i < |g| && Settled(g, eps, i)
    requires forall k :: 0 <= k < |Children(g[i])| ==> SettledBelow(g, eps, Children(g[i])[k])
    ensures SettledBelow(g, eps, i)
  {
    hide Settled;
    forall j | 0 <= j < |g| && Below(g, i, j)
      ensures Settled(g, eps, j)
    {
      if j != i {
        var k :| 0 <= k < |Children(g[i])| && Below(g, Children(g[i])[k], j);
      }
    }
  }

  lemma SettledEverywhere(g: Grammar, eps: seq<bool>, goals: seq<nat>)
    requires WellFormed(g) && |eps| == |g| && Covered(g, goals)
    requires forall k :: 0 <= k < |goals| ==> SettledBelow(g, eps, goals[k])
    ensures forall i :: 0 <= i < |g| ==> Settled(g, eps, i)
  {
    hide Settled;
    forall i | 0 <= i < |g|
      ensures Settled(g, eps, i)
    {
      assert Reached(g, goals, i);
    }
  }

  // ---- marks are only added

  function Trues(eps: seq<bool>): (n: nat)
    ensures n <= |eps|
  {
    if eps == [] then 0 else Trues(eps[..|eps| - 1]) + if eps[|eps| - 1] then 1 else 0
  }

  /** From one state of the marks and the change count to a later one. */
  predicate Raised(e0: seq<bool>, c0: nat, e1: seq<bool>, c1: nat)
  {
    |e0| == |e1| && c0 <= c1 && (c0 == c1 ==> e0 == e1) && (c0 < c1 ==> Trues(e0) < Trues(e1)) &&
    forall i :: 0 <= i < |e0| && e0[i] ==> e1[i]
  }

  lemma {:induction false} OneMore(eps: seq<bool>, i: nat)
    requires i < |eps| && !eps[i]
    ensures Trues(eps[i := true]) == Trues(eps) + 1
  {
    var n := |eps| - 1;
    if i < n {
      OneMore(eps[..n], i);
      assert eps[i := true][..n] == eps[..n][i := true];
    } else {
      assert eps[i := true][..n] == eps[..n];
    }
  }

  lemma RaisedOnce(eps: seq<bool>, c: nat, i: nat, c1: nat)
    requires i < |eps| && !eps[i] && c < c1
    ensures Raised(eps, c, eps[i := true], c1)
  {
    OneMore(eps, i);
  }

  lemma RaisedTwice(e0: seq<bool>, c0: nat, e1: seq<bool>, c1: nat, e2: seq<bool>, c2: nat)
    requires Raised(e0, c0, e1, c1) && Raised(e1, c1, e2, c2)
    ensures Raised(e0, c0, e2, c2)
  {
  }

  // ---- why a mark may be added

  lemma SequenceNullable(g: Grammar, i: nat)
    requires WellFormed(g) && i < |g| && g[i].Sequence? && forall k :: 0 <= k < |g[i].children| ==> Nullable(g, g[i].children[k])
    ensures Nullable(g, i)
  {
    var ts := EmptyTrees(g, g[i].children);
    assert Derives(g, i, All(ts)) && Yield(All(ts)) == [];
  }

  lemma ChoiceNullable(g: Grammar, i: nat, k: nat)
    requires WellFormed(g) && i < |g| && g[i].Choice? && k < |g[i].children| && Nullable(g, g[i].children[k])
    ensures Nullable(g, i)
  {
    var t :| Derives(g, g[i].children[k], t) && Yield(t) == [];
    assert Derives(g, i, Pick(k, t)) && Yield(Pick(k, t)) == [];
  }

  lemma CallNullable(g: Grammar, i: nat)
    requires WellFormed(g) && i < |g| && g[i].NonTerminal? && Nullable(g, g[i].target)
    ensures Nullable(g, i)
  {
    var t :| Derives(g, g[i].target, t) && Yield(t) == [];
    assert Derives(g, i, Call(t)) && Yield(Call(t)) == [];
  }

  lemma PlusNullable(g: Grammar, i: nat)
    requires WellFormed(g) && i < |g| && g[i].Plus? && Nullable(g, g[i].child)
    ensures Nullable(g, i)
  {
    var t :| Derives(g, g[i].child, t) && Yield(t) == [];
    assert YieldAll([t]) == [] by { AllEmpty([t]); }
    assert Derives(g, i, Rep([t])) && Yield(Rep([t])) == [];
  }

  lemma NothingNullable(g: Grammar, i: nat)
    requires WellFormed(g) && i < |g| && (g[i].Eval? || g[i].Option? || g[i].Star?)
    ensures Nullable(g, i)
  {
    var t := if g[i].Eval? then Nil else Rep([]);
    assert Derives(g, i, t) && Yield(t) == [];
  }

  // ---- no mark is missing in the end

  /** Once all equations hold, every node with an empty derivation is marked. */
  lemma {:induction false} Complete(g: Grammar, eps: seq<bool>, i: nat, t: Tree)
    requires WellFormed(g) && |eps| == |g| && forall j :: 0 <= j < |g| ==> Settled(g, eps, j)
    requires i < |g| && Derives(g, i, t) && Yield(t) == []
    ensures eps[i]
    decreases t
  {
    assert Settled(g, eps, i);
    match g[i] {
      case Terminal(_) =>
      case Eval =>
      case NonTerminal(j) => Complete(g, eps, j, t.t);
      case Sequence(cs) =>
        AllEmpty(t.ts);
        forall k | 0 <= k < |cs|
          ensures eps[cs[k]]
        {
          Complete(g, eps, cs[k], t.ts[k]);
        }
      case Choice(cs) => Complete(g, eps, cs[t.k], t.t);
      case Option(_) =>
      case Plus(c) =>
        AllEmpty(t.ts);
        Complete(g, eps, c, t.ts[0]);
      case Star(_) =>
    }
  }

  /** At a fixpoint the marks are exactly the nodes that derive the empty sequence. */
  lemma Exact(g: Grammar, eps: seq<bool>)
    requires WellFormed(g) && Justified(g, eps) && forall i :: 0 <= i < |g| ==> Settled(g, eps, i)
    ensures forall i :: 0 <= i < |g| ==> (eps[i] <==> Nullable(g, i))
  {
    forall i | 0 <= i < |g| && Nullable(g, i)
      ensures eps[i]
    {
      var t :| Derives(g, i, t) && Yield(t) == [];
      Complete(g, eps, i, t);
    }
  }
}
