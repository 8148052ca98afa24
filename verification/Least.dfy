/**
 The other half of FIRST and FOLLOW: the lists hold no more than the equations demand, and where nothing
 that accepts the empty sequence interferes, no more than the derivations do.
 */
module Least {
  import opened Grammars
  import opened Nullability
  import opened FirstFollow

  /** The marks that the first loop computes. */
  ghost function Marks(g: Grammar): (eps: seq<bool>)
    requires WellFormed(g)
    ensures |eps| == |g| && forall i :: 0 <= i < |g| ==> (eps[i] <==> Nullable(g, i))
  {
    seq(|g|, i requires 0 <= i < |g| => Nullable(g, i))
  }

  /** Lists that solve all equations. */
  ghost predicate Solution(g: Grammar, s: Lists)
    requires WellFormed(g)
  {
    |s| == 2 * |g| && forall i :: 0 <= i < |g| ==> Closed(g, Marks(g), s, i)
  }

  predicate Under(lists: Lists, s: Lists)
  {
    |lists| == |s| && forall k :: 0 <= k < |s| ==> Within(lists[k], s[k])
  }

  /** The lists are contained in those of every solution. */
  ghost predicate Minimal(g: Grammar, lists: Lists)
    requires WellFormed(g)
  {
    forall s :: Solution(g, s) ==> Under(lists, s)
  }

  /** Every solution has `x` in its list at `p`. */
  ghost predicate Owed(g: Grammar, p: nat, x: Token)
    requires WellFormed(g) && p < 2 * |g|
  {
    forall s :: Solution(g, s) ==> x in s[p]
  }

  /** In every solution the list at `p` includes that at `q`. */
  ghost predicate Demanded(g: Grammar, p: nat, q: nat)
    requires WellFormed(g) && p < 2 * |g| && q < 2 * |g|
  {
    forall s :: Solution(g, s) ==> Within(s[q], s[p])
  }

  lemma NothingIsMinimal(g: Grammar, lists: Lists)
    requires WellFormed(g) && |lists| == 2 * |g| && forall k :: 0 <= k < |lists| ==> lists[k] == []
    ensures Minimal(g, lists)
  {
    hide Closed;
  }

  lemma DemandedIsOwed(g: Grammar, lists: Lists, p: nat, q: nat, x: Token)
    requires WellFormed(g) && Minimal(g, lists) && |lists| == 2 * |g| && p < 2 * |g| && q < 2 * |g|
    requires Demanded(g, p, q) && x in lists[q]
    ensures Owed(g, p, x)
  {
    hide Solution;
    forall s | Solution(g, s)
      ensures x in s[p]
    {
      assert Under(lists, s);
    }
  }

  lemma MinimalSnoc(g: Grammar, lists: Lists, p: nat, x: Token)
    requires WellFormed(g) && Minimal(g, lists) && |lists| == 2 * |g| && p < 2 * |g| && Owed(g, p, x)
    ensures Minimal(g, lists[p := lists[p] + [x]])
  {
    hide Solution;
    forall s | Solution(g, s)
      ensures Under(lists[p := lists[p] + [x]], s)
    {
      assert Under(lists, s);
    }
  }

  lemma LeastSolution(g: Grammar, lists: Lists)
    requires WellFormed(g) && Minimal(g, lists)
    ensures forall s :: AllClosed(g, Marks(g), s) ==> Under(lists, s)
  {
    hide Closed, Under;
    forall s | AllClosed(g, Marks(g), s)
      ensures Under(lists, s)
    {
      assert Solution(g, s);
    }
  }

  // ---- what the equations demand, class by class

  lemma BaseDemands(g: Grammar, i: nat)
    requires WellFormed(g) && i < |g| && Nullable(g, i)
    ensures Demanded(g, Fst(i), Flw(i))
  {
    hide Own;
    forall s | Solution(g, s)
      ensures Within(s[Flw(i)], s[Fst(i)])
    {
      assert Closed(g, Marks(g), s, i);
    }
  }

  lemma TerminalDemands(g: Grammar, i: nat)
    requires WellFormed(g) && i < |g| && g[i].Terminal?
    ensures Owed(g, Fst(i), g[i].token)
  {
    forall s | Solution(g, s)
      ensures g[i].token in s[Fst(i)]
    {
      assert Closed(g, Marks(g), s, i);
    }
  }

  lemma CallDemands(g: Grammar, i: nat)
    requires WellFormed(g) && i < |g| && g[i].NonTerminal?
    ensures var j := g[i].target;
      Demanded(g, Fst(i), Fst(j)) && Demanded(g, Fst(j), Fst(i)) && Demanded(g, Flw(i), Flw(j)) && Demanded(g, Flw(j), Flw(i))
  {
    hide Within;
    forall s | Solution(g, s)
      ensures Own(g, Marks(g), s, i)
    {
      assert Closed(g, Marks(g), s, i);
    }
  }

  lemma SequenceDemands(g: Grammar, i: nat, k: nat)
    requires WellFormed(g) && i < |g| && g[i].Sequence? && k < |g[i].children|
    ensures var cs := g[i].children;
      (AllMarked(Marks(g), cs, k) ==> Demanded(g, Fst(i), Fst(cs[k]))) && Demanded(g, Flw(cs[k]), Next(i, cs, k)) &&
      Demanded(g, Flw(i), Flw(cs[|cs| - 1]))
  {
    hide Within, AllMarked;
    forall s | Solution(g, s)
      ensures Chained(Marks(g), s, i, g[i].children)
    {
      assert Closed(g, Marks(g), s, i);
    }
  }

  lemma ChoiceDemands(g: Grammar, i: nat, k: nat)
    requires WellFormed(g) && i < |g| && g[i].Choice? && k < |g[i].children|
    ensures var c := g[i].children[k];
      Demanded(g, Fst(i), Fst(c)) && Demanded(g, Flw(i), Flw(c)) && Demanded(g, Flw(c), Flw(i))
  {
    hide Within;
    forall s | Solution(g, s)
      ensures Offered(s, i, g[i].children)
    {
      assert Closed(g, Marks(g), s, i);
    }
  }

  lemma WrapperDemands(g: Grammar, i: nat, c: nat)
    requires WellFormed(g) && i < |g| && c < |g| && g[i] in {Option(c), Plus(c), Star(c)}
    ensures Demanded(g, Fst(i), Fst(c)) && Demanded(g, Flw(i), Flw(c)) && Demanded(g, Flw(c), Flw(i))
    ensures !g[i].Option? ==> Demanded(g, Flw(c), Fst(c))
  {
    hide Within;
    forall s | Solution(g, s)
      ensures Own(g, Marks(g), s, i)
    {
      assert Closed(g, Marks(g), s, i);
    }
  }

  // ---- a solution made of derivations

  /** Some derivation of the node starts with the token. */
  ghost predicate Begins(g: Grammar, i: nat, x: Token)
    requires WellFormed(g) && i < |g|
  {
    exists t :: Derives(g, i, t) && Yield(t) != [] && Yield(t)[0] == x
  }

  /** Every node derives something. */
  ghost predicate Productive(g: Grammar)
    requires WellFormed(g)
  {
    forall i :: 0 <= i < |g| ==> HasTree(g, i)
  }

  ghost predicate HasTree(g: Grammar, i: nat)
    requires WellFormed(g) && i < |g|
  {
    exists t :: Derives(g, i, t)
  }

  /** Going down from the front of the node along `path` leads to one that accepts the empty sequence. */
  ghost predicate LeaksAlong(g: Grammar, i: nat, path: seq<nat>)
    requires WellFormed(g) && i < |g|
    decreases |path|
  {
    if path == [] then Nullable(g, i) else
    match g[i]
    case Terminal(_) => false
    case Eval => false
    case NonTerminal(j) => LeaksAlong(g, j, path[1..])
    case Sequence(cs) => var k := path[0];
      k < |cs| && (forall j :: 0 <= j < k ==> Nullable(g, cs[j])) && LeaksAlong(g, cs[k], path[1..])
    case Choice(cs) => path[0] < |cs| && LeaksAlong(g, cs[path[0]], path[1..])
    case Option(c) => LeaksAlong(g, c, path[1..])
    case Plus(c) => LeaksAlong(g, c, path[1..])
    case Star(c) => LeaksAlong(g, c, path[1..])
  }

  /** Something at the front of the node accepts the empty sequence, so that FIRST takes over what follows it. */
  ghost predicate Leaky(g: Grammar, i: nat)
    requires WellFormed(g) && i < |g|
  {
    exists path :: LeaksAlong(g, i, path)
  }

  /** The token begins what comes directly after the node in a sequence, or the node itself where it is repeated. */
  ghost predicate Meets(g: Grammar, j: nat, x: Token)
    requires WellFormed(g) && j < |g|
  {
    (exists i, k :: SuccessorAt(g, i, k, j) && Begins(g, g[i].children[k + 1], x)) || (Repeated(g, j) && Begins(g, j, x))
  }

  /** What comes after the node is leaky. */
  ghost predicate Open(g: Grammar, j: nat)
    requires WellFormed(g) && j < |g|
  {
    (exists i, k :: SuccessorAt(g, i, k, j) && Leaky(g, g[i].children[k + 1])) || (Repeated(g, j) && Leaky(g, j))
  }

  /** Node `j` is child `k` of the sequence `i`, and not the last one. */
  predicate SuccessorAt(g: Grammar, i: int, k: int, j: nat)
    requires WellFormed(g)
  {
    0 <= i < |g| && g[i].Sequence? && 0 <= k < |g[i].children| - 1 && g[i].children[k] == j
  }

  predicate Repeated(g: Grammar, j: nat)
    requires WellFormed(g)
  {
    exists i :: 0 <= i < |g| && g[i] in {Plus(j), Star(j)}
  }

  /** What follows one of the two nodes follows the other: a node and its last child, a choice and its alternatives, a use and its rule. */
  predicate Linked(g: Grammar, i: nat, j: nat)
    requires WellFormed(g)
  {
    i < |g| && j < |g| && (PassesOn(g, i, j) || PassesOn(g, j, i))
  }

  predicate PassesOn(g: Grammar, i: nat, j: nat)
    requires WellFormed(g) && i < |g|
  {
    match g[i]
    case Terminal(_) => false
    case Eval => false
    case NonTerminal(target) => j == target
    case Sequence(cs) => cs != [] && j == cs[|cs| - 1]
    case Choice(cs) => j in cs
    case Option(c) => j == c
    case Plus(c) => j == c
    case Star(c) => j == c
  }

  /** Along links one comes to a node that the token meets, or to one that is open. */
  ghost predicate Comes(g: Grammar, i: nat, path: seq<nat>, x: Token)
    requires WellFormed(g) && i < |g|
    decreases |path|
  {
    if path == [] then Meets(g, i, x) || Open(g, i) else Linked(g, i, path[0]) && Comes(g, path[0], path[1..], x)
  }

  ghost predicate May(g: Grammar, p: nat, x: Token)
    requires WellFormed(g) && p < 2 * |g|
  {
    if p % 2 == 0 then Begins(g, p / 2, x) || Leaky(g, p / 2) else MayFollow(g, p / 2, x)
  }

  ghost predicate MayFollow(g: Grammar, i: nat, x: Token)
    requires WellFormed(g) && i < |g|
  {
    exists path :: Comes(g, i, path, x)
  }

  lemma Halves(i: nat)
    ensures Fst(i) % 2 == 0 && Fst(i) / 2 == i && Flw(i) % 2 == 1 && Flw(i) / 2 == i
  {
  }

  function TokenList(g: Grammar): (all: seq<Token>)
    ensures forall i :: 0 <= i < |g| && g[i].Terminal? ==> g[i].token in all
  {
    if g == [] then [] else
    TokenList(g[..|g| - 1]) + if g[|g| - 1].Terminal? then [g[|g| - 1].token] else []
  }

  ghost function Chosen(g: Grammar, p: nat, all: seq<Token>): (a: seq<Token>)
    requires WellFormed(g) && p < 2 * |g|
    ensures forall x :: x in a <==> x in all && May(g, p, x)
  {
    if all == [] then [] else
    Chosen(g, p, all[..|all| - 1]) + if May(g, p, all[|all| - 1]) then [all[|all| - 1]] else []
  }

  /** The tokens that may be there. */
  ghost function Ideal(g: Grammar): (s: Lists)
    requires WellFormed(g)
    ensures |s| == 2 * |g|
  {
    seq(2 * |g|, p requires 0 <= p < 2 * |g| =>
      if p % 2 == 0 && g[p / 2].Terminal? then [g[p / 2].token] else Chosen(g, p, TokenList(g)))
  }

  lemma IdealHas(g: Grammar, p: nat, x: Token)
    requires WellFormed(g) && p < 2 * |g|
    ensures x in Ideal(g)[p] <==> x in TokenList(g) && May(g, p, x)
  {
    hide Derives, Comes, Chosen;
    if p % 2 == 0 && g[p / 2].Terminal? {
      TerminalMay(g, p / 2, x);
    }
  }

  lemma TerminalMay(g: Grammar, i: nat, x: Token)
    requires WellFormed(g) && i < |g| && g[i].Terminal?
    ensures Begins(g, i, x) <==> x == g[i].token
    ensures !Leaky(g, i)
  {
    assert Derives(g, i, Leaf(g[i].token)) && Yield(Leaf(g[i].token)) == [g[i].token];
    TerminalNotNullable(g, i);
  }

  lemma TerminalNotNullable(g: Grammar, i: nat)
    requires WellFormed(g) && i < |g| && g[i].Terminal?
    ensures !Nullable(g, i)
  {
    forall t | Derives(g, i, t)
      ensures Yield(t) != []
    {
    }
  }

  lemma IdealWithin(g: Grammar, q: nat, p: nat)
    requires WellFormed(g) && p < 2 * |g| && q < 2 * |g| && forall x :: May(g, q, x) ==> May(g, p, x)
    ensures Within(Ideal(g)[q], Ideal(g)[p])
  {
    hide May, Ideal;
    forall x | x in Ideal(g)[q]
      ensures x in Ideal(g)[p]
    {
      IdealHas(g, q, x);
      IdealHas(g, p, x);
    }
  }

  // ---- its FIRST lists

  lemma {:induction false} TreesFor(g: Grammar, cs: seq<nat>) returns (ts: seq<Tree>)
    requires WellFormed(g) && Productive(g) && forall k :: 0 <= k < |cs| ==> cs[k] < |g|
    ensures |ts| == |cs| && forall k :: 0 <= k < |cs| ==> Derives(g, cs[k], ts[k])
  {
    if cs == [] {
      ts := [];
    } else {
      var rest := TreesFor(g, cs[1..]);
      assert HasTree(g, cs[0]);
      var t :| Derives(g, cs[0], t);
      ts := [t] + rest;
    }
  }

  lemma {:induction false} BeginsInSequence(g: Grammar, i: nat, k: nat, x: Token)
    requires WellFormed(g) && Productive(g) && i < |g| && g[i].Sequence? && k < |g[i].children|
    requires (forall j :: 0 <= j < k ==> Nullable(g, g[i].children[j])) && Begins(g, g[i].children[k], x)
    ensures Begins(g, i, x)
  {
    hide Nullable, Productive;
    var cs := g[i].children;
    var before := EmptyTrees(g, cs[..k]);
    var t :| Derives(g, cs[k], t) && Yield(t) != [] && Yield(t)[0] == x;
    var behind := TreesFor(g, cs[k + 1..]);
    var ts := before + [t] + behind;
    assert ts[..k] == before && ts[k] == t && ts[k + 1..] == behind;
    YieldAround(ts, k);
    assert [] + Yield(t) == Yield(t);
    assert Derives(g, i, All(ts)) && Yield(All(ts))[0] == x;
  }

  /** Node `c` comes first in node `i`, by way of child `k`, or may do so because everything before it can be empty. */
  ghost predicate Front(g: Grammar, i: nat, k: nat, c: nat)
    requires WellFormed(g) && i < |g|
  {
    match g[i]
    case Terminal(_) => false
    case Eval => false
    case NonTerminal(j) => c == j
    case Sequence(cs) => k < |cs| && c == cs[k] && forall j :: 0 <= j < k ==> Nullable(g, cs[j])
    case Choice(cs) => k < |cs| && c == cs[k]
    case Option(child) => c == child
    case Plus(child) => c == child
    case Star(child) => c == child
  }

  lemma BeginsInside(g: Grammar, i: nat, k: nat, c: nat, x: Token)
    requires WellFormed(g) && Productive(g) && i < |g| && c < |g| && Front(g, i, k, c) && Begins(g, c, x)
    ensures Begins(g, i, x)
  {
    hide Nullable, Productive;
    if g[i].Sequence? {
      BeginsInSequence(g, i, k, x);
    } else {
      var t :| Derives(g, c, t) && Yield(t) != [] && Yield(t)[0] == x;
      OneTree(t);
      var u := if g[i].NonTerminal? then Call(t) else if g[i].Choice? then Pick(k, t) else Rep([t]);
      assert Derives(g, i, u) && Yield(u) == Yield(t);
    }
  }

  lemma OneTree(t: Tree)
    ensures YieldAll([t]) == Yield(t)
  {
    assert YieldAll([]) == [] && Yield(t) + [] == Yield(t);
  }

  lemma LeaksInside(g: Grammar, i: nat, k: nat, c: nat)
    requires WellFormed(g) && i < |g| && c < |g| && Front(g, i, k, c) && Leaky(g, c)
    ensures Leaky(g, i)
  {
    hide Nullable;
    var path :| LeaksAlong(g, c, path);
    assert ([k] + path)[1..] == path;
    assert LeaksAlong(g, i, [k] + path);
  }

  /** A child that may come first adds to what may begin the node. */
  lemma FirstMay(g: Grammar, i: nat, k: nat, c: nat, x: Token)
    requires WellFormed(g) && Productive(g) && i < |g| && c < |g| && Front(g, i, k, c) && May(g, Fst(c), x)
    ensures May(g, Fst(i), x)
  {
    hide Begins, Leaky, Front;
    if Begins(g, c, x) {
      BeginsInside(g, i, k, c, x);
    } else {
      LeaksInside(g, i, k, c);
    }
  }

  /** The rule has no more than its use. */
  lemma CallMay(g: Grammar, i: nat, x: Token)
    requires WellFormed(g) && i < |g| && g[i].NonTerminal? && May(g, Fst(i), x)
    ensures May(g, Fst(g[i].target), x)
  {
    var j := g[i].target;
    if Begins(g, i, x) {
      var t :| Derives(g, i, t) && Yield(t) != [] && Yield(t)[0] == x;
      assert Derives(g, j, t.t) && Yield(t.t)[0] == x;
    } else {
      var path :| LeaksAlong(g, i, path);
      if path == [] {
        CalledNullable(g, i);
        assert LeaksAlong(g, j, []);
      } else {
        assert LeaksAlong(g, j, path[1..]);
      }
    }
  }

  lemma CalledNullable(g: Grammar, i: nat)
    requires WellFormed(g) && i < |g| && g[i].NonTerminal? && Nullable(g, i)
    ensures Nullable(g, g[i].target)
  {
    var t :| Derives(g, i, t) && Yield(t) == [];
    assert Derives(g, g[i].target, t.t);
  }

  lemma FrontWithin(g: Grammar, i: nat, k: nat, c: nat)
    requires WellFormed(g) && Productive(g) && i < |g| && c < |g| && Front(g, i, k, c)
    ensures Within(Ideal(g)[Fst(c)], Ideal(g)[Fst(i)])
  {
    hide Front, May, Ideal;
    forall x | May(g, Fst(c), x)
      ensures May(g, Fst(i), x)
    {
      FirstMay(g, i, k, c, x);
    }
    IdealWithin(g, Fst(c), Fst(i));
  }

  // ---- its FOLLOW lists

  lemma ComesFurther(g: Grammar, i: nat, j: nat, x: Token)
    requires WellFormed(g) && i < |g| && j < |g| && Linked(g, i, j) && May(g, Flw(j), x)
    ensures May(g, Flw(i), x)
  {
    hide Meets, Open;
    Halves(i);
    Halves(j);
    var path :| Comes(g, j, path, x);
    assert ([j] + path)[1..] == path;
    assert Comes(g, i, [j] + path, x);
  }

  lemma LinkWithin(g: Grammar, i: nat, j: nat)
    requires WellFormed(g) && i < |g| && j < |g| && Linked(g, i, j)
    ensures Within(Ideal(g)[Flw(i)], Ideal(g)[Flw(j)]) && Within(Ideal(g)[Flw(j)], Ideal(g)[Flw(i)])
  {
    hide Ideal, Comes;
    forall x
      ensures May(g, Flw(i), x) <==> May(g, Flw(j), x)
    {
      if May(g, Flw(j), x) {
        ComesFurther(g, i, j, x);
      }
      if May(g, Flw(i), x) {
        ComesFurther(g, j, i, x);
      }
    }
    IdealWithin(g, Flw(i), Flw(j));
    IdealWithin(g, Flw(j), Flw(i));
  }

  /** What may begin the next child, or the node itself where it is repeated, may come after it. */
  lemma NextWithin(g: Grammar, j: nat, c: nat)
    requires WellFormed(g) && j < |g| && c < |g|
    requires (c == j && Repeated(g, j)) || exists i, k :: SuccessorAt(g, i, k, j) && g[i].children[k + 1] == c
    ensures Within(Ideal(g)[Fst(c)], Ideal(g)[Flw(j)])
  {
    hide Ideal, Begins, Leaky, Repeated;
    Halves(c);
    Halves(j);
    forall x | May(g, Fst(c), x)
      ensures May(g, Flw(j), x)
    {
      assert Comes(g, j, [], x);
    }
    IdealWithin(g, Fst(c), Flw(j));
  }

  lemma NullableTakesAll(g: Grammar, i: nat)
    requires WellFormed(g) && i < |g| && Nullable(g, i)
    ensures Within(Ideal(g)[Flw(i)], Ideal(g)[Fst(i)])
  {
    hide Ideal, Begins, Comes;
    assert LeaksAlong(g, i, []);
    IdealWithin(g, Flw(i), Fst(i));
  }

  // ---- it solves the equations

  lemma IdealTerminal(g: Grammar, i: nat)
    requires WellFormed(g) && i < |g| && g[i].Terminal?
    ensures Ideal(g)[Fst(i)] == [g[i].token]
  {
  }

  lemma IdealLink(g: Grammar, i: nat, k: nat)
    requires WellFormed(g) && Productive(g) && i < |g| && g[i].Sequence? && k < |g[i].children|
    ensures var cs, s := g[i].children, Ideal(g);
      (AllMarked(Marks(g), cs, k) ==> Within(s[Fst(cs[k])], s[Fst(i)])) && Within(s[FirstFollow.Next(i, cs, k)], s[Flw(cs[k])])
  {
    hide Ideal, Within, Productive;
    var cs := g[i].children;
    if AllMarked(Marks(g), cs, k) {
      FrontWithin(g, i, k, cs[k]);
    }
    if k < |cs| - 1 {
      assert SuccessorAt(g, i, k, cs[k]);
      NextWithin(g, cs[k], cs[k + 1]);
    } else {
      LinkWithin(g, i, cs[k]);
    }
  }

  lemma IdealSequence(g: Grammar, i: nat)
    requires WellFormed(g) && Productive(g) && i < |g| && g[i].Sequence?
    ensures Chained(Marks(g), Ideal(g), i, g[i].children)
  {
    hide Ideal, Within, Productive, AllMarked;
    var cs := g[i].children;
    forall k | 0 <= k < |cs|
      ensures (AllMarked(Marks(g), cs, k) ==> Within(Ideal(g)[Fst(cs[k])], Ideal(g)[Fst(i)])) &&
        Within(Ideal(g)[FirstFollow.Next(i, cs, k)], Ideal(g)[Flw(cs[k])])
    {
      IdealLink(g, i, k);
    }
    if cs != [] {
      LinkWithin(g, i, cs[|cs| - 1]);
    }
  }

  lemma IdealOwn(g: Grammar, i: nat)
    requires WellFormed(g) && Productive(g) && i < |g|
    ensures Own(g, Marks(g), Ideal(g), i)
  {
    hide Ideal, Within, Chained, Productive;
    match g[i] {
      case Terminal(_) => IdealTerminal(g, i);
      case Eval =>
      case NonTerminal(j) =>
        FrontWithin(g, i, 0, j);
        CallWithin(g, i);
        LinkWithin(g, i, j);
      case Sequence(_) => IdealSequence(g, i);
      case Choice(cs) =>
        forall k | 0 <= k < |cs|
          ensures Within(Ideal(g)[Fst(cs[k])], Ideal(g)[Fst(i)])
          ensures Within(Ideal(g)[Flw(cs[k])], Ideal(g)[Flw(i)]) && Within(Ideal(g)[Flw(i)], Ideal(g)[Flw(cs[k])])
        {
          FrontWithin(g, i, k, cs[k]);
          LinkWithin(g, i, cs[k]);
        }
      case Option(c) => IdealWrapper(g, i, c);
      case Plus(c) => IdealWrapper(g, i, c);
      case Star(c) => IdealWrapper(g, i, c);
    }
  }

  lemma CallWithin(g: Grammar, i: nat)
    requires WellFormed(g) && i < |g| && g[i].NonTerminal?
    ensures Within(Ideal(g)[Fst(i)], Ideal(g)[Fst(g[i].target)])
  {
    hide May, Ideal;
    forall x | May(g, Fst(i), x)
      ensures May(g, Fst(g[i].target), x)
    {
      CallMay(g, i, x);
    }
    IdealWithin(g, Fst(i), Fst(g[i].target));
  }

  lemma IdealWrapper(g: Grammar, i: nat, c: nat)
    requires WellFormed(g) && Productive(g) && i < |g| && c < |g| && g[i] in {Option(c), Plus(c), Star(c)}
    ensures Wrapped(Ideal(g), i, c) && (!g[i].Option? ==> Within(Ideal(g)[Fst(c)], Ideal(g)[Flw(c)]))
  {
    hide Ideal, Within, Productive;
    FrontWithin(g, i, 0, c);
    LinkWithin(g, i, c);
    if !g[i].Option? {
      assert Repeated(g, c);
      NextWithin(g, c, c);
    }
  }

  lemma IdealSolves(g: Grammar)
    requires WellFormed(g) && Productive(g)
    ensures Solution(g, Ideal(g))
  {
    hide Own, Ideal, Nullable;
    forall i | 0 <= i < |g|
      ensures Closed(g, Marks(g), Ideal(g), i)
    {
      IdealOwn(g, i);
      if Marks(g)[i] {
        NullableTakesAll(g, i);
      }
    }
  }

  // ---- FIRST and FOLLOW are exact

  /**
   The FIRST list of a node holds every token that begins one of its derivations, and no other unless something at its
   front accepts the empty sequence and so takes over what may follow.
   */
  lemma FirstExact(g: Grammar, lists: Lists, i: nat, x: Token)
    requires WellFormed(g) && Productive(g) && AllClosed(g, Marks(g), lists) && Minimal(g, lists) && i < |g|
    ensures Begins(g, i, x) ==> x in lists[Fst(i)]
    ensures x in lists[Fst(i)] ==> Begins(g, i, x) || Leaky(g, i)
  {
    hide Ideal, Nullable, Productive, Leaky;
    if Begins(g, i, x) {
      var t :| Derives(g, i, t) && Yield(t) != [] && Yield(t)[0] == x;
      FirstComplete(g, Marks(g), lists, i, t);
    }
    if x in lists[Fst(i)] {
      IdealSolves(g);
      assert Under(lists, Ideal(g));
      IdealHas(g, Fst(i), x);
    }
  }

  /**
   The FOLLOW list of a node is exactly the tokens that meet it or a node linked to it, unless what comes
   after one of these can be empty.
   */
  lemma FollowExact(g: Grammar, lists: Lists, i: nat, x: Token)
    requires WellFormed(g) && Productive(g) && AllClosed(g, Marks(g), lists) && Minimal(g, lists) && i < |g|
    ensures x in lists[Flw(i)] ==> MayFollow(g, i, x)
    ensures (forall j :: 0 <= j < |g| ==> !Open(g, j)) && MayFollow(g, i, x) ==> x in lists[Flw(i)]
  {
    assert |lists| == 2 * |g|;
    hide Nullable, Productive, Comes, AllClosed, Open, Minimal;
    if x in lists[Flw(i)] {
      FollowSound(g, lists, i, x);
    }
    if (forall j :: 0 <= j < |g| ==> !Open(g, j)) && MayFollow(g, i, x) {
      var path :| Comes(g, i, path, x);
      ComesIn(g, lists, i, path, x);
    }
  }

  lemma FollowSound(g: Grammar, lists: Lists, i: nat, x: Token)
    requires WellFormed(g) && Productive(g) && Minimal(g, lists) && i < |g| && |lists| == 2 * |g| && x in lists[Flw(i)]
    ensures MayFollow(g, i, x)
  {
    hide Ideal, Nullable, Productive, Solution, MayFollow;
    IdealSolves(g);
    assert Under(lists, Ideal(g));
    IdealHas(g, Flw(i), x);
    Halves(i);
  }

  lemma {:induction false} ComesIn(g: Grammar, lists: Lists, i: nat, path: seq<nat>, x: Token)
    requires WellFormed(g) && AllClosed(g, Marks(g), lists) && i < |g| && Comes(g, i, path, x)
    requires forall j :: 0 <= j < |g| ==> !Open(g, j)
    ensures x in lists[Flw(i)]
    decreases |path|
  {
    hide Nullable, Open, Meets;
    if path == [] {
      MeetsIn(g, lists, i, x);
    } else {
      ComesIn(g, lists, path[0], path[1..], x);
      LinkedLists(g, lists, i, path[0]);
    }
  }

  lemma LinkedLists(g: Grammar, lists: Lists, i: nat, j: nat)
    requires WellFormed(g) && AllClosed(g, Marks(g), lists) && Linked(g, i, j)
    ensures Within(lists[Flw(i)], lists[Flw(j)]) && Within(lists[Flw(j)], lists[Flw(i)])
  {
    hide Nullable, Within;
    assert Closed(g, Marks(g), lists, i) && Closed(g, Marks(g), lists, j);
  }

  lemma MeetsIn(g: Grammar, lists: Lists, j: nat, x: Token)
    requires WellFormed(g) && AllClosed(g, Marks(g), lists) && j < |g| && Meets(g, j, x)
    ensures x in lists[Flw(j)]
  {
    hide Nullable;
    if i, k :| SuccessorAt(g, i, k, j) && Begins(g, g[i].children[k + 1], x) {
      assert Closed(g, Marks(g), lists, i);
      BeginsIn(g, lists, g[i].children[k + 1], x);
    } else {
      var i :| 0 <= i < |g| && g[i] in {Plus(j), Star(j)};
      assert Closed(g, Marks(g), lists, i);
      BeginsIn(g, lists, j, x);
    }
  }

  lemma BeginsIn(g: Grammar, lists: Lists, i: nat, x: Token)
    requires WellFormed(g) && AllClosed(g, Marks(g), lists) && i < |g| && Begins(g, i, x)
    ensures x in lists[Fst(i)]
  {
    hide AllClosed;
    var t :| Derives(g, i, t) && Yield(t) != [] && Yield(t)[0] == x;
    FirstComplete(g, Marks(g), lists, i, t);
  }
}
