/** Grammars as yapps sees them, and what their nodes derive: the node classes of pylib/yapps/parsetree.py. */
module Grammars {
  type Token = string

  /**
   A node of a grammar, by its number.  Nodes are numbered so that children come before their parents;
   a non-terminal refers to the root of a rule, which may be any node, or to itself if there is no
   such rule.
   */
  datatype Node =
    | Terminal(token: Token)
    | Eval
    | NonTerminal(target: nat)
    | Sequence(children: seq<nat>)
    | Choice(children: seq<nat>)
    | Option(child: nat)
    | Plus(child: nat)
    | Star(child: nat)

  type Grammar = seq<Node>

  function Children(n: Node): seq<nat>
  {
    match n
    case Terminal(_) => []
    case Eval => []
    case NonTerminal(_) => []
    case Sequence(cs) => cs
    case Choice(cs) => cs
    case Option(c) => [c]
    case Plus(c) => [c]
    case Star(c) => [c]
  }

  /** Node number `i` of a grammar of `n` nodes refers to earlier nodes, and to the root of a rule. */
  predicate Placed(node: Node, i: nat, n: nat)
  {
    (forall k :: 0 <= k < |Children(node)| ==> Children(node)[k] < i) &&
    match node
    case Terminal(_) => true
    case Eval => true
    case NonTerminal(j) => j < n
    case Sequence(cs) => forall k :: 0 <= k < |cs| ==> cs[k] < i
    case Choice(cs) => forall k :: 0 <= k < |cs| ==> cs[k] < i
    case Option(c) => c < i
    case Plus(c) => c < i
    case Star(c) => c < i
  }

  predicate WellFormed(g: Grammar)
  {
    forall i :: 0 <= i < |g| ==> Placed(g[i], i, |g|)
  }

  /** Node `i` belongs to the tree of node `r`. */
  predicate Below(g: Grammar, r: nat, i: nat)
    requires WellFormed(g) && r < |g|
    decreases r
  {
    i == r || exists k :: 0 <= k < |Children(g[r])| && Below(g, Children(g[r])[k], i)
  }

  /** Every node belongs to the tree of some rule. */
  predicate Covered(g: Grammar, goals: seq<nat>)
    requires WellFormed(g)
  {
    (forall k :: 0 <= k < |goals| ==> goals[k] < |g|) &&
    forall i :: 0 <= i < |g| ==> Reached(g, goals, i)
  }

  predicate Reached(g: Grammar, goals: seq<nat>, i: nat)
    requires WellFormed(g) && forall k :: 0 <= k < |goals| ==> goals[k] < |g|
  {
    exists k :: 0 <= k < |goals| && Below(g, goals[k], i)
  }

  // ---- what a node derives

  datatype Tree = Leaf(token: Token) | Nil | Call(t: Tree) | All(ts: seq<Tree>) | Pick(k: nat, t: Tree) | Rep(ts: seq<Tree>)

  predicate Derives(g: Grammar, i: nat, t: Tree)
    requires WellFormed(g) && i < |g|
    decreases t
  {
    match g[i]
    case Terminal(token) => t == Leaf(token)
    case Eval => t == Nil
    case NonTerminal(j) => t.Call? && Derives(g, j, t.t)
    case Sequence(cs) => t.All? && |t.ts| == |cs| && forall k :: 0 <= k < |cs| ==> Derives(g, cs[k], t.ts[k])
    case Choice(cs) => t.Pick? && t.k < |cs| && Derives(g, cs[t.k], t.t)
    case Option(c) => t.Rep? && |t.ts| <= 1 && forall k :: 0 <= k < |t.ts| ==> Derives(g, c, t.ts[k])
    case Plus(c) => t.Rep? && |t.ts| >= 1 && forall k :: 0 <= k < |t.ts| ==> Derives(g, c, t.ts[k])
    case Star(c) => t.Rep? && forall k :: 0 <= k < |t.ts| ==> Derives(g, c, t.ts[k])
  }

  function Yield(t: Tree): seq<Token>
    decreases t, 0
  {
    match t
    case Leaf(token) => [token]
    case Nil => []
    case Call(u) => Yield(u)
    case All(ts) => YieldAll(ts)
    case Pick(_, u) => Yield(u)
    case Rep(ts) => YieldAll(ts)
  }

  function YieldAll(ts: seq<Tree>): seq<Token>
    decreases ts, 1
  {
    if ts == [] then [] else Yield(ts[0]) + YieldAll(ts[1..])
  }

  /** The node derives the empty sequence. */
  ghost predicate Nullable(g: Grammar, i: nat)
    requires WellFormed(g) && i < |g|
  {
    exists t :: Derives(g, i, t) && Yield(t) == []
  }

  // ---- empty yields

  lemma {:induction false} AllEmpty(ts: seq<Tree>)
    ensures YieldAll(ts) == [] <==> forall k :: 0 <= k < |ts| ==> Yield(ts[k]) == []
  {
    if ts != [] {
      AllEmpty(ts[1..]);
    }
  }

  /** A non-empty yield starts with that of the first tree whose yield is not empty. */
  lemma {:induction false} StartsAt(ts: seq<Tree>) returns (k: nat)
    requires YieldAll(ts) != []
    ensures k < |ts| && Yield(ts[k]) != [] && Yield(ts[k])[0] == YieldAll(ts)[0]
    ensures forall j :: 0 <= j < k ==> Yield(ts[j]) == []
  {
    if Yield(ts[0]) != [] {
      k := 0;
    } else {
      var m := StartsAt(ts[1..]);
      k := m + 1;
    }
  }

  /** Trees for a list of nullable nodes, none of which yields a token. */
  lemma {:induction false} EmptyTrees(g: Grammar, cs: seq<nat>) returns (ts: seq<Tree>)
    requires WellFormed(g) && forall k :: 0 <= k < |cs| ==> cs[k] < |g| && Nullable(g, cs[k])
    ensures |ts| == |cs| && YieldAll(ts) == [] && forall k :: 0 <= k < |cs| ==> Derives(g, cs[k], ts[k])
  {
    if cs == [] {
      ts := [];
    } else {
      var rest := EmptyTrees(g, cs[1..]);
      var t :| Derives(g, cs[0], t) && Yield(t) == [];
      ts := [t] + rest;
    }
  }
}
