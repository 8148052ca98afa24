/** FIRST and FOLLOW: what the second loop of Generator.calculate keeps, why it ends, and what its result contains. */
module FirstFollow {
  import opened Grammars
  import opened Nullability

  /** The lists of all nodes: those of node `i` are at Fst(i) and Flw(i). */
  type Lists = seq<seq<Token>>

  function Fst(i: nat): nat { 2 * i }

  function Flw(i: nat): nat { 2 * i + 1 }

  predicate Within(a: seq<Token>, b: seq<Token>)
  {
    forall x :: x in a ==> x in b
  }

  // ---- the equations

  /** `update` of this node has nothing left to do. */
  predicate Closed(g: Grammar, eps: seq<bool>, s: Lists, i: nat)
    requires WellFormed(g) && |eps| == |g| && |s| == 2 * |g| && i < |g|
  {
    (eps[i] ==> Within(s[Flw(i)], s[Fst(i)])) && Own(g, eps, s, i)
  }

  /** What the class of the node adds to that. */
  predicate Own(g: Grammar, eps: seq<bool>, s: Lists, i: nat)
    requires WellFormed(g) && |eps| == |g| && |s| == 2 * |g| && i < |g|
  {
    match g[i]
    case Terminal(token) => s[Fst(i)] == [token]
    case Eval => true
    case NonTerminal(j) =>
      Within(s[Fst(i)], s[Fst(j)]) && Within(s[Fst(j)], s[Fst(i)]) && Within(s[Flw(i)], s[Flw(j)]) && Within(s[Flw(j)], s[Flw(i)])
    case Sequence(cs) => Chained(eps, s, i, cs)
    case Choice(cs) => Offered(s, i, cs)
    case Option(c) => Wrapped(s, i, c)
    case Plus(c) => Wrapped(s, i, c) && Within(s[Fst(c)], s[Flw(c)])
    case Star(c) => Wrapped(s, i, c) && Within(s[Fst(c)], s[Flw(c)])
  }

  /** The list whose tokens can come after the `k`-th child of a sequence. */
  function Next(i: nat, cs: seq<nat>, k: nat): nat
    requires k < |cs|
  {
    if k == |cs| - 1 then Flw(i) else Fst(cs[k + 1])
  }

  predicate ChainedUpto(eps: seq<bool>, s: Lists, i: nat, cs: seq<nat>, n: nat)
    requires |s| == 2 * |eps| && i < |eps| && n <= |cs| && forall k :: 0 <= k < |cs| ==> cs[k] < |eps|
  {
    forall k :: 0 <= k < n ==>
      (AllMarked(eps, cs, k) ==> Within(s[Fst(cs[k])], s[Fst(i)])) && Within(s[Next(i, cs, k)], s[Flw(cs[k])])
  }

  predicate Chained(eps: seq<bool>, s: Lists, i: nat, cs: seq<nat>)
    requires |s| == 2 * |eps| && i < |eps| && forall k :: 0 <= k < |cs| ==> cs[k] < |eps|
  {
    ChainedUpto(eps, s, i, cs, |cs|) && (cs != [] ==> Within(s[Flw(cs[|cs| - 1])], s[Flw(i)]))
  }

  predicate Offered(s: Lists, i: nat, cs: seq<nat>)
    requires 2 * i + 1 < |s| && forall k :: 0 <= k < |cs| ==> 2 * cs[k] + 1 < |s|
  {
    forall k :: 0 <= k < |cs| ==>
      Within(s[Fst(cs[k])], s[Fst(i)]) && Within(s[Flw(cs[k])], s[Flw(i)]) && Within(s[Flw(i)], s[Flw(cs[k])])
  }

  predicate Wrapped(s: Lists, i: nat, c: nat)
    requires Flw(i) < |s| && Flw(c) < |s|
  {
    Within(s[Fst(c)], s[Fst(i)]) && Within(s[Flw(c)], s[Flw(i)]) && Within(s[Flw(i)], s[Flw(c)])
  }

  /** The first `k` children accept the empty sequence. */
  predicate AllMarked(eps: seq<bool>, cs: seq<nat>, k: nat)
    requires k <= |cs| && forall j :: 0 <= j < |cs| ==> cs[j] < |eps|
  {
    forall j :: 0 <= j < k ==> eps[cs[j]]
  }

  ghost predicate AllClosed(g: Grammar, eps: seq<bool>, s: Lists)
    requires WellFormed(g)
  {
    |eps| == |g| && |s| == 2 * |g| && (forall i :: 0 <= i < |g| ==> Closed(g, eps, s, i)) &&
    forall i :: 0 <= i < |g| && Nullable(g, i) ==> eps[i]
  }

  // ---- FIRST is complete

  /** Every token that can begin a derivation of the node is in its FIRST list. */
  lemma {:induction false} FirstComplete(g: Grammar, eps: seq<bool>, s: Lists, i: nat, t: Tree)
    requires WellFormed(g) && AllClosed(g, eps, s) && i < |g| && Derives(g, i, t) && Yield(t) != []
    ensures Yield(t)[0] in s[Fst(i)]
    decreases t
  {
    hide Nullable;
    assert Closed(g, eps, s, i);
    match g[i] {
      case Terminal(_) =>
      case Eval =>
      case NonTerminal(j) => FirstComplete(g, eps, s, j, t.t);
      case Sequence(cs) =>
        var k := StartsAt(t.ts);
        FirstComplete(g, eps, s, cs[k], t.ts[k]);
        forall j | 0 <= j < k
          ensures eps[cs[j]]
        {
          Marked(g, eps, s, cs[j], t.ts[j]);
        }
        assert AllMarked(eps, cs, k);
      case Choice(cs) => FirstComplete(g, eps, s, cs[t.k], t.t);
      case Option(c) => FirstOfRep(g, eps, s, c, t.ts);
      case Plus(c) => FirstOfRep(g, eps, s, c, t.ts);
      case Star(c) => FirstOfRep(g, eps, s, c, t.ts);
    }
  }

  lemma Marked(g: Grammar, eps: seq<bool>, s: Lists, i: nat, t: Tree)
    requires WellFormed(g) && AllClosed(g, eps, s) && i < |g| && Derives(g, i, t) && Yield(t) == []
    ensures eps[i]
  {
    assert Nullable(g, i);
  }

  lemma {:induction false} FirstOfRep(g: Grammar, eps: seq<bool>, s: Lists, c: nat, ts: seq<Tree>)
    requires WellFormed(g) && AllClosed(g, eps, s) && c < |g| && YieldAll(ts) != []
    requires forall k :: 0 <= k < |ts| ==> Derives(g, c, ts[k])
    ensures YieldAll(ts)[0] in s[Fst(c)]
    decreases ts
  {
    var k := StartsAt(ts);
    FirstComplete(g, eps, s, c, ts[k]);
  }

  // ---- FOLLOW is complete

  /** A node in a derivation, its subtree, and the tokens that come after it. */
  datatype Occurrence = Nowhere | At(i: nat, t: Tree, rest: seq<Token>)

  /** Follows a path down a derivation of node `i` that is itself followed by `after`. */
  function Locate(g: Grammar, i: nat, t: Tree, after: seq<Token>, path: seq<nat>): Occurrence
    requires WellFormed(g) && i < |g| && Derives(g, i, t)
    decreases t
  {
    if path == [] then At(i, t, after) else
    match g[i]
    case Terminal(_) => Nowhere
    case Eval => Nowhere
    case NonTerminal(j) => Locate(g, j, t.t, after, path[1..])
    case Sequence(cs) => var k := path[0];
      if k < |cs| then Locate(g, cs[k], t.ts[k], YieldAll(t.ts[k + 1..]) + after, path[1..]) else Nowhere
    case Choice(cs) => Locate(g, cs[t.k], t.t, after, path[1..])
    case Option(c) => var k := path[0];
      if k < |t.ts| then Locate(g, c, t.ts[k], YieldAll(t.ts[k + 1..]) + after, path[1..]) else Nowhere
    case Plus(c) => var k := path[0];
      if k < |t.ts| then Locate(g, c, t.ts[k], YieldAll(t.ts[k + 1..]) + after, path[1..]) else Nowhere
    case Star(c) => var k := path[0];
      if k < |t.ts| then Locate(g, c, t.ts[k], YieldAll(t.ts[k + 1..]) + after, path[1..]) else Nowhere
  }

  /** What can come after a node is in its FOLLOW list, as far as there is something after it. */
  predicate Announces(s: Lists, i: nat, after: seq<Token>)
    requires Flw(i) < |s|
  {
    after != [] ==> after[0] in s[Flw(i)]
  }

  /** Every token that comes right after an occurrence of a node in a derivation from a goal is in its FOLLOW list. */
  lemma {:induction false} FollowComplete(g: Grammar, eps: seq<bool>, s: Lists, i: nat, t: Tree, after: seq<Token>, path: seq<nat>)
    requires WellFormed(g) && AllClosed(g, eps, s) && i < |g| && Derives(g, i, t) && Announces(s, i, after)
    ensures var o := Locate(g, i, t, after, path);
      o.At? ==> o.i < |g| && Announces(s, o.i, o.rest)
    decreases t
  {
    hide Nullable, Yield, YieldAll, AllMarked, AllClosed, Within, Announces, ChainedUpto;
    ClosedAt(g, eps, s, i);
    if path != [] {
      var k, more := path[0], path[1..];
      match g[i] {
        case Terminal(_) =>
        case Eval =>
        case NonTerminal(j) =>
          Passes(s, i, j, after);
          FollowComplete(g, eps, s, j, t.t, after, more);
        case Sequence(cs) =>
          if k < |cs| {
            AfterChild(g, eps, s, i, t.ts, after, k);
            FollowComplete(g, eps, s, cs[k], t.ts[k], YieldAll(t.ts[k + 1..]) + after, more);
          }
        case Choice(cs) =>
          Passes(s, i, cs[t.k], after);
          FollowComplete(g, eps, s, cs[t.k], t.t, after, more);
        case Option(c) => FollowOfRep(g, eps, s, i, c, t.ts, after, k, more);
        case Plus(c) => FollowOfRep(g, eps, s, i, c, t.ts, after, k, more);
        case Star(c) => FollowOfRep(g, eps, s, i, c, t.ts, after, k, more);
      }
    }
  }

  lemma Passes(s: Lists, i: nat, j: nat, after: seq<Token>)
    requires Flw(i) < |s| && Flw(j) < |s| && Within(s[Flw(i)], s[Flw(j)]) && Announces(s, i, after)
    ensures Announces(s, j, after)
  {
  }

  lemma ClosedAt(g: Grammar, eps: seq<bool>, s: Lists, i: nat)
    requires WellFormed(g) && AllClosed(g, eps, s) && i < |g|
    ensures |eps| == |g| && |s| == 2 * |g| && Closed(g, eps, s, i)
  {
  }

  lemma {:induction false} FollowOfRep(g: Grammar, eps: seq<bool>, s: Lists, i: nat, c: nat, ts: seq<Tree>, after: seq<Token>, k: nat, more: seq<nat>)
    requires WellFormed(g) && AllClosed(g, eps, s) && i < |g| && c < |g| && Announces(s, i, after)
    requires forall j :: 0 <= j < |ts| ==> Derives(g, c, ts[j])
    requires Within(s[Flw(i)], s[Flw(c)]) && (|ts| <= 1 || Within(s[Fst(c)], s[Flw(c)]))
    ensures k < |ts| ==>
      var o := Locate(g, c, ts[k], YieldAll(ts[k + 1..]) + after, more);
      o.At? ==> o.i < |g| && Announces(s, o.i, o.rest)
    decreases ts, 0
  {
    if k < |ts| {
      var rest := YieldAll(ts[k + 1..]) + after;
      if YieldAll(ts[k + 1..]) != [] {
        FirstOfRep(g, eps, s, c, ts[k + 1..]);
      }
      FollowComplete(g, eps, s, c, ts[k], rest, more);
    }
  }

  /** What comes after a child of a sequence. */
  lemma {:induction false} AfterChild(g: Grammar, eps: seq<bool>, s: Lists, i: nat, ts: seq<Tree>, after: seq<Token>, k: nat)
    requires WellFormed(g) && AllClosed(g, eps, s) && i < |g| && g[i].Sequence? && k < |g[i].children| == |ts|
    requires forall j :: 0 <= j < |ts| ==> Derives(g, g[i].children[j], ts[j])
    requires Announces(s, i, after)
    ensures Announces(s, g[i].children[k], YieldAll(ts[k + 1..]) + after)
    decreases |ts| - k
  {
    hide Nullable;
    assert Closed(g, eps, s, i);
    var cs := g[i].children;
    if k == |ts| - 1 {
      assert YieldAll(ts[k + 1..]) + after == after;
    } else {
      var c, u := cs[k + 1], ts[k + 1];
      assert ts[k + 1..][1..] == ts[k + 2..];
      AfterChild(g, eps, s, i, ts, after, k + 1);
      if Yield(u) == [] {
        Marked(g, eps, s, c, u);
        assert Closed(g, eps, s, c);
        assert YieldAll(ts[k + 1..]) == YieldAll(ts[k + 2..]);
      } else {
        FirstComplete(g, eps, s, c, u);
      }
    }
  }

  /** The tokens that `Locate` reports are really those that come after the subtree. */
  lemma {:induction false} LocateSplits(g: Grammar, i: nat, t: Tree, after: seq<Token>, path: seq<nat>) returns (before: seq<Token>)
    requires WellFormed(g) && i < |g| && Derives(g, i, t)
    ensures var o := Locate(g, i, t, after, path);
      o.At? ==> o.i < |g| && Derives(g, o.i, o.t) && Yield(t) + after == before + Yield(o.t) + o.rest
    decreases t
  {
    before := [];
    if path == [] {
      assert [] + Yield(t) == Yield(t);
    } else {
      var k, more := path[0], path[1..];
      match g[i] {
        case Terminal(_) =>
        case Eval =>
        case NonTerminal(j) => before := LocateSplits(g, j, t.t, after, more);
        case Sequence(cs) =>
          if k < |cs| {
            before := SplitsAmong(g, cs[k], t.ts, after, k, more);
          }
        case Choice(cs) => before := LocateSplits(g, cs[t.k], t.t, after, more);
        case Option(c) => if k < |t.ts| { before := SplitsAmong(g, c, t.ts, after, k, more); }
        case Plus(c) => if k < |t.ts| { before := SplitsAmong(g, c, t.ts, after, k, more); }
        case Star(c) => if k < |t.ts| { before := SplitsAmong(g, c, t.ts, after, k, more); }
      }
    }
  }

  lemma {:induction false} SplitsAmong(g: Grammar, c: nat, ts: seq<Tree>, after: seq<Token>, k: nat, more: seq<nat>) returns (before: seq<Token>)
    requires WellFormed(g) && c < |g| && k < |ts| && Derives(g, c, ts[k])
    ensures var o := Locate(g, c, ts[k], YieldAll(ts[k + 1..]) + after, more);
      o.At? ==> o.i < |g| && Derives(g, o.i, o.t) && YieldAll(ts) + after == before + Yield(o.t) + o.rest
    decreases ts, 0
  {
    hide Locate, Yield, YieldAll, Derives;
    var rest := YieldAll(ts[k + 1..]) + after;
    var inner := LocateSplits(g, c, ts[k], rest, more);
    YieldAround(ts, k);
    before := YieldAll(ts[..k]) + inner;
    var o := Locate(g, c, ts[k], rest, more);
    if o.At? {
      Regroup(YieldAll(ts[..k]), Yield(ts[k]), YieldAll(ts[k + 1..]), after, inner, Yield(o.t), o.rest);
    }
  }

  lemma Regroup(a: seq<Token>, b: seq<Token>, c: seq<Token>, d: seq<Token>, x: seq<Token>, y: seq<Token>, z: seq<Token>)
    requires b + (c + d) == x + y + z
    ensures a + b + c + d == (a + x) + y + z
  {
    assert a + b + c + d == a + (b + (c + d));
    assert (a + x) + y + z == a + (x + y + z);
  }

  lemma {:induction false} YieldAround(ts: seq<Tree>, k: nat)
    requires k < |ts|
    ensures YieldAll(ts) == YieldAll(ts[..k]) + Yield(ts[k]) + YieldAll(ts[k + 1..])
  {
    hide Yield;
    if k == 0 {
      assert ts[..0] == [] && [] + Yield(ts[0]) == Yield(ts[0]);
    } else {
      YieldAround(ts[1..], k - 1);
      assert ts[1..][..k - 1] == ts[..k][1..] && ts[1..][k..] == ts[k + 1..] && ts[..k][0] == ts[0];
      Prefixed(Yield(ts[0]), YieldAll(ts[..k][1..]), Yield(ts[k]), YieldAll(ts[k + 1..]));
    }
  }

  lemma Prefixed(a: seq<Token>, b: seq<Token>, c: seq<Token>, d: seq<Token>)
    ensures a + (b + c + d) == (a + b) + c + d
  {
  }

  // ---- what the lists keep

  function Tokens(g: Grammar): set<Token>
  {
    set i | 0 <= i < |g| && g[i].Terminal? :: g[i].token
  }

  predicate NoDuplicates(a: seq<Token>)
  {
    forall i, j :: 0 <= i < j < |a| ==> a[i] != a[j]
  }

  /** A list of tokens of the grammar, none of them twice. */
  predicate Sane(g: Grammar, a: seq<Token>)
  {
    NoDuplicates(a) && forall x :: x in a ==> x in Tokens(g)
  }

  /** The token a node stands for: a terminal, or a non-terminal whose rule is just that. */
  function Stands(g: Grammar, i: nat, steps: nat): seq<Token>
    requires WellFormed(g) && i < |g|
    decreases steps
  {
    match g[i]
    case Terminal(token) => [token]
    case NonTerminal(j) => if steps > 0 then Stands(g, j, steps - 1) else []
    case _ => []
  }

  /** A node that stands for a token has no other token in its FIRST list. */
  ghost predicate Single(g: Grammar, s: Lists, i: nat)
    requires WellFormed(g) && i < |g| && |s| == 2 * |g|
  {
    forall n: nat :: Stands(g, i, n) != [] ==> Within(s[Fst(i)], Stands(g, i, n))
  }

  ghost predicate Good(g: Grammar, s: Lists)
    requires WellFormed(g)
  {
    |s| == 2 * |g| && (forall k :: 0 <= k < |s| ==> Sane(g, s[k])) && forall i :: 0 <= i < |g| ==> Single(g, s, i)
  }

  /** A node that stands for a token does not derive the empty sequence. */
  lemma {:induction false} StandsNotNullable(g: Grammar, i: nat, n: nat, t: Tree)
    requires WellFormed(g) && i < |g| && Stands(g, i, n) != [] && Derives(g, i, t)
    ensures Yield(t) != []
    decreases n
  {
    match g[i] {
      case Terminal(_) =>
      case NonTerminal(j) => StandsNotNullable(g, j, n - 1, t.t);
    }
  }

  /** How many tokens the lists could still take. */
  function Room(s: Lists, n: nat): int
  {
    if s == [] then 0 else Room(s[..|s| - 1], n) + (n - |s[|s| - 1]|)
  }

  lemma {:induction false} RoomUpdate(s: Lists, n: nat, p: nat, a: seq<Token>)
    requires p < |s|
    ensures Room(s[p := a], n) == Room(s, n) + |s[p]| - |a|
  {
    var m := |s| - 1;
    if p < m {
      RoomUpdate(s[..m], n, p, a);
      assert s[p := a][..m] == s[..m][p := a];
    } else {
      assert s[p := a][..m] == s[..m];
    }
  }

  lemma {:induction false} RoomLeft(g: Grammar, s: Lists)
    requires forall k :: 0 <= k < |s| ==> Sane(g, s[k])
    ensures Room(s, |Tokens(g)|) >= 0
  {
    if s != [] {
      RoomLeft(g, s[..|s| - 1]);
      FewTokens(s[|s| - 1], Tokens(g));
    }
  }

  lemma {:induction false} FewTokens(a: seq<Token>, all: set<Token>)
    requires NoDuplicates(a) && forall x :: x in a ==> x in all
    ensures |a| <= |all|
  {
    if a != [] {
      var last := a[|a| - 1];
      var rest := all - {last};
      assert forall k :: 0 <= k < |a| - 1 ==> a[k] != last;
      FewTokens(a[..|a| - 1], rest);
      assert last in a;
      assert |rest| == |all| - 1;
    }
  }

  /** From one state of the lists and the change count to a later one: what was there stays, and every change is counted. */
  predicate Grown(n: nat, s0: Lists, c0: nat, s1: Lists, c1: nat)
  {
    |s0| == |s1| && c0 <= c1 && (c0 == c1 ==> s0 == s1) && Room(s0, n) == Room(s1, n) + (c1 - c0) &&
    forall k :: 0 <= k < |s0| ==> s0[k] <= s1[k]
  }

  lemma GrownTwice(n: nat, s0: Lists, c0: nat, s1: Lists, c1: nat, s2: Lists, c2: nat)
    requires Grown(n, s0, c0, s1, c1) && Grown(n, s1, c1, s2, c2)
    ensures Grown(n, s0, c0, s2, c2)
  {
    hide Room;
  }

  lemma GrownOnce(n: nat, s: Lists, c: nat, p: nat, x: Token)
    requires p < |s|
    ensures Grown(n, s, c, s[p := s[p] + [x]], c + 1)
  {
    RoomUpdate(s, n, p, s[p] + [x]);
  }

  lemma SaneSnoc(g: Grammar, a: seq<Token>, x: Token)
    requires Sane(g, a) && x !in a && x in Tokens(g)
    ensures Sane(g, a + [x])
  {
  }

  /** Appending a token to a list keeps the lists good, if a FIRST list may take that token. */
  lemma GoodSnoc(g: Grammar, s: Lists, p: nat, x: Token)
    requires WellFormed(g) && Good(g, s) && p < |s| && x !in s[p] && x in Tokens(g) && MayTake(g, p, x)
    ensures Good(g, s[p := s[p] + [x]])
  {
    hide Stands, Sane;
    var s' := s[p := s[p] + [x]];
    SaneSnoc(g, s[p], x);
    forall i, n: nat | 0 <= i < |g| && Stands(g, i, n) != []
      ensures Within(s'[Fst(i)], Stands(g, i, n))
    {
      assert Single(g, s, i);
    }
  }

  /** The list at `p` is not the FIRST list of a node that stands for another token. */
  ghost predicate MayTake(g: Grammar, p: nat, x: Token)
    requires WellFormed(g) && p < 2 * |g|
  {
    forall i, n: nat :: 0 <= i < |g| && p == Fst(i) && Stands(g, i, n) != [] ==> x in Stands(g, i, n)
  }

  lemma FollowTakes(g: Grammar, i: nat, x: Token)
    requires WellFormed(g) && i < |g|
    ensures MayTake(g, Flw(i), x)
  {
  }

  /** A node that accepts the empty sequence stands for no token. */
  lemma MarkedTakes(g: Grammar, eps: seq<bool>, i: nat, x: Token)
    requires WellFormed(g) && Justified(g, eps) && i < |g| && eps[i]
    ensures MayTake(g, Fst(i), x)
  {
    forall n: nat
      ensures Stands(g, i, n) == []
    {
      if Stands(g, i, n) != [] {
        var t :| Derives(g, i, t) && Yield(t) == [];
        StandsNotNullable(g, i, n, t);
      }
    }
  }

  lemma OthersTake(g: Grammar, i: nat, x: Token)
    requires WellFormed(g) && i < |g| && !g[i].Terminal? && !g[i].NonTerminal?
    ensures MayTake(g, Fst(i), x)
  {
    assert forall n: nat :: Stands(g, i, n) == [];
  }

  /** What is in the list of a node may be there. */
  lemma SelfTakes(g: Grammar, s: Lists, i: nat, x: Token)
    requires WellFormed(g) && Good(g, s) && i < |g| && x in s[Fst(i)]
    ensures MayTake(g, Fst(i), x)
  {
    assert Single(g, s, i);
  }

  /** A non-terminal and its target stand for the same token. */
  lemma TargetTakes(g: Grammar, s: Lists, i: nat, x: Token)
    requires WellFormed(g) && Good(g, s) && i < |g| && g[i].NonTerminal?
    requires x in s[Fst(i)] || x in s[Fst(g[i].target)]
    ensures MayTake(g, Fst(i), x) && MayTake(g, Fst(g[i].target), x)
  {
    var j := g[i].target;
    if x in s[Fst(j)] {
      SelfTakes(g, s, j, x);
    } else {
      SelfTakes(g, s, i, x);
    }
    forall n: nat | Stands(g, i, n) != []
      ensures x in Stands(g, i, n)
    {
      assert Stands(g, i, n) == Stands(g, j, n - 1);
    }
    forall n: nat | Stands(g, j, n) != []
      ensures x in Stands(g, j, n)
    {
      assert Stands(g, i, n + 1) == Stands(g, j, n);
    }
  }

  /** The FIRST list of a terminal is empty or already what it should be. */
  lemma TerminalFirst(g: Grammar, s: Lists, i: nat)
    requires WellFormed(g) && Good(g, s) && i < |g| && g[i].Terminal?
    ensures s[Fst(i)] == [] || s[Fst(i)] == [g[i].token]
    ensures g[i].token in Tokens(g) && MayTake(g, Fst(i), g[i].token)
  {
    var a := s[Fst(i)];
    assert Stands(g, i, 0) == [g[i].token];
    assert Single(g, s, i) && Sane(g, a);
    assert forall k :: 0 <= k < |a| ==> a[k] in a;
    FewTokens(a, {g[i].token});
  }

  predicate ClosedBelow(g: Grammar, eps: seq<bool>, s: Lists, r: nat)
    requires WellFormed(g) && |eps| == |g| && |s| == 2 * |g| && r < |g|
  {
    forall i :: 0 <= i < |g| && Below(g, r, i) ==> Closed(g, eps, s, i)
  }

  lemma ClosedTree(g: Grammar, eps: seq<bool>, s: Lists, i: nat)
    requires WellFormed(g) && |eps| == |g| && |s| == 2 * |g| && i < |g| && Closed(g, eps, s, i)
    requires forall k :: 0 <= k < |Children(g[i])| ==> ClosedBelow(g, eps, s, Children(g[i])[k])
    ensures ClosedBelow(g, eps, s, i)
  {
    hide Closed;
    forall j | 0 <= j < |g| && Below(g, i, j)
      ensures Closed(g, eps, s, j)
    {
      if j != i {
        var k :| 0 <= k < |Children(g[i])| && Below(g, Children(g[i])[k], j);
      }
    }
  }

  lemma ClosedEverywhere(g: Grammar, eps: seq<bool>, s: Lists, goals: seq<nat>)
    requires WellFormed(g) && |eps| == |g| && |s| == 2 * |g| && Covered(g, goals)
    requires forall k :: 0 <= k < |goals| ==> ClosedBelow(g, eps, s, goals[k])
    ensures forall i :: 0 <= i < |g| ==> Closed(g, eps, s, i)
  {
    hide Closed;
    forall i | 0 <= i < |g|
      ensures Closed(g, eps, s, i)
    {
      assert Reached(g, goals, i);
    }
  }
}
