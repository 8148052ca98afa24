/** The dispatch that Choice.output of pylib/yapps/parsetree.py emits for the alternatives of a choice. */
module ChoiceOutput {
  import opened Grammars
  import opened FirstFollow

  // ---- tests on the next token

  datatype Test = Never | Always | Is(x: Token) | IsNot(x: Token) | OneOf(xs: seq<Token>) | NoneOf(xs: seq<Token>)

  predicate Holds(t: Test, token: Token)
  {
    match t
    case Never => false
    case Always => true
    case Is(x) => token == x
    case IsNot(x) => token != x
    case OneOf(xs) => token in xs
    case NoneOf(xs) => token !in xs
  }

  function NotInTest(set_: seq<Token>): Test
  {
    if set_ == [] then Always else if |set_| == 1 then IsNot(set_[0]) else NoneOf(set_)
  }

  /** Tests for membership in `set_`; the complement within `full` is used when it is the shorter list. */
  function InTest(full: seq<Token>, set_: seq<Token>): Test
  {
    if set_ == [] then Never
    else if |set_| == 1 then Is(set_[0])
    else if full != [] && |set_| > |full| / 2 then NotInTest(Without(full, set_))
    else OneOf(set_)
  }

  function Without(full: seq<Token>, set_: seq<Token>): (r: seq<Token>)
    ensures forall x :: x in r <==> x in full && x !in set_
  {
    if full == [] then [] else
    (if full[0] in set_ then [] else [full[0]]) + Without(full[1..], set_)
  }

  /** A member passes the test, and what is in `full` but no member fails it. */
  lemma InTestMeaning(full: seq<Token>, set_: seq<Token>, token: Token)
    ensures token in set_ ==> Holds(InTest(full, set_), token)
    ensures token in full && token !in set_ ==> !Holds(InTest(full, set_), token)
  {
  }

  // ---- the emitted statement

  /** A line of the statement with the alternative under it; `If` stands for elif behind another branch. */
  datatype Branch = Bare(alt: nat) | If(test: Test, alt: nat) | Else(alt: nat) | Raise

  /** What a statement does: it runs an alternative, raises an error, or does nothing at all. */
  datatype Choice = Runs(alt: nat) | Raises | Nothing

  function Execute(branches: seq<Branch>, token: Token): Choice
  {
    if branches == [] then Nothing else
    match branches[0]
    case Bare(k) => Runs(k)
    case Else(k) => Runs(k)
    case If(t, k) => if Holds(t, token) then Runs(k) else Execute(branches[1..], token)
    case Raise => Raises
  }

  /**
   The branches form one statement: only the last may be unconditional, and there is no else without an
   if.  The text of the alternatives is not looked at.
   */
  predicate Syntactic(branches: seq<Branch>)
  {
    (forall i :: 0 <= i < |branches| - 1 ==> branches[i].If?) &&
    (branches != [] ==> !branches[0].Else? && !branches[0].Raise?) &&
    forall i :: 1 <= i < |branches| ==> !branches[i].Bare?
  }

  // ---- how it is computed

  /** The loop that takes the tokens seen before out of `testset` while it iterates over it. */
  datatype Scan = Scan(testset: seq<Token>, unseen: seq<Token>)

  function Removed(a: seq<Token>, x: Token): seq<Token>
  {
    if a == [] then [] else if a[0] == x then a[1..] else [a[0]] + Removed(a[1..], x)
  }

  /** From position `i` on; a removal moves the next token to a position that has been passed already. */
  function ScanFrom(testset: seq<Token>, i: nat, seen: seq<Token>, unseen: seq<Token>): Scan
    requires i <= |testset|
    decreases |testset| - i
  {
    if i == |testset| then Scan(testset, unseen) else
    var x := testset[i];
    if x in seen then
      var shorter := testset[..i] + testset[i + 1..];
      if i < |shorter| then ScanFrom(shorter, i + 1, seen, Removed(unseen, x)) else Scan(shorter, Removed(unseen, x))
    else
      ScanFrom(testset, i + 1, seen, Removed(unseen, x))
  }

  datatype State = State(seen: seq<Token>, unseen: seq<Token>, branches: seq<Branch>)

  /** One alternative, with its FIRST list. */
  function Emit(s: State, k: nat, first: seq<Token>): State
  {
    var r := ScanFrom(first, 0, s.seen, s.unseen);
    var seen := s.seen + r.testset;
    if r.testset == [] then State(seen, r.unseen, s.branches)
    else if r.unseen == [] then State(seen, r.unseen, s.branches + [if s.branches == [] then Bare(k) else Else(k)])
    else State(seen, r.unseen, s.branches + [If(InTest(r.unseen, r.testset), k)])
  }

  function EmitAll(full: seq<Token>, alts: seq<seq<Token>>): State
  {
    if alts == [] then State([], full, []) else
    Emit(EmitAll(full, alts[..|alts| - 1]), |alts| - 1, alts[|alts| - 1])
  }

  function Statement(full: seq<Token>, alts: seq<seq<Token>>): seq<Branch>
  {
    var s := EmitAll(full, alts);
    s.branches + if s.unseen != [] then [Raise] else []
  }

  // ---- the loops

  /** The loop over `testset`, which it shortens. */
  method TakeSeen(first: seq<Token>, seen: seq<Token>, tokensUnseen: seq<Token>) returns (testset: seq<Token>, unseen: seq<Token>)
    ensures Scan(testset, unseen) == ScanFrom(first, 0, seen, tokensUnseen)
  {
    testset, unseen := first, tokensUnseen;
    var i := 0;
    while i < |testset|
      invariant ScanFrom(first, 0, seen, tokensUnseen) == if i <= |testset| then ScanFrom(testset, i, seen, unseen) else Scan(testset, unseen)
      decreases 2 * |testset| - i
    {
      var x := testset[i];
      if x in seen {
        testset := testset[..i] + testset[i + 1..];
      }
      unseen := Removed(unseen, x);
      i := i + 1;
    }
  }

  /** Choice.output, without the text under the branches. */
  method Output(full: seq<Token>, alts: seq<seq<Token>>) returns (branches: seq<Branch>)
    ensures branches == Statement(full, alts)
  {
    var seen: seq<Token>, unseen := [], full;
    branches := [];
    for k := 0 to |alts|
      invariant State(seen, unseen, branches) == EmitAll(full, alts[..k])
    {
      assert alts[..k + 1][..k] == alts[..k];
      var testset;
      testset, unseen := TakeSeen(alts[k], seen, unseen);
      seen := seen + testset;
      if testset != [] {
        if unseen == [] {
          branches := branches + [if branches == [] then Bare(k) else Else(k)];
        } else {
          branches := branches + [If(InTest(unseen, testset), k)];
        }
      }
    }
    assert alts[..|alts|] == alts;
    if unseen != [] {
      branches := branches + [Raise];
    } else {
      assert branches + [] == branches;
    }
  }

  // ---- what a scan keeps

  lemma {:induction false} RemovedMeaning(a: seq<Token>, x: Token)
    requires NoDuplicates(a)
    ensures NoDuplicates(Removed(a, x)) && forall y :: y in Removed(a, x) <==> y in a && y != x
  {
    if a != [] {
      assert NoDuplicates(a[1..]);
      RemovedMeaning(a[1..], x);
      assert a == [a[0]] + a[1..];
      assert a[0] !in a[1..];
      NoDuplicatesCons(a[0], Removed(a[1..], x));
    }
  }

  lemma NoDuplicatesCons(x: Token, a: seq<Token>)
    requires NoDuplicates(a)
    ensures x !in a ==> NoDuplicates([x] + a)
  {
    assert x !in a ==> forall i :: 0 <= i < |a| ==> a[i] != x;
  }

  /** Nothing new gets into the test set, and only tokens seen before are taken out; a token that stops being unseen is seen. */
  lemma {:induction false} ScanKeeps(testset: seq<Token>, i: nat, seen: seq<Token>, unseen: seq<Token>)
    requires i <= |testset| && NoDuplicates(unseen)
    ensures var r := ScanFrom(testset, i, seen, unseen);
      NoDuplicates(r.unseen) && (forall x :: x in r.testset ==> x in testset) &&
      (forall x :: x in testset && x !in seen ==> x in r.testset) &&
      (forall x :: x in r.unseen ==> x in unseen) &&
      (forall x :: x in unseen && x !in testset ==> x in r.unseen) &&
      (forall x :: x in unseen ==> x in r.unseen || x in seen || x in r.testset)
    decreases |testset| - i
  {
    if i < |testset| {
      var x := testset[i];
      RemovedMeaning(unseen, x);
      if x in seen {
        var shorter := testset[..i] + testset[i + 1..];
        assert forall y :: y in shorter ==> y in testset;
        assert testset == testset[..i] + [x] + testset[i + 1..];
        assert forall y :: y in testset && y != x ==> y in shorter;
        if i < |shorter| {
          ScanKeeps(shorter, i + 1, seen, Removed(unseen, x));
        }
      } else {
        ScanKeeps(testset, i + 1, seen, Removed(unseen, x));
      }
    }
  }

  /** If everything has been seen before, every other token is overlooked. */
  lemma {:induction false} ScanOverlooks(testset: seq<Token>, i: nat, seen: seq<Token>, unseen: seq<Token>)
    requires i <= |testset| && forall x :: x in testset ==> x in seen
    ensures |ScanFrom(testset, i, seen, unseen).testset| == i + (|testset| - i) / 2
    decreases |testset| - i
  {
    if i < |testset| {
      var shorter := testset[..i] + testset[i + 1..];
      if i < |shorter| {
        ScanOverlooks(shorter, i + 1, seen, Removed(unseen, testset[i]));
      }
    }
  }

  // ---- the statement selects the first alternative that can begin with the token

  /** The first alternative whose FIRST list holds the token; an error if there is none. */
  function FirstWith(alts: seq<seq<Token>>, token: Token): Choice
  {
    if alts == [] then Raises else
    match FirstWith(alts[..|alts| - 1], token)
    case Runs(k) => Runs(k)
    case _ => if token in alts[|alts| - 1] then Runs(|alts| - 1) else Raises
  }

  lemma {:induction false} NoneWith(alts: seq<seq<Token>>, token: Token)
    requires !FirstWith(alts, token).Runs?
    ensures forall k :: 0 <= k < |alts| ==> token !in alts[k]
  {
    if alts != [] {
      NoneWith(alts[..|alts| - 1], token);
    }
  }

  lemma {:induction false} ExecuteJoin(b: seq<Branch>, c: seq<Branch>, token: Token)
    ensures Execute(b, token).Runs? ==> Execute(b + c, token) == Execute(b, token)
    ensures Passed(b, token) ==> Execute(b, token) == Nothing && Execute(b + c, token) == Execute(c, token)
  {
    if b == [] {
      assert b + c == c;
    } else {
      ExecuteJoin(b[1..], c, token);
      assert (b + c)[0] == b[0] && (b + c)[1..] == b[1..] + c;
    }
  }

  /** None of the branches takes the token. */
  predicate Passed(b: seq<Branch>, token: Token)
  {
    forall i :: 0 <= i < |b| ==> b[i].If? && !Holds(b[i].test, token)
  }

  /** Before its alternative comes, a token is unseen and passes all branches; from then on it is taken there. */
  lemma {:induction false} EmitAllSelects(full: seq<Token>, alts: seq<seq<Token>>, token: Token)
    requires NoDuplicates(full) && token in full
    ensures var s := EmitAll(full, alts);
      NoDuplicates(s.unseen) &&
      if FirstWith(alts, token).Runs? then Execute(s.branches, token) == FirstWith(alts, token)
      else token in s.unseen && token !in s.seen && Passed(s.branches, token)
  {
    hide NoDuplicates, Execute, ScanFrom, InTest;
    if alts != [] {
      var front, first, k := alts[..|alts| - 1], alts[|alts| - 1], |alts| - 1;
      var s, s' := EmitAll(full, front), EmitAll(full, alts);
      EmitAllSelects(full, front, token);
      ScanKeeps(first, 0, s.seen, s.unseen);
      var r := ScanFrom(first, 0, s.seen, s.unseen);
      InTestMeaning(r.unseen, r.testset, token);
      if s'.branches != s.branches {
        var b := s'.branches[|s.branches|];
        assert s'.branches == s.branches + [b];
        ExecuteJoin(s.branches, [b], token);
        OneBranch(b, token);
      }
    }
  }

  lemma OneBranch(b: Branch, token: Token)
    ensures Execute([b], token) ==
      if b.Raise? then Raises else if b.If? && !Holds(b.test, token) then Nothing else Runs(b.alt)
  {
    assert [b][1..] == [];
  }

  /**
   The emitted statement preserves the meaning of the choice: if the branches form one, then for every
   token the scanner may return it runs the first alternative that can begin with the token, and raises
   an error if there is none, whatever tests are written as complements and whatever tokens the loop
   overlooks.
   */
  lemma Selects(full: seq<Token>, alts: seq<seq<Token>>, token: Token)
    requires NoDuplicates(full) && token in full && Syntactic(Statement(full, alts))
    ensures Execute(Statement(full, alts), token) == FirstWith(alts, token)
  {
    hide NoDuplicates, ScanFrom, EmitAll;
    EmitAllSelects(full, alts, token);
    var s := EmitAll(full, alts);
    ExecuteJoin(s.branches, [Raise], token);
    OneBranch(Raise, token);
    assert s.branches + [] == s.branches;
  }

  // ---- when the statement is one

  /** Alternative `j` gets an unconditional branch. */
  predicate Closes(full: seq<Token>, alts: seq<seq<Token>>, j: nat)
    requires j < |alts|
  {
    var s := EmitAll(full, alts[..j]);
    var r := ScanFrom(alts[j], 0, s.seen, s.unseen);
    r.testset != [] && r.unseen == []
  }

  /** Some alternative that starts with two or more tokens follows one with an unconditional branch. */
  ghost predicate Continues(full: seq<Token>, alts: seq<seq<Token>>)
  {
    exists i, j :: 0 <= i < j < |alts| && Closes(full, alts, i) && |alts[j]| >= 2
  }

  /** What is no longer unseen has been seen. */
  lemma {:induction false} UnseenOrSeen(full: seq<Token>, alts: seq<seq<Token>>, token: Token)
    requires NoDuplicates(full) && token in full
    ensures var s := EmitAll(full, alts);
      NoDuplicates(s.unseen) && (token in s.unseen || token in s.seen)
  {
    hide NoDuplicates, ScanFrom;
    if alts != [] {
      var s := EmitAll(full, alts[..|alts| - 1]);
      UnseenOrSeen(full, alts[..|alts| - 1], token);
      ScanKeeps(alts[|alts| - 1], 0, s.seen, s.unseen);
    }
  }

  /** The alternatives offer no token that is not in FIRST. */
  predicate Covering(full: seq<Token>, alts: seq<seq<Token>>)
  {
    forall j :: 0 <= j < |alts| ==> Within(alts[j], full)
  }

  /** Once nothing is unseen, an alternative gets a branch exactly if the loop overlooks one of its tokens. */
  lemma AfterTheEnd(full: seq<Token>, front: seq<seq<Token>>, first: seq<Token>)
    requires NoDuplicates(full) && Within(first, full) && EmitAll(full, front).unseen == []
    ensures var s := EmitAll(full, front);
      var r := ScanFrom(first, 0, s.seen, s.unseen);
      r.unseen == [] && (r.testset != [] <==> |first| >= 2)
  {
    hide ScanFrom;
    var s := EmitAll(full, front);
    forall x | x in first
      ensures x in s.seen
    {
      UnseenOrSeen(full, front, x);
    }
    ScanOverlooks(first, 0, s.seen, s.unseen);
    ScanKeeps(first, 0, s.seen, s.unseen);
    NothingIn(ScanFrom(first, 0, s.seen, s.unseen).unseen);
  }

  lemma NothingIn(a: seq<Token>)
    requires forall x :: x in a ==> false
    ensures a == []
  {
    if a != [] {
      SomethingIn(a);
    }
  }

  lemma SomethingIn(a: seq<Token>)
    requires a != []
    ensures exists x :: x in a
  {
    assert a[0] in a;
  }

  /** The branches so far are conditional, up to the last one, which is unconditional only if nothing is unseen any more. */
  ghost predicate Shaped(s: State)
  {
    (forall i :: 0 <= i < |s.branches| - 1 ==> s.branches[i].If?) &&
    (forall i :: 0 <= i < |s.branches| ==> !s.branches[i].Raise?) &&
    (forall i :: 1 <= i < |s.branches| ==> !s.branches[i].Bare?) &&
    (s.branches != [] ==> !s.branches[0].Else? && (!s.branches[|s.branches| - 1].If? ==> s.unseen == []))
  }

  predicate Ended(s: State)
  {
    s.branches != [] && !s.branches[|s.branches| - 1].If?
  }

  /** An alternative that does not continue behind an unconditional branch keeps the shape. */
  lemma ShapeStep(s: State, k: nat, first: seq<Token>)
    requires Shaped(s) && (Ended(s) ==> s.unseen == [])
    requires var r := ScanFrom(first, 0, s.seen, s.unseen);
      (s.unseen == [] ==> r.unseen == []) && (Ended(s) ==> r.testset == [])
    ensures var s', r := Emit(s, k, first), ScanFrom(first, 0, s.seen, s.unseen);
      Shaped(s') && (Ended(s') ==> s'.unseen == []) && (Ended(s') <==> Ended(s) || (r.testset != [] && r.unseen == []))
  {
    hide ScanFrom, InTest;
  }

  /** While no alternative continues behind an unconditional branch the branches keep their shape. */
  lemma {:induction false} KeepsShape(full: seq<Token>, alts: seq<seq<Token>>)
    requires NoDuplicates(full) && Covering(full, alts) && !Continues(full, alts)
    ensures Shaped(EmitAll(full, alts))
    ensures Ended(EmitAll(full, alts)) <==> exists i :: 0 <= i < |alts| && Closes(full, alts, i)
    ensures Ended(EmitAll(full, alts)) ==> EmitAll(full, alts).unseen == []
  {
    hide NoDuplicates, ScanFrom, Within, Shaped, Ended, Emit, Closes;
    if alts == [] {
      NoBranches(full);
    } else {
      var n := |alts| - 1;
      var front, first := alts[..n], alts[n];
      ClosesFront(full, alts);
      KeepsShape(full, front);
      var s := EmitAll(full, front);
      ClosesIs(full, alts, n);
      if s.unseen == [] {
        AfterTheEnd(full, front, first);
      }
      ShapeStep(s, n, first);
    }
  }

  lemma NoBranches(full: seq<Token>)
    ensures Shaped(State([], full, [])) && !Ended(State([], full, []))
  {
  }

  lemma ClosesIs(full: seq<Token>, alts: seq<seq<Token>>, j: nat)
    requires j < |alts|
    ensures var s := EmitAll(full, alts[..j]);
      Closes(full, alts, j) <==> var r := ScanFrom(alts[j], 0, s.seen, s.unseen); r.testset != [] && r.unseen == []
  {
  }

  lemma ClosesFront(full: seq<Token>, alts: seq<seq<Token>>)
    requires alts != []
    ensures var front := alts[..|alts| - 1];
      (forall i :: 0 <= i < |front| ==> (Closes(full, front, i) <==> Closes(full, alts, i))) &&
      (Continues(full, front) ==> Continues(full, alts)) && (Covering(full, alts) ==> Covering(full, front))
  {
    hide Within;
    var front := alts[..|alts| - 1];
    forall i | 0 <= i < |front|
      ensures Closes(full, front, i) <==> Closes(full, alts, i)
    {
      assert front[..i] == alts[..i];
    }
  }

  lemma EmitGrows(s: State, k: nat, first: seq<Token>)
    requires NoDuplicates(s.unseen)
    ensures var s' := Emit(s, k, first);
      s.branches <= s'.branches && (s.unseen == [] ==> s'.unseen == []) && NoDuplicates(s'.unseen)
  {
    hide NoDuplicates, ScanFrom, InTest;
    ScanKeeps(first, 0, s.seen, s.unseen);
    if s.unseen == [] {
      NothingIn(ScanFrom(first, 0, s.seen, s.unseen).unseen);
    }
  }

  /** What has been emitted stays, and what is no longer unseen never is again. */
  lemma {:induction false} Persists(full: seq<Token>, alts: seq<seq<Token>>, m: nat)
    requires NoDuplicates(full) && m <= |alts|
    ensures EmitAll(full, alts[..m]).branches <= EmitAll(full, alts).branches
    ensures EmitAll(full, alts[..m]).unseen == [] ==> EmitAll(full, alts).unseen == []
    ensures NoDuplicates(EmitAll(full, alts).unseen)
  {
    hide NoDuplicates, Emit;
    if m == |alts| {
      assert alts[..m] == alts;
      if alts != [] {
        Persists(full, alts[..m - 1], m - 1);
        EmitGrows(EmitAll(full, alts[..m - 1]), m - 1, alts[m - 1]);
      }
    } else {
      var n := |alts| - 1;
      assert alts[..n][..m] == alts[..m];
      Persists(full, alts[..n], m);
      EmitGrows(EmitAll(full, alts[..n]), n, alts[n]);
    }
  }

  lemma UpTo(full: seq<Token>, alts: seq<seq<Token>>, j: nat)
    requires j < |alts|
    ensures EmitAll(full, alts[..j + 1]) == Emit(EmitAll(full, alts[..j]), j, alts[j])
  {
    hide Emit;
    assert alts[..j + 1][..j] == alts[..j];
  }

  /** An alternative that closes the statement gets an unconditional branch. */
  lemma ClosingBranch(full: seq<Token>, alts: seq<seq<Token>>, i: nat)
    requires i < |alts| && Closes(full, alts, i)
    ensures var b, s := EmitAll(full, alts[..i]).branches, EmitAll(full, alts[..i + 1]);
      s.unseen == [] && |s.branches| == |b| + 1 && !s.branches[|b|].If?
  {
    hide EmitAll, ScanFrom, InTest;
    UpTo(full, alts, i);
  }

  /** Behind it, an alternative with two or more tokens gets another branch. */
  lemma LateBranch(full: seq<Token>, alts: seq<seq<Token>>, j: nat)
    requires NoDuplicates(full) && j < |alts| && Within(alts[j], full) && EmitAll(full, alts[..j]).unseen == [] && |alts[j]| >= 2
    ensures |EmitAll(full, alts[..j + 1]).branches| == |EmitAll(full, alts[..j]).branches| + 1
  {
    hide EmitAll, ScanFrom, InTest, NoDuplicates, Within;
    UpTo(full, alts, j);
    AfterTheEnd(full, alts[..j], alts[j]);
  }

  lemma BranchesOf(full: seq<Token>, alts: seq<seq<Token>>, i: nat, j: nat)
    requires NoDuplicates(full) && Covering(full, alts) && i < j < |alts| && Closes(full, alts, i) && |alts[j]| >= 2
    ensures var b := EmitAll(full, alts).branches;
      exists p :: 0 <= p < |b| - 1 && !b[p].If?
  {
    hide NoDuplicates, Within, EmitAll, Closes;
    var b := EmitAll(full, alts).branches;
    var p := |EmitAll(full, alts[..i]).branches|;
    assert alts[..j][..i + 1] == alts[..i + 1];
    ClosingBranch(full, alts, i);
    Persists(full, alts[..j], i + 1);
    LateBranch(full, alts, j);
    Persists(full, alts, j + 1);
    Persists(full, alts, i + 1);
    assert b[p] == EmitAll(full, alts[..i + 1]).branches[p];
  }

  lemma {:induction false} SomeBranch(full: seq<Token>, alts: seq<seq<Token>>)
    ensures var s := EmitAll(full, alts);
      if exists k :: 0 <= k < |alts| && alts[k] != [] then s.branches != [] else s == State([], full, [])
  {
    if alts != [] {
      var n := |alts| - 1;
      SomeBranch(full, alts[..n]);
      if EmitAll(full, alts[..n]) == State([], full, []) {
        NothingOverlooked(alts[n], 0, full);
      }
    }
  }

  lemma {:induction false} NothingOverlooked(testset: seq<Token>, i: nat, unseen: seq<Token>)
    requires i <= |testset|
    ensures ScanFrom(testset, i, [], unseen).testset == testset
    decreases |testset| - i
  {
    if i < |testset| {
      NothingOverlooked(testset, i + 1, Removed(unseen, testset[i]));
    }
  }

  /**
   The exact condition: the branches form a statement if and only if no alternative that starts with
   two or more tokens follows one with an unconditional branch, and some alternative starts with a
   token unless there is none at all.
   */
  lemma WellFormedStatement(full: seq<Token>, alts: seq<seq<Token>>)
    requires NoDuplicates(full) && Covering(full, alts)
    ensures Syntactic(Statement(full, alts)) <==>
      !Continues(full, alts) && (full == [] || exists k :: 0 <= k < |alts| && alts[k] != [])
  {
    hide NoDuplicates, ScanFrom, Within, EmitAll, Closes, Covering;
    SomeBranch(full, alts);
    var s := EmitAll(full, alts);
    if Continues(full, alts) {
      var i, j :| 0 <= i < j < |alts| && Closes(full, alts, i) && |alts[j]| >= 2;
      BranchesOf(full, alts, i, j);
      var p :| 0 <= p < |s.branches| - 1 && !s.branches[p].If?;
      assert Statement(full, alts)[p] == s.branches[p];
    } else {
      KeepsShape(full, alts);
    }
  }

  // ---- when the text is accepted all the same

  /**
   Behind a bare alternative the text has an else at the same depth.  Python attaches it to the last
   statement of that alternative if this takes one: a while, or an if that has no else yet, or a for or a
   try in code of the grammar's author; `open` tells which alternatives end in such a statement.  The text is then accepted, but alternative and else are no longer exclusive.
   */
  predicate Accepted(branches: seq<Branch>, open: seq<bool>)
    requires forall i :: 0 <= i < |branches| && branches[i].Bare? ==> branches[i].alt < |open|
  {
    Syntactic(branches) || (|branches| == 2 && branches[0].Bare? && branches[1].Else? && open[branches[0].alt])
  }

  /** The branches of the alternatives from `i` on that come behind an unconditional one. */
  function Elses(alts: seq<seq<Token>>, i: nat): seq<Branch>
  {
    if |alts| <= i then [] else
    Elses(alts[..|alts| - 1], i) + if |alts[|alts| - 1]| >= 2 then [Else(|alts| - 1)] else []
  }

  /** The first alternative that starts with a token at all takes every token, so that it is written bare. */
  ghost predicate Alone(full: seq<Token>, alts: seq<seq<Token>>, i: nat)
  {
    i < |alts| && Closes(full, alts, i) && forall k :: 0 <= k < i ==> alts[k] == []
  }

  /** Behind a bare alternative there is an else for every later one with two or more tokens. */
  lemma {:induction false} BehindBare(full: seq<Token>, alts: seq<seq<Token>>, i: nat)
    requires NoDuplicates(full) && Covering(full, alts) && Alone(full, alts, i)
    ensures EmitAll(full, alts).branches == [Bare(i)] + Elses(alts, i + 1) && EmitAll(full, alts).unseen == []
    decreases |alts|
  {
    hide NoDuplicates, ScanFrom, Within, InTest;
    var n := |alts| - 1;
    if i == n {
      assert alts[..i + 1] == alts;
      SomeBranch(full, alts[..i]);
      ClosesIs(full, alts, i);
      UpTo(full, alts, i);
      assert [Bare(i)] + [] == [] + [Bare(i)];
    } else {
      ClosesFront(full, alts);
      BehindBare(full, alts[..n], i);
      AfterTheEnd(full, alts[..n], alts[n]);
    }
  }

  /** A bare branch is the first, and belongs to such an alternative. */
  lemma {:induction false} BareIsAlone(full: seq<Token>, alts: seq<seq<Token>>, p: nat)
    requires p < |EmitAll(full, alts).branches| && EmitAll(full, alts).branches[p].Bare?
    ensures p == 0 && Alone(full, alts, EmitAll(full, alts).branches[p].alt)
  {
    hide ScanFrom, InTest;
    var n := |alts| - 1;
    var b := EmitAll(full, alts[..n]).branches;
    if p < |b| {
      BareIsAlone(full, alts[..n], p);
      var i := b[p].alt;
      assert alts[..n][..i] == alts[..i];
    } else {
      SomeBranch(full, alts[..n]);
      assert forall k :: 0 <= k < n ==> alts[k] == alts[..n][k];
      ClosesIs(full, alts, n);
    }
  }

  lemma BaresAre(full: seq<Token>, alts: seq<seq<Token>>)
    ensures var b := Statement(full, alts);
      forall p :: 0 <= p < |b| && b[p].Bare? ==> p == 0 && Alone(full, alts, b[p].alt)
  {
    hide EmitAll, Alone;
    var b, s := Statement(full, alts), EmitAll(full, alts);
    forall p | 0 <= p < |b| && b[p].Bare?
      ensures p == 0 && Alone(full, alts, b[p].alt)
    {
      assert b[p] == s.branches[p];
      BareIsAlone(full, alts, p);
    }
  }

  /**
   The exact condition for the whole text: it is accepted if and only if the branches form a statement, or
   the only thing behind a bare alternative that ends in a statement that takes an else is one more alternative.
   */
  lemma AcceptedText(full: seq<Token>, alts: seq<seq<Token>>, open: seq<bool>)
    requires NoDuplicates(full) && Covering(full, alts) && |open| == |alts|
    ensures forall p :: 0 <= p < |Statement(full, alts)| && Statement(full, alts)[p].Bare? ==> Statement(full, alts)[p].alt < |open|
    ensures Accepted(Statement(full, alts), open) <==>
      Syntactic(Statement(full, alts)) || exists i: nat :: Alone(full, alts, i) && open[i] && |Elses(alts, i + 1)| == 1
  {
    hide NoDuplicates, EmitAll, Covering, Syntactic, Closes, Elses;
    BaresAre(full, alts);
    var b := Statement(full, alts);
    forall i: nat | Alone(full, alts, i)
      ensures b == [Bare(i)] + Elses(alts, i + 1)
    {
      BehindBare(full, alts, i);
    }
    forall i: nat
      ensures forall k :: 0 <= k < |Elses(alts, i)| ==> Elses(alts, i)[k].Else?
    {
      OnlyElses(alts, i);
    }
  }

  lemma {:induction false} OnlyElses(alts: seq<seq<Token>>, i: nat)
    ensures forall k :: 0 <= k < |Elses(alts, i)| ==> Elses(alts, i)[k].Else?
  {
    if |alts| > i {
      OnlyElses(alts[..|alts| - 1], i);
    }
  }

  // ---- alternatives that start with different tokens

  predicate Disjoint(alts: seq<seq<Token>>)
  {
    forall i, j, x :: 0 <= i < j < |alts| && x in alts[i] ==> x !in alts[j]
  }

  /** With disjoint FIRST lists, as an LL(1) choice has them, the text is always a statement. */
  lemma DisjointIsFine(full: seq<Token>, alts: seq<seq<Token>>)
    requires NoDuplicates(full) && Covering(full, alts) && Disjoint(alts)
    ensures !Continues(full, alts)
  {
    hide NoDuplicates, ScanFrom;
    forall i, j | 0 <= i < j < |alts| && Closes(full, alts, i)
      ensures |alts[j]| < 2
    {
      assert alts[..i + 1][..i] == alts[..i];
      var s := EmitAll(full, alts[..i + 1]);
      assert s.unseen == [];
      forall x | x in alts[j]
        ensures false
      {
        UnseenOrSeen(full, alts[..i + 1], x);
        SeenBefore(full, alts[..i + 1], x);
      }
      NothingIn(alts[j]);
    }
  }

  lemma {:induction false} SeenBefore(full: seq<Token>, alts: seq<seq<Token>>, token: Token)
    requires NoDuplicates(full) && token in EmitAll(full, alts).seen
    ensures exists k :: 0 <= k < |alts| && token in alts[k]
  {
    hide NoDuplicates, ScanFrom;
    if alts != [] {
      var n := |alts| - 1;
      var s := EmitAll(full, alts[..n]);
      Persists(full, alts[..n], n);
      ScanKeeps(alts[n], 0, s.seen, s.unseen);
      if token in s.seen {
        SeenBefore(full, alts[..n], token);
        var k :| 0 <= k < n && token in alts[..n][k];
        assert token in alts[k];
      } else {
        assert token in alts[n];
      }
    }
  }

  /** A choice whose second alternative starts with the same two tokens as the first: there is an else without an if. */
  lemma Malformed()
    ensures Statement(["a", "b"], [["a", "b"], ["a", "b"]]) == [Bare(0), Else(1)]
    ensures !Syntactic(Statement(["a", "b"], [["a", "b"], ["a", "b"]]))
  {
    var ab: seq<Token>, none: seq<seq<Token>> := ["a", "b"], [];
    assert [ab][..0] == none && [ab, ab][..1] == [ab];
    assert Removed(ab, "a") == ["b"] && Removed(["b"], "b") == [];
    assert ScanFrom(ab, 0, [], ab) == Scan(ab, []);
    assert EmitAll(ab, [ab]) == State([] + ab, [], [] + [Bare(0)]);
    assert ab[..0] + ab[1..] == ["b"];
    assert ScanFrom(ab, 0, ab, []) == Scan(["b"], []);
    assert EmitAll(ab, [ab, ab]).branches == [Bare(0)] + [Else(1)];
  }

  // ---- with the lists that the generator computes

  /** The FIRST lists of the alternatives of a choice. */
  function Alternatives(s: Lists, cs: seq<nat>): (alts: seq<seq<Token>>)
    requires forall k :: 0 <= k < |cs| ==> 2 * cs[k] < |s|
    ensures |alts| == |cs|
  {
    seq(|cs|, k requires 0 <= k < |cs| => s[Fst(cs[k])])
  }

  lemma {:induction false} OnlyWith(alts: seq<seq<Token>>, token: Token, k: nat)
    requires Disjoint(alts) && k < |alts| && token in alts[k]
    ensures FirstWith(alts, token) == Runs(k)
  {
    var n := |alts| - 1;
    if k < n {
      OnlyWith(alts[..n], token, k);
    } else {
      if FirstWith(alts[..n], token).Runs? {
        FirstWithHas(alts[..n], token);
      }
    }
  }

  lemma {:induction false} FirstWithHas(alts: seq<seq<Token>>, token: Token)
    requires FirstWith(alts, token).Runs?
    ensures FirstWith(alts, token).alt < |alts| && token in alts[FirstWith(alts, token).alt]
  {
    var n := |alts| - 1;
    if FirstWith(alts[..n], token).Runs? {
      FirstWithHas(alts[..n], token);
    }
  }

  /**
   The emitted parser takes the right branch: in a choice whose alternatives start with different
   tokens, the text is a statement, and for every derivation in which alternative `k` was picked it
   runs alternative `k` on the next token, even if the alternative itself derives nothing.
   */
  lemma ParserChooses(g: Grammar, eps: seq<bool>, s: Lists, i: nat, t: Tree, after: seq<Token>)
    requires WellFormed(g) && AllClosed(g, eps, s) && Good(g, s) && i < |g| && g[i].Choice? && Derives(g, i, t)
    requires Announces(s, i, after) && Yield(t) + after != [] && Disjoint(Alternatives(s, g[i].children))
    ensures var branches := Statement(s[Fst(i)], Alternatives(s, g[i].children));
      Syntactic(branches) && Execute(branches, (Yield(t) + after)[0]) == Runs(t.k)
  {
    hide Nullable, Statement, Syntactic, Execute;
    var cs, token := g[i].children, (Yield(t) + after)[0];
    var alts := Alternatives(s, cs);
    var c := cs[t.k];
    assert Closed(g, eps, s, i) && Closed(g, eps, s, c) && Sane(g, s[Fst(i)]);
    if Yield(t) != [] {
      FirstComplete(g, eps, s, c, t.t);
    } else {
      Marked(g, eps, s, c, t.t);
    }
    assert token in alts[t.k];
    DisjointIsFine(s[Fst(i)], alts);
    WellFormedStatement(s[Fst(i)], alts);
    Selects(s[Fst(i)], alts, token);
    OnlyWith(alts, token, t.k);
  }
}
