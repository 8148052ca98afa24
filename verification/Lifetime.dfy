/**
 The lifetime of server connections: reference counts, the poll set and its deferred removal, and reuse
 of file descriptors, from rpc/server.cc, rpc/polling.cc and RefCounted of base/basetypes.h.
 */
module Lifetime {
  /** A connection that has not been deleted: its reference count, its file descriptor, and the references handlers hold. */
  datatype Conn = Conn(refs: nat, fd: int, handlers: nat)

  /**
   All connections that exist, and where they are known: `sconns` of the server, `pollSet` and
   `pendingRemove` of the poll thread, `sweep`, the list it is working off, and `closing`, those whose
   close() still has to release them.  `mode` holds the descriptors that mode_ has an entry for,
   `registered` those the kernel watches, `open` those that are in use.
   */
  datatype State = State(
    conns: map<nat, Conn>, created: nat, deleted: seq<nat>, ctr: int,
    sconns: set<nat>, closing: set<nat>,
    pollSet: set<nat>, mode: set<int>, pendingRemove: set<nat>, sweep: set<nat>,
    registered: set<int>, open: set<int>)

  const START := State(map[], 0, [], 0, {}, {}, {}, {}, {}, {}, {}, {})

  /**
   The server accepts a connection; the poll thread hands a request of a connection to a handler; a
   handler releases the connection; close() begins under the lock, and ends; the mode of a connection is
   changed; the poll thread takes over what is to be removed, and removes one of these.
   */
  datatype Step = Accept(fd: int) | Dispatch(c: nat) | HandlerDone(c: nat) | CloseBegin(c: nat) | CloseEnd(c: nat) | UpdateMode(c: nat) |
    SweepBegin | SweepOne(c: nat)

  predicate Enabled(s: State, step: Step)
  {
    match step
    case Accept(fd) => fd !in s.open
    case Dispatch(c) => c in s.pollSet || c in s.pendingRemove
    case HandlerDone(c) => c in s.conns && s.conns[c].handlers > 0
    case CloseBegin(c) => c in s.conns
    case CloseEnd(c) => c in s.closing
    case UpdateMode(c) => c in s.conns
    case SweepBegin => s.sweep == {}
    case SweepOne(c) => c in s.sweep
  }

  /** ref_copy. */
  function Copied(s: State, c: nat): State
    requires c in s.conns
  {
    s.(conns := s.conns[c := s.conns[c].(refs := s.conns[c].refs + 1)])
  }

  /** release: the last reference deletes the connection, whose destructor counts it off. */
  function Released(s: State, c: nat): State
    requires c in s.conns && s.conns[c].refs > 0
  {
    if s.conns[c].refs == 1 then s.(conns := s.conns - {c}, deleted := s.deleted + [c], ctr := s.ctr - 1)
    else s.(conns := s.conns[c := s.conns[c].(refs := s.conns[c].refs - 1)])
  }

  /** What the code verifies when a step is taken; a failure would abort the program. */
  ghost predicate Checks(s: State, step: Step)
  {
    match step
    // add: the pollable and its descriptor are not registered yet
    case Accept(fd) => s.created !in s.pollSet && fd !in s.mode && fd !in s.registered
    case Dispatch(c) => c in s.conns
    // release: the count does not become negative
    case HandlerDone(c) => c in s.conns && s.conns[c].refs > 0
    // remove: a pollable that is found has a mode, and one that is not has none
    case CloseBegin(c) => c in s.sconns ==> c in s.conns && (c in s.pollSet <==> s.conns[c].fd in s.mode)
    case CloseEnd(c) => c in s.conns && s.conns[c].refs > 0
    // update_mode: a pollable has a mode, and the kernel knows its descriptor
    case UpdateMode(c) => c in s.pollSet ==> c in s.conns && s.conns[c].fd in s.mode && s.conns[c].fd in s.registered
    case SweepBegin => true
    case SweepOne(c) => c in s.conns && s.conns[c].refs > 0
  }

  function Next(s: State, step: Step): State
    requires Enabled(s, step) && Checks(s, step)
  {
    match step
    case Accept(fd) => Accepted(s, fd)
    case Dispatch(c) => var t := Copied(s, c); t.(conns := t.conns[c := t.conns[c].(handlers := t.conns[c].handlers + 1)])
    case HandlerDone(c) => Released(s.(conns := s.conns[c := s.conns[c].(handlers := s.conns[c].handlers - 1)]), c)
    case CloseBegin(c) => if c in s.sconns then Removed(s.(sconns := s.sconns - {c}, closing := s.closing + {c}), c) else s
    case CloseEnd(c) =>
      var fd := s.conns[c].fd;
      Released(s.(closing := s.closing - {c}, open := s.open - {fd}, registered := s.registered - {fd}), c)
    case UpdateMode(_) => s
    case SweepBegin => s.(sweep := s.pendingRemove, pendingRemove := {})
    case SweepOne(c) =>
      var fd := s.conns[c].fd;
      Released(s.(sweep := s.sweep - {c}, registered := if fd in s.mode then s.registered else s.registered - {fd}), c)
  }

  /** A new connection starts with the reference of `sconns`; PollThread::add takes another. */
  function Accepted(s: State, fd: int): State
  {
    var c := s.created;
    s.(conns := s.conns[c := Conn(2, fd, 0)], created := c + 1, ctr := s.ctr + 1, sconns := s.sconns + {c},
       pollSet := s.pollSet + {c}, mode := s.mode + {fd}, registered := s.registered + {fd}, open := s.open + {fd})
  }

  /** PollThread::remove, which keeps the reference for the sweep. */
  function Removed(s: State, c: nat): State
    requires c in s.conns
  {
    if c in s.pollSet then
      s.(pollSet := s.pollSet - {c}, mode := s.mode - {s.conns[c].fd}, pendingRemove := s.pendingRemove + {c})
    else s
  }

  // ---- what every step keeps

  function One(b: bool): nat { if b then 1 else 0 }

  /** Who holds references to a connection. */
  function Holders(s: State, c: nat): nat
    requires c in s.conns
  {
    One(c in s.sconns) + One(c in s.closing) + One(c in s.pollSet) + One(c in s.pendingRemove) + One(c in s.sweep) + s.conns[c].handlers
  }

  /** The count of a connection is the number of its holders, and it is never zero. */
  ghost predicate Counted(s: State)
  {
    forall c :: c in s.conns ==> s.conns[c].refs == Holders(s, c) > 0
  }

  /** Only connections that exist are known anywhere. */
  ghost predicate Known(s: State)
  {
    forall c :: c in s.sconns || c in s.closing || c in s.pollSet || c in s.pendingRemove || c in s.sweep ==> c in s.conns
  }

  /** A connection is polled exactly as long as the server knows it; its descriptor stays open until close() ends. */
  ghost predicate Placed(s: State)
  {
    s.sconns == s.pollSet && s.closing !! s.sconns && s.pendingRemove !! s.pollSet && s.sweep !! s.pollSet &&
    (forall c :: c in s.sconns || c in s.closing ==> c in s.conns && s.conns[c].fd in s.open) &&
    forall c, d :: c in s.sconns + s.closing && d in s.sconns + s.closing && c != d ==>
      c in s.conns && d in s.conns && s.conns[c].fd != s.conns[d].fd
  }

  /** Every polled connection, and no other, has a mode, and the kernel watches its descriptor. */
  ghost predicate Watched(s: State)
  {
    s.registered <= s.open &&
    (forall c :: c in s.pollSet ==> c in s.conns && s.conns[c].fd in s.mode && s.conns[c].fd in s.registered) &&
    forall fd :: fd in s.mode ==> exists c :: c in s.pollSet && c in s.conns && s.conns[c].fd == fd
  }

  /** Every connection was created once, and is alive or was deleted, once; sconns_ctr_ counts those alive. */
  ghost predicate Deleted(s: State)
  {
    (forall c: nat :: c < s.created <==> c in s.conns || c in s.deleted) && (forall c :: c in s.conns ==> c !in s.deleted) &&
    (forall i, j :: 0 <= i < j < |s.deleted| ==> s.deleted[i] != s.deleted[j]) && s.ctr == |s.conns|
  }

  ghost predicate Inv(s: State)
  {
    Counted(s) && Known(s) && Placed(s) && Watched(s) && Deleted(s)
  }

  /** Nothing the code verifies ever fails. */
  lemma ChecksPass(s: State, step: Step)
    requires Inv(s) && Enabled(s, step)
    ensures Checks(s, step)
  {
    assert step.CloseEnd? || step.SweepOne? || step.HandlerDone? ==> step.c in s.conns && Holders(s, step.c) > 0;
  }

  /** All holders of `c` but one have let go of it already. */
  ghost predicate Owed(s: State, c: nat)
  {
    c in s.conns && s.conns[c].refs == Holders(s, c) + 1 &&
    forall d :: d in s.conns && d != c ==> s.conns[d].refs == Holders(s, d) > 0
  }

  lemma ReleaseCounts(s: State, c: nat)
    requires Owed(s, c) && Known(s)
    ensures Counted(Released(s, c)) && Known(Released(s, c))
  {
    var t := Released(s, c);
    forall d | d in t.conns
      ensures t.conns[d].refs == Holders(t, d) > 0
    {
      assert Holders(s, d) == Holders(t, d);
    }
  }

  lemma ReleaseDeletes(s: State, c: nat)
    requires c in s.conns && s.conns[c].refs > 0 && Deleted(s)
    ensures Deleted(Released(s, c))
  {
    var t := Released(s, c);
    if s.conns[c].refs == 1 {
      assert t.conns.Keys == s.conns.Keys - {c};
      assert |t.conns.Keys| == |s.conns.Keys| - 1;
      assert t.deleted == s.deleted + [c];
    } else {
      assert t.conns.Keys == s.conns.Keys;
      assert |t.conns.Keys| == |s.conns.Keys|;
    }
  }

  /** Releasing a connection that is in neither set leaves the rest of the picture alone. */
  lemma ReleasePlaces(s: State, c: nat)
    requires c in s.conns && s.conns[c].refs > 0 && Placed(s) && Watched(s)
    requires s.conns[c].refs == 1 ==> c !in s.sconns && c !in s.closing
    ensures Placed(Released(s, c)) && Watched(Released(s, c))
  {
    var t := Released(s, c);
    assert forall d :: d in t.conns ==> d in s.conns && t.conns[d].fd == s.conns[d].fd;
    forall fd | fd in t.mode
      ensures exists d :: d in t.pollSet && d in t.conns && t.conns[d].fd == fd
    {
      var d :| d in s.pollSet && d in s.conns && s.conns[d].fd == fd;
      assert d in t.pollSet && d in t.conns;
    }
  }

  lemma ReleaseKeeps(s: State, c: nat)
    requires Owed(s, c) && Known(s) && Placed(s) && Watched(s) && Deleted(s)
    ensures Inv(Released(s, c))
  {
    hide Placed, Watched, Deleted, Counted;
    ReleaseCounts(s, c);
    ReleasePlaces(s, c);
    ReleaseDeletes(s, c);
  }

  lemma AcceptKeeps(s: State, fd: int)
    requires Inv(s) && fd !in s.open
    ensures Inv(Accepted(s, fd))
  {
    hide Counted, Known, Placed, Watched, Deleted, Accepted;
    AcceptCounts(s, fd);
    AcceptPlaces(s, fd);
    AcceptWatches(s, fd);
    AcceptDeletes(s, fd);
  }

  lemma AcceptDeletes(s: State, fd: int)
    requires Deleted(s)
    ensures Deleted(Accepted(s, fd))
  {
    assert Accepted(s, fd).conns.Keys == s.conns.Keys + {s.created};
    assert |Accepted(s, fd).conns.Keys| == |s.conns.Keys| + 1;
  }

  lemma AcceptCounts(s: State, fd: int)
    requires Counted(s) && Known(s) && Deleted(s)
    ensures Counted(Accepted(s, fd)) && Known(Accepted(s, fd))
  {
    var t := Accepted(s, fd);
    forall d | d in t.conns
      ensures t.conns[d].refs == Holders(t, d) > 0
    {
      if d != s.created {
        assert Holders(s, d) == Holders(t, d);
      }
    }
  }

  lemma AcceptPlaces(s: State, fd: int)
    requires Known(s) && Placed(s) && Deleted(s) && fd !in s.open
    ensures Placed(Accepted(s, fd))
  {
  }

  lemma AcceptWatches(s: State, fd: int)
    requires Watched(s) && Known(s) && Deleted(s)
    ensures Watched(Accepted(s, fd))
  {
    var t := Accepted(s, fd);
    forall f | f in t.mode
      ensures exists d :: d in t.pollSet && d in t.conns && t.conns[d].fd == f
    {
      if f == fd {
        assert s.created in t.pollSet;
      } else {
        var d :| d in s.pollSet && d in s.conns && s.conns[d].fd == f;
        assert d in t.pollSet && d in t.conns;
      }
    }
  }

  /** The other fields of the same connections. */
  predicate SameSets(s: State, t: State)
  {
    t.sconns == s.sconns && t.closing == s.closing && t.pollSet == s.pollSet && t.pendingRemove == s.pendingRemove &&
    t.sweep == s.sweep && t.mode == s.mode && t.registered == s.registered && t.open == s.open &&
    t.created == s.created && t.deleted == s.deleted && t.ctr == s.ctr
  }

  predicate SameFds(s: State, t: State)
  {
    t.conns.Keys == s.conns.Keys && forall c :: c in s.conns ==> t.conns[c].fd == s.conns[c].fd
  }

  /** Only counts have changed. */
  lemma CountsOnly(s: State, t: State)
    requires Known(s) && Placed(s) && Watched(s) && Deleted(s) && SameSets(s, t) && SameFds(s, t)
    ensures Known(t) && Placed(t) && Watched(t) && Deleted(t)
  {
    assert |t.conns| == |t.conns.Keys| == |s.conns.Keys| == |s.conns|;
    forall fd | fd in t.mode
      ensures exists d :: d in t.pollSet && d in t.conns && t.conns[d].fd == fd
    {
      var d :| d in s.pollSet && d in s.conns && s.conns[d].fd == fd;
      assert d in t.pollSet && d in t.conns;
    }
  }

  lemma DispatchKeeps(s: State, c: nat)
    requires Inv(s) && Enabled(s, Dispatch(c))
    ensures Checks(s, Dispatch(c)) && Inv(Next(s, Dispatch(c)))
  {
    var t := Next(s, Dispatch(c));
    assert SameFds(s, t);
    CountsOnly(s, t);
    hide Placed, Watched, Deleted;
    forall d | d in t.conns
      ensures t.conns[d].refs == Holders(t, d) > 0
    {
      assert s.conns[d].refs == Holders(s, d) > 0;
    }
  }

  lemma HandlerDoneKeeps(s: State, c: nat)
    requires Inv(s) && Enabled(s, HandlerDone(c))
    ensures Inv(Next(s, HandlerDone(c)))
  {
    hide Placed, Watched, Deleted, Known, Counted, Owed, Released;
    var t := s.(conns := s.conns[c := s.conns[c].(handlers := s.conns[c].handlers - 1)]);
    CountsOnly(s, t);
    HandlerOwes(s, c);
    ReleaseKeeps(t, c);
  }

  lemma HandlerOwes(s: State, c: nat)
    requires Counted(s) && c in s.conns && s.conns[c].handlers > 0
    ensures Owed(s.(conns := s.conns[c := s.conns[c].(handlers := s.conns[c].handlers - 1)]), c)
  {
    var t := s.(conns := s.conns[c := s.conns[c].(handlers := s.conns[c].handlers - 1)]);
    forall d | d in t.conns
      ensures t.conns[d].refs == Holders(t, d) + One(d == c) && t.conns[d].refs > 0
    {
      assert s.conns[d].refs == Holders(s, d) > 0;
    }
  }

  lemma CloseBeginKeeps(s: State, c: nat)
    requires Inv(s) && c in s.conns && c in s.sconns
    ensures Inv(Removed(s.(sconns := s.sconns - {c}, closing := s.closing + {c}), c))
  {
    var t := Removed(s.(sconns := s.sconns - {c}, closing := s.closing + {c}), c);
    CloseBeginCounts(s, c);
    CloseBeginWatches(s, c);
    assert Placed(t);
    assert Deleted(t);
    hide Counted, Known, Placed, Watched, Deleted;
  }

  lemma CloseBeginCounts(s: State, c: nat)
    requires Counted(s) && Known(s) && Placed(s) && c in s.conns && c in s.sconns
    ensures var t := Removed(s.(sconns := s.sconns - {c}, closing := s.closing + {c}), c);
      Counted(t) && Known(t)
  {
    var t := Removed(s.(sconns := s.sconns - {c}, closing := s.closing + {c}), c);
    forall d | d in t.conns
      ensures t.conns[d].refs == Holders(t, d) > 0
    {
      assert s.conns[d].refs == Holders(s, d) > 0;
    }
  }

  lemma CloseBeginWatches(s: State, c: nat)
    requires Placed(s) && Watched(s) && c in s.conns && c in s.sconns
    ensures Watched(Removed(s.(sconns := s.sconns - {c}, closing := s.closing + {c}), c))
  {
    var t := Removed(s.(sconns := s.sconns - {c}, closing := s.closing + {c}), c);
    forall fd | fd in t.mode
      ensures exists d :: d in t.pollSet && d in t.conns && t.conns[d].fd == fd
    {
      var d :| d in s.pollSet && d in s.conns && s.conns[d].fd == fd;
      assert d in t.pollSet && d in t.conns;
    }
  }

  /** close() ends: the descriptor is free again, and the reference of `sconns` is released. */
  lemma CloseEndKeeps(s: State, c: nat)
    requires Inv(s) && c in s.closing
    ensures Checks(s, CloseEnd(c)) && Inv(Next(s, CloseEnd(c)))
  {
    ChecksPass(s, CloseEnd(c));
    var fd := s.conns[c].fd;
    var t := s.(closing := s.closing - {c}, open := s.open - {fd}, registered := s.registered - {fd});
    CloseEndOwes(s, c, t);
    CloseEndWatches(s, c, t);
    hide Counted, Placed, Watched, Owed, Known;
    ReleaseKeeps(t, c);
  }

  lemma CloseEndOwes(s: State, c: nat, t: State)
    requires Counted(s) && Known(s) && Deleted(s) && c in s.closing && c in s.conns
    requires t == s.(closing := s.closing - {c}, open := t.open, registered := t.registered)
    ensures Owed(t, c) && Known(t) && Deleted(t)
  {
    forall d | d in t.conns
      ensures t.conns[d].refs == Holders(t, d) + One(d == c) && t.conns[d].refs > 0
    {
      assert s.conns[d].refs == Holders(s, d) > 0;
    }
  }

  lemma CloseEndWatches(s: State, c: nat, t: State)
    requires Placed(s) && Watched(s) && c in s.closing && c in s.conns
    requires t == s.(closing := s.closing - {c}, open := s.open - {s.conns[c].fd}, registered := s.registered - {s.conns[c].fd})
    ensures Placed(t) && Watched(t)
  {
    forall fd | fd in t.mode
      ensures exists d :: d in t.pollSet && d in t.conns && t.conns[d].fd == fd
    {
      var d :| d in s.pollSet && d in s.conns && s.conns[d].fd == fd;
      assert d in t.pollSet && d in t.conns;
    }
  }

  lemma SweepBeginKeeps(s: State)
    requires Inv(s) && s.sweep == {}
    ensures Inv(s.(sweep := s.pendingRemove, pendingRemove := {}))
  {
    var t := s.(sweep := s.pendingRemove, pendingRemove := {});
    forall d | d in t.conns
      ensures t.conns[d].refs == Holders(t, d) > 0
    {
      assert s.conns[d].refs == Holders(s, d) > 0;
    }
    assert Watched(t) by { SweepWatches(s, t); }
    hide Watched;
  }

  /** The sweep takes the kernel's interest only in a descriptor that no polled connection uses. */
  lemma SweepWatches(s: State, t: State)
    requires Watched(s) && t.conns == s.conns && t.pollSet == s.pollSet && t.mode == s.mode && t.open == s.open
    requires t.registered <= s.registered && forall fd :: fd in s.registered && fd in s.mode ==> fd in t.registered
    ensures Watched(t)
  {
    forall fd | fd in t.mode
      ensures exists d :: d in t.pollSet && d in t.conns && t.conns[d].fd == fd
    {
      var d :| d in s.pollSet && d in s.conns && s.conns[d].fd == fd;
      assert d in t.pollSet && d in t.conns;
    }
  }

  lemma SweepOneKeeps(s: State, c: nat)
    requires Inv(s) && c in s.sweep
    ensures Checks(s, SweepOne(c)) && Inv(Next(s, SweepOne(c)))
  {
    ChecksPass(s, SweepOne(c));
    var fd := s.conns[c].fd;
    var t := s.(sweep := s.sweep - {c}, registered := if fd in s.mode then s.registered else s.registered - {fd});
    SweepOneOwes(s, c, t);
    SweepWatches(s, t);
    assert Placed(t);
    hide Counted, Placed, Watched, Owed, Known;
    ReleaseKeeps(t, c);
  }

  lemma SweepOneOwes(s: State, c: nat, t: State)
    requires Counted(s) && Known(s) && Deleted(s) && c in s.sweep && c in s.conns
    requires t == s.(sweep := s.sweep - {c}, registered := t.registered)
    ensures Owed(t, c) && Known(t) && Deleted(t)
  {
    forall d | d in t.conns
      ensures t.conns[d].refs == Holders(t, d) + One(d == c) && t.conns[d].refs > 0
    {
      assert s.conns[d].refs == Holders(s, d) > 0;
    }
  }

  lemma StepKeeps(s: State, step: Step)
    requires Inv(s) && Enabled(s, step)
    ensures Checks(s, step) && Inv(Next(s, step))
  {
    ChecksPass(s, step);
    hide Inv, Checks, Released, Removed;
    match step {
      case Accept(fd) => AcceptKeeps(s, fd);
      case Dispatch(c) => DispatchKeeps(s, c);
      case HandlerDone(c) => HandlerDoneKeeps(s, c);
      case CloseBegin(c) => if c in s.sconns { CloseBeginKeeps(s, c); }
      case CloseEnd(c) => CloseEndKeeps(s, c);
      case UpdateMode(_) =>
      case SweepBegin => SweepBeginKeeps(s);
      case SweepOne(c) => SweepOneKeeps(s, c);
    }
  }

  // ---- what is given back

  /** A connection that has not been closed yet has this descriptor. */
  ghost predicate InUse(s: State, fd: int)
  {
    exists c :: c in s.sconns + s.closing && HasFd(s, c, fd)
  }

  /** A connection that the sweep has still to come to has this descriptor. */
  ghost predicate ToForget(s: State, fd: int)
  {
    exists c :: c in s.pendingRemove + s.sweep && HasFd(s, c, fd)
  }

  predicate HasFd(s: State, c: nat, fd: int)
  {
    c in s.conns && s.conns[c].fd == fd
  }

  /** A descriptor is open, or watched, only as long as there is a connection that gives it back. */
  ghost predicate Tidy(s: State)
  {
    (forall fd :: fd in s.open ==> InUse(s, fd)) && forall fd :: fd in s.registered ==> fd in s.mode || ToForget(s, fd)
  }

  /** A step keeps what it does not give back. */
  lemma TidyStep(s: State, step: Step)
    requires Inv(s) && Tidy(s) && Enabled(s, step) && Checks(s, step)
    ensures Tidy(Next(s, step))
  {
    hide Counted, Watched, Deleted, Checks;
    var t := Next(s, step);
    forall fd | fd in t.open
      ensures InUse(t, fd)
    {
      OpenAfter(s, step, fd);
    }
    forall fd | fd in t.registered && fd !in t.mode
      ensures ToForget(t, fd)
    {
      WatchedAfter(s, step, fd);
    }
  }

  lemma OpenAfter(s: State, step: Step, fd: int)
    requires Inv(s) && Tidy(s) && Enabled(s, step) && Checks(s, step) && fd in Next(s, step).open
    ensures InUse(Next(s, step), fd)
  {
    hide Watched, Known, Deleted;
    var t := Next(s, step);
    if fd in s.open {
      var c :| c in s.sconns + s.closing && HasFd(s, c, fd);
      StaysInUse(s, step, c, fd);
    } else {
      assert s.created in t.sconns + t.closing && HasFd(t, s.created, fd);
    }
  }

  lemma StaysInUse(s: State, step: Step, c: nat, fd: int)
    requires Inv(s) && Enabled(s, step) && Checks(s, step) && c in s.sconns + s.closing && HasFd(s, c, fd)
    requires fd in s.open && fd in Next(s, step).open
    ensures InUse(Next(s, step), fd)
  {
    hide Watched, Known, Placed;
    var t := Next(s, step);
    assert s.conns[c].refs == Holders(s, c);
    assert c in t.sconns + t.closing && HasFd(t, c, fd);
  }

  lemma WatchedAfter(s: State, step: Step, fd: int)
    requires Inv(s) && Tidy(s) && Enabled(s, step) && Checks(s, step) && fd in Next(s, step).registered && fd !in Next(s, step).mode
    ensures ToForget(Next(s, step), fd)
  {
    var t := Next(s, step);
    if fd in s.mode {
      LosesMode(s, step, fd);
    } else {
      hide Placed;
      var c :| c in s.pendingRemove + s.sweep && HasFd(s, c, fd);
      assert s.conns[c].refs == Holders(s, c);
      assert c in t.pendingRemove + t.sweep && HasFd(t, c, fd);
    }
  }

  /** Only close() takes a mode away, and then the connection waits for the sweep. */
  lemma LosesMode(s: State, step: Step, fd: int)
    requires Placed(s) && Watched(s) && Enabled(s, step) && Checks(s, step) && fd in s.mode && fd !in Next(s, step).mode
    ensures ToForget(Next(s, step), fd)
  {
    var t := Next(s, step);
    assert step.CloseBegin? && step.c in s.pollSet && s.conns[step.c].fd == fd;
    assert step.c in t.pendingRemove + t.sweep && HasFd(t, step.c, fd);
  }

  // ---- whole runs

  ghost predicate Reachable(steps: seq<Step>, s: State)
    decreases |steps|
  {
    if steps == [] then s == START else
    var front, step := steps[..|steps| - 1], steps[|steps| - 1];
    exists m :: Reachable(front, m) && Leads(m, step, s)
  }

  ghost predicate Leads(m: State, step: Step, s: State)
  {
    Enabled(m, step) && Checks(m, step) && Next(m, step) == s
  }

  lemma StartInv()
    ensures Inv(START)
  {
  }

  /** Every reachable state meets the invariant, and nothing the code verifies fails on the way or next. */
  lemma {:induction false} Safety(steps: seq<Step>, s: State, step: Step)
    requires Reachable(steps, s)
    ensures Inv(s) && (Enabled(s, step) ==> Checks(s, step))
    decreases |steps|
  {
    hide Inv, Next, Enabled, Checks;
    if steps == [] {
      StartInv();
    } else {
      var front, last := steps[..|steps| - 1], steps[|steps| - 1];
      var m :| Reachable(front, m) && Leads(m, last, s);
      Safety(front, m, last);
      StepKeeps(m, last);
    }
    if Enabled(s, step) {
      ChecksPass(s, step);
    }
  }

  /**
   A connection lives exactly as long as something refers to it: the count is the number of its holders,
   it is deleted once, when the last of them lets go, and sconns_ctr_ counts the connections alive.
   */
  lemma Lifetimes(steps: seq<Step>, s: State)
    requires Reachable(steps, s)
    ensures forall c :: c in s.conns ==> s.conns[c].refs == Holders(s, c) > 0
    ensures forall c: nat :: c < s.created && c !in s.conns ==> c in s.deleted
    ensures forall i, j :: 0 <= i < j < |s.deleted| ==> s.deleted[i] != s.deleted[j]
    ensures s.ctr == |s.conns| && (s.ctr <= 0 ==> s.conns == map[])
  {
    Safety(steps, s, SweepBegin);
    assert |s.conns.Keys| == |s.conns|;
    assert s.conns.Keys == {} ==> s.conns == map[];
  }

  /** Every reachable state is tidy. */
  lemma {:induction false} AlwaysTidy(steps: seq<Step>, s: State)
    requires Reachable(steps, s)
    ensures Tidy(s)
    decreases |steps|
  {
    hide Inv, Next, Enabled, Checks;
    if steps == [] {
      assert Tidy(START);
    } else {
      var front, last := steps[..|steps| - 1], steps[|steps| - 1];
      var m :| Reachable(front, m) && Leads(m, last, s);
      AlwaysTidy(front, m);
      Safety(front, m, last);
      TidyStep(m, last);
    }
  }

  /**
   Nothing leaks: when every connection has been closed, the sweeps are done and the handlers have let go, all
   connections are deleted, and no descriptor is open or watched.
   */
  lemma NothingLeaks(steps: seq<Step>, s: State)
    requires Reachable(steps, s) && s.sconns == s.closing == s.pendingRemove == s.sweep == {}
    requires forall c :: c in s.conns ==> s.conns[c].handlers == 0
    ensures s.conns == map[] && s.ctr == 0 && forall c: nat :: c < s.created <==> c in s.deleted
    ensures s.pollSet == {} && s.mode == {} && s.registered == {} && s.open == {}
  {
    hide Reachable, Tidy;
    Safety(steps, s, SweepBegin);
    AlwaysTidy(steps, s);
    NobodyLeft(s);
    NothingOpen(s);
  }

  lemma NobodyLeft(s: State)
    requires Counted(s) && Placed(s) && Deleted(s) && s.sconns == s.closing == s.pendingRemove == s.sweep == {}
    requires forall c :: c in s.conns ==> s.conns[c].handlers == 0
    ensures s.conns == map[] && s.ctr == 0 && forall c: nat :: c < s.created <==> c in s.deleted
  {
    assert forall c :: c in s.conns ==> Holders(s, c) == 0;
    assert forall c :: c !in s.conns;
    assert s.conns == map[];
  }

  lemma NothingOpen(s: State)
    requires Tidy(s) && Placed(s) && Watched(s) && s.sconns == s.closing == s.pendingRemove == s.sweep == {}
    ensures s.pollSet == {} && s.mode == {} && s.registered == {} && s.open == {}
  {
    assert forall fd :: fd !in s.mode;
    assert forall fd :: !InUse(s, fd) && !ToForget(s, fd);
    assert forall fd :: fd !in s.registered && fd !in s.open;
  }

  lemma {:induction false} Trace(steps: seq<Step>, states: seq<State>)
    requires |states| == |steps| + 1 && states[0] == START
    requires forall i :: 0 <= i < |steps| ==> Leads(states[i], steps[i], states[i + 1])
    ensures Reachable(steps, states[|steps|])
  {
    hide Leads;
    if steps != [] {
      Trace(steps[..|steps| - 1], states[..|steps|]);
    }
  }

  /**
   A descriptor can be taken again before the sweep comes to the connection that had it: the sweep then deletes the
   old connection and leaves the new one watched.
   */
  lemma DescriptorReused()
    ensures exists s ::
      Reachable([Accept(5), CloseBegin(0), CloseEnd(0), Accept(5), SweepBegin, SweepOne(0)], s) &&
      s.deleted == [0] && s.pollSet == {1} && s.registered == {5} && s.ctr == 1
  {
    var s1 := START.(conns := map[0 := Conn(2, 5, 0)], created := 1, ctr := 1, sconns := {0}, pollSet := {0}, mode := {5},
                     registered := {5}, open := {5});
    var s2 := s1.(sconns := {}, closing := {0}, pollSet := {}, mode := {}, pendingRemove := {0});
    var s3 := s2.(conns := map[0 := Conn(1, 5, 0)], closing := {}, registered := {}, open := {});
    var s4 := s3.(conns := map[0 := Conn(1, 5, 0), 1 := Conn(2, 5, 0)], created := 2, ctr := 2, sconns := {1}, pollSet := {1},
                  mode := {5}, registered := {5}, open := {5});
    var s5 := s4.(pendingRemove := {}, sweep := {0});
    var s6 := s5.(conns := map[1 := Conn(2, 5, 0)], deleted := [0], ctr := 1, sweep := {});
    Reused(s1, s2, s3);
    ReusedAgain(s3, s4, s5, s6);
    hide Reachable, Leads;
    Trace([Accept(5), CloseBegin(0), CloseEnd(0), Accept(5), SweepBegin, SweepOne(0)], [START, s1, s2, s3, s4, s5, s6]);
  }

  lemma Reused(s1: State, s2: State, s3: State)
    requires s1 == START.(conns := map[0 := Conn(2, 5, 0)], created := 1, ctr := 1, sconns := {0}, pollSet := {0}, mode := {5},
                          registered := {5}, open := {5})
    requires s2 == s1.(sconns := {}, closing := {0}, pollSet := {}, mode := {}, pendingRemove := {0})
    requires s3 == s2.(conns := map[0 := Conn(1, 5, 0)], closing := {}, registered := {}, open := {})
    ensures Leads(START, Accept(5), s1) && Leads(s1, CloseBegin(0), s2) && Leads(s2, CloseEnd(0), s3)
  {
  }

  lemma ReusedAgain(s3: State, s4: State, s5: State, s6: State)
    requires s3 == START.(conns := map[0 := Conn(1, 5, 0)], created := 1, ctr := 1, pendingRemove := {0})
    requires s4 == s3.(conns := map[0 := Conn(1, 5, 0), 1 := Conn(2, 5, 0)], created := 2, ctr := 2, sconns := {1}, pollSet := {1},
                       mode := {5}, registered := {5}, open := {5})
    requires s5 == s4.(pendingRemove := {}, sweep := {0})
    requires s6 == s5.(conns := map[1 := Conn(2, 5, 0)], deleted := [0], ctr := 1, sweep := {})
    ensures Leads(s3, Accept(5), s4) && Leads(s4, SweepBegin, s5) && Leads(s5, SweepOne(0), s6)
  {
    assert s3.conns[1 := Conn(2, 5, 0)] == s4.conns;
    assert s5.conns - {0} == s6.conns;
  }

  // ---- the code of the poll thread

  class PollThread {
    var pollSet: set<nat>
    var mode: map<int, int>
    var pendingRemove: set<nat>

    ghost predicate Matches(s: State)
      reads this
    {
      pollSet == s.pollSet && mode.Keys == s.mode && pendingRemove == s.pendingRemove
    }

    constructor ()
      ensures Matches(START)
    {
      pollSet, mode, pendingRemove := {}, map[], {};
    }

    /** `add`; the two conditions are verified by the code. */
    method Add(c: nat, fd: int, pollMode: int, ghost s: State)
      requires Matches(s) && c == s.created && c !in pollSet && fd !in mode
      modifies this
      ensures Matches(Accepted(s, fd)) && mode == old(mode)[fd := pollMode]
    {
      pollSet := pollSet + {c};
      mode := mode[fd := pollMode];
    }

    /** `remove`: forgets the pollable, but keeps its reference until the next sweep. */
    method Remove(c: nat, fd: int, ghost s: State)
      requires Matches(s) && c in s.conns && s.conns[c].fd == fd && (c in pollSet <==> fd in mode)
      modifies this
      ensures Matches(Removed(s, c))
    {
      var found := false;
      if c in pollSet {
        found := true;
        pollSet := pollSet - {c};
        mode := mode - {fd};
      }
      if found {
        pendingRemove := pendingRemove + {c};
      }
    }

    /** `update_mode`; tells whether the kernel has to be told. */
    method UpdateMode(c: nat, fd: int, newMode: int, ghost s: State) returns (changed: bool)
      requires Matches(s) && (c in pollSet ==> fd in mode)
      modifies this`mode
      ensures Matches(s)
      ensures mode == if c in pollSet then old(mode)[fd := newMode] else old(mode)
      ensures changed <==> c in pollSet && old(mode)[fd] != newMode
    {
      changed := false;
      if c !in pollSet {
        return;
      }
      var oldMode := mode[fd];
      mode := mode[fd := newMode];
      changed := newMode != oldMode;
    }

    /** The poll loop takes over what is to be removed. */
    method TakePending(ghost s: State) returns (sweep: set<nat>)
      requires Matches(s) && s.sweep == {}
      modifies this`pendingRemove
      ensures Matches(Next(s, SweepBegin)) && sweep == Next(s, SweepBegin).sweep
    {
      sweep := pendingRemove;
      pendingRemove := {};
    }
  }
}
