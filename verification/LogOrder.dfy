/** The reordering of log messages per source: RLogServiceImpl::log of rlog/log_service_impl.cc. */
module LogOrder {
  datatype Piece = Piece(id: int, level: int, message: string)

  /** What is kept for a source: the buffered pieces in the order of their ids, and the id printed up to. */
  datatype Source = Source(buffer: seq<Piece>, done: int)

  const NEW := Source([], 0)

  /** std::set::insert: pieces are compared by id, and one that is there already stays. */
  function Insert(buffer: seq<Piece>, p: Piece): seq<Piece>
  {
    if buffer == [] || p.id < buffer[0].id then [p] + buffer
    else if p.id == buffer[0].id then buffer
    else [buffer[0]] + Insert(buffer[1..], p)
  }

  /** The ids rise strictly. */
  predicate Rising(buffer: seq<Piece>)
  {
    forall i, j :: 0 <= i < j < |buffer| ==> buffer[i].id < buffer[j].id
  }

  lemma {:induction false} InsertKeeps(buffer: seq<Piece>, p: Piece)
    requires Rising(buffer)
    ensures Rising(Insert(buffer, p))
    ensures forall x :: x in Insert(buffer, p) ==> x == p || x in buffer
    ensures forall x :: x in buffer ==> x in Insert(buffer, p)
    ensures exists x :: x in Insert(buffer, p) && x.id == p.id
  {
    var r := Insert(buffer, p);
    if buffer == [] || p.id < buffer[0].id {
      assert p in r;
    } else if p.id == buffer[0].id {
      assert buffer[0] in r;
    } else {
      InsertKeeps(buffer[1..], p);
      var rest := Insert(buffer[1..], p);
      assert buffer == [buffer[0]] + buffer[1..];
      forall k | 0 <= k < |rest|
        ensures buffer[0].id < rest[k].id
      {
        assert rest[k] in rest;
      }
      var x :| x in rest && x.id == p.id;
      assert x in r;
    }
  }

  /** What a call prints, and what it leaves behind. */
  datatype Printed = Printed(pieces: seq<Piece>, source: Source)

  /** The loop of `log`. */
  function Flush(s: Source): Printed
    decreases |s.buffer|
  {
    if s.buffer != [] && s.buffer[0].id <= s.done + 1 then
      var p := s.buffer[0];
      var next := Flush(Source(s.buffer[1..], if p.id > s.done then p.id else s.done));
      Printed([p] + next.pieces, next.source)
    else
      Printed([], s)
  }

  function Logged(s: Source, p: Piece): Printed
  {
    Flush(s.(buffer := Insert(s.buffer, p)))
  }

  /** What every call leaves behind: a gap before everything that is buffered. */
  predicate Gap(s: Source)
  {
    Rising(s.buffer) && forall i :: 0 <= i < |s.buffer| ==> s.buffer[i].id > s.done + 1
  }

  // ---- the code

  class RLogServiceImpl {
    var done: map<string, int>
    var buffer: map<string, seq<Piece>>

    /** What is kept for a source; buffer_[source] and done_[source] create it. */
    ghost function Of(source: string): Source
      reads this
    {
      Source(if source in buffer then buffer[source] else [], if source in done then done[source] else 0)
    }

    constructor ()
      ensures forall source :: Of(source) == NEW
    {
      done, buffer := map[], map[];
    }

    method Log(source: string, piece: Piece) returns (printed: seq<Piece>)
      modifies this
      ensures Printed(printed, Of(source)) == Logged(old(Of(source)), piece)
      ensures forall other :: other != source ==> Of(other) == old(Of(other))
    {
      var buf := Insert(if source in buffer then buffer[source] else [], piece);
      var d := if source in done then done[source] else 0;
      printed, buf, d := PrintReady(buf, d);
      buffer, done := buffer[source := buf], done[source := d];
    }
  }

  /** The loop of `log`: prints from the front of the buffer as long as there is no gap. */
  method PrintReady(buffer: seq<Piece>, done: int) returns (printed: seq<Piece>, buf: seq<Piece>, d: int)
    ensures Printed(printed, Source(buf, d)) == Flush(Source(buffer, done))
  {
    printed, buf, d := [], buffer, done;
    while buf != [] && buf[0].id <= d + 1
      invariant Flush(Source(buffer, done)).pieces == printed + Flush(Source(buf, d)).pieces
      invariant Flush(Source(buffer, done)).source == Flush(Source(buf, d)).source
      decreases |buf|
    {
      printed := printed + [buf[0]];
      if buf[0].id > d {
        d := buf[0].id;
      }
      buf := buf[1..];
    }
    assert printed + [] == printed;
  }

  // ---- what a call does

  lemma Regroup(p: Piece, a: seq<Piece>, b: seq<Piece>)
    ensures [p] + a + b == [p] + (a + b)
  {
  }

  /** What is printed is taken off the front of the buffer. */
  lemma {:induction false} FlushTakes(s: Source)
    ensures var r := Flush(s);
      r.source.done >= s.done && r.pieces + r.source.buffer == s.buffer
    decreases |s.buffer|
  {
    if s.buffer != [] && s.buffer[0].id <= s.done + 1 {
      var p := s.buffer[0];
      var s' := Source(s.buffer[1..], if p.id > s.done then p.id else s.done);
      FlushTakes(s');
      Regroup(p, Flush(s').pieces, Flush(s').source.buffer);
    } else {
      assert [] + s.buffer == s.buffer;
    }
  }

  lemma {:induction false} FlushGap(s: Source)
    requires Rising(s.buffer)
    ensures Gap(Flush(s).source)
    decreases |s.buffer|
  {
    if s.buffer != [] && s.buffer[0].id <= s.done + 1 {
      var p := s.buffer[0];
      FlushGap(Source(s.buffer[1..], if p.id > s.done then p.id else s.done));
    }
  }

  /** After every call there is a gap before what is buffered, and nothing is lost: it was printed or is buffered. */
  lemma LogKeeps(s: Source, p: Piece)
    requires Gap(s)
    ensures var r := Logged(s, p);
      Gap(r.source) && r.source.done >= s.done && r.pieces + r.source.buffer == Insert(s.buffer, p)
  {
    InsertKeeps(s.buffer, p);
    FlushTakes(s.(buffer := Insert(s.buffer, p)));
    FlushGap(s.(buffer := Insert(s.buffer, p)));
  }

  /** A piece with a stale id, or id 0, is printed on arrival and leaves everything else as it was. */
  lemma StaleIsPrinted(s: Source, p: Piece)
    requires Gap(s) && p.id <= s.done
    ensures Logged(s, p) == Printed([p], s)
  {
    var b := Insert(s.buffer, p);
    assert b == [p] + s.buffer && b[1..] == s.buffer;
    assert Flush(s) == Printed([], s);
    assert [p] + [] == [p];
  }

  // ---- whole runs of one source

  function LogAll(arrivals: seq<Piece>): Printed
  {
    if arrivals == [] then Printed([], NEW) else
    var before := LogAll(arrivals[..|arrivals| - 1]);
    var now := Logged(before.source, arrivals[|arrivals| - 1]);
    Printed(before.pieces + now.pieces, now.source)
  }

  /** The ids are distinct and positive. */
  predicate Fresh(arrivals: seq<Piece>)
  {
    (forall i :: 0 <= i < |arrivals| ==> arrivals[i].id >= 1) &&
    forall i, j :: 0 <= i < j < |arrivals| ==> arrivals[i].id != arrivals[j].id
  }

  /** Printed were exactly the ids 1, 2, ... up to `n`. */
  predicate Counts(pieces: seq<Piece>, n: int)
  {
    |pieces| == n && forall i :: 0 <= i < n ==> pieces[i].id == i + 1
  }

  predicate Has(ps: seq<Piece>, id: int)
  {
    exists i :: 0 <= i < |ps| && ps[i].id == id
  }

  /** From a state that waits for `done + 1`, the loop prints consecutive ids. */
  lemma {:induction false} FlushCounts(s: Source, before: seq<Piece>)
    requires Rising(s.buffer) && Counts(before, s.done) && forall i :: 0 <= i < |s.buffer| ==> s.buffer[i].id > s.done
    ensures var r := Flush(s);
      Counts(before + r.pieces, r.source.done)
    decreases |s.buffer|
  {
    if s.buffer != [] && s.buffer[0].id <= s.done + 1 {
      var p := s.buffer[0];
      var s' := Source(s.buffer[1..], p.id);
      FlushCounts(s', before + [p]);
      assert before + ([p] + Flush(s').pieces) == before + [p] + Flush(s').pieces;
    } else {
      assert before + [] == before;
    }
  }

  /** After every call the printed ids are exactly 1 up to `done`, and every other id that has arrived is buffered behind a gap. */
  lemma {:induction false} PrintedInOrder(arrivals: seq<Piece>)
    requires Fresh(arrivals)
    ensures var r := LogAll(arrivals);
      Counts(r.pieces, r.source.done) && Gap(r.source) &&
      forall id :: Has(arrivals, id) <==> 1 <= id <= r.source.done || Has(r.source.buffer, id)
  {
    if arrivals != [] {
      var front, p := arrivals[..|arrivals| - 1], arrivals[|arrivals| - 1];
      PrintedInOrder(front);
      NotYet(front, p);
      Continue(front, p, LogAll(front).pieces, LogAll(front).source);
      assert arrivals == front + [p];
    }
  }

  lemma Continue(front: seq<Piece>, p: Piece, printed: seq<Piece>, s: Source)
    requires Counts(printed, s.done) && Gap(s) && p.id >= 1 && !Has(front, p.id)
    requires forall id :: Has(front, id) <==> 1 <= id <= s.done || Has(s.buffer, id)
    ensures var r := Logged(s, p);
      Counts(printed + r.pieces, r.source.done) && Gap(r.source) &&
      forall id :: Has(front + [p], id) <==> 1 <= id <= r.source.done || Has(r.source.buffer, id)
  {
    hide Flush, Insert, Has, Counts, Rising;
    var b := Insert(s.buffer, p);
    var t := s.(buffer := b);
    LogKeeps(s, p);
    InsertKeeps(s.buffer, p);
    CountsUp(printed, s.done);
    forall i | 0 <= i < |b|
      ensures b[i].id > s.done
    {
      assert b[i] in b;
    }
    FlushCounts(t, printed);
    FlushedIds(t);
    ArrivedIds(front, p, s, b);
    SplitIds(b, Flush(t).pieces, Flush(t).source.buffer);
  }

  lemma CountsUp(printed: seq<Piece>, n: int)
    requires Counts(printed, n)
    ensures n >= 0
  {
  }

  lemma NotYet(front: seq<Piece>, p: Piece)
    requires Fresh(front + [p])
    ensures Fresh(front) && !Has(front, p.id) && p.id >= 1
  {
    var all := front + [p];
    assert forall i :: 0 <= i < |front| ==> all[i] == front[i];
    assert all[|front|] == p;
  }

  lemma {:induction false} FlushedIds(s: Source)
    requires Rising(s.buffer) && forall i :: 0 <= i < |s.buffer| ==> s.buffer[i].id > s.done
    ensures var r := Flush(s);
      r.source.done >= s.done && forall id :: Has(r.pieces, id) <==> s.done < id <= r.source.done
    decreases |s.buffer|
  {
    if s.buffer != [] && s.buffer[0].id <= s.done + 1 {
      var p := s.buffer[0];
      var s' := Source(s.buffer[1..], p.id);
      FlushedIds(s');
      var r := Flush(s');
      assert forall id :: Has([p] + r.pieces, id) <==> id == p.id || Has(r.pieces, id) by { HasCons(p, r.pieces); }
    }
  }

  lemma HasCons(p: Piece, ps: seq<Piece>)
    ensures forall id :: Has([p] + ps, id) <==> id == p.id || Has(ps, id)
  {
    forall id | Has(ps, id)
      ensures Has([p] + ps, id)
    {
      var i :| 0 <= i < |ps| && ps[i].id == id;
      assert ([p] + ps)[i + 1].id == id;
    }
    assert ([p] + ps)[0].id == p.id;
  }

  lemma SplitIds(b: seq<Piece>, ps: seq<Piece>, rest: seq<Piece>)
    requires ps + rest == b
    ensures forall id :: Has(b, id) <==> Has(ps, id) || Has(rest, id)
  {
    forall id | Has(ps, id) || Has(rest, id)
      ensures Has(b, id)
    {
      if Has(ps, id) {
        var i :| 0 <= i < |ps| && ps[i].id == id;
        assert b[i].id == id;
      } else {
        var i :| 0 <= i < |rest| && rest[i].id == id;
        assert b[|ps| + i].id == id;
      }
    }
  }

  lemma ArrivedIds(front: seq<Piece>, p: Piece, s: Source, b: seq<Piece>)
    requires Rising(s.buffer) && b == Insert(s.buffer, p)
    ensures forall id :: Has(front + [p], id) <==> Has(front, id) || id == p.id
    ensures forall id :: Has(b, id) <==> Has(s.buffer, id) || id == p.id
  {
    InsertKeeps(s.buffer, p);
    var all := front + [p];
    assert all[|front|] == p;
    assert forall i :: 0 <= i < |front| ==> all[i] == front[i];
    forall id | Has(s.buffer, id)
      ensures Has(b, id)
    {
      var i :| 0 <= i < |s.buffer| && s.buffer[i].id == id;
      assert s.buffer[i] in b;
    }
    forall id | Has(b, id)
      ensures Has(s.buffer, id) || id == p.id
    {
      var i :| 0 <= i < |b| && b[i].id == id;
      assert b[i] in b;
    }
  }

  lemma {:induction false} InsertCounts(buffer: seq<Piece>, p: Piece)
    requires Rising(buffer)
    ensures multiset(Insert(buffer, p)) == multiset(buffer) + if Has(buffer, p.id) then multiset{} else multiset{p}
  {
    if buffer != [] {
      var rest := buffer[1..];
      assert buffer == [buffer[0]] + rest;
      HasCons(buffer[0], rest);
      if p.id < buffer[0].id {
        assert !Has(buffer, p.id);
      } else if p.id > buffer[0].id {
        InsertCounts(rest, p);
      }
    }
  }

  /** A call loses no piece but a second one for an id that is buffered: it is printed, now or later, as it arrived. */
  lemma LogCounts(s: Source, p: Piece)
    requires Gap(s)
    ensures var r := Logged(s, p);
      multiset(r.pieces) + multiset(r.source.buffer) == multiset(s.buffer) + if Has(s.buffer, p.id) then multiset{} else multiset{p}
  {
    hide Flush, Insert, Has;
    LogKeeps(s, p);
    InsertCounts(s.buffer, p);
    var r := Logged(s, p);
    assert multiset(r.pieces + r.source.buffer) == multiset(r.pieces) + multiset(r.source.buffer);
  }

  lemma Sums(a: multiset<Piece>, b: multiset<Piece>, c: multiset<Piece>, d: multiset<Piece>, e: multiset<Piece>)
    requires b + c == d + e
    ensures (a + b) + c == (a + d) + e
  {
    assert (a + b) + c == a + (b + c) && (a + d) + e == a + (d + e);
  }

  /** With distinct ids, what was printed and what is buffered are exactly the pieces that arrived. */
  lemma {:induction false} PiecesKept(arrivals: seq<Piece>)
    requires Fresh(arrivals)
    ensures var r := LogAll(arrivals);
      multiset(r.pieces) + multiset(r.source.buffer) == multiset(arrivals)
  {
    hide Flush, Insert, Has, Logged, Gap, Rising, Counts;
    if arrivals != [] {
      var front, p := arrivals[..|arrivals| - 1], arrivals[|arrivals| - 1];
      assert arrivals == front + [p];
      NotYet(front, p);
      PiecesKept(front);
      PrintedInOrder(front);
      var before, now := LogAll(front), Logged(LogAll(front).source, p);
      assert !Has(before.source.buffer, p.id);
      LogCounts(before.source, p);
      assert multiset(before.pieces + now.pieces) == multiset(before.pieces) + multiset(now.pieces);
      Sums(multiset(before.pieces), multiset(now.pieces), multiset(now.source.buffer), multiset(before.source.buffer), multiset{p});
    }
  }

  /**
   However the ids 1 to N arrive, each once, the source's output is the pieces that arrived, in the order
   of their ids, and nothing stays buffered.
   */
  lemma AnyOrder(arrivals: seq<Piece>, n: nat)
    requires Fresh(arrivals) && forall id :: Has(arrivals, id) <==> 1 <= id <= n
    ensures Counts(LogAll(arrivals).pieces, n) && LogAll(arrivals).source == Source([], n)
    ensures multiset(LogAll(arrivals).pieces) == multiset(arrivals)
  {
    PrintedInOrder(arrivals);
    PiecesKept(arrivals);
    var s := LogAll(arrivals).source;
    CountsUp(LogAll(arrivals).pieces, s.done);
    NoneBuffered(arrivals, s, n);
    assert Has(arrivals, s.done) <==> 1 <= s.done <= n;
    assert Has(arrivals, n) <==> 1 <= n;
  }

  lemma NoneBuffered(arrivals: seq<Piece>, s: Source, n: nat)
    requires Gap(s) && s.done >= 0 && forall id :: Has(arrivals, id) <==> 1 <= id <= s.done || Has(s.buffer, id)
    requires forall id :: Has(arrivals, id) <==> 1 <= id <= n
    ensures s.buffer == []
  {
    assert !Has(s.buffer, s.done + 1);
    assert !Has(arrivals, s.done + 1);
    if s.buffer != [] {
      FirstIn(s.buffer);
    }
  }

  lemma FirstIn(ps: seq<Piece>)
    requires ps != []
    ensures Has(ps, ps[0].id)
  {
  }
}
