/** Typed serialisation: the stream operators of rpc/marshal.h for strings, pairs and containers. */
module Serialize {
  import opened Bytes
  import opened Chunks
  import opened Marshals
  import opened SparseInt
  import opened Wire

  /** The type of a value on the wire.  A map is written as the sequence of its entries. */
  datatype Type =
    | Int(n: nat)
    | V32
    | V64
    | Str
    | Pair(fst: Type, snd: Type)
    | List(elem: Type)
    | Set(elem: Type)
    | Map(entry: Type)

  /** A value in the order in which its parts are written: for a set or a map, one of its enumerations. */
  datatype Value =
    | Num(v: int)
    | Text(s: seq<byte>)
    | Both(a: Value, b: Value)
    | Many(items: seq<Value>)

  /** A value as the reader gets it. */
  datatype Obj =
    | ONum(v: int)
    | OText(s: seq<byte>)
    | OPair(a: Obj, b: Obj)
    | OList(objs: seq<Obj>)
    | OSet(elems: set<Obj>)
    | OMap(entries: map<Obj, Obj>)

  datatype Option<T> = None | Some(value: T)

  predicate Short(n: nat)
  {
    2 * n < Pow256(4)
  }

  predicate Container(ty: Type)
  {
    ty.List? || ty.Set? || (ty.Map? && ty.entry.Pair?)
  }

  function ItemType(ty: Type): Type
    requires Container(ty)
  {
    match ty
    case List(t) => t
    case Set(t) => t
    case Map(t) => t
  }

  /** The values of a type that survive the wire. */
  predicate Typed(ty: Type, w: Value)
    decreases w
  {
    match ty
    case Int(n) => n in {1, 2, 4, 8} && w.Num? && Fits(w.v, n)
    case V32 => w.Num? && Fits(w.v, 4)
    case V64 => w.Num? && Fits(w.v, 8) && ValSize(w.v) != 8
    case Str => w.Text? && Short(|w.s|)
    case Pair(t, u) => w.Both? && Typed(t, w.a) && Typed(u, w.b)
    case _ => Container(ty) && w.Many? && Short(|w.items|) && forall i :: 0 <= i < |w.items| ==> Typed(ItemType(ty), w.items[i])
  }

  // ---- writing, as a function

  function Encode(ty: Type, w: Value): seq<byte>
    requires Typed(ty, w)
    decreases w, 0
  {
    match ty
    case Int(n) => Le(w.v, n)
    case V32 => OnWire(w.v)
    case V64 => OnWire(w.v)
    case Str => OnWire(|w.s|) + w.s
    case Pair(t, u) => Encode(t, w.a) + Encode(u, w.b)
    case _ => OnWire(|w.items|) + EncodeAll(ItemType(ty), w.items)
  }

  function EncodeAll(ty: Type, items: seq<Value>): seq<byte>
    requires forall i :: 0 <= i < |items| ==> Typed(ty, items[i])
    decreases items, 1
  {
    if items == [] then [] else EncodeAll(ty, items[..|items| - 1]) + Encode(ty, items[|items| - 1])
  }

  // ---- reading, as a function

  /** m >> v64 and what is left, if enough has arrived. */
  function TakeV64(s: seq<byte>): Option<(int, seq<byte>)>
  {
    if s != [] && BufSize(s[0]) <= |s| && BufSize(s[0]) != 8 then
      var n := BufSize(s[0]);
      Some((Arrived64(s[..n]), s[n..]))
    else
      None
  }

  function TakeV32(s: seq<byte>): Option<(int, seq<byte>)>
  {
    if s != [] && BufSize(s[0]) <= |s| && BufSize(s[0]) <= 5 then
      var n := BufSize(s[0]);
      Some((Arrived32(s[..n]), s[n..]))
    else
      None
  }

  function Decode(ty: Type, s: seq<byte>): Option<(Obj, seq<byte>)>
    decreases ty, 0
  {
    match ty
    case Int(n) => if 0 < n <= |s| then Some((ONum(Signed(LeValue(s[..n]), n)), s[n..])) else None
    case V32 => (match TakeV32(s) case Some((v, rest)) => Some((ONum(v), rest)) case None => None)
    case V64 => (match TakeV64(s) case Some((v, rest)) => Some((ONum(v), rest)) case None => None)
    case Str => (match TakeV64(s)
      case Some((n, rest)) => if 0 <= n <= |rest| then Some((OText(rest[..n]), rest[n..])) else None
      case None => None)
    case Pair(t, u) => (match Decode(t, s)
      case Some((a, rest)) => (match Decode(u, rest)
        case Some((b, rest')) => Some((OPair(a, b), rest'))
        case None => None)
      case None => None)
    case _ => if !Container(ty) then None else (match TakeV64(s)
      case Some((n, rest)) => (match DecodeAll(ItemType(ty), if n < 0 then 0 else n, rest)
        case Some((objs, rest')) => (match Collect(ty, objs)
          case Some(o) => Some((o, rest'))
          case None => None)
        case None => None)
      case None => None)
  }

  function DecodeAll(ty: Type, n: nat, s: seq<byte>): (r: Option<(seq<Obj>, seq<byte>)>)
    ensures r.Some? ==> |r.value.0| == n
    decreases ty, n + 1
  {
    if n == 0 then Some(([], s)) else
    match DecodeAll(ty, n - 1, s)
    case Some((objs, rest)) => (match Decode(ty, rest)
      case Some((o, rest')) => Some((objs + [o], rest'))
      case None => None)
    case None => None
  }

  /** The container that results from inserting the elements one by one. */
  function Collect(ty: Type, objs: seq<Obj>): Option<Obj>
    requires Container(ty)
  {
    match ty
    case List(_) => Some(OList(objs))
    case Set(_) => Some(OSet(set o | o in objs))
    case Map(_) => if forall i :: 0 <= i < |objs| ==> objs[i].OPair? then Some(OMap(Assemble(objs))) else None
  }

  /** Inserting an entry whose key is already there leaves the map as it is. */
  function Assemble(objs: seq<Obj>): map<Obj, Obj>
    requires forall i :: 0 <= i < |objs| ==> objs[i].OPair?
  {
    if objs == [] then map[] else
    var m := Assemble(objs[..|objs| - 1]);
    var e := objs[|objs| - 1];
    if e.a in m then m else m[e.a := e.b]
  }

  // ---- what a value on the wire stands for

  function Denote(ty: Type, w: Value): Obj
    requires Typed(ty, w)
    decreases w, 0
  {
    match ty
    case Int(_) => ONum(w.v)
    case V32 => ONum(w.v)
    case V64 => ONum(w.v)
    case Str => OText(w.s)
    case Pair(t, u) => OPair(Denote(t, w.a), Denote(u, w.b))
    case List(t) => OList(DenoteAll(t, w.items))
    case Set(t) => OSet(set o | o in DenoteAll(t, w.items))
    case Map(t) => OMap(Assemble(DenoteAll(t, w.items)))
  }

  function DenoteAll(ty: Type, items: seq<Value>): (objs: seq<Obj>)
    requires forall i :: 0 <= i < |items| ==> Typed(ty, items[i])
    ensures |objs| == |items|
    ensures forall i :: 0 <= i < |items| ==> objs[i] == Denote(ty, items[i])
    ensures ty.Pair? ==> forall i :: 0 <= i < |items| ==> objs[i].OPair?
    decreases items, 1
  {
    if items == [] then [] else DenoteAll(ty, items[..|items| - 1]) + [Denote(ty, items[|items| - 1])]
  }

  /** A small length is its own byte. */
  lemma OneByte(n: nat)
    requires n < 64
    ensures OnWire(n) == [n]
  {
    assert Le(n, 1) == [n];
    assert Reversed([n]) == [n];
  }

  lemma TwoBytes()
    ensures OnWire(300) == [0x81, 0x2C] && OnWire(-1) == [0x7F]
  {
    assert Le(0x812C, 2) == [0x2C, 0x81];
    assert Reversed([0x2C, 0x81]) == [0x81, 0x2C];
    assert Le(0x7F, 1) == [0x7F];
    assert Reversed([0x7F]) == [0x7F];
  }

  lemma Widths()
    ensures Fits(258, 2) && Fits(300, 8) && Fits(-1, 4) && forall n: nat :: n < 64 ==> Fits(n, 1) && Short(n)
    ensures Le(258, 2) == [2, 1] && forall n: nat :: n < 64 ==> Le(n, 1) == [n]
  {
    assert Pow256(1) == 0x100 && Pow256(2) == 0x1_0000 && Pow256(4) == 0x1_0000_0000 && Pow256(8) == 0x1_0000_0000_0000_0000;
    assert Le(258, 2) == [2] + Le(1, 1);
  }

  /** The layout by example: lengths and v64 big end first, integers of fixed width little end first, and the parts in order. */
  lemma Layout()
    ensures Typed(Int(2), Num(258)) && Encode(Int(2), Num(258)) == [2, 1]
    ensures Typed(V64, Num(300)) && Encode(V64, Num(300)) == [0x81, 0x2C] && Typed(V32, Num(-1)) && Encode(V32, Num(-1)) == [0x7F]
    ensures Typed(Str, Text([97, 98, 99])) && Encode(Str, Text([97, 98, 99])) == [3, 97, 98, 99]
    ensures var ty, w := Pair(Int(2), Int(1)), Both(Num(258), Num(7)); Typed(ty, w) && Encode(ty, w) == [2, 1, 7]
    ensures var ty, w := List(Int(1)), Many([Num(5), Num(6)]); Typed(ty, w) && Encode(ty, w) == [2, 5, 6]
  {
    hide OnWire, Fits, Le, Short;
    Widths();
    TwoBytes();
    OneByte(2);
    OneByte(3);
    var items := [Num(5), Num(6)];
    assert items[..1] == [Num(5)] && [Num(5)][..0] == [];
    assert EncodeAll(Int(1), [Num(5)]) == [5];
    assert EncodeAll(Int(1), items) == [5, 6];
  }

  // ---- the codec is lossless and self-delimiting

  lemma ShortFits(n: nat)
    requires Short(n)
    ensures Fits(n, 8) && ValSize(n) != 8
  {
    assert Pow256(4) == 0x1_0000_0000;
    assert Pow256(8) == 0x1_0000_0000_0000_0000;
  }

  lemma TakeSent64(v: int, rest: seq<byte>)
    requires Fits(v, 8) && ValSize(v) != 8
    ensures TakeV64(OnWire(v) + rest) == Some((v, rest))
  {
    ArrivesIntact(v);
    var s, n := OnWire(v) + rest, |OnWire(v)|;
    assert s[..n] == OnWire(v) && s[n..] == rest;
  }

  lemma TakeSent32(v: int, rest: seq<byte>)
    requires Fits(v, 4)
    ensures TakeV32(OnWire(v) + rest) == Some((v, rest))
  {
    ArrivesIntact32(v);
    var s, n := OnWire(v) + rest, |OnWire(v)|;
    assert s[..n] == OnWire(v) && s[n..] == rest;
  }

  /**
   Decoding what was encoded, whatever follows it, gives the value the encoding stands for, and
   exactly what follows.
   */
  lemma {:induction false} RoundTrip(ty: Type, w: Value, rest: seq<byte>)
    requires Typed(ty, w)
    ensures Decode(ty, Encode(ty, w) + rest) == Some((Denote(ty, w), rest))
    decreases w, 1
  {
    match ty {
      case Int(n) =>
        LeRoundTrip(w.v, n);
        assert (Le(w.v, n) + rest)[..n] == Le(w.v, n);
      case V32 => TakeSent32(w.v, rest);
      case V64 => TakeSent64(w.v, rest);
      case Str => RoundTripText(w.s, rest);
      case Pair(t, u) =>
        RoundTrip(t, w.a, Encode(u, w.b) + rest);
        RoundTrip(u, w.b, rest);
        Assoc(Encode(t, w.a), Encode(u, w.b), rest);
      case _ => RoundTripContainer(ty, w, rest);
    }
  }

  lemma RoundTripText(text: seq<byte>, rest: seq<byte>)
    requires Short(|text|)
    ensures Decode(Str, OnWire(|text|) + text + rest) == Some((OText(text), rest))
  {
    ShortFits(|text|);
    TakeSent64(|text|, text + rest);
    Assoc(OnWire(|text|), text, rest);
  }

  lemma {:induction false} RoundTripContainer(ty: Type, w: Value, rest: seq<byte>)
    requires Typed(ty, w) && Container(ty)
    ensures Decode(ty, Encode(ty, w) + rest) == Some((Denote(ty, w), rest))
    decreases w, 0
  {
    hide EncodeAll, DecodeAll, DenoteAll, TakeV64, OnWire;
    ShortFits(|w.items|);
    var body := EncodeAll(ItemType(ty), w.items);
    TakeSent64(|w.items|, body + rest);
    Assoc(OnWire(|w.items|), body, rest);
    RoundTripAll(ItemType(ty), w.items, rest);
  }

  lemma {:induction false} RoundTripAll(ty: Type, items: seq<Value>, rest: seq<byte>)
    requires forall i :: 0 <= i < |items| ==> Typed(ty, items[i])
    ensures DecodeAll(ty, |items|, EncodeAll(ty, items) + rest) == Some((DenoteAll(ty, items), rest))
    decreases items, 1
  {
    hide Encode, Decode, Denote, Typed;
    if items == [] {
      assert EncodeAll(ty, items) + rest == rest;
    } else {
      var front, last := items[..|items| - 1], items[|items| - 1];
      RoundTripAll(ty, front, Encode(ty, last) + rest);
      RoundTrip(ty, last, rest);
      Assoc(EncodeAll(ty, front), Encode(ty, last), rest);
    }
  }

  // ---- the order in which a set or a map is written does not matter

  predicate DistinctKeys(objs: seq<Obj>)
    requires forall i :: 0 <= i < |objs| ==> objs[i].OPair?
  {
    forall i, j :: 0 <= i < j < |objs| ==> objs[i].a != objs[j].a
  }

  /** Entry `i` is the first, or the last, with its key. */
  predicate FirstWith(objs: seq<Obj>, i: nat)
  {
    i < |objs| && objs[i].OPair? && forall j :: 0 <= j < i ==> !(objs[j].OPair? && objs[j].a == objs[i].a)
  }

  predicate LastWith(objs: seq<Obj>, i: nat)
  {
    i < |objs| && objs[i].OPair? && forall j :: i < j < |objs| ==> !(objs[j].OPair? && objs[j].a == objs[i].a)
  }

  /** The map has exactly the keys that were read. */
  lemma {:induction false} KeysRead(objs: seq<Obj>, k: Obj)
    requires forall i :: 0 <= i < |objs| ==> objs[i].OPair?
    ensures k in Assemble(objs) <==> exists i :: 0 <= i < |objs| && objs[i].a == k
  {
    if objs != [] {
      var front := objs[..|objs| - 1];
      KeysRead(front, k);
      assert forall i :: 0 <= i < |front| ==> front[i] == objs[i];
    }
  }

  /** Of several entries with one key the first counts. */
  lemma {:induction false} FirstWins(objs: seq<Obj>, i: nat)
    requires (forall k :: 0 <= k < |objs| ==> objs[k].OPair?) && FirstWith(objs, i)
    ensures objs[i].a in Assemble(objs) && Assemble(objs)[objs[i].a] == objs[i].b
  {
    var front := objs[..|objs| - 1];
    assert forall k :: 0 <= k < |front| ==> front[k] == objs[k];
    if i < |front| {
      FirstWins(front, i);
    } else {
      KeysRead(front, objs[i].a);
    }
  }

  /** With distinct keys the assembled map holds exactly the entries that were read. */
  lemma AssembleEntries(objs: seq<Obj>)
    requires forall i :: 0 <= i < |objs| ==> objs[i].OPair?
    requires DistinctKeys(objs)
    ensures forall k :: k in Assemble(objs) <==> exists i :: 0 <= i < |objs| && objs[i].a == k
    ensures forall i :: 0 <= i < |objs| ==> objs[i].a in Assemble(objs) && Assemble(objs)[objs[i].a] == objs[i].b
  {
    hide Assemble;
    forall k
      ensures k in Assemble(objs) <==> exists i :: 0 <= i < |objs| && objs[i].a == k
    {
      KeysRead(objs, k);
    }
    forall i | 0 <= i < |objs|
      ensures objs[i].a in Assemble(objs) && Assemble(objs)[objs[i].a] == objs[i].b
    {
      FirstWins(objs, i);
    }
  }

  /** No map in the value has a key twice. */
  predicate Keyed(ty: Type, w: Value)
    requires Typed(ty, w)
    decreases w
  {
    match ty
    case Pair(t, u) => Keyed(t, w.a) && Keyed(u, w.b)
    case List(t) => forall i :: 0 <= i < |w.items| ==> Keyed(t, w.items[i])
    case Set(t) => forall i :: 0 <= i < |w.items| ==> Keyed(t, w.items[i])
    case Map(t) => (forall i :: 0 <= i < |w.items| ==> Keyed(t, w.items[i])) && DistinctKeys(DenoteAll(t, w.items))
    case _ => true
  }

  /**
   The same value, but that the elements of sets and the entries of maps may come in another order, at any
   depth; an element that a set lists twice counts once.
   */
  predicate Same(ty: Type, w: Value, w': Value)
    requires Typed(ty, w) && Typed(ty, w')
    decreases w, 0
  {
    match ty
    case Pair(t, u) => Same(t, w.a, w'.a) && Same(u, w.b, w'.b)
    case List(t) => |w.items| == |w'.items| && forall i :: 0 <= i < |w.items| ==> Same(t, w.items[i], w'.items[i])
    case Set(t) => Inside(t, w.items, w'.items) && Covers(t, w.items, w'.items)
    case Map(t) => Inside(t, w.items, w'.items) && Covers(t, w.items, w'.items)
    case _ => w == w'
  }

  predicate Inside(ty: Type, items: seq<Value>, items': seq<Value>)
    requires forall i :: 0 <= i < |items| ==> Typed(ty, items[i])
    requires forall i :: 0 <= i < |items'| ==> Typed(ty, items'[i])
    decreases items, 0
  {
    forall i :: 0 <= i < |items| ==> Matched(ty, items[i], items')
  }

  predicate Matched(ty: Type, w: Value, items': seq<Value>)
    requires Typed(ty, w) && forall j :: 0 <= j < |items'| ==> Typed(ty, items'[j])
    decreases w, 1
  {
    exists j :: 0 <= j < |items'| && Same(ty, w, items'[j])
  }

  predicate Covers(ty: Type, items: seq<Value>, items': seq<Value>)
    requires forall i :: 0 <= i < |items| ==> Typed(ty, items[i])
    requires forall i :: 0 <= i < |items'| ==> Typed(ty, items'[i])
    decreases items, 1
  {
    forall j :: 0 <= j < |items'| ==> Among(ty, items, items'[j])
  }

  predicate Among(ty: Type, items: seq<Value>, w': Value)
    requires (forall i :: 0 <= i < |items| ==> Typed(ty, items[i])) && Typed(ty, w')
    decreases items, 0
  {
    exists i :: 0 <= i < |items| && Same(ty, items[i], w')
  }

  /**
   Two values on the wire stand for the same value if and only if they differ at most in the order, and in
   repetitions, of the elements of sets, and in the order of the entries of maps.
   */
  lemma {:induction false} SameMeaning(ty: Type, w: Value, w': Value)
    requires Typed(ty, w) && Typed(ty, w') && Keyed(ty, w) && Keyed(ty, w')
    ensures Same(ty, w, w') <==> Denote(ty, w) == Denote(ty, w')
    decreases w, 1
  {
    hide Inside, Covers, DistinctKeys, DenoteAll, Assemble;
    match ty {
      case Pair(t, u) =>
        SameMeaning(t, w.a, w'.a);
        SameMeaning(u, w.b, w'.b);
      case List(t) =>
        SameItems(t, w.items, w'.items);
        SameList(t, w.items, w'.items);
      case Set(t) => SameContents(t, w, w');
      case Map(t) => SameContents(t, w, w');
      case _ =>
    }
  }

  lemma {:induction false} SameContents(ty: Type, w: Value, w': Value)
    requires w.Many? && w'.Many?
    requires forall i :: 0 <= i < |w.items| ==> Typed(ty, w.items[i]) && Keyed(ty, w.items[i])
    requires forall j :: 0 <= j < |w'.items| ==> Typed(ty, w'.items[j]) && Keyed(ty, w'.items[j])
    ensures var objs, objs' := DenoteAll(ty, w.items), DenoteAll(ty, w'.items);
      (Inside(ty, w.items, w'.items) && Covers(ty, w.items, w'.items) <==> (set o | o in objs) == (set o | o in objs')) &&
      (ty.Pair? && DistinctKeys(objs) && DistinctKeys(objs') ==>
        (Inside(ty, w.items, w'.items) && Covers(ty, w.items, w'.items) <==> Assemble(objs) == Assemble(objs')))
    decreases w, 0
  {
    hide Typed, Keyed, Same, Denote, DenoteAll, Inside, Covers, DistinctKeys, Assemble;
    var objs, objs' := DenoteAll(ty, w.items), DenoteAll(ty, w'.items);
    SameItems(ty, w.items, w'.items);
    InsideMeans(ty, w.items, w'.items);
    CoversMeans(ty, w.items, w'.items);
    SameSet(objs, objs');
    if ty.Pair? && DistinctKeys(objs) && DistinctKeys(objs') {
      SameMap(objs, objs');
    }
  }

  lemma {:induction false} SameItems(ty: Type, items: seq<Value>, items': seq<Value>)
    requires forall i :: 0 <= i < |items| ==> Typed(ty, items[i]) && Keyed(ty, items[i])
    requires forall j :: 0 <= j < |items'| ==> Typed(ty, items'[j]) && Keyed(ty, items'[j])
    ensures forall i, j :: 0 <= i < |items| && 0 <= j < |items'| ==>
      (Same(ty, items[i], items'[j]) <==> Denote(ty, items[i]) == Denote(ty, items'[j]))
    decreases items
  {
    forall i, j | 0 <= i < |items| && 0 <= j < |items'|
      ensures Same(ty, items[i], items'[j]) <==> Denote(ty, items[i]) == Denote(ty, items'[j])
    {
      SameMeaning(ty, items[i], items'[j]);
    }
  }

  lemma SameList(ty: Type, items: seq<Value>, items': seq<Value>)
    requires forall i :: 0 <= i < |items| ==> Typed(ty, items[i])
    requires forall j :: 0 <= j < |items'| ==> Typed(ty, items'[j])
    requires forall i, j :: 0 <= i < |items| && 0 <= j < |items'| ==>
      (Same(ty, items[i], items'[j]) <==> Denote(ty, items[i]) == Denote(ty, items'[j]))
    ensures DenoteAll(ty, items) == DenoteAll(ty, items') <==>
      |items| == |items'| && forall i :: 0 <= i < |items| ==> Same(ty, items[i], items'[i])
  {
    hide Same, Denote, DenoteAll, Typed;
    var objs, objs' := DenoteAll(ty, items), DenoteAll(ty, items');
    if |items| == |items'| && objs == objs' {
      forall i | 0 <= i < |items|
        ensures Same(ty, items[i], items'[i])
      {
        assert objs[i] == objs'[i];
      }
    }
  }

  lemma InsideMeans(ty: Type, items: seq<Value>, items': seq<Value>)
    requires forall i :: 0 <= i < |items| ==> Typed(ty, items[i])
    requires forall j :: 0 <= j < |items'| ==> Typed(ty, items'[j])
    requires forall i, j :: 0 <= i < |items| && 0 <= j < |items'| ==>
      (Same(ty, items[i], items'[j]) <==> Denote(ty, items[i]) == Denote(ty, items'[j]))
    ensures Inside(ty, items, items') ==> forall o :: o in DenoteAll(ty, items) ==> o in DenoteAll(ty, items')
    ensures (forall o :: o in DenoteAll(ty, items) ==> o in DenoteAll(ty, items')) ==> Inside(ty, items, items')
  {
    hide Same, Denote, DenoteAll, Typed;
    var objs, objs' := DenoteAll(ty, items), DenoteAll(ty, items');
    if forall o :: o in objs ==> o in objs' {
      forall i | 0 <= i < |items|
        ensures Matched(ty, items[i], items')
      {
        assert objs[i] in objs';
        var j :| 0 <= j < |objs'| && objs'[j] == objs[i];
        assert Same(ty, items[i], items'[j]);
      }
    }
    if Inside(ty, items, items') {
      forall o | o in objs
        ensures o in objs'
      {
        var i :| 0 <= i < |objs| && objs[i] == o;
        assert Matched(ty, items[i], items');
        var j :| 0 <= j < |items'| && Same(ty, items[i], items'[j]);
        assert objs'[j] == o;
      }
    }
  }

  lemma CoversMeans(ty: Type, items: seq<Value>, items': seq<Value>)
    requires forall i :: 0 <= i < |items| ==> Typed(ty, items[i])
    requires forall j :: 0 <= j < |items'| ==> Typed(ty, items'[j])
    requires forall i, j :: 0 <= i < |items| && 0 <= j < |items'| ==>
      (Same(ty, items[i], items'[j]) <==> Denote(ty, items[i]) == Denote(ty, items'[j]))
    ensures Covers(ty, items, items') ==> forall o :: o in DenoteAll(ty, items') ==> o in DenoteAll(ty, items)
    ensures (forall o :: o in DenoteAll(ty, items') ==> o in DenoteAll(ty, items)) ==> Covers(ty, items, items')
  {
    hide Same, Denote, DenoteAll, Typed;
    var objs, objs' := DenoteAll(ty, items), DenoteAll(ty, items');
    if forall o :: o in objs' ==> o in objs {
      forall j | 0 <= j < |items'|
        ensures Among(ty, items, items'[j])
      {
        assert objs'[j] in objs;
        var i :| 0 <= i < |objs| && objs[i] == objs'[j];
        assert Same(ty, items[i], items'[j]);
      }
    }
    if Covers(ty, items, items') {
      forall o | o in objs'
        ensures o in objs
      {
        var j :| 0 <= j < |objs'| && objs'[j] == o;
        assert Among(ty, items, items'[j]);
        var i :| 0 <= i < |items| && Same(ty, items[i], items'[j]);
        assert objs[i] == o;
      }
    }
  }

  lemma SameSet(objs: seq<Obj>, objs': seq<Obj>)
    ensures (set o | o in objs) == (set o | o in objs') <==> (forall o :: o in objs ==> o in objs') && forall o :: o in objs' ==> o in objs
  {
    var all, all' := set o | o in objs, set o | o in objs';
    assert forall o :: (o in all <==> o in objs) && (o in all' <==> o in objs');
  }

  /** Maps with distinct keys are equal exactly when they have the same entries. */
  lemma SameMap(objs: seq<Obj>, objs': seq<Obj>)
    requires forall i :: 0 <= i < |objs| ==> objs[i].OPair?
    requires forall i :: 0 <= i < |objs'| ==> objs'[i].OPair?
    requires DistinctKeys(objs) && DistinctKeys(objs')
    ensures Assemble(objs) == Assemble(objs') <==> (forall o :: o in objs ==> o in objs') && forall o :: o in objs' ==> o in objs
  {
    hide Assemble;
    var m, m' := Assemble(objs), Assemble(objs');
    Entries(objs);
    Entries(objs');
    if (forall o :: o in objs ==> o in objs') && forall o :: o in objs' ==> o in objs {
      forall k
        ensures k in m <==> k in m'
        ensures k in m && k in m' ==> m[k] == m'[k]
      {
        if k in m {
          assert OPair(k, m[k]) in objs;
        }
        if k in m' {
          assert OPair(k, m'[k]) in objs';
        }
      }
    }
  }

  lemma Entries(objs: seq<Obj>)
    requires forall i :: 0 <= i < |objs| ==> objs[i].OPair?
    requires DistinctKeys(objs)
    ensures forall o :: o in objs <==> o.OPair? && o.a in Assemble(objs) && Assemble(objs)[o.a] == o.b
  {
    AssembleEntries(objs);
  }

  /**
   The order in which sets and maps are written does not matter: the two encodings are read as the same
   value if and only if the values differ at most in that.
   */
  lemma EnumerationOrder(ty: Type, w: Value, w': Value, rest: seq<byte>)
    requires Typed(ty, w) && Typed(ty, w') && Keyed(ty, w) && Keyed(ty, w')
    ensures Decode(ty, Encode(ty, w) + rest) == Decode(ty, Encode(ty, w') + rest) <==> Same(ty, w, w')
  {
    hide Decode, Encode, Denote, Same, Typed, Keyed;
    RoundTrip(ty, w, rest);
    RoundTrip(ty, w', rest);
    SameMeaning(ty, w, w');
  }

  // ---- the operators

  method PutText(m: Marshal, text: seq<byte>)
    requires m.Valid() && m.CanWrite() && Short(|text|)
    modifies m`head, m`tail, m`spine, m`parts, m`repr, m`contentSize, m`writeCnt
    modifies m.Tails()`next, m.Tails()`writeIdx, m.TailBlocks()`mem, m.TailBlocks()`frozen
    ensures m.Wrote(OnWire(|text|) + text)
  {
    hide Marshal.Marked, Marshal.Valid, Marshal.CanWrite, Marshal.View, OnWire;
    ShortFits(|text|);
    Assoc(m.View(), OnWire(|text|), text);
    PutV64(m, |text|);
    if |text| > 0 {
      m.Write(text);
    }
  }

  /** m << w. */
  method Put(m: Marshal, ty: Type, w: Value)
    requires m.Valid() && m.CanWrite() && Typed(ty, w)
    modifies m`head, m`tail, m`spine, m`parts, m`repr, m`contentSize, m`writeCnt
    modifies m.Tails()`next, m.Tails()`writeIdx, m.TailBlocks()`mem, m.TailBlocks()`frozen
    ensures m.Wrote(Encode(ty, w))
    decreases w, 2
  {
    hide Marshal.Marked, Marshal.Valid, Marshal.CanWrite, Marshal.View, Marshal.Wrote;
    match ty {
      case Int(n) => PutInt(m, w.v, n);
      case V32 => PutV32(m, w.v);
      case V64 => PutV64(m, w.v);
      case Str => PutText(m, w.s);
      case Pair(t, u) => PutPair(m, t, u, w);
      case _ => PutContainer(m, ty, w);
    }
  }

  method PutPair(m: Marshal, t: Type, u: Type, w: Value)
    requires m.Valid() && m.CanWrite() && Typed(Pair(t, u), w)
    modifies m`head, m`tail, m`spine, m`parts, m`repr, m`contentSize, m`writeCnt
    modifies m.Tails()`next, m.Tails()`writeIdx, m.TailBlocks()`mem, m.TailBlocks()`frozen
    ensures m.Wrote(Encode(t, w.a) + Encode(u, w.b))
    decreases w, 1
  {
    hide Marshal.Marked, Marshal.Valid, Marshal.CanWrite, Marshal.View, Encode;
    Assoc(m.View(), Encode(t, w.a), Encode(u, w.b));
    Put(m, t, w.a);
    Put(m, u, w.b);
  }

  method PutContainer(m: Marshal, ty: Type, w: Value)
    requires m.Valid() && m.CanWrite() && Typed(ty, w) && Container(ty)
    modifies m`head, m`tail, m`spine, m`parts, m`repr, m`contentSize, m`writeCnt
    modifies m.Tails()`next, m.Tails()`writeIdx, m.TailBlocks()`mem, m.TailBlocks()`frozen
    ensures m.Wrote(OnWire(|w.items|) + EncodeAll(ItemType(ty), w.items))
    decreases w, 1
  {
    hide Marshal.Marked, Marshal.Valid, Marshal.CanWrite, Marshal.View, EncodeAll, OnWire;
    ShortFits(|w.items|);
    Assoc(m.View(), OnWire(|w.items|), EncodeAll(ItemType(ty), w.items));
    PutV64(m, |w.items|);
    PutAll(m, ItemType(ty), w.items);
  }

  /** The loop over the elements of a container. */
  method PutAll(m: Marshal, ty: Type, items: seq<Value>)
    requires m.Valid() && m.CanWrite() && forall i :: 0 <= i < |items| ==> Typed(ty, items[i])
    modifies m`head, m`tail, m`spine, m`parts, m`repr, m`contentSize, m`writeCnt
    modifies m.Tails()`next, m.Tails()`writeIdx, m.TailBlocks()`mem, m.TailBlocks()`frozen
    ensures m.Wrote(EncodeAll(ty, items))
    decreases items, 1
  {
    hide Marshal.Marked, Marshal.Valid, Marshal.CanWrite, Marshal.View, Encode;
    m.BlockValid();
    assert m.View() + [] == m.View();
    for k := 0 to |items|
      invariant m.Wrote(EncodeAll(ty, items[..k]))
    {
      assert items[..k + 1][..k] == items[..k];
      Assoc(old(m.View()), EncodeAll(ty, items[..k]), Encode(ty, items[k]));
      Put(m, ty, items[k]);
    }
    assert items[..|items|] == items;
  }

  /** m >> w: whatever `Decode` makes of the content is what is read. */
  method Get(m: Marshal, ty: Type) returns (o: Obj)
    requires m.Valid() && Decode(ty, m.View()).Some?
    modifies m`head, m`tail, m`spine, m`parts, m`first, m`contentSize, m.repr`readIdx
    ensures m.Valid() && Some((o, m.View())) == Decode(ty, old(m.View()))
    ensures m.tail == null || m.tail == old(m.tail)
    decreases ty, 2
  {
    hide Marshal.Valid, Marshal.View, Signed, LeValue;
    match ty {
      case Int(n) =>
        var v := GetInt(m, n);
        o := ONum(v);
      case V32 => o := GetV32Obj(m);
      case V64 => o := GetV64Obj(m);
      case Str => o := GetText(m);
      case Pair(t, u) =>
        var a := Get(m, t);
        var b := Get(m, u);
        o := OPair(a, b);
      case _ => o := GetContainer(m, ty);
    }
  }

  method GetV64Obj(m: Marshal) returns (o: Obj)
    requires m.Valid() && TakeV64(m.View()).Some?
    modifies m`head, m`tail, m`spine, m`parts, m`first, m`contentSize, m.repr`readIdx
    ensures m.Valid() && o.ONum? && Some((o.v, m.View())) == TakeV64(old(m.View()))
    ensures m.tail == null || m.tail == old(m.tail)
  {
    hide Marshal.Valid, Marshal.View, Arrived64, BufSize;
    var v, got := GetV64(m);
    Cut(got, m.View());
    assert got[0] == old(m.View())[0];
    o := ONum(v);
  }

  method GetV32Obj(m: Marshal) returns (o: Obj)
    requires m.Valid() && TakeV32(m.View()).Some?
    modifies m`head, m`tail, m`spine, m`parts, m`first, m`contentSize, m.repr`readIdx
    ensures m.Valid() && o.ONum? && Some((o.v, m.View())) == TakeV32(old(m.View()))
    ensures m.tail == null || m.tail == old(m.tail)
  {
    hide Marshal.Valid, Marshal.View, Arrived32, BufSize;
    var v, got := GetV32(m);
    Cut(got, m.View());
    assert got[0] == old(m.View())[0];
    o := ONum(v);
  }

  method GetText(m: Marshal) returns (o: Obj)
    requires m.Valid() && Decode(Str, m.View()).Some?
    modifies m`head, m`tail, m`spine, m`parts, m`first, m`contentSize, m.repr`readIdx
    ensures m.Valid() && Some((o, m.View())) == Decode(Str, old(m.View()))
    ensures m.tail == null || m.tail == old(m.tail)
  {
    hide Marshal.Valid, Marshal.View, TakeV64;
    var len := GetV64Obj(m);
    var text: seq<byte> := [];
    if len.v > 0 {
      text := m.Read(len.v);
      Cut(text, m.View());
    }
    o := OText(text);
  }

  method GetContainer(m: Marshal, ty: Type) returns (o: Obj)
    requires Container(ty) && m.Valid() && Decode(ty, m.View()).Some?
    modifies m`head, m`tail, m`spine, m`parts, m`first, m`contentSize, m.repr`readIdx
    ensures m.Valid() && Some((o, m.View())) == Decode(ty, old(m.View()))
    ensures m.tail == null || m.tail == old(m.tail)
    decreases ty, 1
  {
    hide Marshal.Valid, Marshal.View, TakeV64, DecodeAll;
    var len := GetV64Obj(m);
    var objs := GetAll(m, ItemType(ty), if len.v < 0 then 0 else len.v);
    o := Collect(ty, objs).value;
  }

  /** The loop that reads the elements of a container. */
  method GetAll(m: Marshal, ty: Type, n: nat) returns (objs: seq<Obj>)
    requires m.Valid() && DecodeAll(ty, n, m.View()).Some?
    modifies m`head, m`tail, m`spine, m`parts, m`first, m`contentSize, m.repr`readIdx
    ensures m.Valid() && Some((objs, m.View())) == DecodeAll(ty, n, old(m.View()))
    ensures m.tail == null || m.tail == old(m.tail)
    decreases ty, n + 3
  {
    hide Marshal.Valid, Marshal.View, Decode;
    objs := [];
    for i := 0 to n
      invariant m.Valid() && Some((objs, m.View())) == DecodeAll(ty, i, old(m.View()))
      invariant m.tail == null || m.tail == old(m.tail)
    {
      DecodesSoFar(ty, i + 1, n, old(m.View()));
      var o := Get(m, ty);
      objs := objs + [o];
    }
  }

  lemma {:induction false} DecodesSoFar(ty: Type, i: nat, n: nat, s: seq<byte>)
    requires i <= n && DecodeAll(ty, n, s).Some?
    ensures DecodeAll(ty, i, s).Some?
    decreases n
  {
    if i < n {
      DecodesSoFar(ty, i, n - 1, s);
    }
  }
}
