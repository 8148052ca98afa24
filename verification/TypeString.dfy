/**
 Type strings: how pylib/simplerpcgen/rpcgen.py prints the types of an interface, and how
 pylib/simplerpc/marshal.py takes them apart again to write and read values.
 */
module TypeStrings {
  import opened Serialize
  import opened Bytes
  import SparseInt

  /** A type of the interface language: an integer keyword, or a symbol with type arguments. */
  datatype Ty = Prim(keyword: string) | Named(symbol: string, args: seq<Ty>)

  const PRIMS: set<string> := {"i8", "i16", "i32", "i64", "v32", "v64"}
  const STD: set<string> := {"pair", "string", "map", "list", "set", "vector", "unordered_map", "unordered_set"}

  function StdRename(t: string): string
  {
    if t in STD then "std::" + t else t
  }

  predicate Space(c: char)
  {
    c in " \t\n\r"
  }

  /** No character of a symbol delimits anything in a type string. */
  predicate Plain(s: string)
  {
    forall i :: 0 <= i < |s| ==> s[i] != '<' && s[i] != '>' && s[i] != ',' && !Space(s[i])
  }

  /** What the parser can produce. */
  predicate Parsed(t: Ty)
  {
    match t
    case Prim(k) => k in PRIMS
    case Named(symbol, args) => symbol != "" && Plain(symbol) && forall i :: 0 <= i < |args| ==> Parsed(args[i])
  }

  function Print(t: Ty): string
    decreases t, 0
  {
    match t
    case Prim(k) => "rpc::" + k
    case Named(symbol, args) => StdRename(symbol) + if args == [] then "" else "<" + PrintAll(args) + ">"
  }

  /** The arguments, separated by a comma and a blank. */
  function PrintAll(args: seq<Ty>): string
    decreases args, 1
  {
    if args == [] then "" else
    if |args| == 1 then Print(args[0]) else PrintAll(args[..|args| - 1]) + ", " + Print(args[|args| - 1])
  }

  // ---- template_split

  function StripLeft(s: string): string
  {
    if s != "" && Space(s[0]) then StripLeft(s[1..]) else s
  }

  function StripRight(s: string): string
  {
    if s != "" && Space(s[|s| - 1]) then StripRight(s[..|s| - 1]) else s
  }

  function Strip(s: string): string
  {
    StripRight(StripLeft(s))
  }

  /** The variables of the loop. */
  datatype Scan = Scan(splt: seq<string>, level: int, sp: string)

  function Read(v: Scan, c: char): Scan
  {
    var level := if c == '<' then v.level + 1 else if c == '>' then v.level - 1 else v.level;
    if c == ',' && level == 0 then Scan(v.splt + [Strip(v.sp)], level, "") else Scan(v.splt, level, v.sp + [c])
  }

  function ReadAll(v: Scan, s: string): Scan
  {
    if s == "" then v else Read(ReadAll(v, s[..|s| - 1]), s[|s| - 1])
  }

  function Split(s: string): seq<string>
  {
    var v := ReadAll(Scan([], 0, ""), s);
    if Strip(v.sp) != "" then v.splt + [Strip(v.sp)] else v.splt
  }

  method TemplateSplit(typeStr: string) returns (splt: seq<string>)
    ensures splt == Split(typeStr)
  {
    splt := [];
    var level, sp := 0, "";
    for i := 0 to |typeStr|
      invariant Scan(splt, level, sp) == ReadAll(Scan([], 0, ""), typeStr[..i])
    {
      assert typeStr[..i + 1][..i] == typeStr[..i];
      var c := typeStr[i];
      if c == '<' {
        level := level + 1;
      } else if c == '>' {
        level := level - 1;
      }
      if c == ',' && level == 0 {
        splt := splt + [Strip(sp)];
        sp := "";
      } else {
        sp := sp + [c];
      }
    }
    assert typeStr[..|typeStr|] == typeStr;
    if Strip(sp) != "" {
      splt := splt + [Strip(sp)];
    }
  }

  // ---- splitting undoes printing

  lemma {:induction false} ReadJoin(v: Scan, a: string, b: string)
    ensures ReadAll(v, a + b) == ReadAll(ReadAll(v, a), b)
  {
    if b == "" {
      assert a + b == a;
    } else {
      ReadJoin(v, a, b[..|b| - 1]);
      assert (a + b)[..|a + b| - 1] == a + b[..|b| - 1];
    }
  }

  lemma ReadOne(v: Scan, c: char)
    ensures ReadAll(v, [c]) == Read(v, c)
  {
    assert [c][..0] == "" && ReadAll(v, "") == v;
  }

  lemma {:induction false} ReadPlain(v: Scan, s: string)
    requires Plain(s)
    ensures ReadAll(v, s) == v.(sp := v.sp + s)
  {
    if s == "" {
      assert v.sp + s == v.sp;
    } else {
      ReadPlain(v, s[..|s| - 1]);
      assert v.sp + s[..|s| - 1] + [s[|s| - 1]] == v.sp + s;
    }
  }

  lemma PlainPrims(k: string)
    requires k in PRIMS
    ensures Plain("rpc::" + k) && "rpc::" + k != ""
  {
    assert k in {"i8", "i16", "i32", "i64", "v32", "v64"};
  }

  lemma PlainRename(s: string)
    requires Plain(s) && s != ""
    ensures Plain(StdRename(s)) && StdRename(s) != ""
  {
  }

  /** A printed type is read as one piece, at any level. */
  lemma {:induction false} ReadType(v: Scan, t: Ty)
    requires Parsed(t) && v.level >= 0
    ensures ReadAll(v, Print(t)) == v.(sp := v.sp + Print(t))
    decreases t, 0
  {
    hide Plain, StdRename, ReadAll;
    match t {
      case Prim(k) =>
        PlainPrims(k);
        ReadPlain(v, "rpc::" + k);
      case Named(symbol, args) =>
        PlainRename(symbol);
        var name := StdRename(symbol);
        ReadPlain(v, name);
        if args == [] {
          assert name + "" == name;
        } else {
          ReadTemplate(v, name, args);
        }
    }
  }

  lemma {:induction false} ReadTemplate(v: Scan, name: string, args: seq<Ty>)
    requires (forall i :: 0 <= i < |args| ==> Parsed(args[i])) && v.level >= 0 && args != []
    requires ReadAll(v, name) == v.(sp := v.sp + name)
    ensures ReadAll(v, name + ("<" + PrintAll(args) + ">")) == v.(sp := v.sp + (name + ("<" + PrintAll(args) + ">")))
    decreases args, 2
  {
    hide ReadAll, PrintAll;
    var inner := PrintAll(args);
    var v1 := v.(sp := v.sp + name);
    var v2 := v1.(sp := v1.sp + "<", level := v.level + 1);
    var v3 := v2.(sp := v2.sp + inner);
    ReadJoin(v, name, "<" + inner + ">");
    ReadJoin(v1, "<" + inner, ">");
    ReadJoin(v1, "<", inner);
    ReadOne(v1, '<');
    ReadInner(v2, args);
    ReadOne(v3, '>');
    assert v3.sp + ">" == v.sp + (name + ("<" + inner + ">"));
  }

  /** Inside brackets a comma is just another character. */
  lemma {:induction false} ReadInner(v: Scan, args: seq<Ty>)
    requires (forall i :: 0 <= i < |args| ==> Parsed(args[i])) && v.level >= 1 && args != []
    ensures ReadAll(v, PrintAll(args)) == v.(sp := v.sp + PrintAll(args))
    decreases args, 1
  {
    hide ReadAll, Print;
    var front, last := args[..|args| - 1], args[|args| - 1];
    if front == [] {
      ReadType(v, last);
    } else {
      ReadInner(v, front);
      var v1 := v.(sp := v.sp + PrintAll(front));
      ReadJoin(v, PrintAll(front) + ", ", Print(last));
      ReadJoin(v, PrintAll(front), ", ");
      ReadComma(v1);
      ReadType(v1.(sp := v1.sp + ", "), last);
      assert v.sp + PrintAll(front) + ", " + Print(last) == v.sp + (PrintAll(front) + ", " + Print(last));
    }
  }

  lemma ReadComma(v: Scan)
    ensures v.level >= 1 ==> ReadAll(v, ", ") == v.(sp := v.sp + ", ")
    ensures v.level == 0 ==> ReadAll(v, ", ") == Scan(v.splt + [Strip(v.sp)], 0, " ")
  {
    hide Strip, ReadAll;
    assert ", " == [','] + [' '];
    ReadJoin(v, [','], [' ']);
    ReadOne(v, ',');
    ReadOne(Read(v, ','), ' ');
    if v.level >= 1 {
      assert v.sp + [','] + [' '] == v.sp + ([','] + [' ']);
    } else {
      assert [] + [' '] == [' '];
    }
  }

  /** A printed type begins and ends with a character that is not stripped. */
  lemma {:induction false} Ends(t: Ty)
    requires Parsed(t)
    ensures Print(t) != "" && !Space(Print(t)[0]) && !Space(Print(t)[|Print(t)| - 1])
  {
    match t {
      case Prim(k) => PlainPrims(k);
      case Named(symbol, args) =>
        PlainRename(symbol);
        assert Print(t)[0] == StdRename(symbol)[0];
    }
  }

  lemma StripPrinted(t: Ty)
    requires Parsed(t)
    ensures Strip(Print(t)) == Print(t) && Strip(" " + Print(t)) == Print(t)
  {
    Ends(t);
    assert (" " + Print(t))[1..] == Print(t);
  }

  function PrintEach(args: seq<Ty>): (ss: seq<string>)
    ensures |ss| == |args|
  {
    seq(|args|, i requires 0 <= i < |args| => Print(args[i]))
  }

  /** At level 0 every argument but the last one has been split off. */
  lemma {:induction false} ReadOuter(args: seq<Ty>)
    requires (forall i :: 0 <= i < |args| ==> Parsed(args[i])) && args != []
    ensures var v := ReadAll(Scan([], 0, ""), PrintAll(args));
      v.level == 0 && v.splt == PrintEach(args[..|args| - 1]) && Strip(v.sp) == Print(args[|args| - 1])
  {
    hide ReadAll, Print, Strip;
    var start := Scan([], 0, "");
    var front, last := args[..|args| - 1], args[|args| - 1];
    StripPrinted(last);
    if front == [] {
      ReadType(start, last);
      assert "" + Print(last) == Print(last);
      assert PrintEach(front) == [];
    } else {
      ReadOuter(front);
      var v := ReadAll(start, PrintAll(front));
      ReadJoin(start, PrintAll(front) + ", ", Print(last));
      ReadJoin(start, PrintAll(front), ", ");
      ReadComma(v);
      ReadType(Scan(v.splt + [Strip(v.sp)], 0, " "), last);
      assert PrintEach(front) == PrintEach(front[..|front| - 1]) + [Print(front[|front| - 1])];
    }
  }

  /** Splitting the inside of a printed type gives exactly its arguments, at any depth of nesting. */
  lemma SplitPrinted(args: seq<Ty>)
    requires (forall i :: 0 <= i < |args| ==> Parsed(args[i])) && args != []
    ensures Split(PrintAll(args)) == PrintEach(args)
  {
    hide ReadAll, Print, Strip, PrintEach, PrintAll, Parsed;
    ReadOuter(args);
    EachLast(args);
    PrintedNotEmpty(args[|args| - 1]);
  }

  lemma EachLast(args: seq<Ty>)
    requires args != []
    ensures PrintEach(args) == PrintEach(args[..|args| - 1]) + [Print(args[|args| - 1])]
  {
    hide Print;
  }

  lemma PrintedNotEmpty(t: Ty)
    requires Parsed(t)
    ensures Print(t) != ""
  {
    Ends(t);
  }

  // ---- the dispatch of write_obj and read_obj on a type string

  /** The types that are not templates. */
  function Base(name: string): Option<Type>
  {
    if name in {"rpc::i8", "i8"} then Some(Int(1))
    else if name in {"rpc::i16", "i16"} then Some(Int(2))
    else if name in {"rpc::i32", "i32"} then Some(Int(4))
    else if name in {"rpc::i64", "i64"} then Some(Int(8))
    else if name in {"rpc::v32", "v32"} then Some(V32)
    else if name in {"rpc::v64", "v64"} then Some(V64)
    else if name in {"std::string", "string"} then Some(Str)
    else None
  }

  datatype Template = PairOf | MapOf | ListOf | SetOf | Other

  function TemplateOf(name: string): Template
  {
    if name == "std::pair" then PairOf
    else if name in {"std::map", "std::unordered_map"} then MapOf
    else if name in {"std::vector", "std::list"} then ListOf
    else if name in {"std::set", "std::unordered_set"} then SetOf
    else Other
  }

  predicate StartsWith(s: string, prefix: string)
  {
    |prefix| <= |s| && s[..|prefix|] == prefix
  }

  /** obj_t.startswith, for the templates the code knows. */
  function TemplateAt(s: string): Template
  {
    if StartsWith(s, "std::pair" + "<") then PairOf
    else if StartsWith(s, "std::map" + "<") || StartsWith(s, "std::unordered_map" + "<") then MapOf
    else if StartsWith(s, "std::vector" + "<") || StartsWith(s, "std::list" + "<") then ListOf
    else if StartsWith(s, "std::set" + "<") || StartsWith(s, "std::unordered_set" + "<") then SetOf
    else Other
  }

  function Index(s: string): (k: nat)
    ensures k <= |s|
  {
    if s == "" || s[0] == '<' then 0 else 1 + Index(s[1..])
  }

  /** obj_t[obj_t.index("<") + 1:-1] */
  function Inside(s: string): (r: string)
    ensures s != "" ==> |r| < |s|
  {
    if Index(s) + 1 < |s| then s[Index(s) + 1..|s| - 1] else ""
  }

  /** The type that write_obj and read_obj follow for a type string; None for doubles, registered structs and errors. */
  function TypeOf(s: string): Option<Type>
    decreases |s|
  {
    if s == "" then None
    else if Base(s).Some? then Base(s)
    else
      match TemplateAt(s)
      case PairOf => BothOf(s)
      case MapOf => (match BothOf(s) case Some(p) => Some(Map(p)) case None => None)
      case ListOf => (match TypeOf(Inside(s)) case Some(t) => Some(List(t)) case None => None)
      case SetOf => (match TypeOf(Inside(s)) case Some(t) => Some(Set(t)) case None => None)
      case Other => None
  }

  /** first_t, second_t = template_split(...) */
  function BothOf(s: string): Option<Type>
    requires s != ""
    decreases |s|, 0
  {
    SplitShort(Inside(s));
    var parts := Split(Inside(s));
    if |parts| != 2 then None else
    match (TypeOf(parts[0]), TypeOf(parts[1]))
    case (Some(t), Some(u)) => Some(Pair(t, u))
    case _ => None
  }

  lemma {:induction false} StripShort(s: string)
    ensures |Strip(s)| <= |s|
  {
    StripLeftShort(s);
    StripRightShort(StripLeft(s));
  }

  lemma {:induction false} StripLeftShort(s: string)
    ensures |StripLeft(s)| <= |s|
  {
    if s != "" && Space(s[0]) {
      StripLeftShort(s[1..]);
    }
  }

  lemma {:induction false} StripRightShort(s: string)
    ensures |StripRight(s)| <= |s|
  {
    if s != "" && Space(s[|s| - 1]) {
      StripRightShort(s[..|s| - 1]);
    }
  }

  lemma {:induction false} ReadShort(s: string)
    ensures var v := ReadAll(Scan([], 0, ""), s);
      |v.sp| <= |s| && forall i :: 0 <= i < |v.splt| ==> |v.splt[i]| <= |s|
  {
    if s != "" {
      ReadShort(s[..|s| - 1]);
      StripShort(ReadAll(Scan([], 0, ""), s[..|s| - 1]).sp);
    }
  }

  lemma SplitShort(s: string)
    ensures forall i :: 0 <= i < |Split(s)| ==> |Split(s)[i]| <= |s|
  {
    hide ReadAll, Strip;
    ReadShort(s);
    StripShort(ReadAll(Scan([], 0, ""), s).sp);
  }

  /** The type that a type of the interface language stands for on the wire. */
  function Meaning(t: Ty): Option<Type>
    decreases t
  {
    match t
    case Prim(k) => Base("rpc::" + k)
    case Named(symbol, args) =>
      var name := StdRename(symbol);
      if args == [] then Base(name) else
      match TemplateOf(name)
      case PairOf => PairMeaning(args)
      case MapOf => (match PairMeaning(args) case Some(p) => Some(Map(p)) case None => None)
      case ListOf => if |args| != 1 then None else (match Meaning(args[0]) case Some(u) => Some(List(u)) case None => None)
      case SetOf => if |args| != 1 then None else (match Meaning(args[0]) case Some(u) => Some(Set(u)) case None => None)
      case Other => None
  }

  function PairMeaning(args: seq<Ty>): Option<Type>
    decreases args
  {
    if |args| != 2 then None else
    match (Meaning(args[0]), Meaning(args[1]))
    case (Some(t), Some(u)) => Some(Pair(t, u))
    case _ => None
  }

  // ---- the dispatch finds the type that was printed

  lemma PlainNames(q: string)
    requires q in {"std::pair", "std::map", "std::unordered_map", "std::vector", "std::list", "std::set", "std::unordered_set"}
    ensures Plain(q)
  {
    hide Plain;
    if q in {"std::pair", "std::map", "std::unordered_map"} {
      PlainMaps(q);
    } else {
      PlainLists(q);
    }
  }

  lemma PlainMaps(q: string)
    requires q in {"std::pair", "std::map", "std::unordered_map"}
    ensures Plain(q)
  {
  }

  lemma PlainLists(q: string)
    requires q in {"std::vector", "std::list", "std::set", "std::unordered_set"}
    ensures Plain(q)
  {
  }

  lemma {:induction false} IndexPlain(name: string, rest: string)
    requires Plain(name)
    ensures Index(name + ("<" + rest)) == |name|
  {
    var s := name + ("<" + rest);
    if name != "" {
      IndexPlain(name[1..], rest);
      assert s[1..] == name[1..] + ("<" + rest);
    }
  }

  /** A template name is recognised by its prefix up to the bracket. */
  lemma PrefixIsName(name: string, rest: string, q: string)
    requires Plain(name) && Plain(q)
    ensures StartsWith(name + ("<" + rest), q + "<") <==> name == q
  {
    var s, p := name + ("<" + rest), q + "<";
    if StartsWith(s, p) {
      var tail := s[|p|..];
      assert s == q + ("<" + tail);
      IndexPlain(name, rest);
      IndexPlain(q, tail);
      assert name == s[..|name|] && q == s[..|q|];
    }
    if name == q {
      assert s == p + rest;
    }
  }

  lemma TemplateFound(name: string, rest: string)
    requires Plain(name)
    ensures TemplateAt(name + ("<" + rest)) == TemplateOf(name)
  {
    hide Plain, StartsWith;
    forall q | q in {"std::pair", "std::map", "std::unordered_map", "std::vector", "std::list", "std::set", "std::unordered_set"}
      ensures StartsWith(name + ("<" + rest), q + "<") <==> name == q
    {
      PlainNames(q);
      PrefixIsName(name, rest, q);
    }
    assert "std::pair" in {"std::pair", "std::map", "std::unordered_map", "std::vector", "std::list", "std::set", "std::unordered_set"};
  }

  lemma FixedIsPlain(s: string)
    requires s in {"rpc::i8", "i8", "rpc::i16", "i16", "rpc::i32", "i32"}
    ensures Plain(s)
  {
  }

  lemma OthersArePlain(s: string)
    requires s in {"rpc::i64", "i64", "rpc::v32", "v32", "rpc::v64", "v64", "std::string", "string"}
    ensures Plain(s)
  {
  }

  lemma BaseIsPlain(s: string)
    requires Base(s).Some?
    ensures Plain(s)
  {
    hide Plain;
    if s in {"rpc::i8", "i8", "rpc::i16", "i16", "rpc::i32", "i32"} {
      FixedIsPlain(s);
    } else {
      OthersArePlain(s);
    }
  }

  lemma TemplateParts(name: string, inner: string)
    requires Plain(name)
    ensures var s := name + ("<" + inner + ">");
      Base(s) == None && TemplateAt(s) == TemplateOf(name) && Inside(s) == inner && s != ""
  {
    hide Base, TemplateAt, TemplateOf;
    var s := name + ("<" + inner + ">");
    assert s == name + ("<" + (inner + ">"));
    TemplateFound(name, inner + ">");
    IndexPlain(name, inner + ">");
    assert s[|name|] == '<';
    if Base(s).Some? {
      BaseIsPlain(s);
    }
  }

  /** The type found for a printed type is the one it stands for. */
  lemma {:induction false} TypeOfPrinted(t: Ty)
    requires Parsed(t) && Meaning(t).Some?
    ensures TypeOf(Print(t)) == Meaning(t)
    decreases t, 0
  {
    hide Base, TemplateAt, TemplateOf, Plain, StdRename, Inside, PrintAll;
    match t {
      case Prim(k) => PlainPrims(k);
      case Named(symbol, args) =>
        PlainRename(symbol);
        var name := StdRename(symbol);
        if args == [] {
          assert name + "" == name;
        } else {
          TemplateParts(name, PrintAll(args));
          match TemplateOf(name) {
            case PairOf => BothPrinted(Print(t), args);
            case MapOf => BothPrinted(Print(t), args);
            case ListOf => TypeOfPrinted(args[0]); OnlyOne(args);
            case SetOf => TypeOfPrinted(args[0]); OnlyOne(args);
          }
        }
    }
  }

  /** A printed type: prefixes, angle brackets, and a comma and a blank between arguments. */
  lemma MapText()
    ensures Print(Named("map", [Prim("i8"), Named("string", [])])) == "std::map" + "<" + "rpc::i8" + ", " + "std::string" + ">"
  {
    hide StdRename;
    var t, u := Prim("i8"), Named("string", []);
    Text(t, u);
    Bare("map");
    assert Print(Named("map", [t, u])) == "std::map" + ("<" + PrintAll([t, u]) + ">");
  }

  lemma Text(t: Ty, u: Ty)
    requires t == Prim("i8") && u == Named("string", [])
    ensures PrintAll([t, u]) == "rpc::i8" + ", " + "std::string"
  {
    Bare("string");
    hide StdRename;
    assert [t, u][..1] == [t] && PrintAll([t]) == Print(t);
    assert Print(u) == "std::string" + "";
  }

  /** The integer keywords by their widths in bytes, the integers of variable length, and strings. */
  lemma Keywords()
    ensures Meaning(Prim("i8")) == Some(Int(1)) && Meaning(Prim("i16")) == Some(Int(2))
    ensures Meaning(Prim("i32")) == Some(Int(4)) && Meaning(Prim("i64")) == Some(Int(8))
    ensures Meaning(Prim("v32")) == Some(V32) && Meaning(Prim("v64")) == Some(V64)
    ensures forall k :: k in PRIMS <==> k in {"i8", "i16", "i32", "i64", "v32", "v64"}
    ensures forall name :: name in {"string", "std::string"} ==> Meaning(Named(name, [])) == Some(Str)
  {
    assert "rpc::" + "i8" == "rpc::i8" && "rpc::" + "i16" == "rpc::i16" && "rpc::" + "i32" == "rpc::i32";
    assert "rpc::" + "i64" == "rpc::i64" && "rpc::" + "v32" == "rpc::v32" && "rpc::" + "v64" == "rpc::v64";
    assert StdRename("string") == "std::string" == StdRename("std::string");
  }

  /** A standard container has a meaning whenever its arguments have one. */
  lemma Containers(t: Ty, u: Ty, a: Type, b: Type)
    requires Meaning(t) == Some(a) && Meaning(u) == Some(b)
    ensures forall name :: name in {"pair", "std::pair"} ==> Meaning(Named(name, [t, u])) == Some(Pair(a, b))
    ensures forall name :: name in {"map", "std::map", "unordered_map", "std::unordered_map"} ==>
      Meaning(Named(name, [t, u])) == Some(Map(Pair(a, b)))
    ensures forall name :: name in {"vector", "std::vector", "list", "std::list"} ==> Meaning(Named(name, [t])) == Some(List(a))
    ensures forall name :: name in {"set", "std::set", "unordered_set", "std::unordered_set"} ==> Meaning(Named(name, [t])) == Some(Set(a))
  {
    Renamed();
    hide StdRename;
  }

  lemma Renamed()
    ensures StdRename("pair") == StdRename("std::pair") == "std::pair" && StdRename("map") == StdRename("std::map") == "std::map"
    ensures StdRename("unordered_map") == StdRename("std::unordered_map") == "std::unordered_map"
    ensures StdRename("vector") == StdRename("std::vector") == "std::vector" && StdRename("list") == StdRename("std::list") == "std::list"
    ensures StdRename("set") == StdRename("std::set") == "std::set"
    ensures StdRename("unordered_set") == StdRename("std::unordered_set") == "std::unordered_set"
  {
    Bare("pair");
    Bare("map");
    Bare("unordered_map");
    Bare("vector");
    Bare("list");
    Bare("set");
    Bare("unordered_set");
    hide StdRename;
  }

  /** A bare name is renamed once. */
  lemma Bare(name: string)
    requires name in STD
    ensures StdRename(name) == "std::" + name && StdRename("std::" + name) == "std::" + name
  {
    assert forall t :: t in STD && |t| > 3 ==> t[3] != ':';
    assert ("std::" + name)[3] == ':';
  }

  lemma OnlyOne(args: seq<Ty>)
    requires |args| == 1
    ensures PrintAll(args) == Print(args[0])
  {
  }

  lemma {:induction false} BothPrinted(s: string, args: seq<Ty>)
    requires (forall i :: 0 <= i < |args| ==> Parsed(args[i])) && args != [] && PairMeaning(args).Some?
    requires s != "" && Inside(s) == PrintAll(args)
    ensures BothOf(s) == PairMeaning(args)
    decreases args, 1
  {
    hide Inside, Split, PrintAll, Print;
    SplitPrinted(args);
    TypeOfPrinted(args[0]);
    TypeOfPrinted(args[1]);
  }

  // ---- read_obj

  /** What read_obj comes to: an object and the bytes behind it, a TypeError, or too few bytes. */
  datatype PyRead = Got(o: Obj, rest: seq<byte>) | TypeError | Missing

  /** Pairs are read as tuples, vectors and lists as lists, sets as sets and maps as dicts; only the first can be hashed. */
  predicate Hashable(o: Obj)
  {
    match o
    case ONum(_) => true
    case OText(_) => true
    case OPair(a, b) => Hashable(a) && Hashable(b)
    case _ => false
  }

  predicate Shaped(ty: Type, o: Obj)
    requires Container(ty)
  {
    match ty
    case List(_) => o.OList?
    case Set(_) => o.OSet?
    case Map(_) => o.OMap?
  }

  /** lst += o, ; st.add(o) ; d[k] = v. */
  function Add(ty: Type, c: Obj, o: Obj): (r: Option<Obj>)
    requires Container(ty) && Shaped(ty, c) && (ty.Map? ==> o.OPair?)
    ensures r.Some? ==> Shaped(ty, r.value)
  {
    match ty
    case List(_) => Some(OList(c.objs + [o]))
    case Set(_) => if Hashable(o) then Some(OSet(c.elems + {o})) else None
    case Map(_) => if Hashable(o.a) then Some(OMap(c.entries[o.a := o.b])) else None
  }

  function NewContainer(ty: Type): Obj
    requires Container(ty)
  {
    match ty
    case List(_) => OList([])
    case Set(_) => OSet({})
    case Map(_) => OMap(map[])
  }

  function ReadObj(ty: Type, s: seq<byte>): (r: PyRead)
    ensures ty.Pair? && r.Got? ==> r.o.OPair?
    decreases ty, 0
  {
    if ty.Pair? then
      match ReadObj(ty.fst, s)
      case Got(a, rest) => (match ReadObj(ty.snd, rest) case Got(b, rest') => Got(OPair(a, b), rest') case e => e)
      case e => e
    else if Container(ty) then
      match TakeV64(s)
      case Some((n, rest)) => ReadItems(ty, if n < 0 then 0 else n, rest)
      case None => Missing
    else
      match Decode(ty, s)
      case Some((o, rest)) => Got(o, rest)
      case None => Missing
  }

  /** The object after `n` rounds of the loop over range(n). */
  function ReadItems(ty: Type, n: nat, s: seq<byte>): (r: PyRead)
    requires Container(ty)
    ensures r.Got? ==> Shaped(ty, r.o)
    decreases ItemType(ty), n + 1
  {
    if n == 0 then Got(NewContainer(ty), s) else
    match ReadItems(ty, n - 1, s)
    case Got(c, rest) => ReadItem(ty, c, rest)
    case e => e
  }

  function ReadItem(ty: Type, c: Obj, s: seq<byte>): (r: PyRead)
    requires Container(ty) && Shaped(ty, c)
    ensures r.Got? ==> Shaped(ty, r.o)
    decreases ItemType(ty), 1
  {
    match ReadObj(ItemType(ty), s)
    case Got(o, rest) => (match Add(ty, c, o) case Some(c') => Got(c', rest) case None => TypeError)
    case e => e
  }

  /** The code of read_obj, behind the dispatch. */
  method PyReadObj(ty: Type, s: seq<byte>) returns (r: PyRead)
    ensures r == ReadObj(ty, s)
    decreases ty
  {
    if ty.Pair? {
      r := PyReadObj(ty.fst, s);
      if r.Got? {
        var first := r.o;
        r := PyReadObj(ty.snd, r.rest);
        if r.Got? {
          r := Got(OPair(first, r.o), r.rest);
        }
      }
    } else if Container(ty) {
      match TakeV64(s) {
        case Some((n, rest)) =>
          r := Got(NewContainer(ty), rest);
          for i := 0 to if n < 0 then 0 else n
            invariant r == ReadItems(ty, i, rest)
          {
            if r.Got? {
              var c := r.o;
              r := PyReadObj(ItemType(ty), r.rest);
              if r.Got? {
                match Add(ty, c, r.o) {
                  case Some(c') => r := Got(c', r.rest);
                  case None => r := TypeError;
                }
              }
            }
          }
        case None => r := Missing;
      }
    } else {
      match Decode(ty, s) {
        case Some((o, rest)) => r := Got(o, rest);
        case None => r := Missing;
      }
    }
  }

  /** The types whose objects can be hashed: no list, set or map, unless further in than a pair goes. */
  predicate Hashes(ty: Type)
  {
    match ty
    case Pair(t, u) => Hashes(t) && Hashes(u)
    case List(_) => false
    case Set(_) => false
    case Map(_) => false
    case _ => true
  }

  /** The elements of a set, and the keys of a map, can be hashed. */
  predicate Keys(ty: Type)
    requires Container(ty)
  {
    match ty
    case List(_) => true
    case Set(t) => Hashes(t)
    case Map(t) => Hashes(t.fst)
  }

  /** No set with elements and no map with entries has elements or keys of a type that cannot be hashed. */
  predicate Readable(ty: Type, w: Value)
    requires Typed(ty, w)
    decreases w
  {
    if ty.Pair? then Readable(ty.fst, w.a) && Readable(ty.snd, w.b)
    else Container(ty) ==> (w.items != [] ==> Keys(ty)) && forall i :: 0 <= i < |w.items| ==> Readable(ItemType(ty), w.items[i])
  }

  /** A later entry with the same key replaces the earlier one. */
  function Latest(objs: seq<Obj>): map<Obj, Obj>
    requires forall i :: 0 <= i < |objs| ==> objs[i].OPair?
  {
    if objs == [] then map[] else Latest(objs[..|objs| - 1])[objs[|objs| - 1].a := objs[|objs| - 1].b]
  }

  function Built(ty: Type, objs: seq<Obj>): (o: Obj)
    requires Container(ty) && (ty.Map? ==> forall i :: 0 <= i < |objs| ==> objs[i].OPair?)
    ensures Shaped(ty, o)
  {
    match ty
    case List(_) => OList(objs)
    case Set(_) => OSet(set o | o in objs)
    case Map(_) => OMap(Latest(objs))
  }

  /** The Python object that a value on the wire stands for. */
  function PyDenote(ty: Type, w: Value): (o: Obj)
    requires Typed(ty, w)
    ensures ty.Pair? ==> o.OPair?
    decreases w, 0
  {
    if ty.Pair? then OPair(PyDenote(ty.fst, w.a), PyDenote(ty.snd, w.b))
    else if Container(ty) then Built(ty, PyDenoteAll(ItemType(ty), w.items))
    else Denote(ty, w)
  }

  function PyDenoteAll(ty: Type, items: seq<Value>): (objs: seq<Obj>)
    requires forall i :: 0 <= i < |items| ==> Typed(ty, items[i])
    ensures |objs| == |items| && forall i :: 0 <= i < |items| ==> objs[i] == PyDenote(ty, items[i])
    decreases items, 1
  {
    if items == [] then [] else PyDenoteAll(ty, items[..|items| - 1]) + [PyDenote(ty, items[|items| - 1])]
  }

  lemma {:induction false} HashableObjects(ty: Type, w: Value)
    requires Typed(ty, w)
    ensures Hashable(PyDenote(ty, w)) <==> Hashes(ty)
  {
    if ty.Pair? {
      HashableObjects(ty.fst, w.a);
      HashableObjects(ty.snd, w.b);
    }
  }

  /** One more object goes into what has been built, if it or its key can be hashed. */
  lemma AddBuilt(ty: Type, objs: seq<Obj>, w: Value)
    requires Container(ty) && Typed(ItemType(ty), w) && (ty.Map? ==> forall i :: 0 <= i < |objs| ==> objs[i].OPair?)
    ensures var o := PyDenote(ItemType(ty), w);
      Add(ty, Built(ty, objs), o) == if Keys(ty) then Some(Built(ty, objs + [o])) else None
  {
    var o := PyDenote(ItemType(ty), w);
    match ty {
      case List(_) =>
      case Set(t) =>
        HashableObjects(t, w);
        assert (set x | x in objs + [o]) == (set x | x in objs) + {o};
      case Map(t) =>
        HashableObjects(t.fst, w.a);
        assert (objs + [o])[..|objs|] == objs;
    }
  }

  /**
   What read_obj makes of an encoding, whatever follows it: the object it stands for and exactly what
   follows, if every non-empty set and map has elements or keys of a hashable type; and a TypeError if not.
   */
  lemma {:induction false} ReadsEncoded(ty: Type, w: Value, rest: seq<byte>)
    requires Typed(ty, w)
    ensures ReadObj(ty, Encode(ty, w) + rest) == if Readable(ty, w) then Got(PyDenote(ty, w), rest) else TypeError
    decreases w, 1
  {
    if ty.Pair? {
      ReadsEncoded(ty.fst, w.a, Encode(ty.snd, w.b) + rest);
      ReadsEncoded(ty.snd, w.b, rest);
      Assoc(Encode(ty.fst, w.a), Encode(ty.snd, w.b), rest);
    } else if Container(ty) {
      ReadsContainer(ty, w, rest);
    } else {
      RoundTrip(ty, w, rest);
    }
  }

  lemma {:induction false} ReadsContainer(ty: Type, w: Value, rest: seq<byte>)
    requires Container(ty) && Typed(ty, w)
    ensures ReadObj(ty, Encode(ty, w) + rest) == if Readable(ty, w) then Got(PyDenote(ty, w), rest) else TypeError
    decreases w, 0
  {
    hide EncodeAll, TakeV64, SparseInt.OnWire, ReadItems, Built;
    ShortFits(|w.items|);
    var body := EncodeAll(ItemType(ty), w.items);
    TakeSent64(|w.items|, body + rest);
    Assoc(SparseInt.OnWire(|w.items|), body, rest);
    ReadsItems(ty, w.items, rest);
  }

  lemma {:induction false} ReadsItems(ty: Type, items: seq<Value>, rest: seq<byte>)
    requires Container(ty) && forall i :: 0 <= i < |items| ==> Typed(ItemType(ty), items[i])
    ensures ReadItems(ty, |items|, EncodeAll(ItemType(ty), items) + rest) ==
      if (items != [] ==> Keys(ty)) && forall i :: 0 <= i < |items| ==> Readable(ItemType(ty), items[i])
      then Got(Built(ty, PyDenoteAll(ItemType(ty), items)), rest) else TypeError
    decreases items, 1
  {
    hide Encode, Typed, Readable, Add, PyDenote, Keys, ReadObj;
    var elem := ItemType(ty);
    if items == [] {
      assert EncodeAll(elem, items) + rest == rest;
    } else {
      var front, last := items[..|items| - 1], items[|items| - 1];
      ReadsItems(ty, front, Encode(elem, last) + rest);
      ReadsEncoded(elem, last, rest);
      Assoc(EncodeAll(elem, front), Encode(elem, last), rest);
      AddBuilt(ty, PyDenoteAll(elem, front), last);
    }
  }

  lemma {:induction false} KeysLatest(objs: seq<Obj>, k: Obj)
    requires forall i :: 0 <= i < |objs| ==> objs[i].OPair?
    ensures k in Latest(objs) <==> exists i :: 0 <= i < |objs| && objs[i].a == k
  {
    if objs != [] {
      var front := objs[..|objs| - 1];
      KeysLatest(front, k);
      assert forall i :: 0 <= i < |front| ==> front[i] == objs[i];
    }
  }

  /** In Python the last of several entries with one key counts. */
  lemma {:induction false} LastWins(objs: seq<Obj>, i: nat)
    requires (forall k :: 0 <= k < |objs| ==> objs[k].OPair?) && LastWith(objs, i)
    ensures objs[i].a in Latest(objs) && Latest(objs)[objs[i].a] == objs[i].b
  {
    var front := objs[..|objs| - 1];
    assert forall k :: 0 <= k < |front| ==> front[k] == objs[k];
    if i < |front| {
      LastWins(front, i);
    }
  }

  lemma {:induction false} SomeFirst(objs: seq<Obj>, k: nat) returns (i: nat)
    requires (forall i :: 0 <= i < |objs| ==> objs[i].OPair?) && k < |objs|
    ensures FirstWith(objs, i) && objs[i].a == objs[k].a
  {
    i := k;
    if j :| 0 <= j < k && objs[j].a == objs[k].a {
      i := SomeFirst(objs, j);
    }
  }

  lemma {:induction false} SomeLast(objs: seq<Obj>, k: nat) returns (i: nat)
    requires (forall i :: 0 <= i < |objs| ==> objs[i].OPair?) && k < |objs|
    ensures LastWith(objs, i) && objs[i].a == objs[k].a
    decreases |objs| - k
  {
    i := k;
    if j :| k < j < |objs| && objs[j].a == objs[k].a {
      i := SomeLast(objs, j);
    }
  }

  /** The first and the last entry of every key have the same value. */
  ghost predicate OneValue(objs: seq<Obj>)
  {
    forall i: nat, j: nat :: FirstWith(objs, i) && LastWith(objs, j) && objs[i].a == objs[j].a ==> objs[i].b == objs[j].b
  }

  /** So the two read a map alike if and only if the first and the last entry of every key have the same value. */
  lemma FirstAndLast(objs: seq<Obj>)
    requires forall i :: 0 <= i < |objs| ==> objs[i].OPair?
    ensures Latest(objs) == Assemble(objs) <==> OneValue(objs)
  {
    hide Latest, Assemble;
    forall i: nat, j: nat | FirstWith(objs, i) && LastWith(objs, j) && objs[i].a == objs[j].a
      ensures objs[i].a in Assemble(objs) && objs[j].a in Latest(objs)
      ensures Assemble(objs)[objs[i].a] == objs[i].b && Latest(objs)[objs[j].a] == objs[j].b
    {
      FirstWins(objs, i);
      LastWins(objs, j);
    }
    if OneValue(objs) {
      forall k
        ensures k in Latest(objs) <==> k in Assemble(objs)
        ensures k in Latest(objs) ==> Latest(objs)[k] == Assemble(objs)[k]
      {
        KeysLatest(objs, k);
        KeysRead(objs, k);
        if k in Latest(objs) {
          AlikeAt(objs, k);
        }
      }
      assert Latest(objs).Keys == Assemble(objs).Keys;
    }
  }

  lemma AlikeAt(objs: seq<Obj>, k: Obj)
    requires (forall i :: 0 <= i < |objs| ==> objs[i].OPair?) && OneValue(objs) && k in Latest(objs)
    ensures k in Assemble(objs) && Latest(objs)[k] == Assemble(objs)[k]
  {
    hide Latest, Assemble, FirstWith, LastWith;
    KeysLatest(objs, k);
    var n :| 0 <= n < |objs| && objs[n].a == k;
    var i := SomeFirst(objs, n);
    var j := SomeLast(objs, n);
    FirstWins(objs, i);
    LastWins(objs, j);
    assert i < |objs| && j < |objs|;
  }

  /** As long as no map has a key twice, what Python reads is what C++ reads. */
  lemma {:induction false} AsInC(ty: Type, w: Value)
    requires Typed(ty, w) && Keyed(ty, w)
    ensures PyDenote(ty, w) == Denote(ty, w)
    decreases w
  {
    if ty.Pair? {
      AsInC(ty.fst, w.a);
      AsInC(ty.snd, w.b);
    } else if Container(ty) {
      var objs := PyDenoteAll(ItemType(ty), w.items);
      forall i | 0 <= i < |w.items|
        ensures objs[i] == DenoteAll(ItemType(ty), w.items)[i]
      {
        AsInC(ItemType(ty), w.items[i]);
      }
      assert objs == DenoteAll(ItemType(ty), w.items);
      if ty.Map? {
        LatestIsOnly(objs);
      }
    }
  }

  lemma {:induction false} LatestIsOnly(objs: seq<Obj>)
    requires forall i :: 0 <= i < |objs| ==> objs[i].OPair?
    requires DistinctKeys(objs)
    ensures Latest(objs) == Assemble(objs)
  {
    if objs != [] {
      var front, e := objs[..|objs| - 1], objs[|objs| - 1];
      LatestIsOnly(front);
      AssembleEntries(front);
      assert forall i :: 0 <= i < |front| ==> front[i].a == objs[i].a != e.a;
    }
  }

  /**
   Reading undoes writing, for every type of the interface language that stands for a wire type: a value
   written along the printed type string and read along it again, whatever follows, comes back, and
   exactly what follows is left, if and only if no set with elements and no map with entries has a list,
   a set or a map in its elements or keys.
   */
  lemma ReadsBack(t: Ty, w: Value, rest: seq<byte>)
    requires Parsed(t) && Meaning(t).Some? && Typed(Meaning(t).value, w)
    ensures TypeOf(Print(t)).Some?
    ensures var ty := TypeOf(Print(t)).value;
      Typed(ty, w) && ReadObj(ty, Encode(ty, w) + rest) == if Readable(ty, w) then Got(PyDenote(ty, w), rest) else TypeError
  {
    hide TypeOf, Print, Meaning, Encode, ReadObj, PyDenote, Typed, Readable;
    TypeOfPrinted(t);
    ReadsEncoded(Meaning(t).value, w, rest);
  }

  lemma StdNames()
    ensures StdRename("vector") == "std::vector" && TemplateOf("std::vector") == ListOf
    ensures StdRename("set") == "std::set" && TemplateOf("std::set") == SetOf
  {
  }

  lemma VectorOfBytes()
    ensures var t := Named("vector", [Prim("i8")]);
      Parsed(t) && Print(t) == "std::vector<rpc::i8>" && Meaning(t) == Some(List(Int(1)))
  {
    hide Plain, Base, StdRename, TemplateOf;
    StdNames();
    assert "rpc::" + "i8" == "rpc::i8";
    assert Base("rpc::i8") == Some(Int(1)) by { BaseOfByte(); }
    assert Plain("vector") by { PlainWords(); }
  }

  lemma BaseOfByte()
    ensures Base("rpc::i8") == Some(Int(1))
  {
  }

  lemma PlainWords()
    ensures Plain("vector") && Plain("set")
  {
  }

  lemma SetOfVectors()
    ensures var t := Named("set", [Named("vector", [Prim("i8")])]);
      Parsed(t) && Print(t) == "std::set<std::vector<rpc::i8>>" && TypeOf(Print(t)) == Some(Set(List(Int(1))))
  {
    hide TypeOf, Plain, Base, StdRename, TemplateOf;
    StdNames();
    var u := Named("vector", [Prim("i8")]);
    var t := Named("set", [u]);
    VectorOfBytes();
    PlainWords();
    OnlyOne([u]);
    TypeOfPrinted(t);
  }

  /** A type that the compiler prints, and a value of it that can be written but not read: a set of one vector. */
  lemma Unreadable(rest: seq<byte>)
    ensures TypeOf("std::set<std::vector<rpc::i8>>") == Some(Set(List(Int(1))))
    ensures var ty, w := Set(List(Int(1))), Many([Many([Num(1)])]);
      Typed(ty, w) && ReadObj(ty, Encode(ty, w) + rest) == TypeError
  {
    hide TypeOf, ReadObj, Encode, Print;
    var ty, w := Set(List(Int(1))), Many([Many([Num(1)])]);
    SetOfVectors();
    assert Short(1) by { assert Pow256(4) == 0x1_0000_0000; }
    assert Fits(1, 1) by { assert Pow256(1) == 256; }
    assert Typed(List(Int(1)), w.items[0]);
    assert !Readable(ty, w);
    ReadsEncoded(ty, w, rest);
  }
}
