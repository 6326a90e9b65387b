/**
 * The core primitives: the arity gate every primitive sits behind, the two
 * list helpers, and the list primitives that need no callback (`=`, `list`,
 * `cons`, `append`, `reverse`, `head`, `tail`, `length`, `nth`, `dict`, and
 * the argument collection of `apply`).  Each loop of the Go code is a
 * `while` loop here, proved against a specification on the spine of the
 * list it walks.
 *
 * The primitives that call back into the evaluator (`map`, `filter`,
 * `foldl`, `foldr`, `apply`) run in the evaluator; this module describes
 * the calls they make and what they return for given answers, and relates
 * that to the textbook map, filter and folds of a pure function.
 */
module Primitives {
  import opened Wrappers
  import opened Numerals
  import opened Values
  import opened Sequences

  // ---------------------------------------------------------------------
  // Error texts
  // ---------------------------------------------------------------------

  function TooFew(name: string, n: nat): string {
    name + " - too few arguments " + IntToString(n)
  }

  function TooMany(name: string, n: nat): string {
    name + " - too many arguments " + IntToString(n)
  }

  function WrongNumber(name: string, n: nat): string {
    name + " - wrong number of arguments " + IntToString(n)
  }

  function WrongType(name: string, v: Value): string {
    name + " - wrong argument type " + TypeName(v)
  }

  function Malformed(name: string): string {
    name + " - malformed list"
  }

  function EmptyArgument(name: string): string {
    name + " - empty list argument"
  }

  function OutOfBound(name: string, idx: int): string {
    name + " - index " + IntToString(idx) + " out of bound"
  }

  // ---------------------------------------------------------------------
  // Arity
  // ---------------------------------------------------------------------

  function CheckMinArgs(name: string, args: seq<Value>, n: int): (r: Option<string>)
    ensures r.None? <==> |args| >= n
  {
    if |args| < n then Some(TooFew(name, |args|)) else None
  }

  function CheckMaxArgs(name: string, args: seq<Value>, n: int): (r: Option<string>)
    ensures r.None? <==> |args| <= n
  {
    if |args| > n then Some(TooMany(name, |args|)) else None
  }

  function CheckExactArgs(name: string, args: seq<Value>, n: int): (r: Option<string>)
    ensures r.None? <==> |args| == n
    ensures r.Some? ==> r.value == WrongNumber(name, |args|)
  {
    if |args| != n then Some(WrongNumber(name, |args|)) else None
  }

  /**
   * The check `MakePrimitive` runs before a primitive's body: the body may
   * run exactly when the argument count lies in `min..max` (no upper bound
   * when `max < 0`); too few arguments is reported before too many.
   */
  function ArityGate(name: string, min: int, max: int, args: seq<Value>): (r: Option<string>)
    ensures r.None? <==> min <= |args| && (max < 0 || |args| <= max)
    ensures |args| < min ==> r == Some(TooFew(name, |args|))
    ensures min <= |args| && 0 <= max < |args| ==> r == Some(TooMany(name, |args|))
  {
    var tooFew := CheckMinArgs(name, args, min);
    if tooFew.Some? then tooFew
    else if max >= 0 then CheckMaxArgs(name, args, max)
    else None
  }

  /**
   * The core primitive table: name, minimum and maximum argument count (a
   * negative maximum means none) and behaviour; the primitives whose
   * behaviour is not modelled are `HostOp`.
   */
  const CoreTable: seq<(string, int, int, PrimOp)> := [
    ("type", 1, 1, HostOp), ("+", 0, -1, HostOp), ("*", 0, -1, HostOp), ("-", 1, -1, HostOp),
    ("=", 2, -1, EqualOp), ("<", 2, 2, HostOp), ("<=", 2, 2, HostOp), (">", 2, 2, HostOp), (">=", 2, 2, HostOp),
    ("not", 1, 1, HostOp), ("string-append", 0, -1, HostOp), ("string-length", 1, 1, HostOp),
    ("string-lower", 1, 1, HostOp), ("string-upper", 1, 1, HostOp), ("string-substring", 1, 3, HostOp),
    ("apply", 2, 2, ApplyOp), ("cons", 2, 2, ConsOp), ("append", 0, -1, AppendOp), ("reverse", 1, 1, ReverseOp),
    ("head", 1, 1, HeadOp), ("tail", 1, 1, TailOp), ("list", 0, -1, ListOp), ("length", 1, 1, LengthOp),
    ("nth", 2, 2, NthOp), ("map", 2, -1, MapOp), ("for", 2, -1, ForOp), ("filter", 2, 2, FilterOp),
    ("foldr", 3, 3, FoldrOp), ("foldl", 3, 3, FoldlOp), ("ref", 1, 1, RefOp), ("empty?", 1, 1, HostOp),
    ("cons?", 1, 1, HostOp), ("list?", 1, 1, HostOp), ("number?", 1, 1, HostOp), ("ref?", 1, 1, HostOp),
    ("boolean?", 1, 1, HostOp), ("string?", 1, 1, HostOp), ("symbol?", 1, 1, HostOp), ("function?", 1, 1, HostOp),
    ("nil?", 1, 1, HostOp), ("array", 0, -1, ArrayOp), ("array?", 1, 1, HostOp), ("dict", 0, -1, DictOp),
    ("dict?", 1, 1, HostOp), ("quit", 0, 0, HostOp)
  ]

  /**
   * How many arguments a modelled body reads without checking; it relies on
   * the table's minimum for its name, which is always at least this.
   */
  function BodyNeeds(op: PrimOp): nat {
    match op
    case EqualOp => 1
    case ConsOp => 2
    case ReverseOp => 1
    case HeadOp => 1
    case TailOp => 1
    case LengthOp => 1
    case NthOp => 2
    case MapOp => 2
    case ForOp => 2
    case FilterOp => 2
    case FoldlOp => 3
    case FoldrOp => 3
    case ApplyOp => 2
    case RefOp => 1
    case _ => 0
  }

  /**
   * `corePrimitives`: one primitive object per table entry, bound under its
   * name (a later entry for a name would replace an earlier one).
   */
  method CorePrimitives() returns (bindings: map<string, Value>, ghost prims: set<Prim>)
    ensures forall name :: name in bindings <==> exists i :: 0 <= i < |CoreTable| && CoreTable[i].0 == name
    ensures forall name :: name in bindings ==>
      bindings[name].Primitive? && bindings[name].prim in prims && bindings[name].prim.name == name
    ensures forall name :: name in bindings ==> exists i :: FromLastRow(CoreTable, name, bindings[name], i)
    ensures forall p :: p in prims ==>
      fresh(p) && exists i :: 0 <= i < |CoreTable| && CoreTable[i] == (p.name, p.min, p.max, p.op)
  {
    bindings, prims := TableBindings(CoreTable);
  }

  /** Row `i` of `table` is the last one before row `hi` for its name. */
  predicate LastRow(table: seq<(string, int, int, PrimOp)>, i: int, hi: int)
    requires 0 <= i < |table|
  {
    forall j :: i < j < hi && j < |table| ==> table[j].0 != table[i].0
  }

  /** `v` is the primitive `name` made from row `i` of `table`, which is the last row for that name. */
  predicate FromLastRow(table: seq<(string, int, int, PrimOp)>, name: string, v: Value, i: int)
  {
    && 0 <= i < |table| && v.Primitive? && v.prim.name == name
    && table[i] == (name, v.prim.min, v.prim.max, v.prim.op) && LastRow(table, i, |table|)
  }

  /** One new primitive per row of `table`, bound to its name; a later row wins. */
  method TableBindings(table: seq<(string, int, int, PrimOp)>) returns (bindings: map<string, Value>, ghost prims: set<Prim>)
    ensures forall name :: name in bindings <==> exists i :: 0 <= i < |table| && table[i].0 == name
    ensures forall name :: name in bindings ==>
      bindings[name].Primitive? && bindings[name].prim in prims && bindings[name].prim.name == name
    ensures forall name :: name in bindings ==> exists i :: FromLastRow(table, name, bindings[name], i)
    ensures forall p :: p in prims ==>
      fresh(p) && exists i :: 0 <= i < |table| && table[i] == (p.name, p.min, p.max, p.op)
  {
    bindings := map[];
    prims := {};
    var i := 0;
    while i < |table|
      invariant 0 <= i <= |table|
      invariant forall name :: name in bindings <==> exists j :: 0 <= j < i && table[j].0 == name
      invariant forall name :: name in bindings ==>
        bindings[name].Primitive? && bindings[name].prim in prims && bindings[name].prim.name == name
      invariant forall p :: p in prims ==>
        fresh(p) && exists j :: 0 <= j < i && table[j] == (p.name, p.min, p.max, p.op)
      invariant forall name :: name in bindings ==>
        exists j :: 0 <= j < i && FromLastRow(table[..i], name, bindings[name], j)
    {
      var (name, min, max, op) := table[i];
      var p := new Prim(name, min, max, op);
      LastRowStep(table, i, bindings, Primitive(p), table[..i + 1], bindings[name := Primitive(p)]);
      bindings := bindings[name := Primitive(p)];
      prims := prims + {p};
      i := i + 1;
    }
    assert table[..i] == table;
  }

  /** Binding the name of row `i` to a primitive made from that row keeps every binding from its last row. */
  lemma LastRowStep(table: seq<(string, int, int, PrimOp)>, i: nat, bindings: map<string, Value>, v: Value,
                    t: seq<(string, int, int, PrimOp)>, b: map<string, Value>)
    requires i < |table| && t == table[..i + 1] && b == bindings[table[i].0 := v]
    requires v.Primitive? && table[i] == (v.prim.name, v.prim.min, v.prim.max, v.prim.op)
    requires forall name :: name in bindings ==> exists j :: 0 <= j < i && FromLastRow(table[..i], name, bindings[name], j)
    ensures forall name :: name in b ==> exists j :: 0 <= j < |t| && FromLastRow(t, name, b[name], j)
  {
    forall name | name in b ensures exists j :: 0 <= j < |t| && FromLastRow(t, name, b[name], j) {
      if name == table[i].0 {
        assert FromLastRow(t, name, b[name], i);
      } else {
        var j :| 0 <= j < i && FromLastRow(table[..i], name, bindings[name], j);
        assert table[..i][j] == t[j];
        forall k | j < k < |t| ensures t[k].0 != t[j].0 {
          if k < i { assert t[k] == table[..i][k]; }
        }
        assert FromLastRow(t, name, b[name], j);
      }
    }
  }

  // ---------------------------------------------------------------------
  // Spines
  // ---------------------------------------------------------------------

  /** The cells `xs ++ ys` in front of `t` are the cells `xs` in front of the cells `ys` in front of `t`. */
  lemma {:induction false} PrependConcat(xs: seq<Value>, ys: seq<Value>, t: Value)
    ensures Prepend(xs + ys, t) == Prepend(xs, Prepend(ys, t))
  {
    if |xs| > 0 {
      DropFirst(xs, ys);
      PrependConcat(xs[1..], ys, t);
    } else {
      ConcatEmpty(ys);
    }
  }

  /** Cells put in front of a value extend its spine and keep its terminator. */
  lemma {:induction false} PrependSpine(xs: seq<Value>, t: Value)
    ensures Spine(Prepend(xs, t)) == xs + Spine(t)
    ensures Terminator(Prepend(xs, t)) == Terminator(t)
  {
    if |xs| > 0 {
      PrependSpine(xs[1..], t);
      ConcatAssoc([xs[0]], xs[1..], Spine(t));
      assert [xs[0]] + xs[1..] == xs;
    } else {
      ConcatEmpty(Spine(t));
    }
  }

  /** One step along a spine. */
  lemma SpineStep(v: Value)
    requires v.Cons?
    ensures Spine(v) == [v.head] + Spine(v.tail)
    ensures Spine(v)[1..] == Spine(v.tail) && Spine(v)[0] == v.head
    ensures Terminator(v) == Terminator(v.tail)
  {
  }

  /** A proper list is a list. */
  lemma ProperIsList(v: Value)
    requires IsProperList(v)
    ensures IsList(v)
  {
  }

  /** `listLength`: the number of cells before the first non-cons. */
  method ListLength(v: Value) returns (n: nat)
    ensures n == |Spine(v)|
  {
    var current := v;
    n := 0;
    while current.Cons?
      invariant n + |Spine(current)| == |Spine(v)|
      decreases current
    {
      n := n + 1;
      current := current.tail;
    }
  }

  /**
   * `listAppend(v1, v2)`: copies of the cells of `v1` in front of `v2`.  The
   * terminator of `v1` is dropped, and when `v1` has no cells the result is
   * `v2` itself.  (Go links the copies with `setTail`; they are collected
   * here and put in front of `v2` in one go.)
   */
  method ListAppend(v1: Value, v2: Value) returns (r: Value)
    ensures r == Prepend(Spine(v1), v2)
  {
    var current := v1;
    var cells: seq<Value> := [];
    while current.Cons?
      invariant cells + Spine(current) == Spine(v1)
      decreases current
    {
      SpineStep(current);
      ConcatAssoc(cells, [current.head], Spine(current.tail));
      cells := cells + [current.head];
      current := current.tail;
    }
    assert cells == Spine(v1);
    r := Prepend(cells, v2);
  }

  /** Appending keeps every cell of both operands, in order, and the terminator of the second. */
  lemma ListAppendParts(v1: Value, v2: Value)
    ensures Spine(Prepend(Spine(v1), v2)) == Spine(v1) + Spine(v2)
    ensures Terminator(Prepend(Spine(v1), v2)) == Terminator(v2)
    ensures IsProperList(Prepend(Spine(v1), v2)) <==> IsProperList(v2)
    ensures !v1.Cons? ==> Prepend(Spine(v1), v2) == v2
  {
    PrependSpine(Spine(v1), v2);
  }

  // ---------------------------------------------------------------------
  // `=`, `list`, `cons`, `head`, `tail`
  // ---------------------------------------------------------------------

  /** `=`: true exactly when every later argument equals the first. */
  method EqualPrim(args: seq<Value>) returns (r: Value)
    requires |args| >= 1
    ensures r == Boolean(forall k :: 1 <= k < |args| ==> args[k] == args[0])
  {
    var reference := args[0];
    var i := 1;
    while i < |args|
      invariant 1 <= i <= |args|
      invariant forall k :: 1 <= k < i ==> args[k] == reference
    {
      var same := IsEqual(reference, args[i]);
      if !same {
        return Boolean(false);
      }
      i := i + 1;
    }
    return Boolean(true);
  }

  /** `list`: the proper list of the arguments, built from the last one backwards. */
  method ListPrim(args: seq<Value>) returns (r: Value)
    ensures IsProperList(r) && Spine(r) == args
    ensures r == ListOf(args)
  {
    r := Empty;
    var i := |args|;
    while i > 0
      invariant 0 <= i <= |args|
      invariant r == ListOf(args[i..])
    {
      i := i - 1;
      assert args[i..][1..] == args[i + 1..];
      r := Cons(args[i], r);
    }
    assert args[0..] == args;
    ListOfParts(args);
  }

  /** `cons`: a new first cell, allowed only in front of a list. */
  function ConsPrim(name: string, args: seq<Value>): (r: Result<Value>)
    requires |args| >= 2
    ensures r.Ok? <==> IsList(args[1])
    ensures r.Ok? ==>
      && r.value.Cons? && r.value.head == args[0] && r.value.tail == args[1]
      && Spine(r.value) == [args[0]] + Spine(args[1])
      && (IsProperList(r.value) <==> IsProperList(args[1]))
    ensures r.Err? ==> r.msg == WrongType(name, args[1])
  {
    if !IsList(args[1]) then Err(WrongType(name, args[1])) else Ok(Cons(args[0], args[1]))
  }

  /** `head`: the first element of a non-empty list. */
  function HeadPrim(name: string, args: seq<Value>): (r: Result<Value>)
    requires |args| >= 1
    ensures r.Ok? <==> args[0].Cons?
    ensures r.Ok? ==> r.value == Spine(args[0])[0]
    ensures !IsList(args[0]) ==> r == Err(WrongType(name, args[0]))
    ensures args[0].Empty? ==> r == Err(EmptyArgument(name))
  {
    if !IsList(args[0]) then Err(WrongType(name, args[0]))
    else if args[0].Empty? then Err(EmptyArgument(name))
    else Ok(args[0].head)
  }

  /** `tail`: a non-empty list without its first element. */
  function TailPrim(name: string, args: seq<Value>): (r: Result<Value>)
    requires |args| >= 1
    ensures r.Ok? <==> args[0].Cons?
    ensures r.Ok? ==> Spine(r.value) == Spine(args[0])[1..] && Terminator(r.value) == Terminator(args[0])
    ensures !IsList(args[0]) ==> r == Err(WrongType(name, args[0]))
    ensures args[0].Empty? ==> r == Err(EmptyArgument(name))
  {
    if !IsList(args[0]) then Err(WrongType(name, args[0]))
    else if args[0].Empty? then Err(EmptyArgument(name))
    else Ok(args[0].tail)
  }

  /** `head` and `tail` take apart what `cons` puts together, and the list of `xs` yields its elements in order. */
  lemma ConsHeadTail(x: Value, l: Value, xs: seq<Value>)
    requires IsList(l)
    ensures HeadPrim("head", [ConsPrim("cons", [x, l]).value]) == Ok(x)
    ensures TailPrim("tail", [ConsPrim("cons", [x, l]).value]) == Ok(l)
    ensures |xs| > 0 ==>
      HeadPrim("head", [ListOf(xs)]) == Ok(xs[0]) && TailPrim("tail", [ListOf(xs)]) == Ok(ListOf(xs[1..]))
    ensures HeadPrim("head", [ListOf([])]) == Err(EmptyArgument("head"))
  {
  }

  // ---------------------------------------------------------------------
  // `append`
  // ---------------------------------------------------------------------

  /** The cells of all the lists `vs`, one list after the other. */
  function Spines(vs: seq<Value>): seq<Value> {
    if |vs| == 0 then [] else Spine(vs[0]) + Spines(vs[1..])
  }

  lemma {:induction false} SpinesSnoc(vs: seq<Value>, v: Value)
    ensures Spines(vs + [v]) == Spines(vs) + Spine(v)
  {
    if |vs| == 0 {
      assert vs + [v] == [v];
      assert [v][1..] == [];
      ConcatEmpty(Spine(v));
    } else {
      DropFirst(vs, [v]);
      SpinesSnoc(vs[1..], v);
      ConcatAssoc(Spine(vs[0]), Spines(vs[1..]), Spine(v));
    }
  }

  /** Every argument of `append` is a list, counting from `lo`. */
  predicate ListsFrom(args: seq<Value>, lo: int) {
    forall k :: lo <= k < |args| && k >= 0 ==> IsList(args[k])
  }

  /**
   * `append`: no arguments give Empty; otherwise every argument must be a
   * list, checked from the last one backwards (so the error names the last
   * non-list), and the result is the cells of all but the last argument in
   * front of the last argument itself, which is not copied.
   */
  method AppendPrim(name: string, args: seq<Value>) returns (r: Result<Value>)
    ensures |args| == 0 ==> r == Ok(Empty)
    ensures r.Ok? <==> ListsFrom(args, 0)
    ensures r.Err? ==>
      exists j :: 0 <= j < |args| && !IsList(args[j]) && ListsFrom(args, j + 1) && r.msg == WrongType(name, args[j])
    ensures r.Ok? && |args| > 0 ==> r.value == Prepend(Spines(args[..|args| - 1]), args[|args| - 1])
  {
    if |args| == 0 {
      return Ok(Empty);
    }
    var n := |args| - 1;
    if !IsList(args[n]) {
      return Err(WrongType(name, args[n]));
    }
    var result := args[n];
    var i := n;
    while i > 0
      invariant 0 <= i <= n
      invariant ListsFrom(args, i)
      invariant result == Prepend(Spines(args[i..n]), args[n])
    {
      i := i - 1;
      if !IsList(args[i]) {
        return Err(WrongType(name, args[i]));
      }
      var appended := ListAppend(args[i], result);
      assert args[i..n][1..] == args[i + 1..n];
      PrependConcat(Spine(args[i]), Spines(args[i + 1..n]), args[n]);
      result := appended;
    }
    assert args[..n] == args[0..n];
    return Ok(result);
  }

  /** The cells of an `append` are those of all its arguments, and it is proper exactly when the last one is. */
  lemma AppendParts(args: seq<Value>)
    requires |args| > 0
    ensures var r := Prepend(Spines(args[..|args| - 1]), args[|args| - 1]);
      Spine(r) == Spines(args) && Terminator(r) == Terminator(args[|args| - 1])
  {
    var n := |args| - 1;
    PrependSpine(Spines(args[..n]), args[n]);
    SpinesSnoc(args[..n], args[n]);
    assert args[..n] + [args[n]] == args;
  }

  // ---------------------------------------------------------------------
  // `reverse` and `length`
  // ---------------------------------------------------------------------

  function Reversed(xs: seq<Value>): (ys: seq<Value>)
    ensures |ys| == |xs|
    ensures forall i :: 0 <= i < |xs| ==> ys[i] == xs[|xs| - 1 - i]
  {
    if |xs| == 0 then [] else Reversed(xs[1..]) + [xs[0]]
  }

  /** Reversing twice gives back the original, and reversal turns a concatenation around. */
  lemma ReverseReverse(xs: seq<Value>)
    ensures Reversed(Reversed(xs)) == xs
  {
  }

  lemma ReverseConcat(xs: seq<Value>, ys: seq<Value>)
    ensures Reversed(xs + ys) == Reversed(ys) + Reversed(xs)
  {
  }

  /**
   * `reverse`: the reversed list of a proper list; an argument that is no
   * list at all is a type error, and a list that does not end in Empty is
   * malformed.
   */
  method ReversePrim(name: string, args: seq<Value>) returns (r: Result<Value>)
    requires |args| >= 1
    ensures !IsList(args[0]) ==> r == Err(WrongType(name, args[0]))
    ensures IsList(args[0]) && !IsProperList(args[0]) ==> r == Err(Malformed(name))
    ensures IsProperList(args[0]) ==> r == Ok(ListOf(Reversed(Spine(args[0]))))
  {
    var a := args[0];
    if !IsList(a) {
      return Err(WrongType(name, a));
    }
    var result := Empty;
    var current := a;
    while current.Cons?
      invariant Prepend(Reversed(Spine(current)), result) == ListOf(Reversed(Spine(a)))
      invariant Terminator(current) == Terminator(a)
      decreases current
    {
      SpineStep(current);
      assert Reversed(Spine(current)) == Reversed(Spine(current.tail)) + [current.head];
      PrependConcat(Reversed(Spine(current.tail)), [current.head], result);
      result := Cons(current.head, result);
      current := current.tail;
    }
    if !current.Empty? {
      return Err(Malformed(name));
    }
    return Ok(result);
  }

  /** `length`: the number of elements of a proper list, with the errors of `reverse`. */
  method LengthPrim(name: string, args: seq<Value>) returns (r: Result<Value>)
    requires |args| >= 1
    ensures !IsList(args[0]) ==> r == Err(WrongType(name, args[0]))
    ensures IsList(args[0]) && !IsProperList(args[0]) ==> r == Err(Malformed(name))
    ensures IsProperList(args[0]) ==> r == Ok(Integer(|Spine(args[0])|))
  {
    var a := args[0];
    if !IsList(a) {
      return Err(WrongType(name, a));
    }
    var count := 0;
    var current := a;
    while current.Cons?
      invariant count + |Spine(current)| == |Spine(a)|
      invariant Terminator(current) == Terminator(a)
      decreases current
    {
      count := count + 1;
      current := current.tail;
    }
    if !current.Empty? {
      return Err(Malformed(name));
    }
    return Ok(Integer(count));
  }

  /** `length` and `reverse` agree with `list`: the list of `xs` has `|xs|` elements and reverses to the list of the reversal. */
  lemma LengthReverseOfList(xs: seq<Value>)
    ensures IsProperList(ListOf(xs)) && |Spine(ListOf(xs))| == |xs|
    ensures ListOf(Reversed(Spine(ListOf(xs)))) == ListOf(Reversed(xs))
  {
    ListOfParts(xs);
  }

  // ---------------------------------------------------------------------
  // `nth`
  // ---------------------------------------------------------------------

  /**
   * `nth`: element `idx` of the list when `0 <= idx < length`, and an "out
   * of bound" error naming the index otherwise.  Only the cells are
   * walked, so the terminator is never examined.
   */
  method NthPrim(name: string, args: seq<Value>) returns (r: Result<Value>)
    requires |args| >= 2
    ensures !IsList(args[0]) ==> r == Err(WrongType(name, args[0]))
    ensures IsList(args[0]) && !args[1].Integer? ==> r == Err(WrongType(name, args[1]))
    ensures IsList(args[0]) && args[1].Integer? ==>
      if 0 <= args[1].i < |Spine(args[0])| then r == Ok(Spine(args[0])[args[1].i])
      else r == Err(OutOfBound(name, args[1].i))
  {
    if !IsList(args[0]) {
      return Err(WrongType(name, args[0]));
    }
    if !args[1].Integer? {
      return Err(WrongType(name, args[1]));
    }
    var idx := args[1].i;
    if idx >= 0 {
      var current := args[0];
      ghost var passed := 0;
      while current.Cons?
        invariant 0 <= idx && passed + idx == args[1].i
        invariant passed <= |Spine(args[0])| && Spine(current) == Spine(args[0])[passed..]
        decreases current
      {
        SpineStep(current);
        if idx == 0 {
          return Ok(current.head);
        }
        assert Spine(args[0])[passed..][1..] == Spine(args[0])[passed + 1..];
        idx := idx - 1;
        passed := passed + 1;
        current := current.tail;
      }
    }
    return Err(OutOfBound(name, args[1].i));
  }

  // ---------------------------------------------------------------------
  // `dict`
  // ---------------------------------------------------------------------

  /**
   * What a `dict` error message shows of a value.  Go renders it with
   * `Display`; references, arrays and dictionaries (and lists holding them)
   * are shown as nothing here.
   */
  function Shown(v: Value): string {
    if Displayable(v) then Display(v) else ""
  }

  /** A `dict` item: a two-element proper list. */
  predicate IsPair(v: Value) {
    v.Cons? && v.tail.Cons? && v.tail.tail.Empty?
  }

  /** A `dict` item whose first element is a symbol. */
  predicate IsEntry(v: Value) {
    IsPair(v) && v.head.Symbol?
  }

  /** What `dict` reports for an item that is no entry. */
  function EntryError(v: Value): string
    requires !IsEntry(v)
  {
    if !IsPair(v) then "dict item not a pair - " + Shown(v)
    else "dict key is not a symbol - " + Shown(v.head)
  }

  /** The key of a `dict` entry: the name of its symbol. */
  function KeyOf(v: Value): string {
    if v.Cons? && v.head.Symbol? then v.head.name else ""
  }

  /** The content `dict` stores: the entries in order, a later entry for a key replacing an earlier one. */
  function Entries(items: seq<Value>): map<string, Value>
    requires forall k :: 0 <= k < |items| ==> IsEntry(items[k])
  {
    if |items| == 0 then map[]
    else
      var last := items[|items| - 1];
      assert IsEntry(last);
      Entries(items[..|items| - 1])[KeyOf(last) := last.tail.head]
  }

  /** The dictionary holds exactly the keys of the entries. */
  lemma {:induction false} EntriesKeys(items: seq<Value>)
    requires forall k :: 0 <= k < |items| ==> IsEntry(items[k])
    ensures forall key :: key in Entries(items) <==> exists k :: 0 <= k < |items| && KeyOf(items[k]) == key
  {
    if |items| > 0 {
      var n := |items| - 1;
      var front := items[..n];
      assert forall k :: 0 <= k < n ==> front[k] == items[k];
      EntriesKeys(front);
      assert Entries(items) == Entries(front)[KeyOf(items[n]) := items[n].tail.head];
      forall key
        ensures key in Entries(items) <==> exists k :: 0 <= k < |items| && KeyOf(items[k]) == key
      {
        if key in Entries(front) {
          var k :| 0 <= k < n && KeyOf(front[k]) == key;
          assert KeyOf(items[k]) == key;
        }
        if exists k :: 0 <= k < |items| && KeyOf(items[k]) == key {
          var k :| 0 <= k < |items| && KeyOf(items[k]) == key;
          if k < n {
            assert KeyOf(front[k]) == key;
          }
        }
      }
    }
  }

  /** No entry after position `k` has the key of the entry at `k`. */
  predicate LastEntry(items: seq<Value>, k: int)
    requires 0 <= k < |items|
  {
    forall j :: k < j < |items| ==> KeyOf(items[j]) != KeyOf(items[k])
  }

  /** Each key's value is that of its last entry. */
  lemma {:induction false} EntriesLast(items: seq<Value>)
    requires forall k :: 0 <= k < |items| ==> IsEntry(items[k])
    ensures forall k :: 0 <= k < |items| && LastEntry(items, k) ==>
      KeyOf(items[k]) in Entries(items) && Entries(items)[KeyOf(items[k])] == items[k].tail.head
  {
    if |items| > 0 {
      var n := |items| - 1;
      var front := items[..n];
      assert forall k :: 0 <= k < n ==> front[k] == items[k];
      EntriesLast(front);
      assert Entries(items) == Entries(front)[KeyOf(items[n]) := items[n].tail.head];
      forall k | 0 <= k < |items| && LastEntry(items, k)
        ensures KeyOf(items[k]) in Entries(items) && Entries(items)[KeyOf(items[k])] == items[k].tail.head
      {
        if k < n {
          assert KeyOf(items[n]) != KeyOf(items[k]);
          assert LastEntry(front, k);
        }
      }
    }
  }

  /**
   * `dict`: every argument must be an entry `(key value)` with a symbol key;
   * the first item that is not fails with its message, and otherwise the
   * content is the entries in order.
   */
  method DictPrim(args: seq<Value>) returns (r: Result<map<string, Value>>)
    ensures r.Ok? <==> forall k :: 0 <= k < |args| ==> IsEntry(args[k])
    ensures r.Ok? ==> r.value == Entries(args)
    ensures r.Err? ==>
      exists j :: 0 <= j < |args| && !IsEntry(args[j]) && (forall k :: 0 <= k < j ==> IsEntry(args[k]))
        && r.msg == EntryError(args[j])
  {
    var content: map<string, Value> := map[];
    var i := 0;
    while i < |args|
      invariant 0 <= i <= |args|
      invariant forall k :: 0 <= k < i ==> IsEntry(args[k])
      invariant content == Entries(args[..i])
    {
      var v := args[i];
      if !IsEntry(v) {
        return Err(EntryError(v));
      }
      assert args[..i + 1][..i] == args[..i];
      content := content[KeyOf(v) := v.tail.head];
      i := i + 1;
    }
    assert args[..|args|] == args;
    return Ok(content);
  }

  // ---------------------------------------------------------------------
  // `apply`
  // ---------------------------------------------------------------------

  /**
   * What `apply` does before the call: its first argument must be a
   * function and its second a list, whose elements, collected into a
   * slot array of `listLength` entries, are the arguments of the call; a
   * list that does not end in Empty is malformed.
   */
  method ApplyArguments(name: string, args: seq<Value>) returns (r: Result<seq<Value>>)
    requires |args| >= 2
    ensures !IsFunction(args[0]) ==> r == Err(WrongType(name, args[0]))
    ensures IsFunction(args[0]) && !IsList(args[1]) ==> r == Err(WrongType(name, args[1]))
    ensures IsFunction(args[0]) && IsList(args[1]) && !IsProperList(args[1]) ==> r == Err(Malformed(name))
    ensures IsFunction(args[0]) && IsProperList(args[1]) ==> r == Ok(Spine(args[1]))
  {
    if !IsFunction(args[0]) {
      return Err(WrongType(name, args[0]));
    }
    if !IsList(args[1]) {
      return Err(WrongType(name, args[1]));
    }
    var n := ListLength(args[1]);
    var arguments := new Value[n](_ => Nil);
    var current := args[1];
    var i := 0;
    while i < n
      invariant 0 <= i <= n
      invariant Spine(current) == Spine(args[1])[i..] && Terminator(current) == Terminator(args[1])
      invariant arguments[..i] == Spine(args[1])[..i]
    {
      SpineStep(current);
      assert Spine(args[1])[i..][1..] == Spine(args[1])[i + 1..];
      arguments[i] := current.head;
      assert arguments[..i + 1] == arguments[..i] + [arguments[i]];
      assert Spine(args[1])[..i + 1] == Spine(args[1])[..i] + [Spine(args[1])[i]];
      current := current.tail;
      i := i + 1;
    }
    assert arguments[..] == arguments[..n];
    assert Spine(args[1])[..n] == Spine(args[1]);
    if !current.Empty? {
      return Err(Malformed(name));
    }
    return Ok(arguments[..]);
  }

  // ---------------------------------------------------------------------
  // The callback primitives: `map`, `filter`, `foldl`, `foldr`
  // ---------------------------------------------------------------------

  /** `allConses`: whether every value is a cons cell. */
  method AllConses(vs: seq<Value>) returns (b: bool)
    ensures b <==> forall j :: 0 <= j < |vs| ==> vs[j].Cons?
  {
    var i := 0;
    while i < |vs|
      invariant 0 <= i <= |vs|
      invariant forall j :: 0 <= j < i ==> vs[j].Cons?
    {
      if !vs[i].Cons? {
        return false;
      }
      i := i + 1;
    }
    return true;
  }

  function Min(a: nat, b: nat): nat {
    if a <= b then a else b
  }

  /**
   * The number of rounds `map` runs over `lists`: it stops as soon as one
   * of them has no further cell, so this is the length of the shortest
   * spine.
   */
  function Rounds(lists: seq<Value>): (n: nat)
    requires |lists| > 0
    ensures forall j :: 0 <= j < |lists| ==> n <= |Spine(lists[j])|
    ensures exists j :: 0 <= j < |lists| && n == |Spine(lists[j])|
  {
    if |lists| == 1 then |Spine(lists[0])|
    else
      var rest := Rounds(lists[1..]);
      assert forall j :: 1 <= j < |lists| ==> lists[1..][j - 1] == lists[j];
      Min(|Spine(lists[0])|, rest)
  }

  /** The arguments of round `k` of `map`: the `k`-th element of every list, in argument order. */
  function Column(lists: seq<Value>, k: nat): (c: seq<Value>)
    requires forall j :: 0 <= j < |lists| ==> k < |Spine(lists[j])|
    ensures |c| == |lists| && forall j :: 0 <= j < |c| ==> c[j] == Spine(lists[j])[k]
  {
    seq(|lists|, j requires 0 <= j < |lists| => Spine(lists[j])[k])
  }

  /** The elements `filter` keeps: those whose answer from the predicate is true, in order. */
  function Kept(xs: seq<Value>, answers: seq<Value>): seq<Value>
    requires |answers| == |xs|
  {
    if |xs| == 0 then []
    else
      var n := |xs| - 1;
      Kept(xs[..n], answers[..n]) + (if IsTrue(answers[n]) then [xs[n]] else [])
  }

  /** An element is kept exactly when it stands at a position whose answer is true. */
  lemma {:induction false} KeptMembers(xs: seq<Value>, answers: seq<Value>)
    requires |answers| == |xs|
    ensures forall x :: x in Kept(xs, answers) <==> exists k :: 0 <= k < |xs| && xs[k] == x && IsTrue(answers[k])
    ensures |Kept(xs, answers)| <= |xs|
  {
    if |xs| > 0 {
      var n := |xs| - 1;
      KeptMembers(xs[..n], answers[..n]);
      forall x
        ensures x in Kept(xs, answers) <==> exists k :: 0 <= k < |xs| && xs[k] == x && IsTrue(answers[k])
      {
        if x in Kept(xs[..n], answers[..n]) {
          var k :| 0 <= k < n && xs[..n][k] == x && IsTrue(answers[..n][k]);
          assert xs[k] == x && IsTrue(answers[k]);
        }
        if exists k :: 0 <= k < |xs| && xs[k] == x && IsTrue(answers[k]) {
          var k :| 0 <= k < |xs| && xs[k] == x && IsTrue(answers[k]);
          if k < n {
            assert xs[..n][k] == x && IsTrue(answers[..n][k]);
          }
        }
      }
    }
  }

  /** Filtering respects order: the kept elements of a concatenation are those of each part, one after the other. */
  lemma {:induction false} KeptConcat(xs: seq<Value>, a: seq<Value>, ys: seq<Value>, b: seq<Value>)
    requires |a| == |xs| && |b| == |ys|
    ensures Kept(xs + ys, a + b) == Kept(xs, a) + Kept(ys, b)
  {
    if |ys| == 0 {
      assert xs + ys == xs && a + b == a;
      ConcatEmpty(Kept(xs, a));
    } else {
      var m := |ys| - 1;
      DropLast(xs, ys);
      DropLast(a, b);
      KeptConcat(xs, a, ys[..m], b[..m]);
      ConcatAssoc(Kept(xs, a), Kept(ys[..m], b[..m]), if IsTrue(b[m]) then [ys[m]] else []);
    }
  }

  /** With every answer true everything is kept, and with every answer false nothing is. */
  lemma {:induction false} KeptExtremes(xs: seq<Value>, answers: seq<Value>)
    requires |answers| == |xs|
    ensures (forall k :: 0 <= k < |xs| ==> IsTrue(answers[k])) ==> Kept(xs, answers) == xs
    ensures (forall k :: 0 <= k < |xs| ==> !IsTrue(answers[k])) ==> Kept(xs, answers) == []
  {
    if |xs| > 0 {
      var n := |xs| - 1;
      KeptExtremes(xs[..n], answers[..n]);
      assert xs[..n] + [xs[n]] == xs;
      assert forall k :: 0 <= k < n ==> answers[..n][k] == answers[k];
    }
  }

  /** The textbook filter of a pure predicate. */
  function FilterBy(p: Value -> bool, xs: seq<Value>): seq<Value> {
    if |xs| == 0 then [] else (if p(xs[0]) then [xs[0]] else []) + FilterBy(p, xs[1..])
  }

  /** When each answer is a pure predicate's truth on its element, `filter` keeps what the textbook filter keeps. */
  lemma {:induction false} KeptIsFilter(p: Value -> bool, xs: seq<Value>, answers: seq<Value>)
    requires |answers| == |xs|
    requires forall k :: 0 <= k < |xs| ==> IsTrue(answers[k]) == p(xs[k])
    ensures Kept(xs, answers) == FilterBy(p, xs)
  {
    if |xs| > 0 {
      var n := |xs| - 1;
      KeptConcat([xs[0]], [answers[0]], xs[1..], answers[1..]);
      assert [xs[0]] + xs[1..] == xs && [answers[0]] + answers[1..] == answers;
      KeptIsFilter(p, xs[1..], answers[1..]);
      assert Kept([xs[0]], [answers[0]]) == (if IsTrue(answers[0]) then [xs[0]] else []) by {
        assert [xs[0]][..0] == [];
      }
    }
  }

  /** The accumulator a fold holds before round `k`: the initial value, then the answer of the previous round. */
  function Accumulator(init: Value, answers: seq<Value>, k: nat): Value
    requires k <= |answers|
  {
    if k == 0 then init else answers[k - 1]
  }

  /** The arguments of round `k` of `foldl`: the accumulator, then the `k`-th element. */
  function FoldlCall(init: Value, xs: seq<Value>, answers: seq<Value>, k: nat): seq<Value>
    requires k < |xs| && k <= |answers|
  {
    [Accumulator(init, answers, k), xs[k]]
  }

  /** The arguments of round `k` of `foldr`: the `k`-th element from the end, then the accumulator. */
  function FoldrCall(init: Value, xs: seq<Value>, answers: seq<Value>, k: nat): seq<Value>
    requires k < |xs| && k <= |answers|
  {
    [xs[|xs| - 1 - k], Accumulator(init, answers, k)]
  }

  /** The textbook left fold of a pure function. */
  function FoldlBy(f: (Value, Value) -> Value, acc: Value, xs: seq<Value>): Value
    decreases |xs|
  {
    if |xs| == 0 then acc else FoldlBy(f, f(acc, xs[0]), xs[1..])
  }

  /** The textbook right fold of a pure function. */
  function FoldrBy(f: (Value, Value) -> Value, init: Value, xs: seq<Value>): Value {
    if |xs| == 0 then init else f(xs[0], FoldrBy(f, init, xs[1..]))
  }

  lemma {:induction false} FoldlSnoc(f: (Value, Value) -> Value, acc: Value, xs: seq<Value>, x: Value)
    ensures FoldlBy(f, acc, xs + [x]) == f(FoldlBy(f, acc, xs), x)
    decreases |xs|
  {
    if |xs| == 0 {
      assert xs + [x] == [x];
      assert [x][1..] == [];
    } else {
      DropFirst(xs, [x]);
      FoldlSnoc(f, f(acc, xs[0]), xs[1..], x);
    }
  }

  /**
   * When every round of `foldl` answers what a pure `f` gives for that
   * round's arguments, the accumulator after the last round is the
   * textbook left fold.
   */
  lemma FoldlComputesFold(f: (Value, Value) -> Value, init: Value, xs: seq<Value>, answers: seq<Value>)
    requires |answers| == |xs|
    requires forall k :: 0 <= k < |xs| ==> answers[k] == f(FoldlCall(init, xs, answers, k)[0], FoldlCall(init, xs, answers, k)[1])
    ensures Accumulator(init, answers, |xs|) == FoldlBy(f, init, xs)
  {
    var k := 0;
    while k < |xs|
      invariant 0 <= k <= |xs|
      invariant Accumulator(init, answers, k) == FoldlBy(f, init, xs[..k])
    {
      FoldlSnoc(f, init, xs[..k], xs[k]);
      assert xs[..k + 1] == xs[..k] + [xs[k]];
      k := k + 1;
    }
    assert xs[..|xs|] == xs;
  }

  /**
   * When every round of `foldr` answers what a pure `f` gives for that
   * round's arguments, the accumulator after the last round is the
   * textbook right fold: walking the reversed list from the front folds
   * the list from the back.
   */
  lemma FoldrComputesFold(f: (Value, Value) -> Value, init: Value, xs: seq<Value>, answers: seq<Value>)
    requires |answers| == |xs|
    requires forall k :: 0 <= k < |xs| ==> answers[k] == f(FoldrCall(init, xs, answers, k)[0], FoldrCall(init, xs, answers, k)[1])
    ensures Accumulator(init, answers, |xs|) == FoldrBy(f, init, xs)
  {
    var n := |xs|;
    var k := 0;
    while k < n
      invariant 0 <= k <= n
      invariant Accumulator(init, answers, k) == FoldrBy(f, init, xs[n - k..])
    {
      assert xs[n - 1 - k..][1..] == xs[n - k..];
      k := k + 1;
    }
  }

  /** The rounds of `foldr` over a list are those of `foldl` over the reversed list, with the arguments swapped. */
  lemma FoldrIsFoldlOfReversed(init: Value, xs: seq<Value>, answers: seq<Value>, k: nat)
    requires k < |xs| && k <= |answers|
    ensures FoldrCall(init, xs, answers, k) == [FoldlCall(init, Reversed(xs), answers, k)[1], FoldlCall(init, Reversed(xs), answers, k)[0]]
  {
  }
}
