/**
 * The interpreter's runtime data: the closed set of Lisp values, the kernel
 * AST (closures hold AST bodies, and AST literals hold values, so both live in
 * one module), environment frames, and the "applicable data" protocol of
 * references, arrays and dictionaries.
 *
 * Data variants are datatype values, so Dafny's `==` on them is structural
 * equality; the mutable and behavioural variants (functions, primitives,
 * references, arrays, dictionaries) wrap an object, so `==` on them is
 * identity.  `IsEqual` below is proved to coincide with `==`.
 */
module Values {
  import opened Wrappers
  import opened Numerals
  import opened Sequences

  datatype Value =
    | Integer(i: int)
    | Boolean(b: bool)
    | String(text: string)
    | Symbol(name: string)
    | Nil
    | Empty
    | Cons(head: Value, tail: Value)
    | Function(fn: Closure)
    | Primitive(prim: Prim)
    | Reference(cell: RefCell)
    | Array(arr: array<Value>)
    | Dict(dict: DictObj)

  /** The kernel language every surface form is desugared into. */
  datatype Ast =
    | Literal(val: Value)
    | Id(id: string)
    | If(cnd: Ast, thn: Ast, els: Ast)
    | Apply(fn: Ast, args: seq<Ast>)
    | Quote(val: Value)
    | LetRec(names: seq<string>, params: seq<seq<string>>, bodies: seq<Ast>, body: Ast)
    | Missing  // the nil AST the parser returns for input that is no expression

  /** The primitives whose behaviour is modelled; every other primitive is `HostOp`. */
  datatype PrimOp =
    | EqualOp | ListOp | ConsOp | AppendOp | ReverseOp | HeadOp | TailOp | LengthOp | NthOp
    | MapOp | ForOp | FilterOp | FoldlOp | FoldrOp | ApplyOp | DictOp | RefOp | ArrayOp
    | HostOp

  /** A user function: parameters, body and the frame it was created in. */
  class Closure {
    const params: seq<string>
    const body: Ast
    const env: Frame

    constructor (params: seq<string>, body: Ast, env: Frame)
      ensures this.params == params && this.body == body && this.env == env
    {
      this.params := params;
      this.body := body;
      this.env := env;
    }
  }

  /** A primitive: a name, an arity range (`max < 0` means unbounded) and its behaviour. */
  class Prim {
    const name: string
    const min: int
    const max: int
    const op: PrimOp

    constructor (name: string, min: int, max: int, op: PrimOp)
      ensures this.name == name && this.min == min && this.max == max && this.op == op
    {
      this.name := name;
      this.min := min;
      this.max := max;
      this.op := op;
    }
  }

  // ---------------------------------------------------------------------
  // Queries
  // ---------------------------------------------------------------------

  /** Integers, booleans, strings and symbols are atoms. */
  predicate IsAtom(v: Value) {
    v.Integer? || v.Boolean? || v.String? || v.Symbol?
  }

  /** Closures and primitives are functions; applicable data is not. */
  predicate IsFunction(v: Value) {
    v.Function? || v.Primitive?
  }

  /** The `isList` test of the primitives: a cons cell or the empty list. */
  predicate IsList(v: Value) {
    v.Cons? || v.Empty?
  }

  /** The name `typ` reports, used in argument-type errors. */
  function TypeName(v: Value): string {
    match v
    case Integer(_) => "int"
    case Boolean(_) => "bool"
    case Primitive(_) => "fun"
    case Function(_) => "fun"
    case Empty => "list"
    case Cons(_, _) => "list"
    case Symbol(_) => "symbol"
    case String(_) => "string"
    case Nil => "nil"
    case Reference(_) => "reference"
    case Array(_) => "array"
    case Dict(_) => "dict"
  }

  /** Truthiness, variant by variant. */
  predicate IsTrue(v: Value) {
    match v
    case Integer(i) => i != 0
    case Boolean(b) => b
    case Primitive(_) => true
    case Empty => false
    case Cons(_, _) => true
    case Symbol(_) => true
    case Function(_) => true
    case String(s) => s != ""
    case Nil => false
    case Reference(_) => false
    case Array(_) => false
    case Dict(_) => false
  }

  /** Exactly eight shapes of value are false; every other value is true. */
  lemma FalseValues(v: Value)
    ensures !IsTrue(v) <==>
      v == Integer(0) || v == Boolean(false) || v == String("") || v == Empty || v == Nil
      || v.Reference? || v.Array? || v.Dict?
  {
  }

  // The `asX` narrowing queries of the per-variant files.

  function AsInteger(v: Value): Option<int> {
    if v.Integer? then Some(v.i) else None
  }

  function AsBoolean(v: Value): Option<bool> {
    if v.Boolean? then Some(v.b) else None
  }

  function AsString(v: Value): Option<string> {
    if v.String? then Some(v.text) else None
  }

  function AsSymbol(v: Value): Option<string> {
    if v.Symbol? then Some(v.name) else None
  }

  function AsCons(v: Value): Option<(Value, Value)> {
    if v.Cons? then Some((v.head, v.tail)) else None
  }

  /** The content of a reference (its updater is `RefCell.SetReference`). */
  function AsReference(v: Value): Option<RefCell> {
    if v.Reference? then Some(v.cell) else None
  }

  /** The content of an array: the array itself, shared, not a copy. */
  function AsArray(v: Value): Option<array<Value>> {
    if v.Array? then Some(v.arr) else None
  }

  /** The content of a dictionary: the dictionary object itself, shared. */
  function AsDict(v: Value): Option<DictObj> {
    if v.Dict? then Some(v.dict) else None
  }

  /**
   * Each narrowing query succeeds on exactly one variant and then hands back
   * that variant's payload; on every other variant (Nil, Empty, functions,
   * primitives) all of them fail.
   */
  lemma NarrowingIsExact(v: Value)
    ensures forall n :: AsInteger(v) == Some(n) <==> v == Integer(n)
    ensures forall b :: AsBoolean(v) == Some(b) <==> v == Boolean(b)
    ensures forall s :: AsString(v) == Some(s) <==> v == String(s)
    ensures forall s :: AsSymbol(v) == Some(s) <==> v == Symbol(s)
    ensures forall h, t :: AsCons(v) == Some((h, t)) <==> v == Cons(h, t)
    ensures forall r :: AsReference(v) == Some(r) <==> v == Reference(r)
    ensures forall a :: AsArray(v) == Some(a) <==> v == Array(a)
    ensures forall d :: AsDict(v) == Some(d) <==> v == Dict(d)
    ensures v.Nil? || v.Empty? || IsFunction(v) ==>
      AsInteger(v).None? && AsBoolean(v).None? && AsString(v).None? && AsSymbol(v).None?
      && AsCons(v).None? && AsReference(v).None? && AsArray(v).None? && AsDict(v).None?
  {
  }

  /** Number of value nodes; a measure for walking a cons spine while recursing into heads. */
  function Size(v: Value): nat {
    match v
    case Cons(h, t) => 1 + Size(h) + Size(t)
    case _ => 1
  }

  /**
   * `isEqual`: same kind and payload for data, the same object for functions,
   * primitives, references, arrays and dictionaries, and for cons cells a walk
   * down both spines comparing heads, finishing with the two terminators.
   */
  method IsEqual(a: Value, b: Value) returns (eq: bool)
    ensures eq <==> a == b
    decreases Size(a)
  {
    match a
    case Integer(i) => eq := b.Integer? && b.i == i;
    case Boolean(x) => eq := b.Boolean? && b.b == x;
    case Primitive(p) => eq := b.Primitive? && b.prim == p;
    case Empty => eq := b.Empty?;
    case Symbol(n) => eq := b.Symbol? && b.name == n;
    case Function(c) => eq := b.Function? && b.fn == c;
    case String(s) => eq := b.String? && b.text == s;
    case Nil => eq := b.Nil?;
    case Reference(r) => eq := b.Reference? && b.cell == r;
    case Array(x) => eq := b.Array? && b.arr == x;
    case Dict(d) => eq := b.Dict? && b.dict == d;
    case Cons(_, _) =>
      if !b.Cons? {
        return false;
      }
      var curr1, curr2 := a, b;
      while curr1.Cons?
        invariant curr1 == a || Size(curr1) < Size(a)
        invariant (a == b) <==> (curr1 == curr2)
        decreases curr1
      {
        if !curr2.Cons? {
          return false;
        }
        var same := IsEqual(curr1.head, curr2.head);
        if !same {
          return false;
        }
        curr1, curr2 := curr1.tail, curr2.tail;
      }
      eq := IsEqual(curr1, curr2);
  }

  // ---------------------------------------------------------------------
  // Cons chains
  // ---------------------------------------------------------------------

  /** The heads of the cons cells of `v`, up to its first non-cons. */
  function Spine(v: Value): (xs: seq<Value>)
    ensures |xs| == 0 <==> !v.Cons?
  {
    if v.Cons? then [v.head] + Spine(v.tail) else []
  }

  /** The first non-cons value reached by following tails. */
  function Terminator(v: Value): (t: Value)
    ensures !t.Cons?
  {
    if v.Cons? then Terminator(v.tail) else v
  }

  /** A proper list: a chain of cons cells ending in Empty. */
  predicate IsProperList(v: Value) {
    Terminator(v) == Empty
  }

  /** The cells `xs` in front of `tail`. */
  function Prepend(xs: seq<Value>, tail: Value): Value {
    if |xs| == 0 then tail else Cons(xs[0], Prepend(xs[1..], tail))
  }

  /** The proper list of `xs`, in order. */
  function ListOf(xs: seq<Value>): Value {
    Prepend(xs, Empty)
  }

  /** Every value is its spine in front of its terminator. */
  lemma {:induction false} SpineTerminator(v: Value)
    ensures Prepend(Spine(v), Terminator(v)) == v
  {
    if v.Cons? {
      SpineTerminator(v.tail);
      assert Spine(v)[1..] == Spine(v.tail);
    }
  }

  /** The spine and terminator of cells put in front of a non-cons tail are those cells and that tail. */
  lemma {:induction false} PrependParts(xs: seq<Value>, tail: Value)
    requires !tail.Cons?
    ensures Spine(Prepend(xs, tail)) == xs
    ensures Terminator(Prepend(xs, tail)) == tail
  {
    if |xs| > 0 {
      PrependParts(xs[1..], tail);
    }
  }

  /** A proper list is the list of its spine, and the list of `xs` is proper with spine `xs`. */
  lemma ListOfSpine(v: Value)
    requires IsProperList(v)
    ensures ListOf(Spine(v)) == v
  {
    SpineTerminator(v);
  }

  lemma ListOfParts(xs: seq<Value>)
    ensures Spine(ListOf(xs)) == xs && IsProperList(ListOf(xs))
  {
    PrependParts(xs, Empty);
  }

  // ---------------------------------------------------------------------
  // Display
  // ---------------------------------------------------------------------

  /**
   * Values `display` can render without reaching an unchecked `displayCDR`
   * (a cons chain whose terminator is not Empty) and without reading mutable
   * content (references, arrays and dictionaries are not rendered here).
   */
  predicate Displayable(v: Value) {
    match v
    case Cons(h, t) => Displayable(h) && DisplayableCdr(t)
    case Reference(_) => false
    case Array(_) => false
    case Dict(_) => false
    case _ => true
  }

  predicate DisplayableCdr(v: Value) {
    match v
    case Empty => true
    case Cons(h, t) => Displayable(h) && DisplayableCdr(t)
    case _ => false
  }

  /** Go's `strings.Join`. */
  function Join(parts: seq<string>, sep: string): string {
    if |parts| == 0 then ""
    else if |parts| == 1 then parts[0]
    else parts[0] + sep + Join(parts[1..], sep)
  }

  function Display(v: Value): string
    requires Displayable(v)
  {
    match v
    case Integer(i) => IntToString(i)
    case Boolean(b) => if b then "#t" else "#f"
    case Primitive(p) => "#<prim " + p.name + ">"
    case Empty => "()"
    case Cons(h, t) => "(" + Display(h) + DisplayCdr(t)
    case Symbol(n) => n
    case Function(c) => "#<fun " + Join(c.params, " ") + " ...>"
    case String(s) => "\"" + s + "\""
    case Nil => "#nil"
  }

  /** The rest of a list after its first element has been displayed. */
  function DisplayCdr(v: Value): string
    requires DisplayableCdr(v)
  {
    match v
    case Empty => ")"
    case Cons(h, t) => " " + Display(h) + DisplayCdr(t)
  }

  function Displays(xs: seq<Value>): seq<string>
    requires forall k :: 0 <= k < |xs| ==> Displayable(xs[k])
  {
    if |xs| == 0 then [] else [Display(xs[0])] + Displays(xs[1..])
  }

  /** A proper list displays as its elements' displays, space-separated, in parentheses. */
  lemma {:induction false} DisplayList(xs: seq<Value>)
    requires forall k :: 0 <= k < |xs| ==> Displayable(xs[k])
    ensures Displayable(ListOf(xs))
    ensures Display(ListOf(xs)) == "(" + Join(Displays(xs), " ") + ")"
  {
    if |xs| > 0 {
      DisplayCdrList(xs[1..]);
    }
  }

  lemma {:induction false} DisplayCdrList(xs: seq<Value>)
    requires forall k :: 0 <= k < |xs| ==> Displayable(xs[k])
    ensures DisplayableCdr(ListOf(xs))
    ensures DisplayCdr(ListOf(xs)) == (if |xs| == 0 then "" else " " + Join(Displays(xs), " ")) + ")"
  {
    if |xs| > 0 {
      var t := xs[1..];
      DisplayCdrList(t);
      assert ListOf(xs) == Cons(xs[0], ListOf(t));
      var d := Display(xs[0]);
      assert DisplayCdr(ListOf(xs)) == " " + d + DisplayCdr(ListOf(t));
      if |t| > 0 {
        var j := Join(Displays(t), " ");
        assert Displays(xs) == [d] + Displays(t);
        assert Join(Displays(xs), " ") == d + " " + j;
        ConcatAssoc(" " + d, " " + j, ")");
        ConcatAssoc(" " + d, " ", j);
        ConcatAssoc(" ", d, " ");
        ConcatAssoc(" ", d + " ", j);
      }
    }
  }

  // ---------------------------------------------------------------------
  // Applicable data: references, arrays, dictionaries
  // ---------------------------------------------------------------------

  /** What a reference's `apply` returns, and the content it leaves. */
  function ReferenceApply(content: Value, args: seq<Value>): (Result<Value>, Value) {
    if |args| > 1 then (Err("too many arguments " + IntToString(|args|) + " to ref update"), content)
    else if |args| == 1 then (Ok(Nil), args[0])
    else (Ok(content), content)
  }

  /** `apply(x)` then `apply()` gives back `x`; extra arguments leave the content alone. */
  lemma ReferenceProtocol(content: Value, x: Value, args: seq<Value>)
    ensures ReferenceApply(content, []) == (Ok(content), content)
    ensures ReferenceApply(content, [x]) == (Ok(Nil), x)
    ensures ReferenceApply(ReferenceApply(content, [x]).1, []).0 == Ok(x)
    ensures |args| > 1 ==> ReferenceApply(content, args).0.Err? && ReferenceApply(content, args).1 == content
  {
  }

  class RefCell {
    var content: Value

    constructor (v: Value)
      ensures content == v
    {
      content := v;
    }

    method Apply(args: seq<Value>) returns (r: Result<Value>)
      modifies this
      ensures (r, content) == ReferenceApply(old(content), args)
    {
      if |args| > 1 {
        return Err("too many arguments " + IntToString(|args|) + " to ref update");
      }
      if |args| == 1 {
        content := args[0];
        return Ok(Nil);
      }
      return Ok(content);
    }

    /** `setReference`, also what the updater of `asReference` does. */
    method SetReference(v: Value) returns (ok: bool)
      modifies this
      ensures content == v && ok
    {
      content := v;
      ok := true;
    }
  }

  /** What an array's `apply` returns, and the content it leaves. */
  function ArrayApply(content: seq<Value>, args: seq<Value>): (Result<Value>, seq<Value>) {
    if |args| < 1 || !args[0].Integer? then (Err("array indexing requires an index"), content)
    else if |args| > 2 then (Err("too many arguments " + IntToString(|args|) + " to array update"), content)
    else if args[0].i < 0 || args[0].i >= |content| then
      (Err("array index out of bounds " + IntToString(args[0].i)), content)
    else if |args| == 2 then (Ok(Nil), content[args[0].i := args[1]])
    else (Ok(content[args[0].i]), content)
  }

  /**
   * An in-bounds read gives the slot, a write changes that slot only and
   * keeps the length, a following read sees the write, and every error
   * leaves the content as it was.
   */
  lemma ArrayProtocol(content: seq<Value>, idx: int, x: Value, args: seq<Value>)
    ensures 0 <= idx < |content| ==> ArrayApply(content, [Integer(idx)]) == (Ok(content[idx]), content)
    ensures 0 <= idx < |content| ==>
      var after := ArrayApply(content, [Integer(idx), x]).1;
      |after| == |content| && after[idx] == x
      && (forall k :: 0 <= k < |content| && k != idx ==> after[k] == content[k])
      && ArrayApply(after, [Integer(idx)]).0 == Ok(x)
    ensures !(0 <= idx < |content|) ==>
      ArrayApply(content, [Integer(idx), x]) == (Err("array index out of bounds " + IntToString(idx)), content)
    ensures (|args| == 0 || !args[0].Integer?) ==> ArrayApply(content, args).0 == Err("array indexing requires an index")
    ensures ArrayApply(content, args).0.Err? ==> ArrayApply(content, args).1 == content
  {
  }

  /** An array's `apply`, writing in place. */
  method ArrayApplyInPlace(a: array<Value>, args: seq<Value>) returns (r: Result<Value>)
    modifies a
    ensures (r, a[..]) == ArrayApply(old(a[..]), args)
  {
    if |args| < 1 || !args[0].Integer? {
      return Err("array indexing requires an index");
    }
    if |args| > 2 {
      return Err("too many arguments " + IntToString(|args|) + " to array update");
    }
    var idx := args[0].i;
    if idx < 0 || idx >= a.Length {
      return Err("array index out of bounds " + IntToString(idx));
    }
    if |args| == 2 {
      a[idx] := args[1];
      return Ok(Nil);
    }
    return Ok(a[idx]);
  }

  /** What a dictionary's `apply` returns, and the content it leaves (arity checked before the key). */
  function DictApply(content: map<string, Value>, args: seq<Value>): (Result<Value>, map<string, Value>) {
    if |args| < 1 then (Err("dict indexing requires a key"), content)
    else if |args| > 2 then (Err("too many arguments " + IntToString(|args|) + " to dict update"), content)
    else if !args[0].Symbol? then (Err("dict indexing requires a symbol key"), content)
    else if |args| == 2 then (Ok(Nil), content[args[0].name := args[1]])
    else if args[0].name in content then (Ok(content[args[0].name]), content)
    else (Err("key " + args[0].name + " not in dict"), content)
  }

  /**
   * A write stores under its key only and a following read sees it; a read of
   * a missing key fails; more than two arguments fail without looking at the
   * key; and every error leaves the content as it was.
   */
  lemma DictProtocol(content: map<string, Value>, key: string, x: Value, args: seq<Value>)
    ensures var after := DictApply(content, [Symbol(key), x]);
      after.0 == Ok(Nil) && after.1 == content[key := x]
      && (forall k :: k != key ==> (k in after.1 <==> k in content))
      && (forall k :: k != key && k in content ==> after.1[k] == content[k])
      && DictApply(after.1, [Symbol(key)]).0 == Ok(x)
    ensures key !in content ==> DictApply(content, [Symbol(key)]).0 == Err("key " + key + " not in dict")
    ensures |args| > 2 ==> DictApply(content, args).0 == Err("too many arguments " + IntToString(|args|) + " to dict update")
    ensures |args| == 0 ==> DictApply(content, args).0 == Err("dict indexing requires a key")
    ensures DictApply(content, args).0.Err? ==> DictApply(content, args).1 == content
  {
  }

  class DictObj {
    var content: map<string, Value>

    constructor (content: map<string, Value>)
      ensures this.content == content
    {
      this.content := content;
    }

    method Apply(args: seq<Value>) returns (r: Result<Value>)
      modifies this
      ensures (r, content) == DictApply(old(content), args)
    {
      if |args| < 1 {
        return Err("dict indexing requires a key");
      }
      if |args| > 2 {
        return Err("too many arguments " + IntToString(|args|) + " to dict update");
      }
      if !args[0].Symbol? {
        return Err("dict indexing requires a symbol key");
      }
      var key := args[0].name;
      if |args| == 2 {
        content := content[key := args[1]];
        return Ok(Nil);
      }
      if key !in content {
        return Err("key " + key + " not in dict");
      }
      return Ok(content[key]);
    }
  }

  // ---------------------------------------------------------------------
  // Environments
  // ---------------------------------------------------------------------

  /** The value `layer` gives the name at position `i`: its argument if there is one, otherwise Nil. */
  function SlotValue(values: seq<Value>, i: nat): Value {
    if i < |values| then values[i] else Nil
  }

  /** The map `layer` fills, one name at a time in order (a repeated name keeps its last slot). */
  function LayerBindings(names: seq<string>, values: seq<Value>): map<string, Value> {
    if |names| == 0 then map[]
    else LayerBindings(names[..|names| - 1], values)[names[|names| - 1] := SlotValue(values, |names| - 1)]
  }

  /**
   * A layered frame binds exactly the given names; each name's value is the
   * argument at the last position the name occupies, or Nil when the
   * arguments run out before it.
   */
  lemma {:induction false} LayerBindingsMeaning(names: seq<string>, values: seq<Value>)
    ensures forall k :: k in LayerBindings(names, values) <==> k in names
    ensures forall i :: 0 <= i < |names| && (forall j :: i < j < |names| ==> names[j] != names[i]) ==>
      LayerBindings(names, values)[names[i]] == SlotValue(values, i)
  {
    if |names| > 0 {
      var n := |names| - 1;
      LayerBindingsMeaning(names[..n], values);
      assert names == names[..n] + [names[n]];
      forall i | 0 <= i < |names| && (forall j :: i < j < |names| ==> names[j] != names[i])
        ensures LayerBindings(names, values)[names[i]] == SlotValue(values, i)
      {
        if i < n {
          assert names[..n][i] == names[i];
          forall j | i < j < n ensures names[..n][j] != names[..n][i] {
            assert names[..n][j] == names[j];
          }
        }
      }
    }
  }

  /** With no values (Go's nil slice) every name is bound to Nil. */
  lemma {:induction false} LayerWithoutValues(names: seq<string>)
    ensures forall k :: k in LayerBindings(names, []) ==> LayerBindings(names, [])[k] == Nil
  {
    if |names| > 0 {
      LayerWithoutValues(names[..|names| - 1]);
    }
  }

  /** One frame of the environment chain. */
  class Frame {
    var bindings: map<string, Value>
    const previous: Frame?
    /** The number of parents; it only makes the finiteness of the chain explicit. */
    const depth: nat

    constructor (bindings: map<string, Value>, previous: Frame?)
      requires previous != null ==> previous.ChainOk()
      ensures this.bindings == bindings && this.previous == previous && ChainOk()
    {
      this.bindings := bindings;
      this.previous := previous;
      this.depth := if previous == null then 0 else previous.depth + 1;
    }

    /** The chain of parents is finite: every parent sits strictly lower. */
    ghost predicate ChainOk()
      decreases depth
    {
      previous == null || (previous.depth < depth && previous.ChainOk())
    }

    /** This frame followed by its parents, innermost first. */
    ghost function Chain(): (c: seq<Frame>)
      requires ChainOk()
      ensures |c| > 0 && c[0] == this && |c| <= depth + 1
      ensures forall i :: 0 <= i < |c| - 1 ==> c[i].previous == c[i + 1]
      ensures c[|c| - 1].previous == null
      decreases depth
    {
      if previous == null then [this]
      else
        var pc := previous.Chain();
        assert forall i :: 0 < i < |pc| + 1 ==> ([this] + pc)[i] == pc[i - 1];
        [this] + pc
    }

    /** The value `find` gives a name: the innermost frame's binding, else an error. */
    function Resolve(name: string): Result<Value>
      requires ChainOk()
      reads set f | f in Chain()
      decreases depth
    {
      if name in bindings then Ok(bindings[name])
      else if previous == null then Err("no such identifier " + name)
      else previous.Resolve(name)
    }

    /**
     * Resolution succeeds exactly when some frame in the chain binds the
     * name, and then yields the binding of the innermost such frame; it
     * fails with "no such identifier" when no frame binds it.
     */
    lemma {:induction false} ResolveInnermost(name: string)
      requires ChainOk()
      ensures Resolve(name).Ok? ==>
        exists i :: 0 <= i < |Chain()| && name in Chain()[i].bindings
          && Resolve(name).value == Chain()[i].bindings[name]
          && forall j :: 0 <= j < i ==> name !in Chain()[j].bindings
      ensures Resolve(name).Err? ==>
        && Resolve(name).msg == "no such identifier " + name
        && forall i :: 0 <= i < |Chain()| ==> name !in Chain()[i].bindings
      decreases depth
    {
      var c := Chain();
      if name in bindings {
        assert Resolve(name) == Ok(bindings[name]);
        assert name in c[0].bindings;
      } else if previous == null {
        assert c == [this];
      } else {
        previous.ResolveInnermost(name);
        var pc := previous.Chain();
        assert Resolve(name) == previous.Resolve(name);
        assert c == [this] + pc;
        if Resolve(name).Ok? {
          var i :| 0 <= i < |pc| && name in pc[i].bindings && Resolve(name).value == pc[i].bindings[name]
            && forall j :: 0 <= j < i ==> name !in pc[j].bindings;
          assert c[i + 1] == pc[i];
          assert name in c[i + 1].bindings && Resolve(name).value == c[i + 1].bindings[name];
          forall j | 0 <= j < i + 1 ensures name !in c[j].bindings {
            if j > 0 { assert c[j] == pc[j - 1]; }
          }
        } else {
          forall i | 0 <= i < |c| ensures name !in c[i].bindings {
            if i > 0 { assert c[i] == pc[i - 1]; }
          }
        }
      }
    }

    /** `find`: walk the chain from this frame outwards. */
    method Find(name: string) returns (r: Result<Value>)
      requires ChainOk()
      ensures r == Resolve(name)
    {
      var current: Frame? := this;
      while current != null
        invariant current != null ==> current.ChainOk() && current.Resolve(name) == Resolve(name)
        invariant current == null ==> Resolve(name) == Err("no such identifier " + name)
        decreases if current == null then 0 else current.depth + 1
      {
        if name in current.bindings {
          return Ok(current.bindings[name]);
        }
        current := current.previous;
      }
      return Err("no such identifier " + name);
    }

    /** `lookup`: this frame only (the module argument is not used). */
    function Lookup(moduleName: string, name: string): (r: Result<Value>)
      reads this
      ensures r.Ok? <==> name in bindings
      ensures r.Ok? ==> r.value == bindings[name]
      ensures r.Err? ==> r.msg == "no such identifier " + name
    {
      if name in bindings then Ok(bindings[name]) else Err("no such identifier " + name)
    }

    /** `lookup` agrees with `find` on names this frame binds, and never consults the parents. */
    lemma LookupIsLocal(moduleName: string, name: string)
      requires ChainOk()
      ensures name in bindings ==> Lookup(moduleName, name) == Resolve(name)
      ensures name !in bindings ==> Lookup(moduleName, name).Err?
    {
    }

    method Update(name: string, v: Value)
      modifies this
      ensures bindings == old(bindings)[name := v]
    {
      bindings := bindings[name := v];
    }

    /** `layer`: a fresh child frame binding `names` to `values`, Nil for the names beyond them. */
    method Layer(names: seq<string>, values: seq<Value>) returns (f: Frame)
      requires ChainOk()
      ensures fresh(f) && f.previous == this && f.ChainOk()
      ensures f.bindings == LayerBindings(names, values)
    {
      var m: map<string, Value> := map[];
      var i := 0;
      while i < |names|
        invariant 0 <= i <= |names|
        invariant m == LayerBindings(names[..i], values)
      {
        assert names[..i + 1][..i] == names[..i];
        m := m[names[i] := SlotValue(values, i)];
        i := i + 1;
      }
      assert names[..|names|] == names;
      f := new Frame(m, this);
    }
  }

  // ---------------------------------------------------------------------
  // Heap closure
  // ---------------------------------------------------------------------

  /**
   * The objects reachable from what an evaluation can see.  An evaluation may
   * write to the references, arrays and dictionaries in its store, and it
   * returns a larger store holding everything it allocated.
   */
  datatype Store = Store(frames: set<Frame>, closures: set<Closure>, refs: set<RefCell>,
                         arrays: set<array<Value>>, dicts: set<DictObj>)

  ghost predicate ValueIn(v: Value, st: Store) {
    match v
    case Cons(h, t) => ValueIn(h, st) && ValueIn(t, st)
    case Function(c) => c in st.closures
    case Reference(r) => r in st.refs
    case Array(a) => a in st.arrays
    case Dict(d) => d in st.dicts
    case _ => true
  }

  ghost predicate ValuesIn(vs: seq<Value>, st: Store) {
    forall k :: 0 <= k < |vs| ==> ValueIn(vs[k], st)
  }

  ghost predicate BindingsIn(m: map<string, Value>, st: Store) {
    forall k :: k in m ==> ValueIn(m[k], st)
  }

  ghost predicate AstIn(e: Ast, st: Store) {
    match e
    case Literal(v) => ValueIn(v, st)
    case Quote(v) => ValueIn(v, st)
    case Id(_) => true
    case Missing => true
    case If(c, t, f) => AstIn(c, st) && AstIn(t, st) && AstIn(f, st)
    case Apply(f, args) => AstIn(f, st) && forall a :: a in args ==> AstIn(a, st)
    case LetRec(_, _, bodies, body) => AstIn(body, st) && forall b :: b in bodies ==> AstIn(b, st)
  }

  /** `st2` holds everything `st1` holds. */
  ghost predicate Grows(st1: Store, st2: Store) {
    st1.frames <= st2.frames && st1.closures <= st2.closures && st1.refs <= st2.refs
    && st1.arrays <= st2.arrays && st1.dicts <= st2.dicts
  }

  // Each kind of object in `objs` points into `st` only.

  ghost predicate FramesClosedIn(objs: set<Frame>, st: Store)
    reads objs
  {
    forall f :: f in objs ==>
      f.ChainOk() && (f.previous != null ==> f.previous in st.frames) && BindingsIn(f.bindings, st)
  }

  ghost predicate ClosuresClosedIn(objs: set<Closure>, st: Store) {
    forall c :: c in objs ==> c.env in st.frames && AstIn(c.body, st)
  }

  ghost predicate RefsClosedIn(objs: set<RefCell>, st: Store)
    reads objs
  {
    forall r :: r in objs ==> ValueIn(r.content, st)
  }

  ghost predicate ArraysClosedIn(objs: set<array<Value>>, st: Store)
    reads objs
  {
    forall a :: a in objs ==> forall k :: 0 <= k < a.Length ==> ValueIn(a[k], st)
  }

  ghost predicate DictsClosedIn(objs: set<DictObj>, st: Store)
    reads objs
  {
    forall d :: d in objs ==> BindingsIn(d.content, st)
  }

  /** Nothing in the store points outside it. */
  ghost predicate Closed(st: Store)
    reads st.frames, st.refs, st.arrays, st.dicts
  {
    FramesClosedIn(st.frames, st) && ClosuresClosedIn(st.closures, st) && RefsClosedIn(st.refs, st)
    && ArraysClosedIn(st.arrays, st) && DictsClosedIn(st.dicts, st)
  }

  /**
   * `st2` is a closed store holding everything of `st`, and the references,
   * arrays and dictionaries it adds were allocated since the pre-state.
   */
  twostate predicate Extends(st: Store, new st2: Store)
    reads st2.frames, st2.refs, st2.arrays, st2.dicts
  {
    Grows(st, st2) && Closed(st2)
    && fresh(st2.refs - st.refs) && fresh(st2.arrays - st.arrays) && fresh(st2.dicts - st.dicts)
  }

  lemma ValueInGrows(v: Value, st1: Store, st2: Store)
    requires ValueIn(v, st1) && Grows(st1, st2)
    ensures ValueIn(v, st2)
  {
  }

  lemma ValuesInGrows(vs: seq<Value>, st1: Store, st2: Store)
    requires ValuesIn(vs, st1) && Grows(st1, st2)
    ensures ValuesIn(vs, st2)
  {
    forall k | 0 <= k < |vs| ensures ValueIn(vs[k], st2) {
      ValueInGrows(vs[k], st1, st2);
    }
  }

  lemma BindingsInGrows(m: map<string, Value>, st1: Store, st2: Store)
    requires BindingsIn(m, st1) && Grows(st1, st2)
    ensures BindingsIn(m, st2)
  {
    forall k | k in m ensures ValueIn(m[k], st2) {
      ValueInGrows(m[k], st1, st2);
    }
  }

  lemma AstInGrows(e: Ast, st1: Store, st2: Store)
    requires AstIn(e, st1) && Grows(st1, st2)
    ensures AstIn(e, st2)
  {
    match e
    case Literal(v) => ValueInGrows(v, st1, st2);
    case Quote(v) => ValueInGrows(v, st1, st2);
    case Id(_) =>
    case Missing =>
    case If(c, t, f) => AstInGrows(c, st1, st2); AstInGrows(t, st1, st2); AstInGrows(f, st1, st2);
    case Apply(f, args) =>
      AstInGrows(f, st1, st2);
      forall a | a in args ensures AstIn(a, st2) { AstInGrows(a, st1, st2); }
    case LetRec(_, _, bodies, body) =>
      AstInGrows(body, st1, st2);
      forall b | b in bodies ensures AstIn(b, st2) { AstInGrows(b, st1, st2); }
  }

  /** A values of a proper list's spine are in the store when the list is. */
  lemma {:induction false} SpineIn(v: Value, st: Store)
    requires ValueIn(v, st)
    ensures ValuesIn(Spine(v), st) && ValueIn(Terminator(v), st)
  {
    if v.Cons? {
      SpineIn(v.tail, st);
      assert Spine(v) == [v.head] + Spine(v.tail);
    }
  }

  lemma {:induction false} PrependIn(xs: seq<Value>, tail: Value, st: Store)
    requires ValuesIn(xs, st) && ValueIn(tail, st)
    ensures ValueIn(Prepend(xs, tail), st)
  {
    if |xs| > 0 {
      PrependIn(xs[1..], tail, st);
    }
  }

  /**
   * Adding objects to a closed store keeps it closed when the added objects
   * point into the larger store.
   */
  lemma ClosedExtend(st1: Store, st2: Store)
    requires Closed(st1) && Grows(st1, st2)
    requires FramesClosedIn(st2.frames - st1.frames, st2) && ClosuresClosedIn(st2.closures - st1.closures, st2)
    requires RefsClosedIn(st2.refs - st1.refs, st2) && ArraysClosedIn(st2.arrays - st1.arrays, st2)
    requires DictsClosedIn(st2.dicts - st1.dicts, st2)
    ensures Closed(st2)
  {
    forall f | f in st1.frames ensures BindingsIn(f.bindings, st2) {
      BindingsInGrows(f.bindings, st1, st2);
    }
    forall c | c in st1.closures ensures AstIn(c.body, st2) {
      AstInGrows(c.body, st1, st2);
    }
    forall r | r in st1.refs ensures ValueIn(r.content, st2) {
      ValueInGrows(r.content, st1, st2);
    }
    forall a, k | a in st1.arrays && 0 <= k < a.Length ensures ValueIn(a[k], st2) {
      ValueInGrows(a[k], st1, st2);
    }
    forall d | d in st1.dicts ensures BindingsIn(d.content, st2) {
      BindingsInGrows(d.content, st1, st2);
    }
  }

  /** A frame layered over `values` binds values of the store (or Nil). */
  lemma {:induction false} LayerBindingsIn(names: seq<string>, values: seq<Value>, st: Store)
    requires ValuesIn(values, st)
    ensures BindingsIn(LayerBindings(names, values), st)
  {
    if |names| > 0 {
      LayerBindingsIn(names[..|names| - 1], values, st);
    }
  }

  /** In a closed store, the chain of a frame of the store lies in the store. */
  lemma ChainIn(f: Frame, st: Store)
    requires Closed(st) && f in st.frames
    ensures f.ChainOk() && forall g :: g in f.Chain() ==> g in st.frames
    decreases f.depth
  {
    if f.previous != null {
      ChainIn(f.previous, st);
    }
  }

  /** In a closed store, whatever a frame of the store resolves a name to is in the store. */
  lemma ResolveIn(f: Frame, name: string, st: Store)
    requires Closed(st) && f in st.frames
    ensures f.ChainOk() && (f.Resolve(name).Ok? ==> ValueIn(f.Resolve(name).value, st))
    decreases f.depth
  {
    if name !in f.bindings && f.previous != null {
      ResolveIn(f.previous, name, st);
    }
  }
}
