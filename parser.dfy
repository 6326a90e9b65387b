/**
 * The parser: turns an s-expression produced by the reader into the kernel
 * AST, desugaring the surface forms on the way: `fn` becomes a `letrec` of
 * one function, `let` the application of such a function, `let*` nested
 * one-binding `let`s, and `do` a chain of `let`s that bind throw-away names.
 *
 * Go's parser answers "nil AST, nil error" for input that is no expression
 * (the empty list, nil, ...); that answer is `Missing` here.  Go's `fresh`
 * keeps a counter hidden in a closure; the functions below take the
 * counter's value `id` and return its value after the names they drew, and
 * `FreshCounter` is that counter as an object, used by the loop methods.
 */
module Parser {
  import opened Wrappers
  import opened Numerals
  import opened Values
  import opened Sequences

  /**
   * The message of the run-time panic of an unchecked accessor (`headValue`
   * of a non-cons, `strValue` of a value without text).  Go does not recover
   * from it; the model returns it as an error instead.
   */
  const UncheckedAccess := "unchecked access"

  // ---------------------------------------------------------------------
  // Fresh names
  // ---------------------------------------------------------------------

  /** The name `fresh(prefix)` returns when its counter stands at `id`. */
  function FreshName(prefix: string, id: nat): string {
    prefix + "_" + IntToString(id)
  }

  /** Names drawn at different counter values differ. */
  lemma FreshNamesDistinct(prefix: string, i: nat, j: nat)
    requires i != j
    ensures FreshName(prefix, i) != FreshName(prefix, j)
  {
    var a, b := FreshName(prefix, i), FreshName(prefix, j);
    assert a[|prefix| + 1..] == IntToString(i);
    assert b[|prefix| + 1..] == IntToString(j);
    IntToStringInjective(i, j);
  }

  /** The counter behind `fresh`, starting at 0. */
  class FreshCounter {
    var id: nat

    constructor ()
      ensures id == 0
    {
      id := 0;
    }

    method Fresh(prefix: string) returns (name: string)
      modifies this
      ensures name == FreshName(prefix, old(id)) && id == old(id) + 1
    {
      name := FreshName(prefix, id);
      id := id + 1;
    }
  }

  // ---------------------------------------------------------------------
  // Desugaring
  // ---------------------------------------------------------------------

  /** An anonymous function: a `letrec` binding it to a fresh name, whose body is that name. */
  function MakeFunction(params: seq<string>, body: Ast, id: nat): (Ast, nat) {
    var name := FreshName("__temp", id);
    (LetRec([name], [params], [body], Id(name)), id + 1)
  }

  /** A named function: a `letrec` binding it to its own name, whose body is that name. */
  function MakeRecFunction(name: string, params: seq<string>, body: Ast): Ast {
    LetRec([name], [params], [body], Id(name))
  }

  /** `let`: the anonymous function of the names and body, applied to the initialisers. */
  function MakeLet(params: seq<string>, inits: seq<Ast>, body: Ast, id: nat): (Ast, nat) {
    var (f, next) := MakeFunction(params, body, id);
    (Apply(f, inits), next)
  }

  /**
   * `let*`: one single-binding `let` per binding, the first binding
   * outermost; the inner lets draw their fresh names first.
   */
  function LetStarOf(names: seq<string>, inits: seq<Ast>, body: Ast, id: nat): (r: (Ast, nat))
    requires |names| == |inits|
    ensures r.1 == id + |names|
    decreases |names|
  {
    if |names| == 0 then (body, id)
    else
      var (inner, next) := LetStarOf(names[1..], inits[1..], body, id);
      MakeLet([names[0]], [inits[0]], inner, next)
  }

  /**
   * `do`: the nil literal for no expressions, otherwise the last
   * expression, each earlier one bound by a `let` to a fresh name; the inner
   * lets draw their names first, two per let.
   */
  function DoOf(exprs: seq<Ast>, id: nat): (r: (Ast, nat))
    ensures r.1 == if |exprs| == 0 then id else id + 2 * (|exprs| - 1)
    decreases |exprs|
  {
    if |exprs| == 0 then (Literal(Nil), id)
    else if |exprs| == 1 then (exprs[0], id)
    else
      var (inner, next) := DoOf(exprs[1..], id);
      MakeLet([FreshName("__temp", next)], [exprs[0]], inner, next + 1)
  }

  /** makeLetStar's loop runs from the last binding to the first. */
  method MakeLetStar(c: FreshCounter, names: seq<string>, inits: seq<Ast>, body: Ast) returns (result: Ast)
    requires |names| == |inits|
    modifies c
    ensures (result, c.id) == LetStarOf(names, inits, body, old(c.id))
  {
    ghost var id0 := c.id;
    result := body;
    var i: int := |names| - 1;
    while i >= 0
      invariant -1 <= i < |names|
      invariant (result, c.id) == LetStarOf(names[i + 1..], inits[i + 1..], body, id0)
      decreases i
    {
      assert names[i..][1..] == names[i + 1..] && inits[i..][1..] == inits[i + 1..];
      var f := c.Fresh("__temp");
      result := Apply(LetRec([f], [[names[i]]], [result], Id(f)), [inits[i]]);
      i := i - 1;
    }
    assert names[0..] == names && inits[0..] == inits;
  }

  /** makeDo's loop runs from the last-but-one expression to the first, drawing the bound name before the function's. */
  method MakeDo(c: FreshCounter, exprs: seq<Ast>) returns (result: Ast)
    modifies c
    ensures (result, c.id) == DoOf(exprs, old(c.id))
  {
    if |exprs| == 0 {
      return Literal(Nil);
    }
    ghost var id0 := c.id;
    result := exprs[|exprs| - 1];
    var i: int := |exprs| - 2;
    while i >= 0
      invariant -1 <= i <= |exprs| - 2
      invariant (result, c.id) == DoOf(exprs[i + 1..], id0)
      decreases i
    {
      assert exprs[i..][1..] == exprs[i + 1..];
      var name := c.Fresh("__temp");
      var f := c.Fresh("__temp");
      result := Apply(LetRec([f], [[name]], [result], Id(f)), [exprs[i]]);
      i := i - 1;
    }
    assert exprs[0..] == exprs;
  }

  // ---------------------------------------------------------------------
  // Symbol lists
  // ---------------------------------------------------------------------

  /** parseSymbols' loop, with the names collected so far in `acc`. */
  function SymbolsFrom(v: Value, acc: seq<string>): Result<seq<string>>
    decreases v
  {
    if v.Cons? then
      if v.head.Symbol? then SymbolsFrom(v.tail, acc + [v.head.name])
      else Err("expected symbol in list")
    else if v.Empty? then Ok(acc)
    else Err("malformed symbol list")
  }

  function SymbolsOf(v: Value): Result<seq<string>> {
    SymbolsFrom(v, [])
  }

  predicate AllSymbols(xs: seq<Value>) {
    forall k :: 0 <= k < |xs| ==> xs[k].Symbol?
  }

  /** The names of a sequence of symbols. */
  function Names(xs: seq<Value>): (ns: seq<string>)
    requires AllSymbols(xs)
    ensures |ns| == |xs| && forall k :: 0 <= k < |xs| ==> ns[k] == xs[k].name
  {
    if |xs| == 0 then [] else [xs[0].name] + Names(xs[1..])
  }

  /**
   * A symbol list parses exactly when it is a proper list of symbols, to
   * their names in order; a non-symbol anywhere on the spine is reported
   * before a bad terminator.
   */
  lemma {:induction false} SymbolsMeaning(v: Value, acc: seq<string>)
    ensures SymbolsFrom(v, acc) ==
      if !AllSymbols(Spine(v)) then Err("expected symbol in list")
      else if !IsProperList(v) then Err("malformed symbol list")
      else Ok(acc + Names(Spine(v)))
  {
    if v.Cons? {
      var xs := Spine(v);
      assert xs[0] == v.head;
      assert xs[1..] == Spine(v.tail);
      if v.head.Symbol? {
        SymbolsMeaning(v.tail, acc + [v.head.name]);
        if AllSymbols(xs) {
          assert AllSymbols(Spine(v.tail)) by {
            forall k | 0 <= k < |Spine(v.tail)| ensures Spine(v.tail)[k].Symbol? {
              assert Spine(v.tail)[k] == xs[k + 1];
            }
          }
          assert Names(xs) == [v.head.name] + Names(Spine(v.tail));
          assert acc + [v.head.name] + Names(Spine(v.tail)) == acc + Names(xs);
        } else {
          var k :| 0 <= k < |xs| && !xs[k].Symbol?;
          assert !Spine(v.tail)[k - 1].Symbol?;
          assert !AllSymbols(Spine(v.tail));
        }
      } else {
        assert !AllSymbols(xs);
      }
    } else {
      assert acc + Names(Spine(v)) == acc;
    }
  }

  method ParseSymbols(sexp: Value) returns (r: Result<seq<string>>)
    ensures r == SymbolsOf(sexp)
  {
    var params: seq<string> := [];
    var current := sexp;
    while current.Cons?
      invariant SymbolsFrom(current, params) == SymbolsOf(sexp)
      decreases current
    {
      if !current.head.Symbol? {
        return Err("expected symbol in list");
      }
      params := params + [current.head.name];
      current := current.tail;
    }
    if !current.Empty? {
      return Err("malformed symbol list");
    }
    return Ok(params);
  }

  // ---------------------------------------------------------------------
  // Expressions
  // ---------------------------------------------------------------------

  /** `(kw ...)`: a cons cell whose head is the symbol `kw`. */
  predicate IsForm(kw: string, sexp: Value) {
    sexp.Cons? && sexp.head == Symbol(kw)
  }

  /** The heads parseExpr gives a meaning of their own (`def` is not among them). */
  const SpecialForms: set<string> := {"quote", "if", "fn", "let", "let*", "letrec", "do"}

  function ParseAtom(sexp: Value): Option<Ast> {
    if sexp.Symbol? then Some(Id(sexp.name))
    else if IsAtom(sexp) then Some(Literal(sexp))
    else None
  }

  function ParseQuote(sexp: Value): Option<Result<Ast>> {
    if !IsForm("quote", sexp) then None
    else if !sexp.tail.Cons? then Some(Err("malformed quote"))
    else if !sexp.tail.tail.Empty? then Some(Err("too many arguments to quote"))
    else Some(Ok(Quote(sexp.tail.head)))
  }

  /** The last operand of a form: exactly one expression must be left in `next`. */
  function ParseFinal(tooFew: string, tooMany: string, next: Value, id: nat): (r: (Result<Ast>, nat))
    ensures r.1 >= id
    decreases next, 0
  {
    if !next.Cons? then (Err(tooFew), id)
    else
      var (e, id1) := ParseExpr(next.head, id);
      if e.Err? then (e, id1)
      else if !next.tail.Empty? then (Err(tooMany), id1)
      else (e, id1)
  }

  function ParseIf(sexp: Value, id: nat): (r: Option<(Result<Ast>, nat)>)
    ensures r.Some? <==> IsForm("if", sexp)
    ensures r.Some? ==> r.value.1 >= id
    decreases sexp, 1
  {
    if !IsForm("if", sexp) then None
    else Some(
      var next := sexp.tail;
      if !next.Cons? then (Err("too few arguments to if"), id)
      else
        var (cnd, id1) := ParseExpr(next.head, id);
        if cnd.Err? then (cnd, id1)
        else if !next.tail.Cons? then (Err("too few arguments to if"), id1)
        else
          var (thn, id2) := ParseExpr(next.tail.head, id1);
          if thn.Err? then (thn, id2)
          else
            var (els, id3) := ParseFinal("too few arguments to if", "too many arguments to if", next.tail.tail, id2);
            if els.Err? then (els, id3)
            else (Ok(If(cnd.value, thn.value, els.value)), id3))
  }

  function ParseFunction(sexp: Value, id: nat): (r: Option<(Result<Ast>, nat)>)
    ensures r.Some? <==> IsForm("fn", sexp)
    ensures r.Some? ==> r.value.1 >= id
    decreases sexp, 1
  {
    if !IsForm("fn", sexp) then None
    else if !sexp.tail.Cons? then Some((Err("too few arguments to fun"), id))
    else if sexp.tail.head.Symbol? then ParseRecFunction(sexp, id)
    else Some(
      var ps := SymbolsOf(sexp.tail.head);
      if ps.Err? then (Err(ps.msg), id)
      else
        var (body, id1) := ParseFinal("too few arguments to fun", "too many arguments to fun", sexp.tail.tail, id);
        if body.Err? then (body, id1)
        else
          var (f, id2) := MakeFunction(ps.value, body.value, id1);
          (Ok(f), id2))
  }

  /** The text `strValue` gives: the name of a symbol or the contents of a string. */
  function TextOf(v: Value): Option<string> {
    if v.Symbol? then Some(v.name) else if v.String? then Some(v.text) else None
  }

  /** `(fn name params body)`; the parameter list is taken without checking that it is there. */
  function ParseRecFunction(sexp: Value, id: nat): (r: Option<(Result<Ast>, nat)>)
    ensures r.Some? <==> IsForm("fn", sexp)
    ensures r.Some? ==> r.value.1 >= id
    decreases sexp, 0
  {
    if !IsForm("fn", sexp) then None
    else if !sexp.tail.Cons? then Some((Err("too few arguments to fun"), id))
    else if TextOf(sexp.tail.head).None? || !sexp.tail.tail.Cons? then Some((Err(UncheckedAccess), id))
    else Some(
      var recName := TextOf(sexp.tail.head).value;
      var next := sexp.tail.tail;
      var ps := SymbolsOf(next.head);
      if ps.Err? then (Err(ps.msg), id)
      else
        var (body, id1) := ParseFinal("too few arguments to fun", "too many arguments to fun", next.tail, id);
        if body.Err? then (body, id1)
        else (Ok(MakeRecFunction(recName, ps.value, body.value)), id1))
  }

  function ParseLet(sexp: Value, id: nat): (r: Option<(Result<Ast>, nat)>)
    ensures r.Some? <==> IsForm("let", sexp)
    ensures r.Some? ==> r.value.1 >= id
    decreases sexp, 1
  {
    if !IsForm("let", sexp) then None
    else if !sexp.tail.Cons? then Some((Err("too few arguments to let"), id))
    else Some(
      var (bs, id1) := BindingsOf(sexp.tail.head, id);
      if bs.Err? then (Err(bs.msg), id1)
      else
        var (body, id2) := ParseFinal("too few arguments to let", "too many arguments to let", sexp.tail.tail, id1);
        if body.Err? then (body, id2)
        else
          var (e, id3) := MakeLet(bs.value.0, bs.value.1, body.value, id2);
          (Ok(e), id3))
  }

  function ParseLetStar(sexp: Value, id: nat): (r: Option<(Result<Ast>, nat)>)
    ensures r.Some? <==> IsForm("let*", sexp)
    ensures r.Some? ==> r.value.1 >= id
    decreases sexp, 1
  {
    if !IsForm("let*", sexp) then None
    else if !sexp.tail.Cons? then Some((Err("too few arguments to let*"), id))
    else Some(
      var (bs, id1) := BindingsOf(sexp.tail.head, id);
      if bs.Err? then (Err(bs.msg), id1)
      else
        var (body, id2) := ParseFinal("too few arguments to let*", "too many arguments to let*", sexp.tail.tail, id1);
        if body.Err? then (body, id2)
        else
          var (e, id3) := LetStarOf(bs.value.0, bs.value.1, body.value, id2);
          (Ok(e), id3))
  }

  function ParseLetRec(sexp: Value, id: nat): (r: Option<(Result<Ast>, nat)>)
    ensures r.Some? <==> IsForm("letrec", sexp)
    ensures r.Some? ==> r.value.1 >= id
    decreases sexp, 1
  {
    if !IsForm("letrec", sexp) then None
    else if !sexp.tail.Cons? then Some((Err("too few arguments to letrec"), id))
    else Some(
      var (bs, id1) := FunBindingsOf(sexp.tail.head, id);
      if bs.Err? then (Err(bs.msg), id1)
      else
        var (body, id2) := ParseFinal("too few arguments to letrec", "too many arguments to letrec", sexp.tail.tail, id1);
        if body.Err? then (body, id2)
        else (Ok(LetRec(bs.value.0, bs.value.1, bs.value.2, body.value)), id2))
  }

  function ParseDo(sexp: Value, id: nat): (r: Option<(Result<Ast>, nat)>)
    ensures r.Some? <==> IsForm("do", sexp)
    ensures r.Some? ==> r.value.1 >= id
    decreases sexp, 1
  {
    if !IsForm("do", sexp) then None
    else Some(
      var (es, id1) := ExprsOf(sexp.tail, id);
      if es.Err? then (Err(es.msg), id1)
      else
        var (e, id2) := DoOf(es.value, id1);
        (Ok(e), id2))
  }

  /** Any other cons cell is an application; a head that is no expression leaves the whole cell none. */
  function ParseApply(sexp: Value, id: nat): (r: Option<(Result<Ast>, nat)>)
    ensures r.Some? <==> sexp.Cons?
    ensures r.Some? ==> r.value.1 >= id
    decreases sexp, 1
  {
    if !sexp.Cons? then None
    else Some(
      var (f, id1) := ParseExpr(sexp.head, id);
      if f.Err? || f.value.Missing? then (f, id1)
      else
        var (args, id2) := ExprsOf(sexp.tail, id1);
        if args.Err? then (Err(args.msg), id2)
        else (Ok(Apply(f.value, args.value)), id2))
  }

  /** parseExpr: the alternatives are tried in a fixed order; none applying gives `Missing`. */
  function ParseExpr(sexp: Value, id: nat): (r: (Result<Ast>, nat))
    ensures r.1 >= id
    decreases sexp, 2
  {
    match ParseAtom(sexp)
    case Some(a) => (Ok(a), id)
    case None =>
      match ParseQuote(sexp)
      case Some(q) => (q, id)
      case None =>
        match ParseIf(sexp, id)
        case Some(r) => r
        case None =>
          match ParseFunction(sexp, id)
          case Some(r) => r
          case None =>
            match ParseLet(sexp, id)
            case Some(r) => r
            case None =>
              match ParseLetStar(sexp, id)
              case Some(r) =>
                // A nil AST without an error sends parseExpr on to the next
                // alternative; for a `let*` cell that is the application.
                if r.0 == Ok(Missing) then ParseApply(sexp, r.1).value else r
              case None =>
                match ParseLetRec(sexp, id)
                case Some(r) => r
                case None =>
                  match ParseDo(sexp, id)
                  case Some(r) => r
                  case None =>
                    match ParseApply(sexp, id)
                    case Some(r) => r
                    case None => (Ok(Missing), id)
  }

  /** parseExprs' loop: an element that is no expression ends it with an empty result. */
  function ExprsFrom(v: Value, acc: seq<Ast>, id: nat): (r: (Result<seq<Ast>>, nat))
    ensures r.1 >= id
    decreases v, 1
  {
    if v.Cons? then
      var (e, id1) := ParseExpr(v.head, id);
      if e.Err? then (Err(e.msg), id1)
      else if e.value.Missing? then (Ok([]), id1)
      else ExprsFrom(v.tail, acc + [e.value], id1)
    else if v.Empty? then (Ok(acc), id)
    else (Err("malformed expression list"), id)
  }

  function ExprsOf(v: Value, id: nat): (r: (Result<seq<Ast>>, nat))
    ensures r.1 >= id
    decreases v, 2
  {
    ExprsFrom(v, [], id)
  }

  /** parseBindings' loop over `(name expr)` pairs. */
  function BindingsFrom(v: Value, names: seq<string>, inits: seq<Ast>, id: nat): (r: (Result<(seq<string>, seq<Ast>)>, nat))
    ensures r.1 >= id
    ensures |names| == |inits| && r.0.Ok? ==> |r.0.value.0| == |r.0.value.1|
    decreases v, 1
  {
    if v.Cons? then
      var b := v.head;
      if !b.Cons? then (Err("expected binding (name expr)"), id)
      else if !b.head.Symbol? then (Err("expected name in binding"), id)
      else if !b.tail.Cons? then (Err("expected expr in binding"), id)
      else if !b.tail.tail.Empty? then (Err("too many elements in binding"), id)
      else
        var (e, id1) := ParseExpr(b.tail.head, id);
        if e.Err? then (Err(e.msg), id1)
        else BindingsFrom(v.tail, names + [b.head.name], inits + [e.value], id1)
    else if v.Empty? then (Ok((names, inits)), id)
    else (Err("malformed binding list"), id)
  }

  function BindingsOf(v: Value, id: nat): (r: (Result<(seq<string>, seq<Ast>)>, nat))
    ensures r.1 >= id
    ensures r.0.Ok? ==> |r.0.value.0| == |r.0.value.1|
    decreases v, 2
  {
    BindingsFrom(v, [], [], id)
  }

  /** parseFunBindings' loop over `(name params expr)` triples. */
  function FunBindingsFrom(v: Value, names: seq<string>, params: seq<seq<string>>, bodies: seq<Ast>, id: nat)
    : (r: (Result<(seq<string>, seq<seq<string>>, seq<Ast>)>, nat))
    ensures r.1 >= id
    decreases v, 1
  {
    if v.Cons? then
      var b := v.head;
      if !b.Cons? then (Err("expected binding (name params expr)"), id)
      else if !b.head.Symbol? then (Err("expected name in binding"), id)
      else if !b.tail.Cons? then (Err("expected params in binding"), id)
      else
        var ps := SymbolsOf(b.tail.head);
        if ps.Err? then (Err(ps.msg), id)
        else if !b.tail.tail.Cons? then (Err("expected expr in binding"), id)
        else if !b.tail.tail.tail.Empty? then (Err("too many elements in binding"), id)
        else
          var (e, id1) := ParseExpr(b.tail.tail.head, id);
          if e.Err? then (Err(e.msg), id1)
          else FunBindingsFrom(v.tail, names + [b.head.name], params + [ps.value], bodies + [e.value], id1)
    else if v.Empty? then (Ok((names, params, bodies)), id)
    else (Err("malformed binding list"), id)
  }

  function FunBindingsOf(v: Value, id: nat): (r: (Result<(seq<string>, seq<seq<string>>, seq<Ast>)>, nat))
    ensures r.1 >= id
    decreases v, 2
  {
    FunBindingsFrom(v, [], [], [], id)
  }

  // ---------------------------------------------------------------------
  // Definitions
  // ---------------------------------------------------------------------

  datatype DefKind = DefValue | DefFunction

  /** A top-level `def`: of a value (no parameters) or of a named function. */
  datatype Def = Def(name: string, kind: DefKind, params: seq<string>, body: Ast)

  /** parseDef: `Ok(None)` when the input is not a `def` form. */
  function ParseDef(sexp: Value, id: nat): (r: (Result<Option<Def>>, nat))
    ensures r.1 >= id
    ensures r.0 == Ok(None) <==> !IsForm("def", sexp)
    ensures r.0.Ok? && r.0.value.Some? && r.0.value.value.kind == DefValue ==> r.0.value.value.params == []
  {
    if !IsForm("def", sexp) then (Ok(None), id)
    else if !sexp.tail.Cons? then (Err("too few arguments to def"), id)
    else
      var block := sexp.tail.head;
      if block.Symbol? then
        var (value, id1) := ParseFinal("too few arguments to def", "too many arguments to def", sexp.tail.tail, id);
        if value.Err? then (Err(value.msg), id1)
        else (Ok(Some(Def(block.name, DefValue, [], value.value))), id1)
      else if block.Cons? then
        if !block.head.Symbol? then (Err("definition name not a symbol"), id)
        else
          var ps := SymbolsOf(block.tail);
          if ps.Err? then (Err(ps.msg), id)
          else
            var (body, id1) := ParseFinal("too few arguments to def", "too many arguments to def", sexp.tail.tail, id);
            if body.Err? then (Err(body.msg), id1)
            else (Ok(Some(Def(block.head.name, DefFunction, ps.value, body.value))), id1)
      else (Err("malformed def"), id)
  }

  // ---------------------------------------------------------------------
  // The loops, as Go writes them
  // ---------------------------------------------------------------------

  method ParseExprs(sexp: Value, id: nat) returns (r: Result<seq<Ast>>, next: nat)
    ensures (r, next) == ExprsOf(sexp, id)
  {
    var args: seq<Ast> := [];
    var current := sexp;
    next := id;
    while current.Cons?
      invariant ExprsFrom(current, args, next) == ExprsOf(sexp, id)
      decreases current
    {
      var (e, id1) := ParseExpr(current.head, next);
      if e.Err? {
        return Err(e.msg), id1;
      }
      if e.value.Missing? {
        return Ok([]), id1;
      }
      args := args + [e.value];
      next := id1;
      current := current.tail;
    }
    if !current.Empty? {
      return Err("malformed expression list"), next;
    }
    return Ok(args), next;
  }

  method ParseBindings(sexp: Value, id: nat) returns (r: Result<(seq<string>, seq<Ast>)>, next: nat)
    ensures (r, next) == BindingsOf(sexp, id)
  {
    var params: seq<string> := [];
    var bindings: seq<Ast> := [];
    var current := sexp;
    next := id;
    while current.Cons?
      invariant BindingsFrom(current, params, bindings, next) == BindingsOf(sexp, id)
      decreases current
    {
      var b := current.head;
      if !b.Cons? {
        return Err("expected binding (name expr)"), next;
      }
      if !b.head.Symbol? {
        return Err("expected name in binding"), next;
      }
      if !b.tail.Cons? {
        return Err("expected expr in binding"), next;
      }
      if !b.tail.tail.Empty? {
        return Err("too many elements in binding"), next;
      }
      var (e, id1) := ParseExpr(b.tail.head, next);
      if e.Err? {
        return Err(e.msg), id1;
      }
      params := params + [b.head.name];
      bindings := bindings + [e.value];
      next := id1;
      current := current.tail;
    }
    if !current.Empty? {
      return Err("malformed binding list"), next;
    }
    return Ok((params, bindings)), next;
  }

  method ParseFunBindings(sexp: Value, id: nat) returns (r: Result<(seq<string>, seq<seq<string>>, seq<Ast>)>, next: nat)
    ensures (r, next) == FunBindingsOf(sexp, id)
  {
    var names: seq<string> := [];
    var params: seq<seq<string>> := [];
    var bodies: seq<Ast> := [];
    var current := sexp;
    next := id;
    while current.Cons?
      invariant FunBindingsFrom(current, names, params, bodies, next) == FunBindingsOf(sexp, id)
      decreases current
    {
      var b := current.head;
      if !b.Cons? {
        return Err("expected binding (name params expr)"), next;
      }
      if !b.head.Symbol? {
        return Err("expected name in binding"), next;
      }
      if !b.tail.Cons? {
        return Err("expected params in binding"), next;
      }
      var ps := ParseSymbols(b.tail.head);
      if ps.Err? {
        return Err(ps.msg), next;
      }
      if !b.tail.tail.Cons? {
        return Err("expected expr in binding"), next;
      }
      if !b.tail.tail.tail.Empty? {
        return Err("too many elements in binding"), next;
      }
      var (e, id1) := ParseExpr(b.tail.tail.head, next);
      if e.Err? {
        return Err(e.msg), id1;
      }
      names := names + [b.head.name];
      params := params + [ps.value];
      bodies := bodies + [e.value];
      next := id1;
      current := current.tail;
    }
    if !current.Empty? {
      return Err("malformed binding list"), next;
    }
    return Ok((names, params, bodies)), next;
  }

  // ---------------------------------------------------------------------
  // What the surface forms mean
  // ---------------------------------------------------------------------

  /** A value that is no expression: a non-atom, or a cons cell whose head is no expression. */
  predicate NoExpression(v: Value) {
    if v.Cons? then NoExpression(v.head) else !IsAtom(v)
  }

  /** Which alternative of parseExpr a cons cell reaches, by its head. */
  lemma Dispatch(sexp: Value, id: nat)
    requires sexp.Cons?
    ensures sexp.head == Symbol("quote") ==> ParseExpr(sexp, id) == (ParseQuote(sexp).value, id)
    ensures sexp.head == Symbol("if") ==> ParseExpr(sexp, id) == ParseIf(sexp, id).value
    ensures sexp.head == Symbol("fn") ==> ParseExpr(sexp, id) == ParseFunction(sexp, id).value
    ensures sexp.head == Symbol("let") ==> ParseExpr(sexp, id) == ParseLet(sexp, id).value
    ensures sexp.head == Symbol("let*") ==>
      var r := ParseLetStar(sexp, id).value;
      ParseExpr(sexp, id) == if r.0 == Ok(Missing) then ParseApply(sexp, r.1).value else r
    ensures sexp.head == Symbol("letrec") ==> ParseExpr(sexp, id) == ParseLetRec(sexp, id).value
    ensures sexp.head == Symbol("do") ==> ParseExpr(sexp, id) == ParseDo(sexp, id).value
    ensures !(sexp.head.Symbol? && sexp.head.name in SpecialForms) ==> ParseExpr(sexp, id) == ParseApply(sexp, id).value
  {
    if sexp.head == Symbol("if") {
      assert ParseIf(sexp, id).Some?;
    } else if sexp.head == Symbol("fn") {
      assert ParseIf(sexp, id) == None;
      if sexp.tail.Cons? && sexp.tail.head.Symbol? {
        assert ParseFunction(sexp, id) == ParseRecFunction(sexp, id);
      }
      assert ParseFunction(sexp, id).Some?;
    } else {
      assert ParseIf(sexp, id) == None;
      assert ParseFunction(sexp, id) == None;
      if sexp.head == Symbol("let") {
        assert ParseLet(sexp, id).Some?;
      } else {
        assert ParseLet(sexp, id) == None;
        if sexp.head == Symbol("let*") {
          assert ParseLetStar(sexp, id).Some?;
        } else {
          assert ParseLetStar(sexp, id) == None;
          if sexp.head == Symbol("letrec") {
            assert ParseLetRec(sexp, id).Some?;
          } else {
            assert ParseLetRec(sexp, id) == None;
            if sexp.head == Symbol("do") {
              assert ParseDo(sexp, id).Some?;
            } else {
              assert ParseDo(sexp, id) == None;
              assert ParseApply(sexp, id).Some?;
            }
          }
        }
      }
    }
  }

  /** The last operand: one expression is its parse, more are too many. */
  lemma FinalOperand(tooFew: string, tooMany: string, e: Value, more: Value, id: nat)
    ensures ParseFinal(tooFew, tooMany, Empty, id) == (Err(tooFew), id)
    ensures ParseFinal(tooFew, tooMany, Cons(e, Empty), id) == ParseExpr(e, id)
    ensures
      var (E, i1) := ParseExpr(e, id);
      E.Ok? && !more.Empty? ==> ParseFinal(tooFew, tooMany, Cons(e, more), id) == (Err(tooMany), i1)
  {
  }

  /** A value that is not a cons cell parses on its own, drawing no names. */
  lemma ParseNonList(v: Value, id: nat)
    requires !v.Cons?
    ensures ParseExpr(v, id) == (Ok(if v.Symbol? then Id(v.name) else if IsAtom(v) then Literal(v) else Missing), id)
  {
  }

  /** The nil AST comes back exactly for the values that are no expression. */
  lemma {:induction false} MissingExactly(v: Value, id: nat)
    ensures ParseExpr(v, id).0 == Ok(Missing) <==> NoExpression(v)
  {
    if v.Cons? {
      MissingExactly(v.head, id);
      if v.head.Symbol? && v.head.name in SpecialForms {
        assert !NoExpression(v);
        SpecialFormIsExpression(v, id);
      } else {
        ApplyForm(v.head, v.tail, id);
      }
    }
  }

  /** A special form never parses to the nil AST. */
  lemma SpecialFormIsExpression(v: Value, id: nat)
    requires v.Cons? && v.head.Symbol? && v.head.name in SpecialForms
    ensures ParseExpr(v, id).0 != Ok(Missing)
  {
    var kw := v.head.name;
    Dispatch(v, id);
    if kw == "do" {
      ExprsShape(v.tail, id);
      var (es, id1) := ExprsOf(v.tail, id);
      if es.Ok? {
        assert ParseDo(v, id).value == (Ok(DoOf(es.value, id1).0), DoOf(es.value, id1).1);
        if |es.value| == 1 {
          assert !es.value[0].Missing?;
        }
      }
    } else if kw == "fn" {
      assert ParseFunction(v, id).value.0 != Ok(Missing);
    }
  }

  /** `(quote x)` holds `x` unparsed and draws no names. */
  lemma QuoteForm(rest: Value, id: nat)
    ensures ParseExpr(Cons(Symbol("quote"), rest), id) ==
      (if !rest.Cons? then Err("malformed quote")
       else if !rest.tail.Empty? then Err("too many arguments to quote")
       else Ok(Quote(rest.head)), id)
  {
  }

  /** `(if c t e)`: the three operands are parsed left to right, the first error winning. */
  lemma IfForm(c: Value, t: Value, e: Value, id: nat)
    ensures
      var (C, i1) := ParseExpr(c, id);
      var (T, i2) := ParseExpr(t, i1);
      var (E, i3) := ParseExpr(e, i2);
      ParseExpr(Cons(Symbol("if"), Cons(c, Cons(t, Cons(e, Empty)))), id) ==
        if C.Err? then (C, i1)
        else if T.Err? then (T, i2)
        else if E.Err? then (E, i3)
        else (Ok(If(C.value, T.value, E.value)), i3)
  {
    var (C, i1) := ParseExpr(c, id);
    var (T, i2) := ParseExpr(t, i1);
    Dispatch(Cons(Symbol("if"), Cons(c, Cons(t, Cons(e, Empty)))), id);
    FinalOperand("too few arguments to if", "too many arguments to if", e, Empty, i2);
  }

  /** `if` takes exactly three operands. */
  lemma IfArity(c: Value, t: Value, e: Value, more: Value, id: nat)
    ensures ParseExpr(Cons(Symbol("if"), Empty), id) == (Err("too few arguments to if"), id)
    ensures
      var (C, i1) := ParseExpr(c, id);
      C.Ok? ==> ParseExpr(Cons(Symbol("if"), Cons(c, Empty)), id) == (Err("too few arguments to if"), i1)
    ensures
      var (C, i1) := ParseExpr(c, id);
      var (T, i2) := ParseExpr(t, i1);
      C.Ok? && T.Ok? ==> ParseExpr(Cons(Symbol("if"), Cons(c, Cons(t, Empty))), id) == (Err("too few arguments to if"), i2)
    ensures
      var (C, i1) := ParseExpr(c, id);
      var (T, i2) := ParseExpr(t, i1);
      var (E, i3) := ParseExpr(e, i2);
      C.Ok? && T.Ok? && E.Ok? && !more.Empty? ==>
        ParseExpr(Cons(Symbol("if"), Cons(c, Cons(t, Cons(e, more)))), id) == (Err("too many arguments to if"), i3)
  {
    var (C, i1) := ParseExpr(c, id);
    var (T, i2) := ParseExpr(t, i1);
    Dispatch(Cons(Symbol("if"), Empty), id);
    Dispatch(Cons(Symbol("if"), Cons(c, Empty)), id);
    Dispatch(Cons(Symbol("if"), Cons(c, Cons(t, Empty))), id);
    Dispatch(Cons(Symbol("if"), Cons(c, Cons(t, Cons(e, more)))), id);
    FinalOperand("too few arguments to if", "too many arguments to if", e, more, i2);
  }

  /**
   * `(fn params body)`: a one-function `letrec` under a fresh name, drawn
   * after the body has been parsed.
   */
  lemma AnonymousFunctionForm(ps: Value, b: Value, id: nat)
    requires !ps.Symbol?
    ensures
      var P := SymbolsOf(ps);
      var (B, i1) := ParseExpr(b, id);
      var name := FreshName("__temp", i1);
      ParseExpr(Cons(Symbol("fn"), Cons(ps, Cons(b, Empty))), id) ==
        if P.Err? then (Err(P.msg), id)
        else if B.Err? then (B, i1)
        else (Ok(LetRec([name], [P.value], [B.value], Id(name))), i1 + 1)
  {
    Dispatch(Cons(Symbol("fn"), Cons(ps, Cons(b, Empty))), id);
    FinalOperand("too few arguments to fun", "too many arguments to fun", b, Empty, id);
  }

  /** `(fn name params body)`: a one-function `letrec` under its own name; no name is drawn. */
  lemma NamedFunctionForm(f: string, ps: Value, b: Value, id: nat)
    ensures
      var P := SymbolsOf(ps);
      var (B, i1) := ParseExpr(b, id);
      ParseExpr(Cons(Symbol("fn"), Cons(Symbol(f), Cons(ps, Cons(b, Empty)))), id) ==
        if P.Err? then (Err(P.msg), id)
        else if B.Err? then (B, i1)
        else (Ok(LetRec([f], [P.value], [B.value], Id(f))), i1)
  {
    var sexp := Cons(Symbol("fn"), Cons(Symbol(f), Cons(ps, Cons(b, Empty))));
    Dispatch(sexp, id);
    assert ParseFunction(sexp, id) == ParseRecFunction(sexp, id);
    FinalOperand("too few arguments to fun", "too many arguments to fun", b, Empty, id);
  }

  /** `(fn)` and `(fn params)` are too short; `(fn name)` takes the head of no list. */
  lemma FunctionArity(ps: Value, f: string, t: Value, id: nat)
    ensures ParseExpr(Cons(Symbol("fn"), Empty), id) == (Err("too few arguments to fun"), id)
    ensures !ps.Symbol? && SymbolsOf(ps).Ok? ==>
      ParseExpr(Cons(Symbol("fn"), Cons(ps, Empty)), id) == (Err("too few arguments to fun"), id)
    ensures !t.Cons? ==>
      ParseExpr(Cons(Symbol("fn"), Cons(Symbol(f), t)), id) == (Err(UncheckedAccess), id)
  {
    Dispatch(Cons(Symbol("fn"), Empty), id);
    Dispatch(Cons(Symbol("fn"), Cons(ps, Empty)), id);
    FinalOperand("too few arguments to fun", "too many arguments to fun", Empty, Empty, id);
    var sexp := Cons(Symbol("fn"), Cons(Symbol(f), t));
    Dispatch(sexp, id);
    assert ParseFunction(sexp, id) == ParseRecFunction(sexp, id);
  }

  /** `(let bindings body)`: the anonymous function of the names and body applied to the initialisers. */
  lemma LetForm(bs: Value, b: Value, id: nat)
    ensures
      var (BS, i1) := BindingsOf(bs, id);
      var (B, i2) := ParseExpr(b, i1);
      var name := FreshName("__temp", i2);
      BS.Ok? && B.Ok? ==>
        ParseExpr(Cons(Symbol("let"), Cons(bs, Cons(b, Empty))), id) ==
          (Ok(Apply(LetRec([name], [BS.value.0], [B.value], Id(name)), BS.value.1)), i2 + 1)
  {
    var (BS, i1) := BindingsOf(bs, id);
    Dispatch(Cons(Symbol("let"), Cons(bs, Cons(b, Empty))), id);
    FinalOperand("too few arguments to let", "too many arguments to let", b, Empty, i1);
  }

  /** `(let* bindings body)`: nested single-binding lets, one fresh name per binding. */
  lemma LetStarForm(bs: Value, b: Value, id: nat)
    ensures
      var (BS, i1) := BindingsOf(bs, id);
      var (B, i2) := ParseExpr(b, i1);
      BS.Ok? && B.Ok? && (|BS.value.0| > 0 || !B.value.Missing?) ==>
        ParseExpr(Cons(Symbol("let*"), Cons(bs, Cons(b, Empty))), id) ==
          (Ok(LetStarOf(BS.value.0, BS.value.1, B.value, i2).0), i2 + |BS.value.0|)
  {
    var (BS, i1) := BindingsOf(bs, id);
    Dispatch(Cons(Symbol("let*"), Cons(bs, Cons(b, Empty))), id);
    FinalOperand("too few arguments to let*", "too many arguments to let*", b, Empty, i1);
  }

  /**
   * `(let* () body)` is its body; when the body is no expression Go's
   * parseExpr moves on and parses the cell as an application of `let*`.
   */
  lemma LetStarWithoutBindings(b: Value, id: nat)
    ensures
      var (B, i1) := ParseExpr(b, id);
      ParseExpr(Cons(Symbol("let*"), Cons(Empty, Cons(b, Empty))), id) ==
        if B == Ok(Missing) then (Ok(Apply(Id("let*"), [])), i1) else (B, i1)
  {
    var sexp := Cons(Symbol("let*"), Cons(Empty, Cons(b, Empty)));
    Dispatch(sexp, id);
    FinalOperand("too few arguments to let*", "too many arguments to let*", b, Empty, id);
    var (B, i1) := ParseExpr(b, id);
    if B == Ok(Missing) {
      ParseNonList(Symbol("let*"), id);
      ParseNonList(Empty, i1);
      assert ExprsOf(sexp.tail, i1) == (Ok([]), i1);
    }
  }

  /** The accumulators of parseBindings' loop only prefix its result. */
  lemma {:induction false} BindingsAccumulate(v: Value, names: seq<string>, inits: seq<Ast>, id: nat)
    ensures
      var (r, i) := BindingsFrom(v, [], [], id);
      BindingsFrom(v, names, inits, id) ==
        (if r.Ok? then Ok((names + r.value.0, inits + r.value.1)) else r, i)
    decreases v
  {
    if v.Cons? {
      var b := v.head;
      if b.Cons? && b.head.Symbol? && b.tail.Cons? && b.tail.tail.Empty? {
        var (e, id1) := ParseExpr(b.tail.head, id);
        if e.Ok? {
          ConcatEmpty([b.head.name]);
          ConcatEmpty([e.value]);
          BindingsAccumulate(v.tail, names + [b.head.name], inits + [e.value], id1);
          BindingsAccumulate(v.tail, [b.head.name], [e.value], id1);
          var (r, i) := BindingsFrom(v.tail, [], [], id1);
          if r.Ok? {
            ConcatAssoc(names, [b.head.name], r.value.0);
            ConcatAssoc(inits, [e.value], r.value.1);
          }
        }
      }
    } else {
      ConcatEmpty(names);
      ConcatEmpty(inits);
    }
  }

  /**
   * `let*` is sugar for nested `let`: its first binding scopes over a
   * `let*` of the rest, with the same parse of every part, the same errors
   * and the same fresh names, as long as the body is an expression.
   */
  lemma LetStarNests(bnd: Value, more: Value, b: Value, id: nat)
    requires !NoExpression(b)
    ensures
      ParseExpr(Cons(Symbol("let*"), Cons(Cons(bnd, more), Cons(b, Empty))), id) ==
      ParseExpr(Cons(Symbol("let"), Cons(Cons(bnd, Empty),
        Cons(Cons(Symbol("let*"), Cons(more, Cons(b, Empty))), Empty))), id)
  {
    if IsBinding(bnd) && ParseExpr(bnd.tail.head, id).0.Ok? {
      var (e, i1) := ParseExpr(bnd.tail.head, id);
      var (rs, i2) := BindingsOf(more, i1);
      MissingExactly(b, i2);
      LetStarFirstBinding(bnd, more, b, id);
      LetOverLetStar(bnd, more, b, id);
    } else {
      LetStarBadFirstBinding(bnd, more, b, id);
    }
  }

  /** A first binding that does not parse is reported alike by both spellings. */
  lemma LetStarBadFirstBinding(bnd: Value, more: Value, b: Value, id: nat)
    requires !(IsBinding(bnd) && ParseExpr(bnd.tail.head, id).0.Ok?)
    ensures
      ParseExpr(Cons(Symbol("let*"), Cons(Cons(bnd, more), Cons(b, Empty))), id) ==
      ParseExpr(Cons(Symbol("let"), Cons(Cons(bnd, Empty),
        Cons(Cons(Symbol("let*"), Cons(more, Cons(b, Empty))), Empty))), id)
  {
    Dispatch(Cons(Symbol("let*"), Cons(Cons(bnd, more), Cons(b, Empty))), id);
    Dispatch(Cons(Symbol("let"), Cons(Cons(bnd, Empty), Cons(Cons(Symbol("let*"), Cons(more, Cons(b, Empty))), Empty))), id);
    assert BindingsOf(Cons(bnd, more), id) == BindingsOf(Cons(bnd, Empty), id);
    assert BindingsOf(Cons(bnd, more), id).0.Err?;
  }

  /** The `let` of a nested pair, in terms of the parts. */
  function LetOfParts(x: string, e: Ast, rs: Result<(seq<string>, seq<Ast>)>, B: Result<Ast>, i3: nat): (Result<Ast>, nat)
    requires rs.Ok? ==> |rs.value.0| == |rs.value.1|
  {
    if rs.Err? then (Err(rs.msg), i3)
    else if B.Err? then (B, i3)
    else
      var (inner, i4) := LetStarOf(rs.value.0, rs.value.1, B.value, i3);
      var (f, i5) := MakeLet([x], [e], inner, i4);
      (Ok(f), i5)
  }

  /** A binding that parses comes first in the bindings of the list it heads. */
  lemma FirstBindingOf(bnd: Value, more: Value, id: nat)
    requires IsBinding(bnd) && ParseExpr(bnd.tail.head, id).0.Ok?
    ensures
      var (e, i1) := ParseExpr(bnd.tail.head, id);
      var (rs, i2) := BindingsOf(more, i1);
      BindingsOf(Cons(bnd, more), id) ==
        (if rs.Ok? then Ok(([bnd.head.name] + rs.value.0, [e.value] + rs.value.1)) else rs, i2)
  {
    var (e, i1) := ParseExpr(bnd.tail.head, id);
    ConcatEmpty([bnd.head.name]);
    ConcatEmpty([e.value]);
    BindingsAccumulate(more, [bnd.head.name], [e.value], i1);
    assert BindingsFrom(Cons(bnd, more), [], [], id) == BindingsFrom(more, [bnd.head.name], [e.value], i1);
  }

  lemma LetStarFirstBinding(bnd: Value, more: Value, b: Value, id: nat)
    requires IsBinding(bnd) && ParseExpr(bnd.tail.head, id).0.Ok?
    ensures
      var (e, i1) := ParseExpr(bnd.tail.head, id);
      var (rs, i2) := BindingsOf(more, i1);
      var (B, i3) := ParseExpr(b, i2);
      ParseExpr(Cons(Symbol("let*"), Cons(Cons(bnd, more), Cons(b, Empty))), id) ==
        LetOfParts(bnd.head.name, e.value, rs, B, if rs.Err? then i2 else i3)
  {
    var (e, i1) := ParseExpr(bnd.tail.head, id);
    FirstBindingOf(bnd, more, id);
    Dispatch(Cons(Symbol("let*"), Cons(Cons(bnd, more), Cons(b, Empty))), id);
    var (rs, i2) := BindingsOf(more, i1);
    FinalOperand("too few arguments to let*", "too many arguments to let*", b, Empty, i2);
    if rs.Ok? {
      var ns, es := rs.value.0, rs.value.1;
      assert ([bnd.head.name] + ns)[1..] == ns;
      assert ([e.value] + es)[1..] == es;
    }
  }

  lemma LetOverLetStar(bnd: Value, more: Value, b: Value, id: nat)
    requires IsBinding(bnd) && ParseExpr(bnd.tail.head, id).0.Ok?
    requires
      var (e, i1) := ParseExpr(bnd.tail.head, id);
      var (rs, i2) := BindingsOf(more, i1);
      ParseExpr(b, i2).0 != Ok(Missing)
    ensures
      var (e, i1) := ParseExpr(bnd.tail.head, id);
      var (rs, i2) := BindingsOf(more, i1);
      var (B, i3) := ParseExpr(b, i2);
      ParseExpr(Cons(Symbol("let"), Cons(Cons(bnd, Empty),
        Cons(Cons(Symbol("let*"), Cons(more, Cons(b, Empty))), Empty))), id) ==
        LetOfParts(bnd.head.name, e.value, rs, B, if rs.Err? then i2 else i3)
  {
    var (e, i1) := ParseExpr(bnd.tail.head, id);
    var inner := Cons(Symbol("let*"), Cons(more, Cons(b, Empty)));
    ConcatEmpty([bnd.head.name]);
    ConcatEmpty([e.value]);
    assert BindingsFrom(Cons(bnd, Empty), [], [], id) == BindingsFrom(Empty, [bnd.head.name], [e.value], i1);
    Dispatch(Cons(Symbol("let"), Cons(Cons(bnd, Empty), Cons(inner, Empty))), id);
    FinalOperand("too few arguments to let", "too many arguments to let", inner, Empty, i1);
    Dispatch(inner, i1);
    var (rs, i2) := BindingsOf(more, i1);
    FinalOperand("too few arguments to let*", "too many arguments to let*", b, Empty, i2);
  }

  /** `(letrec bindings body)` keeps the names, parameter lists and bodies as parsed. */
  lemma LetRecForm(bs: Value, b: Value, id: nat)
    ensures
      var (BS, i1) := FunBindingsOf(bs, id);
      var (B, i2) := ParseExpr(b, i1);
      BS.Ok? && B.Ok? ==>
        ParseExpr(Cons(Symbol("letrec"), Cons(bs, Cons(b, Empty))), id) ==
          (Ok(LetRec(BS.value.0, BS.value.1, BS.value.2, B.value)), i2)
  {
    var (BS, i1) := FunBindingsOf(bs, id);
    Dispatch(Cons(Symbol("letrec"), Cons(bs, Cons(b, Empty))), id);
    FinalOperand("too few arguments to letrec", "too many arguments to letrec", b, Empty, i1);
  }

  /** `(do e ...)`: the expressions parsed first, then chained by `DoOf`. */
  lemma DoForm(rest: Value, id: nat)
    ensures
      var (ES, i1) := ExprsOf(rest, id);
      ParseExpr(Cons(Symbol("do"), rest), id) ==
        if ES.Err? then (Err(ES.msg), i1) else (Ok(DoOf(ES.value, i1).0), DoOf(ES.value, i1).1)
  {
    Dispatch(Cons(Symbol("do"), rest), id);
  }

  /** `(do)` is nil, and `(do e)` is `e` itself, unless `e` is no expression, when it is nil. */
  lemma DoShortForms(e: Value, id: nat)
    ensures ParseExpr(Cons(Symbol("do"), Empty), id) == (Ok(Literal(Nil)), id)
    ensures
      var (E, i1) := ParseExpr(e, id);
      ParseExpr(Cons(Symbol("do"), Cons(e, Empty)), id) ==
        if E.Ok? && E.value.Missing? then (Ok(Literal(Nil)), i1) else (E, i1)
  {
    Dispatch(Cons(Symbol("do"), Empty), id);
    Dispatch(Cons(Symbol("do"), Cons(e, Empty)), id);
    var (E, i1) := ParseExpr(e, id);
    if E.Err? {
      assert ExprsOf(Cons(e, Empty), id) == (Err(E.msg), i1);
    } else if E.value.Missing? {
      assert ExprsOf(Cons(e, Empty), id) == (Ok([]), i1);
    } else {
      ConcatEmpty([E.value]);
      assert ExprsFrom(Cons(e, Empty), [], id) == ExprsFrom(Empty, [E.value], i1);
    }
  }

  /**
   * A cons cell whose head is no special-form keyword is an application;
   * `def` is not special here, so a nested `def` is applied like a function.
   */
  lemma ApplyForm(f: Value, args: Value, id: nat)
    requires !(f.Symbol? && f.name in SpecialForms)
    ensures
      var (F, i1) := ParseExpr(f, id);
      var (A, i2) := ExprsOf(args, i1);
      ParseExpr(Cons(f, args), id) ==
        if F.Err? || F.value.Missing? then (F, i1)
        else if A.Err? then (Err(A.msg), i2)
        else (Ok(Apply(F.value, A.value)), i2)
  {
    Dispatch(Cons(f, args), id);
  }

  /** An argument that is no expression empties the whole argument list: `(f 1 () 2)` applies `f` to nothing. */
  lemma NilArgumentDropsArguments(id: nat)
    ensures ParseExpr(Cons(Symbol("f"), Cons(Integer(1), Cons(Empty, Cons(Integer(2), Empty)))), id)
      == (Ok(Apply(Id("f"), [])), id)
  {
    ApplyForm(Symbol("f"), Cons(Integer(1), Cons(Empty, Cons(Integer(2), Empty))), id);
  }

  // ---------------------------------------------------------------------
  // What the list loops accept
  // ---------------------------------------------------------------------

  predicate NoneMissing(es: seq<Ast>) {
    forall k :: 0 <= k < |es| ==> !es[k].Missing?
  }

  lemma {:induction false} ExprsFromShape(v: Value, acc: seq<Ast>, id: nat)
    requires NoneMissing(acc)
    ensures
      var r := ExprsFrom(v, acc, id).0;
      r.Ok? ==>
        NoneMissing(r.value) &&
        (r.value == [] || (IsProperList(v) && |r.value| == |acc| + |Spine(v)| && r.value[..|acc|] == acc))
    decreases v
  {
    if v.Cons? {
      var (e, id1) := ParseExpr(v.head, id);
      if e.Ok? && !e.value.Missing? {
        var acc' := acc + [e.value];
        ExprsFromShape(v.tail, acc', id1);
        var r := ExprsFrom(v.tail, acc', id1).0;
        if r.Ok? && r.value != [] {
          assert r.value[..|acc|] == r.value[..|acc'|][..|acc|];
          SplitConcat(acc, [e.value]);
        }
      }
    } else {
      assert acc[..|acc|] == acc;
    }
  }

  /**
   * An expression list either parses in full, one non-nil AST per element
   * of a proper list, or comes back empty because an element was no
   * expression.
   */
  lemma ExprsShape(v: Value, id: nat)
    ensures
      var r := ExprsOf(v, id).0;
      r.Ok? ==> NoneMissing(r.value) && (r.value == [] || (IsProperList(v) && |r.value| == |Spine(v)|))
  {
    ExprsFromShape(v, [], id);
  }

  /** A well-formed `(name expr)` pair. */
  predicate IsBinding(b: Value) {
    b.Cons? && b.head.Symbol? && b.tail.Cons? && b.tail.tail.Empty?
  }

  /** A binding list that parses is a proper list of pairs, and the names are theirs, in order. */
  lemma {:induction false} BindingsShape(v: Value, id: nat)
    ensures
      var r := BindingsOf(v, id).0;
      r.Ok? ==>
        IsProperList(v) && |r.value.0| == |Spine(v)| &&
        forall k :: 0 <= k < |Spine(v)| ==> IsBinding(Spine(v)[k]) && r.value.0[k] == Spine(v)[k].head.name
    decreases v
  {
    if v.Cons? {
      var b := v.head;
      if IsBinding(b) {
        var (e, id1) := ParseExpr(b.tail.head, id);
        if e.Ok? {
          ConcatEmpty([b.head.name]);
          ConcatEmpty([e.value]);
          BindingsAccumulate(v.tail, [b.head.name], [e.value], id1);
          BindingsShape(v.tail, id1);
          assert Spine(v) == [b] + Spine(v.tail);
        }
      }
    }
  }

  /** The accumulators of parseFunBindings' loop only prefix its result. */
  lemma {:induction false} FunBindingsAccumulate(v: Value, names: seq<string>, params: seq<seq<string>>, bodies: seq<Ast>, id: nat)
    ensures
      var (r, i) := FunBindingsFrom(v, [], [], [], id);
      FunBindingsFrom(v, names, params, bodies, id) ==
        (if r.Ok? then Ok((names + r.value.0, params + r.value.1, bodies + r.value.2)) else r, i)
    decreases v
  {
    if v.Cons? {
      var b := v.head;
      if IsFunBinding(b) {
        var ps := SymbolsOf(b.tail.head).value;
        var (e, id1) := ParseExpr(b.tail.tail.head, id);
        if e.Ok? {
          ConcatEmpty([b.head.name]);
          ConcatEmpty([ps]);
          ConcatEmpty([e.value]);
          FunBindingsAccumulate(v.tail, names + [b.head.name], params + [ps], bodies + [e.value], id1);
          FunBindingsAccumulate(v.tail, [b.head.name], [ps], [e.value], id1);
          var (r, i) := FunBindingsFrom(v.tail, [], [], [], id1);
          if r.Ok? {
            ConcatAssoc(names, [b.head.name], r.value.0);
            ConcatAssoc(params, [ps], r.value.1);
            ConcatAssoc(bodies, [e.value], r.value.2);
          }
        }
      }
    } else {
      ConcatEmpty(names);
      ConcatEmpty(params);
      ConcatEmpty(bodies);
    }
  }

  /** A well-formed `(name params expr)` triple. */
  predicate IsFunBinding(b: Value) {
    b.Cons? && b.head.Symbol? && b.tail.Cons? && SymbolsOf(b.tail.head).Ok?
    && b.tail.tail.Cons? && b.tail.tail.tail.Empty?
  }

  /**
   * A function binding list that parses is a proper list of triples; the
   * names and parameter lists are theirs, in order, with one body each.
   */
  lemma {:induction false} FunBindingsShape(v: Value, id: nat)
    ensures
      var r := FunBindingsOf(v, id).0;
      r.Ok? ==>
        IsProperList(v) && |r.value.0| == |r.value.1| == |r.value.2| == |Spine(v)| &&
        forall k :: 0 <= k < |Spine(v)| ==>
          IsFunBinding(Spine(v)[k]) && r.value.0[k] == Spine(v)[k].head.name &&
          r.value.1[k] == SymbolsOf(Spine(v)[k].tail.head).value
    decreases v
  {
    if v.Cons? {
      var b := v.head;
      if IsFunBinding(b) {
        var ps := SymbolsOf(b.tail.head).value;
        var (e, id1) := ParseExpr(b.tail.tail.head, id);
        if e.Ok? {
          ConcatEmpty([b.head.name]);
          ConcatEmpty([ps]);
          ConcatEmpty([e.value]);
          FunBindingsAccumulate(v.tail, [b.head.name], [ps], [e.value], id1);
          FunBindingsShape(v.tail, id1);
          assert Spine(v) == [b] + Spine(v.tail);
        }
      }
    }
  }

  // ---------------------------------------------------------------------
  // Definitions
  // ---------------------------------------------------------------------

  /** `(def name expr)` defines a value; `(def (name params...) body)` a function of those parameters. */
  lemma DefForms(x: string, e: Value, f: string, ps: Value, b: Value, id: nat)
    ensures
      var (E, i1) := ParseExpr(e, id);
      ParseDef(Cons(Symbol("def"), Cons(Symbol(x), Cons(e, Empty))), id) ==
        if E.Err? then (Err(E.msg), i1) else (Ok(Some(Def(x, DefValue, [], E.value))), i1)
    ensures
      var P := SymbolsOf(ps);
      var (B, i1) := ParseExpr(b, id);
      ParseDef(Cons(Symbol("def"), Cons(Cons(Symbol(f), ps), Cons(b, Empty))), id) ==
        if P.Err? then (Err(P.msg), id)
        else if B.Err? then (Err(B.msg), i1)
        else (Ok(Some(Def(f, DefFunction, P.value, B.value))), i1)
  {
    FinalOperand("too few arguments to def", "too many arguments to def", e, Empty, id);
    FinalOperand("too few arguments to def", "too many arguments to def", b, Empty, id);
  }

  /** The malformed shapes of `def`, in the order they are checked. */
  lemma DefErrors(block: Value, rest: Value, id: nat)
    ensures ParseDef(Cons(Symbol("def"), Empty), id) == (Err("too few arguments to def"), id)
    ensures block.Symbol? ==>
      ParseDef(Cons(Symbol("def"), Cons(block, Empty)), id) == (Err("too few arguments to def"), id)
    ensures block.Cons? && !block.head.Symbol? ==>
      ParseDef(Cons(Symbol("def"), Cons(block, rest)), id) == (Err("definition name not a symbol"), id)
    ensures !block.Symbol? && !block.Cons? ==>
      ParseDef(Cons(Symbol("def"), Cons(block, rest)), id) == (Err("malformed def"), id)
  {
    FinalOperand("too few arguments to def", "too many arguments to def", Empty, Empty, id);
  }
}
