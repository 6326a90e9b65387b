/**
 * The evaluator: `evalPartial` for each kernel form, the `defaultEval`
 * trampoline that repeats it, `apply` of every kind of value, and the
 * primitives that call back into it (`map`, `filter`, `foldl`, `foldr`,
 * `apply`) or allocate (`ref`, `array`, `dict`).
 *
 * Evaluation need not terminate, so every method takes `fuel`: the
 * trampoline takes at most `fuel` steps and each nested evaluation runs on
 * less.  The heap an evaluation works on is described by a ghost `Store`
 * that is closed (nothing in it points outside it); an evaluation may write
 * to the references, arrays and dictionaries of its store, never to an
 * existing frame, and hands back a larger closed store.
 *
 * The primitives whose behaviour is not modelled are the pure function
 * `host`; they return plain data.
 */
module Eval {
  import opened Wrappers
  import opened Values
  import opened Primitives
  import opened Callbacks

  /** What `evalPartial` produces: a value, or the expression and frame to continue with. */
  datatype Partial = Done(val: Value) | Next(exp: Ast, env: Frame)

  /** The plain data a host primitive returns: numbers, booleans, strings, symbols and lists of them. */
  datatype Datum = DInteger(i: int) | DBoolean(b: bool) | DString(text: string) | DSymbol(name: string)
                 | DNil | DEmpty | DCons(head: Datum, tail: Datum)

  /** The primitives whose behaviour is not modelled, by name and arguments. */
  type Host = (string, seq<Value>) -> Result<Datum>

  /** The value a datum stands for. */
  function FromDatum(d: Datum): (v: Value)
    ensures ValueIn(v, NoObjects)
  {
    match d
    case DInteger(i) => Integer(i)
    case DBoolean(b) => Boolean(b)
    case DString(t) => String(t)
    case DSymbol(n) => Symbol(n)
    case DNil => Nil
    case DEmpty => Empty
    case DCons(h, t) => Cons(FromDatum(h), FromDatum(t))
  }

  // Error texts; the Go messages append the `str()` rendering of the value, not modelled here.
  const WrongArity := "Wrong number of arguments to application"
  const NotApplicable := "Value not applicable"
  const MalformedLetRec := "malformed letrec (names, params, bodies)"
  /** Go calls `evalPartial` on the nil AST and panics; the model returns an error. */
  const NilExpression := "nil expression"
  /** Go panics when a body reads an argument that is not there; the model returns an error. */
  const IndexOutOfRange := "index out of range"
  const OutOfFuel := "out of fuel"

  const NoObjects := Store({}, {}, {}, {}, {})

  lemma PlainIn(v: Value, st: Store)
    requires ValueIn(v, NoObjects)
    ensures ValueIn(v, st)
  {
    ValueInGrows(v, NoObjects, st);
  }

  lemma {:induction false} SpinesIn(vs: seq<Value>, st: Store)
    requires ValuesIn(vs, st)
    ensures ValuesIn(Spines(vs), st)
  {
    if |vs| > 0 {
      SpineIn(vs[0], st);
      SpinesIn(vs[1..], st);
    }
  }

  /** The reversal of a list in the store is in the store, and its spine is the reversed spine. */
  lemma ReversedIn(v: Value, st: Store)
    requires ValueIn(v, st)
    ensures ValueIn(ListOf(Reversed(Spine(v))), st) && Spine(ListOf(Reversed(Spine(v)))) == Reversed(Spine(v))
  {
    SpineIn(v, st);
    PrependIn(Reversed(Spine(v)), Empty, st);
    ListOfParts(Reversed(Spine(v)));
  }

  lemma {:induction false} EntriesIn(items: seq<Value>, st: Store)
    requires forall k :: 0 <= k < |items| ==> IsEntry(items[k])
    requires ValuesIn(items, st)
    ensures BindingsIn(Entries(items), st)
  {
    if |items| > 0 {
      var last := items[|items| - 1];
      assert ValueIn(last, st) && ValueIn(last.tail, st) && ValueIn(last.tail.head, st);
      EntriesIn(items[..|items| - 1], st);
    }
  }

  // ---------------------------------------------------------------------
  // The trampoline
  // ---------------------------------------------------------------------

  /** The forms whose `eval` answers at once, without the trampoline. */
  predicate IsImmediate(e: Ast) {
    e.Literal? || e.Quote? || e.Id? || e.Missing?
  }

  /**
   * What `eval` gives such a form: a literal's or a quote's value, an
   * identifier's innermost binding (or the unbound error), and an error for
   * the nil AST.
   */
  function Immediate(e: Ast, env: Frame): Result<Value>
    requires IsImmediate(e) && env.ChainOk()
    reads set f | f in env.Chain()
  {
    match e
    case Literal(v) => Ok(v)
    case Quote(v) => Ok(v)
    case Id(name) => env.Resolve(name)
    case Missing => Err(NilExpression)
  }

  /** A finished step of `evalPartial`: the value, or the error. */
  function Finished(v: Result<Value>): (r: Result<Partial>)
    ensures v.Ok? <==> r.Ok?
    ensures v.Ok? ==> r.value == Done(v.value)
    ensures v.Err? ==> r.msg == v.msg
  {
    if v.Ok? then Ok(Done(v.value)) else Err(v.msg)
  }

  /** `Literal.eval`, `Quote.eval` and `Id.eval` (a lookup through `find`); the nil AST is an error. */
  method EvalAtOnce(e: Ast, env: Frame, ghost st: Store) returns (r: Result<Value>)
    requires IsImmediate(e) && Closed(st) && env in st.frames && AstIn(e, st)
    ensures env.ChainOk() && r == Immediate(e, env)
    ensures r.Ok? ==> ValueIn(r.value, st)
  {
    match e
    case Literal(v) =>
      assert ValueIn(v, st);
      r := Ok(v);
    case Quote(v) =>
      assert ValueIn(v, st);
      r := Ok(v);
    case Id(name) =>
      r := env.Find(name);
      ResolveIn(env, name, st);
    case Missing =>
      r := Err(NilExpression);
  }

  /**
   * `eval`: literals, quotes and identifiers answer at once; every other
   * form runs `defaultEval`, which repeats `evalPartial` on the current
   * expression and frame until it produces a value, returning the first
   * error unchanged.
   */
  method Eval(e: Ast, env: Frame, fuel: nat, host: Host, ghost st: Store) returns (r: Result<Value>, ghost st': Store)
    requires Closed(st) && env in st.frames && AstIn(e, st)
    modifies st.refs, st.arrays, st.dicts
    ensures Extends(st, st') && (r.Ok? ==> ValueIn(r.value, st'))
    ensures IsImmediate(e) ==> env.ChainOk() && r == Immediate(e, env) && st' == st
    ensures !IsImmediate(e) && fuel == 0 ==> r == Err(OutOfFuel)
    decreases fuel, 4
  {
    if IsImmediate(e) {
      r := EvalAtOnce(e, env, st);
      return r, st;
    }
    r, st' := Err(OutOfFuel), st;
    var exp, frame := e, env;
    var steps := 0;
    while steps < fuel
      invariant Extends(st, st') && frame in st'.frames && AstIn(exp, st') && r == Err(OutOfFuel)
    {
      var p;
      p, st' := EvalPartial(exp, frame, fuel, host, st');
      if p.Err? {
        r := Err(p.msg);
        break;
      }
      if p.value.Done? {
        r := Ok(p.value.val);
        break;
      }
      exp, frame := p.value.exp, p.value.env;
      steps := steps + 1;
    }
  }

  /** `evalPartial`: one step of evaluation, by form. */
  method EvalPartial(e: Ast, env: Frame, fuel: nat, host: Host, ghost st: Store)
    returns (r: Result<Partial>, ghost st': Store)
    requires fuel > 0
    requires Closed(st) && env in st.frames && AstIn(e, st)
    modifies st.refs, st.arrays, st.dicts
    ensures Extends(st, st')
    ensures r.Ok? && r.value.Done? ==> ValueIn(r.value.val, st')
    ensures r.Ok? && r.value.Next? ==> r.value.env in st'.frames && AstIn(r.value.exp, st')
    ensures IsImmediate(e) ==> env.ChainOk() && r == Finished(Immediate(e, env))
    ensures e.If? ==> exists test :: r == IfStep(test, e.thn, e.els, env)
    ensures e.If? && IsImmediate(e.cnd) ==> env.ChainOk() && r == IfStep(Immediate(e.cnd, env), e.thn, e.els, env)
    ensures e.Apply? && IsImmediate(e.fn) && env.ChainOk() && Immediate(e.fn, env).Err? ==>
      r == Err(Immediate(e.fn, env).msg)
    ensures e.Apply? && r.Ok? && r.value.Next? ==>
      && fresh(r.value.env)
      && exists c :: c in st'.closures && |c.params| == |e.args| && r.value.exp == c.body && r.value.env.previous == c.env
    ensures e.LetRec? && !(|e.names| == |e.params| == |e.bodies|) ==> r == Err(MalformedLetRec)
    ensures e.LetRec? && |e.names| == |e.params| == |e.bodies| ==>
      && r.Ok? && r.value.Next? && r.value.exp == e.body
      && fresh(r.value.env) && r.value.env.previous == env
      && RecursiveBindings(r.value.env, e.names, e.params, e.bodies)
    decreases fuel, 3
  {
    match e
    case Literal(_) =>
      var v := EvalAtOnce(e, env, st);
      r, st' := Finished(v), st;
    case Quote(_) =>
      var v := EvalAtOnce(e, env, st);
      r, st' := Finished(v), st;
    case Id(_) =>
      var v := EvalAtOnce(e, env, st);
      r, st' := Finished(v), st;
    case Missing =>
      var v := EvalAtOnce(e, env, st);
      r, st' := Finished(v), st;
    case If(c, t, f) =>
      ghost var test;
      r, st', test := EvalIf(c, t, f, env, fuel, host, st);
    case Apply(f, args) =>
      ghost var operator, operands, outcomes;
      r, st', operator, operands, outcomes := EvalApply(f, args, env, fuel, host, st);
      if r.Ok? && r.value.Next? {
        assert operator.value.fn in st'.closures;
      }
    case LetRec(names, params, bodies, body) =>
      r, st' := EvalLetRec(names, params, bodies, body, env, st);
  }

  // ---------------------------------------------------------------------
  // The forms
  // ---------------------------------------------------------------------

  /** How `If.evalPartial` goes on once its test has the outcome `test`. */
  function IfStep(test: Result<Value>, thn: Ast, els: Ast, env: Frame): (r: Result<Partial>)
    ensures test.Err? <==> r.Err?
    ensures test.Err? ==> r.msg == test.msg
    ensures test.Ok? && IsTrue(test.value) ==> r == Ok(Next(thn, env))
    ensures test.Ok? && !IsTrue(test.value) ==> r == Ok(Next(els, env))
  {
    if test.Err? then Err(test.msg) else Ok(Next(if IsTrue(test.value) then thn else els, env))
  }

  /**
   * `If.evalPartial`: evaluate the test once (`test` is its outcome), then
   * continue with the then-branch when it is true and the else-branch
   * otherwise, in the same frame.
   */
  method EvalIf(cnd: Ast, thn: Ast, els: Ast, env: Frame, fuel: nat, host: Host, ghost st: Store)
    returns (r: Result<Partial>, ghost st': Store, ghost test: Result<Value>)
    requires fuel > 0
    requires Closed(st) && env in st.frames && AstIn(cnd, st) && AstIn(thn, st) && AstIn(els, st)
    modifies st.refs, st.arrays, st.dicts
    ensures Extends(st, st') && (test.Ok? ==> ValueIn(test.value, st'))
    ensures IsImmediate(cnd) ==> env.ChainOk() && test == Immediate(cnd, env) && st' == st
    ensures !IsImmediate(cnd) && fuel == 1 ==> test == Err(OutOfFuel)
    ensures r == IfStep(test, thn, els, env)
    ensures r.Ok? ==> r.value.Next? && r.value.env in st'.frames && AstIn(r.value.exp, st')
    decreases fuel, 1
  {
    var c;
    c, st' := Eval(cnd, env, fuel - 1, host, st);
    test := c;
    if c.Err? {
      return Err(c.msg), st', test;
    }
    AstInGrows(thn, st, st');
    AstInGrows(els, st, st');
    r := Ok(Next(if IsTrue(c.value) then thn else els, env));
  }

  /**
   * The outcomes of evaluating `n` operands from left to right, up to and
   * including the first error: every outcome before the last is a value;
   * `r` is the values of all `n` outcomes, or the error that ends them.
   */
  predicate LeftToRight(n: nat, outcomes: seq<Result<Value>>, r: Result<seq<Value>>) {
    && |outcomes| <= n
    && (forall k :: 0 <= k < |outcomes| - 1 ==> outcomes[k].Ok?)
    && (r.Ok? ==> |outcomes| == n && |r.value| == n && forall k :: 0 <= k < n ==> outcomes[k] == Ok(r.value[k]))
    && (r.Err? ==> |outcomes| > 0 && outcomes[|outcomes| - 1] == Err(r.msg))
  }

  /** Each outcome of an operand that `eval` answers at once is that answer. */
  ghost predicate ImmediateOutcomes(es: seq<Ast>, outcomes: seq<Result<Value>>, env: Frame)
    requires env.ChainOk() && |outcomes| <= |es|
    reads set f | f in env.Chain()
  {
    forall k :: 0 <= k < |outcomes| && IsImmediate(es[k]) ==> outcomes[k] == Immediate(es[k], env)
  }

  /** One more outcome, `eval`'s answer when the operand has one, keeps `ImmediateOutcomes`. */
  lemma ImmediateOutcomesStep(es: seq<Ast>, outcomes: seq<Result<Value>>, env: Frame, v: Result<Value>)
    requires env.ChainOk() && |outcomes| < |es| && ImmediateOutcomes(es, outcomes, env)
    requires IsImmediate(es[|outcomes|]) ==> v == Immediate(es[|outcomes|], env)
    ensures ImmediateOutcomes(es, outcomes + [v], env)
  {
    var o := outcomes + [v];
    forall k | 0 <= k < |o| && IsImmediate(es[k]) ensures o[k] == Immediate(es[k], env) {
      if k < |outcomes| { assert o[k] == outcomes[k]; }
    }
  }

  /**
   * The operands of an application, evaluated from left to right
   * (`outcomes` are their outcomes); the first error aborts.
   */
  method EvalArgs(es: seq<Ast>, env: Frame, fuel: nat, host: Host, ghost st: Store)
    returns (r: Result<seq<Value>>, ghost st': Store, ghost outcomes: seq<Result<Value>>)
    requires fuel > 0
    requires Closed(st) && env in st.frames && (forall a :: a in es ==> AstIn(a, st))
    modifies st.refs, st.arrays, st.dicts
    ensures Extends(st, st')
    ensures r.Ok? ==> ValuesIn(r.value, st')
    ensures LeftToRight(|es|, outcomes, r)
    ensures env.ChainOk() && |outcomes| <= |es| && ImmediateOutcomes(es, outcomes, env)
    decreases fuel, 0
  {
    ChainIn(env, st);
    var vals: seq<Value> := [];
    st' := st;
    r := Ok([]);
    outcomes := [];
    var i := 0;
    while i < |es|
      invariant 0 <= i <= |es| && |vals| == i && r.Ok? && |outcomes| == i
      invariant Extends(st, st') && ValuesIn(vals, st')
      invariant forall k :: 0 <= k < i ==> outcomes[k] == Ok(vals[k])
      invariant ImmediateOutcomes(es, outcomes, env)
    {
      AstInGrows(es[i], st, st');
      var v;
      ghost var st2;
      label Before:
      v, st2 := EvalOperand(es[i], env, vals, fuel - 1, host, st');
      assert unchanged@Before(st.frames);
      ImmediateOutcomesStep(es, outcomes, env, v);
      st' := st2;
      outcomes := outcomes + [v];
      if v.Err? {
        r := Err(v.msg);
        break;
      }
      vals := vals + [v.value];
      i := i + 1;
    }
    if r.Ok? {
      r := Ok(vals);
    }
  }

  /** The evaluation of one operand, after the operands `vals` before it. */
  method EvalOperand(e: Ast, env: Frame, vals: seq<Value>, fuel: nat, host: Host, ghost st: Store)
    returns (r: Result<Value>, ghost st': Store)
    requires Closed(st) && env in st.frames && AstIn(e, st) && ValuesIn(vals, st)
    modifies st.refs, st.arrays, st.dicts
    ensures Extends(st, st') && (r.Ok? ==> ValuesIn(vals + [r.value], st'))
    ensures IsImmediate(e) ==> env.ChainOk() && r == Immediate(e, env)
    ensures !IsImmediate(e) && fuel == 0 ==> r == Err(OutOfFuel)
    decreases fuel, 5
  {
    r, st' := Eval(e, env, fuel, host, st);
    ValuesInGrows(vals, st, st');
  }

  /** What `apply` of a host primitive gives: the host's datum as a value, or its error. */
  function HostAnswer(host: Host, name: string, args: seq<Value>): (r: Result<Value>)
    ensures host(name, args).Ok? <==> r.Ok?
    ensures r.Ok? ==> r.value == FromDatum(host(name, args).value)
    ensures r.Err? ==> r.msg == host(name, args).msg
  {
    if host(name, args).Ok? then Ok(FromDatum(host(name, args).value)) else Err(host(name, args).msg)
  }

  /**
   * `Apply.evalPartial`: evaluate the operator (outcome `operator`), then
   * the operands, and apply the operator to their values, as
   * `ApplyToOperands` states; an error evaluating the operator is the
   * result, and nothing else is evaluated.
   */
  method EvalApply(fn: Ast, args: seq<Ast>, env: Frame, fuel: nat, host: Host, ghost st: Store)
    returns (r: Result<Partial>, ghost st': Store, ghost operator: Result<Value>, ghost operands: Result<seq<Value>>,
             ghost outcomes: seq<Result<Value>>)
    requires fuel > 0
    requires Closed(st) && env in st.frames && AstIn(fn, st) && (forall a :: a in args ==> AstIn(a, st))
    modifies st.refs, st.arrays, st.dicts
    ensures Extends(st, st') && (operator.Ok? ==> ValueIn(operator.value, st'))
    ensures IsImmediate(fn) ==> env.ChainOk() && operator == Immediate(fn, env)
    ensures !IsImmediate(fn) && fuel == 1 ==> operator == Err(OutOfFuel)
    ensures operator.Err? ==> r == Err(operator.msg) && outcomes == []
    ensures operator.Ok? ==> LeftToRight(|args|, outcomes, operands)
    ensures env.ChainOk() && |outcomes| <= |args| && ImmediateOutcomes(args, outcomes, env)
    ensures operator.Ok? && operands.Err? ==> r == Err(operands.msg)
    ensures operator.Ok? && operands.Ok? ==> ApplyOutcome(operator.value, operands.value, r, host)
    ensures operator.Ok? && operands.Ok? && operator.value.Function? ==>
      var c := operator.value.fn;
      if |c.params| != |args| then r == Err(WrongArity)
      else
        && r.Ok? && r.value.Next? && r.value.exp == c.body && fresh(r.value.env)
        && r.value.env.previous == c.env && r.value.env.bindings == LayerBindings(c.params, operands.value)
        && r.value.env in st'.frames && AstIn(r.value.exp, st')
    ensures operator.Ok? && operands.Ok? && operator.value.Reference? ==>
      exists c :: r == Finished(ReferenceApply(c, operands.value).0) && operator.value.cell.content == ReferenceApply(c, operands.value).1
    ensures operator.Ok? && operands.Ok? && operator.value.Array? ==>
      exists c :: r == Finished(ArrayApply(c, operands.value).0) && operator.value.arr[..] == ArrayApply(c, operands.value).1
    ensures operator.Ok? && operands.Ok? && operator.value.Dict? ==>
      exists c :: r == Finished(DictApply(c, operands.value).0) && operator.value.dict.content == DictApply(c, operands.value).1
    ensures operator.Ok? && operands.Ok? && !operator.value.Function? ==>
      r.Ok? ==> r.value.Done? && ValueIn(r.value.val, st')
    decreases fuel, 2
  {
    ChainIn(env, st);
    var fv;
    label Operator:
    fv, st' := Eval(fn, env, fuel - 1, host, st);
    assert unchanged@Operator(st.frames);
    operator := fv;
    if fv.Err? {
      return Err(fv.msg), st', operator, Err(fv.msg), [];
    }
    forall a | a in args ensures AstIn(a, st') {
      AstInGrows(a, st, st');
    }
    ghost var st2;
    label Operands:
    r, st2, operands, outcomes := ApplyToOperands(fv.value, args, env, fuel, host, st');
    assert unchanged@Operands(st.frames);
    st' := st2;
  }

  /**
   * The rest of `Apply.evalPartial` once the operator has the value `f`:
   * evaluate the operands (outcome `operands`, one outcome each in
   * `outcomes`), the first error being the result, and apply `f` to their
   * values.  A closure must take as many parameters as there are
   * operands, and evaluation continues with its body in a new frame that
   * layers the parameters over the closure's own frame; any other operator
   * is applied and its result is the value.  A reference, array or
   * dictionary answers by its protocol on what it held when it was
   * applied, after the operands were evaluated.
   */
  method ApplyToOperands(f: Value, args: seq<Ast>, env: Frame, fuel: nat, host: Host, ghost st: Store)
    returns (r: Result<Partial>, ghost st': Store, ghost operands: Result<seq<Value>>, ghost outcomes: seq<Result<Value>>)
    requires fuel > 0
    requires Closed(st) && env in st.frames && ValueIn(f, st) && (forall a :: a in args ==> AstIn(a, st))
    modifies st.refs, st.arrays, st.dicts
    ensures Extends(st, st') && ValueIn(f, st')
    ensures LeftToRight(|args|, outcomes, operands)
    ensures env.ChainOk() && |outcomes| <= |args| && ImmediateOutcomes(args, outcomes, env)
    ensures operands.Err? ==> r == Err(operands.msg)
    ensures operands.Ok? ==> ApplyOutcome(f, operands.value, r, host)
    ensures operands.Ok? && f.Function? ==>
      if |f.fn.params| != |args| then r == Err(WrongArity)
      else
        && r.Ok? && r.value.Next? && r.value.exp == f.fn.body && fresh(r.value.env)
        && r.value.env.previous == f.fn.env && r.value.env.bindings == LayerBindings(f.fn.params, operands.value)
        && r.value.env in st'.frames && AstIn(r.value.exp, st')
    ensures operands.Ok? && f.Reference? ==>
      exists c :: r == Finished(ReferenceApply(c, operands.value).0) && f.cell.content == ReferenceApply(c, operands.value).1
    ensures operands.Ok? && f.Array? ==>
      exists c :: r == Finished(ArrayApply(c, operands.value).0) && f.arr[..] == ArrayApply(c, operands.value).1
    ensures operands.Ok? && f.Dict? ==>
      exists c :: r == Finished(DictApply(c, operands.value).0) && f.dict.content == DictApply(c, operands.value).1
    ensures operands.Ok? && !f.Function? ==> r.Ok? ==> r.value.Done? && ValueIn(r.value.val, st')
    decreases fuel, 1
  {
    ChainIn(env, st);
    ghost var st2;
    var argv;
    label Operands:
    argv, st', outcomes := EvalArgs(args, env, fuel, host, st);
    assert unchanged@Operands(st.frames);
    operands := argv;
    ValueInGrows(f, st, st');
    if argv.Err? {
      return Err(argv.msg), st', operands, outcomes;
    }
    ghost var cellBefore := if f.Reference? then f.cell.content else Nil;
    ghost var arrayBefore := if f.Array? then f.arr[..] else [];
    ghost var dictBefore := if f.Dict? then f.dict.content else map[];
    label Before:
    r, st2 := ApplyOperator(f, argv.value, fuel, host, st');
    assert unchanged@Before(st.frames);
    ValueInGrows(f, st', st2);
    st' := st2;
    if f.Reference? {
      assert r == Finished(ReferenceApply(cellBefore, argv.value).0);
    } else if f.Array? {
      assert r == Finished(ArrayApply(arrayBefore, argv.value).0);
    } else if f.Dict? {
      assert r == Finished(DictApply(dictBefore, argv.value).0);
    }
  }

  /**
   * What applying an operator other than a reference, array or dictionary
   * gives in an application, once its operands have the values `vals`:
   * a primitive's arity gate answers first, a host primitive answers the
   * host's datum, and a datum that is not applicable fails.
   */
  predicate ApplyOutcome(f: Value, vals: seq<Value>, r: Result<Partial>, host: Host) {
    && (f.Primitive? && ArityGate(f.prim.name, f.prim.min, f.prim.max, vals).Some? ==>
          r == Err(ArityGate(f.prim.name, f.prim.min, f.prim.max, vals).value))
    && (f.Primitive? && ArityGate(f.prim.name, f.prim.min, f.prim.max, vals).None? && f.prim.op == HostOp ==>
          r == Finished(HostAnswer(host, f.prim.name, vals)))
    && (!IsFunction(f) && !f.Reference? && !f.Array? && !f.Dict? ==> r == Err(NotApplicable))
  }

  /**
   * The second half of `Apply.evalPartial`: a closure continues with its
   * body in the frame its arguments enter (after the arity check), and
   * every other operator is applied at once.
   */
  method ApplyOperator(f: Value, vals: seq<Value>, fuel: nat, host: Host, ghost st: Store)
    returns (r: Result<Partial>, ghost st': Store)
    requires fuel > 0
    requires Closed(st) && ValueIn(f, st) && ValuesIn(vals, st)
    modifies st.refs, st.arrays, st.dicts
    ensures Extends(st, st')
    ensures f.Function? ==>
      if |f.fn.params| != |vals| then r == Err(WrongArity) && st' == st
      else
        && r.Ok? && r.value.Next? && r.value.exp == f.fn.body && fresh(r.value.env)
        && r.value.env.previous == f.fn.env && r.value.env.bindings == LayerBindings(f.fn.params, vals)
        && r.value.env in st'.frames && AstIn(r.value.exp, st')
    ensures ApplyOutcome(f, vals, r, host)
    ensures f.Reference? ==>
      && r == Finished(ReferenceApply(old(f.cell.content), vals).0) && f.cell.content == ReferenceApply(old(f.cell.content), vals).1
      && unchanged(st.refs - {f.cell}) && unchanged(st.arrays) && unchanged(st.dicts)
    ensures f.Array? ==>
      && r == Finished(ArrayApply(old(f.arr[..]), vals).0) && f.arr[..] == ArrayApply(old(f.arr[..]), vals).1
      && unchanged(st.refs) && unchanged(st.arrays - {f.arr}) && unchanged(st.dicts)
    ensures f.Dict? ==>
      && r == Finished(DictApply(old(f.dict.content), vals).0) && f.dict.content == DictApply(old(f.dict.content), vals).1
      && unchanged(st.refs) && unchanged(st.arrays) && unchanged(st.dicts - {f.dict})
    ensures !f.Function? ==> r.Ok? ==> r.value.Done? && ValueIn(r.value.val, st')
    decreases fuel, 0
  {
    if f.Function? {
      var c := f.fn;
      if |c.params| != |vals| {
        return Err(WrongArity), st;
      }
      var frame;
      frame, st' := EnterClosure(c, vals, st);
      return Ok(Next(c.body, frame)), st';
    }
    var v;
    v, st' := ApplyValue(f, vals, fuel - 1, host, st);
    r := Finished(v);
  }

  /**
   * The frame a closure's body runs in: a new frame over the closure's own
   * frame binding its parameters to the arguments, added to the store.
   */
  method EnterClosure(c: Closure, vals: seq<Value>, ghost st: Store) returns (frame: Frame, ghost st': Store)
    requires Closed(st) && c in st.closures && ValuesIn(vals, st)
    ensures fresh(frame) && frame.previous == c.env && frame.bindings == LayerBindings(c.params, vals)
    ensures st' == st.(frames := st.frames + {frame}) && Closed(st') && AstIn(c.body, st')
  {
    frame := c.env.Layer(c.params, vals);
    LayerBindingsIn(c.params, vals, st);
    st' := st.(frames := st.frames + {frame});
    BindingsInGrows(frame.bindings, st, st');
    assert st'.frames - st.frames == {frame};
    ClosedExtend(st, st');
    AstInGrows(c.body, st, st');
  }

  /**
   * `LetRec.evalPartial`: the names, parameter lists and bodies must have
   * the same length.  One new frame over the current one binds every name
   * to a closure of its parameters and body that captures that same frame
   * (for a repeated name the last binding stays), and evaluation continues
   * with the body there.
   */
  method EvalLetRec(names: seq<string>, params: seq<seq<string>>, bodies: seq<Ast>, body: Ast, env: Frame, ghost st: Store)
    returns (r: Result<Partial>, ghost st': Store)
    requires Closed(st) && env in st.frames && AstIn(body, st) && (forall b :: b in bodies ==> AstIn(b, st))
    ensures Closed(st') && Grows(st, st') && st'.refs == st.refs && st'.arrays == st.arrays && st'.dicts == st.dicts
    ensures !(|names| == |params| == |bodies|) ==> r == Err(MalformedLetRec)
    ensures |names| == |params| == |bodies| ==>
      && r.Ok? && r.value.Next? && r.value.exp == body && AstIn(body, st')
      && fresh(r.value.env) && r.value.env.previous == env && r.value.env in st'.frames
      && RecursiveBindings(r.value.env, names, params, bodies)
  {
    if |names| != |params| || |names| != |bodies| {
      return Err(MalformedLetRec), st;
    }
    var frame := env.Layer(names, []);
    LayerBindingsMeaning(names, []);
    LayerWithoutValues(names);
    ghost var closures := BindRecursive(frame, names, params, bodies);
    st' := st.(frames := st.frames + {frame}, closures := st.closures + closures);
    forall c | c in closures ensures AstIn(c.body, st') {
      AstInGrows(c.body, st, st');
    }
    assert st'.frames - st.frames == {frame};
    assert st'.closures - st.closures == closures;
    ClosedExtend(st, st');
    AstInGrows(body, st, st');
    r := Ok(Next(body, frame));
  }

  /** No name after position `m` and before `hi` repeats the name at `m`. */
  predicate LastBefore(names: seq<string>, m: int, hi: int)
    requires 0 <= m < |names|
  {
    forall j :: m < j < hi && j < |names| ==> names[j] != names[m]
  }

  /**
   * `frame` binds exactly `names`, and each name to a closure over `frame`
   * of the parameters and body at the last position where the name occurs.
   */
  ghost predicate RecursiveBindings(frame: Frame, names: seq<string>, params: seq<seq<string>>, bodies: seq<Ast>)
    requires |names| == |params| == |bodies|
    reads frame
  {
    && (forall k :: k in frame.bindings <==> k in names)
    && forall i :: 0 <= i < |names| && LastBefore(names, i, |names|) ==>
      && names[i] in frame.bindings
      && var v := frame.bindings[names[i]];
      && v.Function? && v.fn.env == frame && v.fn.params == params[i] && v.fn.body == bodies[i]
  }

  /**
   * The second half of `LetRec.evalPartial`: rebind each name of a frame
   * binding them all to Nil to a new closure over the frame (`closures`).
   */
  method BindRecursive(frame: Frame, names: seq<string>, params: seq<seq<string>>, bodies: seq<Ast>)
    returns (ghost closures: set<Closure>)
    requires |names| == |params| == |bodies|
    requires forall k :: k in frame.bindings <==> k in names
    requires forall k :: k in frame.bindings ==> frame.bindings[k] == Nil
    modifies frame
    ensures RecursiveBindings(frame, names, params, bodies) && fresh(closures)
    ensures forall c :: c in closures ==> c.env == frame && c.body in bodies
    ensures forall k :: k in frame.bindings ==>
      frame.bindings[k] == Nil || (frame.bindings[k].Function? && frame.bindings[k].fn in closures)
  {
    ghost var made: seq<Closure> := [];
    ghost var b := frame.bindings;
    closures := {};
    var i := 0;
    while i < |names|
      invariant i <= |names| && frame.bindings == b && fresh(closures)
      invariant Bound(frame, b, names, params, bodies, made, closures, i)
    {
      var c := new Closure(params[i], bodies[i], frame);
      frame.Update(names[i], Function(c));
      BindStep(frame, b, names, params, bodies, made, closures, i, c);
      b := b[names[i] := Function(c)];
      made := made + [c];
      closures := closures + {c};
      i := i + 1;
    }
  }

  /**
   * After rebinding the first `i` names: `made` holds the closures made so
   * far, in order, and `closures` the same as a set, each over `frame`;
   * every binding stays Nil or is one of them, and the last occurrence so
   * far of each name is bound to its closure.
   */
  ghost predicate Bound(frame: Frame, b: map<string, Value>, names: seq<string>, params: seq<seq<string>>,
                        bodies: seq<Ast>, made: seq<Closure>, closures: set<Closure>, i: nat)
  {
    && |names| == |params| == |bodies| && i <= |names| && |made| == i
    && (forall k :: k in b <==> k in names)
    && (forall m :: 0 <= m < i ==> made[m].env == frame && made[m].params == params[m] && made[m].body == bodies[m])
    && (forall c :: c in closures ==> c.env == frame && c.body in bodies)
    && (forall k :: k in b ==> b[k] == Nil || (b[k].Function? && b[k].fn in closures))
    && (forall m :: 0 <= m < i && LastBefore(names, m, i) ==> names[m] in b && b[names[m]] == Function(made[m]))
  }

  /** Rebinding the name at position `i` to a closure of its parameters and body extends `Bound`. */
  lemma BindStep(frame: Frame, b: map<string, Value>, names: seq<string>, params: seq<seq<string>>,
                 bodies: seq<Ast>, made: seq<Closure>, closures: set<Closure>, i: nat, c: Closure)
    requires Bound(frame, b, names, params, bodies, made, closures, i) && i < |names|
    requires c.env == frame && c.params == params[i] && c.body == bodies[i]
    ensures Bound(frame, b[names[i] := Function(c)], names, params, bodies, made + [c], closures + {c}, i + 1)
  {
    BindKeysStep(b, names, i, c);
    BindMadeStep(frame, params, bodies, made, i, c);
    BindClosuresStep(frame, bodies, closures, i, c);
    BindValuesStep(b, closures, names[i], c);
    BindLastStep(names, b, made, i, c);
  }

  /** Rebinding a name of the list keeps the keys equal to the names. */
  lemma BindKeysStep(b: map<string, Value>, names: seq<string>, i: nat, c: Closure)
    requires (forall k :: k in b <==> k in names) && i < |names|
    ensures var b2 := b[names[i] := Function(c)]; forall k :: k in b2 <==> k in names
  {
  }

  /** The closures made so far, extended by the one for position `i`. */
  lemma BindMadeStep(frame: Frame, params: seq<seq<string>>, bodies: seq<Ast>, made: seq<Closure>, i: nat, c: Closure)
    requires |made| == i && i < |params| && i < |bodies|
    requires forall m :: 0 <= m < i ==> made[m].env == frame && made[m].params == params[m] && made[m].body == bodies[m]
    requires c.env == frame && c.params == params[i] && c.body == bodies[i]
    ensures var made2 := made + [c];
      forall m :: 0 <= m < i + 1 ==> made2[m].env == frame && made2[m].params == params[m] && made2[m].body == bodies[m]
  {
    var made2 := made + [c];
    assert forall m :: 0 <= m < i ==> made2[m] == made[m];
  }

  /** Every closure made so far shares the frame and has one of the bodies. */
  lemma BindClosuresStep(frame: Frame, bodies: seq<Ast>, closures: set<Closure>, i: nat, c: Closure)
    requires forall c' :: c' in closures ==> c'.env == frame && c'.body in bodies
    requires i < |bodies| && c.env == frame && c.body == bodies[i]
    ensures forall c' :: c' in closures + {c} ==> c'.env == frame && c'.body in bodies
  {
  }

  /** The last occurrence so far of each name stays bound to its closure. */
  lemma BindLastStep(names: seq<string>, b: map<string, Value>, made: seq<Closure>, i: nat, c: Closure)
    requires i < |names| && |made| == i
    requires forall m :: 0 <= m < i && LastBefore(names, m, i) ==> names[m] in b && b[names[m]] == Function(made[m])
    ensures forall m :: 0 <= m < i + 1 && LastBefore(names, m, i + 1) ==>
      names[m] in b[names[i] := Function(c)] && b[names[i] := Function(c)][names[m]] == Function((made + [c])[m])
  {
    var b2 := b[names[i] := Function(c)];
    var made2 := made + [c];
    forall m | 0 <= m < i + 1 && LastBefore(names, m, i + 1)
      ensures names[m] in b2 && b2[names[m]] == Function(made2[m])
    {
      if m < i {
        assert names[i] != names[m] && LastBefore(names, m, i);
      }
    }
  }

  /** Every binding stays Nil or one of the closures made so far. */
  lemma BindValuesStep(b: map<string, Value>, closures: set<Closure>, name: string, c: Closure)
    requires forall k :: k in b ==> b[k] == Nil || (b[k].Function? && b[k].fn in closures)
    ensures var b2 := b[name := Function(c)];
      forall k :: k in b2 ==> b2[k] == Nil || (b2[k].Function? && b2[k].fn in closures + {c})
  {
  }

  // ---------------------------------------------------------------------
  // Applying values
  // ---------------------------------------------------------------------

  /**
   * A call `f.apply(args)` made by a primitive that takes a function
   * argument: what its callers rely on is only that the store grows and
   * that an answer lives in it.
   */
  method Callback(f: Value, args: seq<Value>, fuel: nat, host: Host, ghost st: Store)
    returns (r: Result<Value>, ghost st': Store)
    requires Closed(st) && ValueIn(f, st) && ValuesIn(args, st)
    modifies st.refs, st.arrays, st.dicts
    ensures Extends(st, st') && (r.Ok? ==> ValueIn(r.value, st'))
    decreases fuel, 7
  {
    r, st' := ApplyValue(f, args, fuel, host, st);
  }

  /**
   * `apply` of a value: a closure checks its arity and evaluates its body
   * in a frame layering its parameters over its own frame; a primitive
   * runs behind its arity gate; references, arrays and dictionaries read
   * or write their content, touching nothing else; every other value is
   * not applicable.
   */
  method ApplyValue(f: Value, args: seq<Value>, fuel: nat, host: Host, ghost st: Store)
    returns (r: Result<Value>, ghost st': Store)
    requires Closed(st) && ValueIn(f, st) && ValuesIn(args, st)
    modifies st.refs, st.arrays, st.dicts
    ensures Extends(st, st') && (r.Ok? ==> ValueIn(r.value, st'))
    ensures f.Function? && |f.fn.params| != |args| ==>
      && r == Err(WrongArity) && st' == st
      && unchanged(st.frames) && unchanged(st.refs) && unchanged(st.arrays) && unchanged(st.dicts)
    ensures f.Primitive? && ArityGate(f.prim.name, f.prim.min, f.prim.max, args).Some? ==>
      && r == Err(ArityGate(f.prim.name, f.prim.min, f.prim.max, args).value) && st' == st
      && unchanged(st.frames) && unchanged(st.refs) && unchanged(st.arrays) && unchanged(st.dicts)
    ensures f.Primitive? && ArityGate(f.prim.name, f.prim.min, f.prim.max, args).None? && f.prim.op == HostOp ==>
      r == HostAnswer(host, f.prim.name, args)
    ensures f.Reference? ==>
      && (r, f.cell.content) == ReferenceApply(old(f.cell.content), args)
      && unchanged(st.refs - {f.cell}) && unchanged(st.arrays) && unchanged(st.dicts)
    ensures f.Array? ==>
      && (r, f.arr[..]) == ArrayApply(old(f.arr[..]), args)
      && unchanged(st.refs) && unchanged(st.arrays - {f.arr}) && unchanged(st.dicts)
    ensures f.Dict? ==>
      && (r, f.dict.content) == DictApply(old(f.dict.content), args)
      && unchanged(st.refs) && unchanged(st.arrays) && unchanged(st.dicts - {f.dict})
    ensures !IsFunction(f) && !f.Reference? && !f.Array? && !f.Dict? ==> r == Err(NotApplicable) && st' == st
    decreases fuel, 6
  {
    match f
    case Function(c) =>
      r, st' := CallClosure(c, args, fuel, host, st);
    case Primitive(p) =>
      r, st' := ApplyPrimitive(p, args, fuel, host, st);
    case Reference(cell) =>
      r := ApplyReference(cell, args, st);
      st' := st;
    case Array(a) =>
      r := ApplyArray(a, args, st);
      st' := st;
    case Dict(d) =>
      r := ApplyDict(d, args, st);
      st' := st;
    case _ =>
      r, st' := Err(NotApplicable), st;
  }

  /**
   * A closure's `apply`: the arity must match, and the body is evaluated
   * in a new frame layering the parameters over the closure's own frame.
   */
  method CallClosure(c: Closure, args: seq<Value>, fuel: nat, host: Host, ghost st: Store)
    returns (r: Result<Value>, ghost st': Store)
    requires Closed(st) && c in st.closures && ValuesIn(args, st)
    modifies st.refs, st.arrays, st.dicts
    ensures Extends(st, st') && (r.Ok? ==> ValueIn(r.value, st'))
    ensures |c.params| != |args| ==>
      && r == Err(WrongArity) && st' == st
      && unchanged(st.frames) && unchanged(st.refs) && unchanged(st.arrays) && unchanged(st.dicts)
    decreases fuel, 5
  {
    if |c.params| != |args| {
      return Err(WrongArity), st;
    }
    var frame;
    ghost var st2;
    frame, st2 := EnterClosure(c, args, st);
    r, st' := Eval(c.body, frame, fuel, host, st2);
  }

  /** A reference's `apply`, keeping the store closed. */
  method ApplyReference(cell: RefCell, args: seq<Value>, ghost st: Store) returns (r: Result<Value>)
    requires Closed(st) && cell in st.refs && ValuesIn(args, st)
    modifies cell
    ensures Closed(st) && (r.Ok? ==> ValueIn(r.value, st))
    ensures (r, cell.content) == ReferenceApply(old(cell.content), args)
  {
    r := cell.Apply(args);
  }

  /** An array's `apply`, keeping the store closed. */
  method ApplyArray(a: array<Value>, args: seq<Value>, ghost st: Store) returns (r: Result<Value>)
    requires Closed(st) && a in st.arrays && ValuesIn(args, st)
    modifies a
    ensures Closed(st) && (r.Ok? ==> ValueIn(r.value, st))
    ensures (r, a[..]) == ArrayApply(old(a[..]), args)
  {
    r := ArrayApplyInPlace(a, args);
    forall k | 0 <= k < a.Length ensures ValueIn(a[k], st) {
      assert a[k] == a[..][k];
      assert old(a[..])[k] == old(a[k]);
    }
  }

  /** A dictionary's `apply`, keeping the store closed. */
  method ApplyDict(d: DictObj, args: seq<Value>, ghost st: Store) returns (r: Result<Value>)
    requires Closed(st) && d in st.dicts && ValuesIn(args, st)
    modifies d
    ensures Closed(st) && (r.Ok? ==> ValueIn(r.value, st))
    ensures (r, d.content) == DictApply(old(d.content), args)
  {
    r := d.Apply(args);
  }

  /**
   * `MakePrimitive`'s wrapper and the primitive's body: the arity gate
   * answers first, and only when it passes does the body run, so a call
   * the gate refuses changes nothing.
   */
  method ApplyPrimitive(p: Prim, args: seq<Value>, fuel: nat, host: Host, ghost st: Store)
    returns (r: Result<Value>, ghost st': Store)
    requires Closed(st) && ValuesIn(args, st)
    modifies st.refs, st.arrays, st.dicts
    ensures Extends(st, st') && (r.Ok? ==> ValueIn(r.value, st'))
    ensures ArityGate(p.name, p.min, p.max, args).Some? ==>
      && r == Err(ArityGate(p.name, p.min, p.max, args).value) && st' == st
      && unchanged(st.frames) && unchanged(st.refs) && unchanged(st.arrays) && unchanged(st.dicts)
    ensures ArityGate(p.name, p.min, p.max, args).None? && p.op == HostOp ==>
      r == HostAnswer(host, p.name, args)
    decreases fuel, 4
  {
    var gate := ArityGate(p.name, p.min, p.max, args);
    if gate.Some? {
      return Err(gate.value), st;
    }
    if |args| < BodyNeeds(p.op) {
      return Err(IndexOutOfRange), st;
    }
    if p.op.MapOp? || p.op.ForOp? || p.op.FilterOp? || p.op.FoldlOp? || p.op.FoldrOp? || p.op.ApplyOp? {
      r, st' := CallingPrimitive(p, args, fuel, host, st);
    } else if p.op.RefOp? || p.op.ArrayOp? || p.op.DictOp? {
      r, st' := AllocatingPrimitive(p, args, st);
    } else {
      r := PlainPrimitive(p, args, host, st);
      st' := st;
    }
  }

  /** The bodies of the primitives that neither call back nor allocate. */
  method PlainPrimitive(p: Prim, args: seq<Value>, host: Host, ghost st: Store) returns (r: Result<Value>)
    requires Closed(st) && ValuesIn(args, st) && |args| >= BodyNeeds(p.op)
    requires !(p.op.MapOp? || p.op.ForOp? || p.op.FilterOp? || p.op.FoldlOp? || p.op.FoldrOp? || p.op.ApplyOp?)
    requires !(p.op.RefOp? || p.op.ArrayOp? || p.op.DictOp?)
    ensures r.Ok? ==> ValueIn(r.value, st)
    ensures p.op == HostOp ==>
      r == HostAnswer(host, p.name, args)
  {
    match p.op
    case EqualOp =>
      var v := EqualPrim(args);
      r := Ok(v);
    case ListOp =>
      var v := ListPrim(args);
      PrependIn(args, Empty, st);
      r := Ok(v);
    case ConsOp =>
      r := ConsPrim(p.name, args);
    case AppendOp =>
      r := AppendPrim(p.name, args);
      if r.Ok? && |args| > 0 {
        SpinesIn(args[..|args| - 1], st);
        PrependIn(Spines(args[..|args| - 1]), args[|args| - 1], st);
      }
    case ReverseOp =>
      r := ReversePrim(p.name, args);
      if r.Ok? {
        SpineIn(args[0], st);
        PrependIn(Reversed(Spine(args[0])), Empty, st);
      }
    case HeadOp =>
      r := HeadPrim(p.name, args);
      if r.Ok? {
        SpineIn(args[0], st);
      }
    case TailOp =>
      r := TailPrim(p.name, args);
    case LengthOp =>
      r := LengthPrim(p.name, args);
    case NthOp =>
      r := NthPrim(p.name, args);
      if r.Ok? {
        SpineIn(args[0], st);
      }
    case HostOp =>
      var d := host(p.name, args);
      if d.Err? {
        return Err(d.msg);
      }
      PlainIn(FromDatum(d.value), st);
      r := Ok(FromDatum(d.value));
  }

  /** The bodies of `ref`, `array` and `dict`, which allocate. */
  method AllocatingPrimitive(p: Prim, args: seq<Value>, ghost st: Store) returns (r: Result<Value>, ghost st': Store)
    requires Closed(st) && ValuesIn(args, st) && |args| >= BodyNeeds(p.op)
    requires p.op.RefOp? || p.op.ArrayOp? || p.op.DictOp?
    ensures Extends(st, st') && (r.Ok? ==> ValueIn(r.value, st'))
    ensures p.op.RefOp? ==> r.Ok? && r.value.Reference? && r.value.cell.content == args[0]
    ensures p.op.ArrayOp? ==> r.Ok? && r.value.Array? && r.value.arr[..] == args
    ensures p.op.DictOp? ==>
      && (r.Ok? <==> forall k :: 0 <= k < |args| ==> IsEntry(args[k]))
      && (r.Ok? ==> r.value.Dict? && r.value.dict.content == Entries(args))
  {
    match p.op
    case RefOp =>
      r, st' := NewReference(args, st);
    case ArrayOp =>
      r, st' := NewArray(args, st);
    case DictOp =>
      r, st' := NewDict(args, st);
  }

  /** The bodies of the primitives that call a function argument back. */
  method CallingPrimitive(p: Prim, args: seq<Value>, fuel: nat, host: Host, ghost st: Store)
    returns (r: Result<Value>, ghost st': Store)
    requires Closed(st) && ValuesIn(args, st) && |args| >= BodyNeeds(p.op)
    requires p.op.MapOp? || p.op.ForOp? || p.op.FilterOp? || p.op.FoldlOp? || p.op.FoldrOp? || p.op.ApplyOp?
    modifies st.refs, st.arrays, st.dicts
    ensures Extends(st, st') && (r.Ok? ==> ValueIn(r.value, st'))
    decreases fuel, 3
  {
    if fuel == 0 {
      return Err(OutOfFuel), st;
    }
    ghost var calls, answers;
    match p.op
    case MapOp =>
      r, st', calls, answers := MapPrim(p.name, args, fuel, host, st);
    case ForOp =>
      r, st', calls, answers := ForPrim(p.name, args, fuel, host, st);
    case FilterOp =>
      r, st', calls, answers := FilterPrim(p.name, args, fuel, host, st);
    case FoldlOp =>
      r, st', calls, answers := FoldlPrim(p.name, args, fuel, host, st);
    case FoldrOp =>
      r, st', calls, answers := FoldrPrim(p.name, args, fuel, host, st);
    case ApplyOp =>
      ghost var call;
      r, st', call := ApplyPrim(p.name, args, fuel, host, st);
  }

  // ---------------------------------------------------------------------
  // Allocating primitives
  // ---------------------------------------------------------------------

  /** `ref`: a new reference holding the argument. */
  method NewReference(args: seq<Value>, ghost st: Store) returns (r: Result<Value>, ghost st': Store)
    requires |args| >= 1 && Closed(st) && ValuesIn(args, st)
    ensures Extends(st, st') && r.Ok? && ValueIn(r.value, st')
    ensures r.value.Reference? && fresh(r.value.cell) && r.value.cell.content == args[0]
  {
    var cell := new RefCell(args[0]);
    st' := st.(refs := st.refs + {cell});
    ValueInGrows(args[0], st, st');
    assert st'.refs - st.refs == {cell};
    ClosedExtend(st, st');
    r := Ok(Reference(cell));
  }

  /** `array`: a new array holding the arguments, copied slot by slot. */
  method NewArray(args: seq<Value>, ghost st: Store) returns (r: Result<Value>, ghost st': Store)
    requires Closed(st) && ValuesIn(args, st)
    ensures Extends(st, st') && r.Ok? && ValueIn(r.value, st')
    ensures r.value.Array? && fresh(r.value.arr) && r.value.arr[..] == args
  {
    var content := new Value[|args|](_ => Nil);
    var i := 0;
    while i < |args|
      invariant 0 <= i <= |args|
      invariant content[..i] == args[..i]
      invariant forall k :: 0 <= k < content.Length ==> ValueIn(content[k], st)
    {
      content[i] := args[i];
      i := i + 1;
    }
    assert content[..] == content[..|args|];
    st' := st.(arrays := st.arrays + {content});
    forall k | 0 <= k < content.Length ensures ValueIn(content[k], st') {
      ValueInGrows(content[k], st, st');
    }
    assert st'.arrays - st.arrays == {content};
    ClosedExtend(st, st');
    r := Ok(Array(content));
  }

  /** `dict`: a new dictionary of the entries, or the error for the first item that is no entry. */
  method NewDict(args: seq<Value>, ghost st: Store) returns (r: Result<Value>, ghost st': Store)
    requires Closed(st) && ValuesIn(args, st)
    ensures Extends(st, st') && (r.Ok? ==> ValueIn(r.value, st'))
    ensures r.Ok? <==> forall k :: 0 <= k < |args| ==> IsEntry(args[k])
    ensures r.Ok? ==> r.value.Dict? && fresh(r.value.dict) && r.value.dict.content == Entries(args)
  {
    var content := DictPrim(args);
    if content.Err? {
      return Err(content.msg), st;
    }
    var d := new DictObj(content.value);
    st' := st.(dicts := st.dicts + {d});
    EntriesIn(args, st);
    BindingsInGrows(d.content, st, st');
    assert st'.dicts - st.dicts == {d};
    ClosedExtend(st, st');
    r := Ok(Dict(d));
  }

  // ---------------------------------------------------------------------
  // Primitives that call back
  // ---------------------------------------------------------------------

  /**
   * `apply`: after the checks of `ApplyArguments`, one call (`call`) of the
   * function on the elements of the list, whose outcome is the result.
   */
  method ApplyPrim(name: string, args: seq<Value>, fuel: nat, host: Host, ghost st: Store)
    returns (r: Result<Value>, ghost st': Store, ghost call: seq<Value>)
    requires fuel > 0 && |args| >= 2
    requires Closed(st) && ValuesIn(args, st)
    modifies st.refs, st.arrays, st.dicts
    ensures Extends(st, st') && (r.Ok? ==> ValueIn(r.value, st'))
    ensures !IsFunction(args[0]) ==> r == Err(WrongType(name, args[0]))
    ensures IsFunction(args[0]) && !IsList(args[1]) ==> r == Err(WrongType(name, args[1]))
    ensures IsFunction(args[0]) && IsList(args[1]) && !IsProperList(args[1]) ==> r == Err(Malformed(name))
    ensures IsFunction(args[0]) && IsProperList(args[1]) ==> call == Spine(args[1])
    ensures args[0].Function? && IsProperList(args[1]) && |args[0].fn.params| != |Spine(args[1])| ==> r == Err(WrongArity)
    decreases fuel, 2
  {
    var arguments := ApplyArguments(name, args);
    if arguments.Err? {
      return Err(arguments.msg), st, [];
    }
    call := arguments.value;
    SpineIn(args[1], st);
    r, st' := ApplyValue(args[0], arguments.value, fuel - 1, host, st);
  }

  /**
   * The type checks `map` and `for` share: every argument after the
   * function must be a list, and the first that is not is reported.
   */
  method CheckLists(name: string, args: seq<Value>) returns (err: Option<string>)
    ensures err.None? <==> ListsFrom(args, 1)
    ensures err.Some? ==>
      exists j :: 1 <= j < |args| && !IsList(args[j]) && (forall k :: 1 <= k < j ==> IsList(args[k]))
        && err.value == WrongType(name, args[j])
  {
    var i := 1;
    while i < |args|
      invariant 1 <= i && (|args| > 0 ==> i <= |args|)
      invariant forall k :: 1 <= k < i && k < |args| ==> IsList(args[k])
    {
      if !IsList(args[i]) {
        return Some(WrongType(name, args[i]));
      }
      i := i + 1;
    }
    return None;
  }

  /**
   * One round of `map` and `for`: `f` is called on the heads of the
   * current lists, and the bookkeeping advances every list by a cell.
   */
  method MapRound(f: Value, lists: seq<Value>, currents: seq<Value>,
                  ghost calls: seq<seq<Value>>, ghost answers: seq<Value>, fuel: nat, host: Host, ghost st: Store)
    returns (a: Result<Value>, currents': seq<Value>, more: bool, ghost st': Store)
    requires fuel > 0 && MapSoFar(lists, currents, calls, answers)
    requires forall j :: 0 <= j < |currents| ==> currents[j].Cons?
    requires Closed(st) && ValueIn(f, st) && ValuesIn(currents, st) && ValuesIn(answers, st)
    modifies st.refs, st.arrays, st.dicts
    ensures Extends(st, st') && ValueIn(f, st') && ValuesIn(currents', st')
    ensures currents' == Tails(currents) && (more <==> forall j :: 0 <= j < |currents'| ==> currents'[j].Cons?)
    ensures MapCalls(lists, calls + [Heads(currents)])
    ensures a.Ok? ==>
      && ValuesIn(answers + [a.value], st')
      && MapSoFar(lists, currents', calls + [Heads(currents)], answers + [a.value])
    decreases fuel, 0
  {
    HeadsTailsIn(currents, st);
    a, st' := Callback(f, Heads(currents), fuel - 1, host, st);
    MapStep(lists, currents, calls, answers, if a.Ok? then a.value else Nil);
    ValueInGrows(f, st, st');
    currents' := Tails(currents);
    ValuesInGrows(currents', st, st');
    ValuesInGrows(answers, st, st');
    more := AllConses(currents');
  }

  /**
   * The rounds of `map` and `for`: round `k` calls `f` on column `k` of the
   * lists (`calls`), until one list has no further cell; the first error
   * stops them, and otherwise the answers (`answers`) are the outcome.
   */
  method RunRounds(f: Value, lists: seq<Value>, fuel: nat, host: Host, ghost st: Store)
    returns (r: Result<seq<Value>>, ghost st': Store, ghost calls: seq<seq<Value>>, answers: seq<Value>)
    requires fuel > 0 && |lists| > 0
    requires Closed(st) && ValueIn(f, st) && ValuesIn(lists, st)
    modifies st.refs, st.arrays, st.dicts
    ensures Extends(st, st') && MapCalls(lists, calls) && |answers| <= |calls|
    ensures r.Ok? ==> r.value == answers && |answers| == |calls| == Rounds(lists) && ValuesIn(answers, st')
    ensures r.Err? ==> |calls| == |answers| + 1
    decreases fuel, 1
  {
    var currents := lists;
    calls, answers := [], [];
    st' := st;
    r := Ok([]);
    var more := AllConses(currents);
    while more
      invariant MapSoFar(lists, currents, calls, answers) && r.Ok?
      invariant more <==> forall j :: 0 <= j < |currents| ==> currents[j].Cons?
      invariant Extends(st, st') && ValueIn(f, st') && ValuesIn(answers, st') && ValuesIn(currents, st')
      decreases currents[0]
    {
      var a, next;
      ghost var st2;
      a, next, more, st2 := MapRound(f, lists, currents, calls, answers, fuel, host, st');
      assert Extends(st, st2);
      calls, st' := calls + [Heads(currents)], st2;
      if a.Err? {
        r := Err(a.msg);
        break;
      }
      answers := answers + [a.value];
      currents := next;
    }
    if r.Ok? {
      MapDone(lists, currents, calls, answers);
      r := Ok(answers);
    }
  }

  /**
   * `map`: the first argument must be a function and every other argument
   * a list.  Round `k` calls the function on the `k`-th element of every
   * list (`calls`); the rounds stop when one list runs out of cells, and
   * the answers (`answers`) form the result, in order.
   */
  method MapPrim(name: string, args: seq<Value>, fuel: nat, host: Host, ghost st: Store)
    returns (r: Result<Value>, ghost st': Store, ghost calls: seq<seq<Value>>, ghost answers: seq<Value>)
    requires fuel > 0 && |args| >= 2
    requires Closed(st) && ValuesIn(args, st)
    modifies st.refs, st.arrays, st.dicts
    ensures Extends(st, st') && (r.Ok? ==> ValueIn(r.value, st'))
    ensures !IsFunction(args[0]) ==> r == Err(WrongType(name, args[0])) && calls == []
    ensures IsFunction(args[0]) && !ListsFrom(args, 1) ==>
      && calls == []
      && (exists j :: 1 <= j < |args| && !IsList(args[j]) && (forall k :: 1 <= k < j ==> IsList(args[k]))
            && r == Err(WrongType(name, args[j])))
    ensures |answers| <= |calls| && MapCalls(args[1..], calls)
    ensures r.Ok? ==> |answers| == |calls| == Rounds(args[1..]) && r.value == ListOf(answers)
    ensures r.Err? && IsFunction(args[0]) && ListsFrom(args, 1) ==> |calls| == |answers| + 1
    decreases fuel, 2
  {
    if !IsFunction(args[0]) {
      return Err(WrongType(name, args[0])), st, [], [];
    }
    var err := CheckLists(name, args);
    if err.Some? {
      return Err(err.value), st, [], [];
    }
    assert ValuesIn(args[1..], st) by {
      forall j | 0 <= j < |args| - 1 ensures ValueIn(args[1..][j], st) {
        assert args[1..][j] == args[j + 1];
      }
    }
    var rounds;
    rounds, st', calls, answers := RunRounds(args[0], args[1..], fuel, host, st);
    if rounds.Err? {
      return Err(rounds.msg), st', calls, answers;
    }
    PrependIn(rounds.value, Empty, st');
    r := Ok(ListOf(rounds.value));
  }

  /**
   * `for`: the checks and rounds of `map`, for the effects of the calls
   * only; when every round succeeds the result is Nil.
   */
  method ForPrim(name: string, args: seq<Value>, fuel: nat, host: Host, ghost st: Store)
    returns (r: Result<Value>, ghost st': Store, ghost calls: seq<seq<Value>>, ghost answers: seq<Value>)
    requires fuel > 0 && |args| >= 2
    requires Closed(st) && ValuesIn(args, st)
    modifies st.refs, st.arrays, st.dicts
    ensures Extends(st, st')
    ensures !IsFunction(args[0]) ==> r == Err(WrongType(name, args[0])) && calls == []
    ensures IsFunction(args[0]) && !ListsFrom(args, 1) ==>
      && calls == []
      && (exists j :: 1 <= j < |args| && !IsList(args[j]) && (forall k :: 1 <= k < j ==> IsList(args[k]))
            && r == Err(WrongType(name, args[j])))
    ensures |answers| <= |calls| && MapCalls(args[1..], calls)
    ensures r.Ok? ==> |answers| == |calls| == Rounds(args[1..]) && r.value == Nil
    ensures r.Err? && IsFunction(args[0]) && ListsFrom(args, 1) ==> |calls| == |answers| + 1
    decreases fuel, 2
  {
    if !IsFunction(args[0]) {
      return Err(WrongType(name, args[0])), st, [], [];
    }
    var err := CheckLists(name, args);
    if err.Some? {
      return Err(err.value), st, [], [];
    }
    assert ValuesIn(args[1..], st) by {
      forall j | 0 <= j < |args| - 1 ensures ValueIn(args[1..][j], st) {
        assert args[1..][j] == args[j + 1];
      }
    }
    var rounds;
    rounds, st', calls, answers := RunRounds(args[0], args[1..], fuel, host, st);
    if rounds.Err? {
      return Err(rounds.msg), st', calls, answers;
    }
    r := Ok(Nil);
  }

  /**
   * One round of `filter`: `f` is called on the next element, which is
   * kept when the answer is true, and the bookkeeping advances by a cell.
   */
  method FilterRound(f: Value, ghost xs: seq<Value>, current: Value, ghost term: Value, kept: seq<Value>,
                     ghost calls: seq<seq<Value>>, ghost answers: seq<Value>, fuel: nat, host: Host, ghost st: Store)
    returns (a: Result<Value>, kept': seq<Value>, ghost st': Store)
    requires fuel > 0 && current.Cons? && FilterSoFar(xs, current, term, calls, answers, kept)
    requires Closed(st) && ValueIn(f, st) && ValuesIn(kept, st) && ValueIn(current, st)
    modifies st.refs, st.arrays, st.dicts
    ensures Extends(st, st') && ValueIn(f, st') && ValueIn(current.tail, st')
    ensures FilterCalls(xs, calls + [[current.head]])
    ensures a.Ok? ==>
      && ValuesIn(kept', st')
      && FilterSoFar(xs, current.tail, term, calls + [[current.head]], answers + [a.value], kept')
    decreases fuel, 0
  {
    a, st' := Callback(f, [current.head], fuel - 1, host, st);
    FilterStep(xs, current, term, calls, answers, kept, if a.Ok? then a.value else Nil);
    ValueInGrows(f, st, st');
    ValuesInGrows(kept, st, st');
    ValueInGrows(current, st, st');
    kept' := kept;
    if a.Ok? && IsTrue(a.value) {
      kept' := kept + [current.head];
    }
  }

  /**
   * The loop of `filter`: `f` is called on each element of `v` in turn
   * (`calls`) and the elements answered true are gathered; the first
   * error stops it, and otherwise `rest` is what follows the last cell.
   */
  method FilterRounds(f: Value, v: Value, fuel: nat, host: Host, ghost st: Store)
    returns (r: Result<seq<Value>>, rest: Value, ghost st': Store, ghost calls: seq<seq<Value>>, ghost answers: seq<Value>)
    requires fuel > 0 && Closed(st) && ValueIn(f, st) && ValueIn(v, st)
    modifies st.refs, st.arrays, st.dicts
    ensures Extends(st, st') && FilterCalls(Spine(v), calls) && |answers| <= |calls|
    ensures r.Ok? ==>
      && |answers| == |calls| == |Spine(v)| && r.value == Kept(Spine(v), answers)
      && rest == Terminator(v) && ValuesIn(r.value, st')
    ensures r.Err? ==> |calls| == |answers| + 1
    decreases fuel, 1
  {
    ghost var xs := Spine(v);
    var kept: seq<Value> := [];
    var current := v;
    calls, answers := [], [];
    st' := st;
    r := Ok([]);
    while current.Cons?
      invariant FilterSoFar(xs, current, Terminator(v), calls, answers, kept) && r.Ok?
      invariant Extends(st, st') && ValueIn(f, st') && ValuesIn(kept, st') && ValueIn(current, st')
      decreases current
    {
      var a;
      ghost var st2;
      a, kept, st2 := FilterRound(f, xs, current, Terminator(v), kept, calls, answers, fuel, host, st');
      calls, st' := calls + [[current.head]], st2;
      if a.Err? {
        r := Err(a.msg);
        break;
      }
      answers := answers + [a.value];
      current := current.tail;
    }
    if r.Ok? {
      FilterDone(xs, current, Terminator(v), calls, answers, kept);
      r := Ok(kept);
    }
    rest := current;
  }

  /**
   * `filter`: the first argument must be a function and the second a list.
   * The function is called on each element in turn (`calls`); after the
   * last cell the list must end in Empty, and the result is the elements
   * whose answer is true, in order.
   */
  method FilterPrim(name: string, args: seq<Value>, fuel: nat, host: Host, ghost st: Store)
    returns (r: Result<Value>, ghost st': Store, ghost calls: seq<seq<Value>>, ghost answers: seq<Value>)
    requires fuel > 0 && |args| >= 2
    requires Closed(st) && ValuesIn(args, st)
    modifies st.refs, st.arrays, st.dicts
    ensures Extends(st, st') && (r.Ok? ==> ValueIn(r.value, st'))
    ensures !IsFunction(args[0]) ==> r == Err(WrongType(name, args[0])) && calls == []
    ensures IsFunction(args[0]) && !IsList(args[1]) ==> r == Err(WrongType(name, args[1])) && calls == []
    ensures |answers| <= |calls| && FilterCalls(Spine(args[1]), calls)
    ensures r.Ok? ==>
      && IsProperList(args[1]) && |answers| == |calls| == |Spine(args[1])|
      && r.value == ListOf(Kept(Spine(args[1]), answers))
    ensures r.Err? && IsFunction(args[0]) && IsList(args[1]) ==>
      || |calls| == |answers| + 1
      || (|answers| == |calls| == |Spine(args[1])| && !IsProperList(args[1]) && r == Err(Malformed(name)))
    decreases fuel, 2
  {
    if !IsFunction(args[0]) {
      return Err(WrongType(name, args[0])), st, [], [];
    }
    if !IsList(args[1]) {
      return Err(WrongType(name, args[1])), st, [], [];
    }
    var kept, rest;
    kept, rest, st', calls, answers := FilterRounds(args[0], args[1], fuel, host, st);
    if kept.Err? {
      return Err(kept.msg), st', calls, answers;
    }
    if !rest.Empty? {
      return Err(Malformed(name)), st', calls, answers;
    }
    PrependIn(kept.value, Empty, st');
    return Ok(ListOf(kept.value)), st', calls, answers;
  }

  /**
   * One round of a fold: `f` is called on the accumulator and the next
   * element, in the fold's order, and the bookkeeping advances by a cell.
   */
  method FoldRound(f: Value, left: bool, init: Value, ghost xs: seq<Value>, current: Value, result: Value,
                   ghost calls: seq<seq<Value>>, ghost answers: seq<Value>, fuel: nat, host: Host, ghost st: Store)
    returns (a: Result<Value>, ghost st': Store)
    requires fuel > 0 && current.Cons? && FoldSoFar(init, xs, left, current, calls, answers, result)
    requires Closed(st) && ValueIn(f, st) && ValueIn(result, st) && ValueIn(current, st)
    modifies st.refs, st.arrays, st.dicts
    ensures Extends(st, st') && ValueIn(f, st') && ValueIn(current.tail, st')
    ensures FoldCalls(init, xs, answers, calls + [FoldArgs(left, result, current)], left)
    ensures a.Ok? ==>
      && ValueIn(a.value, st')
      && FoldSoFar(init, xs, left, current.tail, calls + [FoldArgs(left, result, current)], answers + [a.value], a.value)
    decreases fuel, 0
  {
    a, st' := Callback(f, FoldArgs(left, result, current), fuel - 1, host, st);
    FoldStep(init, xs, left, current, calls, answers, result, if a.Ok? then a.value else Nil);
    ValueInGrows(f, st, st');
    ValueInGrows(current, st, st');
  }

  /**
   * The loop of both folds, over the cells of `start`: round `k` calls `f`
   * on the accumulator and the element (`foldl`, `left`) or on the element
   * and the accumulator (`foldr`), and the answer is the next accumulator;
   * the first error stops it, and otherwise `rest` is what follows the
   * last cell.  For `foldl` the cells are those of the list `xs`, for
   * `foldr` those of its reverse.
   */
  method FoldRounds(f: Value, left: bool, init: Value, start: Value, ghost xs: seq<Value>,
                    fuel: nat, host: Host, ghost st: Store)
    returns (r: Result<Value>, rest: Value, ghost st': Store, ghost calls: seq<seq<Value>>, ghost answers: seq<Value>)
    requires fuel > 0 && Closed(st) && ValueIn(f, st) && ValueIn(init, st) && ValueIn(start, st)
    requires Spine(start) == (if left then xs else Reversed(xs))
    modifies st.refs, st.arrays, st.dicts
    ensures Extends(st, st') && FoldCalls(init, xs, answers, calls, left) && |answers| <= |calls|
    ensures r.Ok? ==>
      && |answers| == |calls| == |xs| && r.value == Accumulator(init, answers, |answers|)
      && rest == Terminator(start) && ValueIn(r.value, st')
    ensures r.Err? ==> |calls| == |answers| + 1
    decreases fuel, 1
  {
    var result := init;
    var current := start;
    calls, answers := [], [];
    st' := st;
    r := Ok(init);
    while current.Cons?
      invariant FoldSoFar(init, xs, left, current, calls, answers, result) && r.Ok?
      invariant Terminator(current) == Terminator(start)
      invariant Extends(st, st') && ValueIn(f, st') && ValueIn(result, st') && ValueIn(current, st')
      decreases current
    {
      var a;
      ghost var st2;
      a, st2 := FoldRound(f, left, init, xs, current, result, calls, answers, fuel, host, st');
      calls, st' := calls + [FoldArgs(left, result, current)], st2;
      if a.Err? {
        r := Err(a.msg);
        break;
      }
      answers := answers + [a.value];
      result := a.value;
      current := current.tail;
    }
    if r.Ok? {
      FoldDone(init, xs, left, current, calls, answers, result);
      r := Ok(result);
    }
    rest := current;
  }

  /**
   * `foldl`: the first argument must be a function and the second a list.
   * Round `k` calls the function on the accumulator and the `k`-th element
   * (`FoldlCall`), and its answer is the next accumulator; after the last
   * cell the list must end in Empty, and the result is the accumulator.
   */
  method FoldlPrim(name: string, args: seq<Value>, fuel: nat, host: Host, ghost st: Store)
    returns (r: Result<Value>, ghost st': Store, ghost calls: seq<seq<Value>>, ghost answers: seq<Value>)
    requires fuel > 0 && |args| >= 3
    requires Closed(st) && ValuesIn(args, st)
    modifies st.refs, st.arrays, st.dicts
    ensures Extends(st, st') && (r.Ok? ==> ValueIn(r.value, st'))
    ensures !IsFunction(args[0]) ==> r == Err(WrongType(name, args[0])) && calls == []
    ensures IsFunction(args[0]) && !IsList(args[1]) ==> r == Err(WrongType(name, args[1])) && calls == []
    ensures FoldCalls(args[2], Spine(args[1]), answers, calls, true) && |answers| <= |calls|
    ensures r.Ok? ==>
      && IsProperList(args[1]) && |answers| == |calls| == |Spine(args[1])|
      && r.value == Accumulator(args[2], answers, |answers|)
    ensures r.Err? && IsFunction(args[0]) && IsList(args[1]) ==>
      || |calls| == |answers| + 1
      || (|answers| == |calls| == |Spine(args[1])| && !IsProperList(args[1]) && r == Err(Malformed(name)))
    decreases fuel, 2
  {
    if !IsFunction(args[0]) {
      return Err(WrongType(name, args[0])), st, [], [];
    }
    if !IsList(args[1]) {
      return Err(WrongType(name, args[1])), st, [], [];
    }
    var result, rest;
    result, rest, st', calls, answers := FoldRounds(args[0], true, args[2], args[1], Spine(args[1]), fuel, host, st);
    if result.Err? {
      return Err(result.msg), st', calls, answers;
    }
    if !rest.Empty? {
      return Err(Malformed(name)), st', calls, answers;
    }
    return result, st', calls, answers;
  }

  /**
   * The first loop of `foldr`: the elements of a list consed onto Empty
   * one by one, which reverses them (`rev`), and the value after the last
   * cell (`rest`).
   */
  method ReverseCells(v: Value) returns (rev: Value, rest: Value)
    ensures rev == ListOf(Reversed(Spine(v))) && rest == Terminator(v)
  {
    rev := Empty;
    rest := v;
    while rest.Cons?
      invariant Prepend(Reversed(Spine(rest)), rev) == ListOf(Reversed(Spine(v)))
      invariant Terminator(rest) == Terminator(v)
      decreases rest
    {
      SpineStep(rest);
      assert Reversed(Spine(rest)) == Reversed(Spine(rest.tail)) + [rest.head];
      PrependConcat(Reversed(Spine(rest.tail)), [rest.head], rev);
      rev := Cons(rest.head, rev);
      rest := rest.tail;
    }
  }

  /**
   * `foldr`: the first argument must be a function and the second a list.
   * The list is first reversed, and a list that does not end in Empty
   * fails before any call.  Round `k` then calls the function on the
   * `k`-th element from the end and the accumulator (`FoldrCall`), and the
   * result is the last accumulator.  (Go checks the reversed list's end a
   * second time; that list always ends in Empty, so that check is left out.)
   */
  method FoldrPrim(name: string, args: seq<Value>, fuel: nat, host: Host, ghost st: Store)
    returns (r: Result<Value>, ghost st': Store, ghost calls: seq<seq<Value>>, ghost answers: seq<Value>)
    requires fuel > 0 && |args| >= 3
    requires Closed(st) && ValuesIn(args, st)
    modifies st.refs, st.arrays, st.dicts
    ensures Extends(st, st') && (r.Ok? ==> ValueIn(r.value, st'))
    ensures !IsFunction(args[0]) ==> r == Err(WrongType(name, args[0])) && calls == []
    ensures IsFunction(args[0]) && !IsList(args[1]) ==> r == Err(WrongType(name, args[1])) && calls == []
    ensures IsFunction(args[0]) && IsList(args[1]) && !IsProperList(args[1]) ==> r == Err(Malformed(name)) && calls == []
    ensures FoldCalls(args[2], Spine(args[1]), answers, calls, false) && |answers| <= |calls|
    ensures r.Ok? ==>
      && IsProperList(args[1]) && |answers| == |calls| == |Spine(args[1])|
      && r.value == Accumulator(args[2], answers, |answers|)
    ensures r.Err? && IsFunction(args[0]) && IsProperList(args[1]) ==> |calls| == |answers| + 1
    decreases fuel, 2
  {
    if !IsFunction(args[0]) {
      return Err(WrongType(name, args[0])), st, [], [];
    }
    if !IsList(args[1]) {
      return Err(WrongType(name, args[1])), st, [], [];
    }
    var temp, rest := ReverseCells(args[1]);
    if !rest.Empty? {
      return Err(Malformed(name)), st, [], [];
    }
    ReversedIn(args[1], st);
    var result, end;
    result, end, st', calls, answers := FoldRounds(args[0], false, args[2], temp, Spine(args[1]), fuel, host, st);
    return result, st', calls, answers;
  }
}
