# glisp core in Dafny

A model of the core of `glisp`, the Lisp interpreter in `cmd/glisp`. It covers
the reader (text to s-expression values), the parser (s-expressions to the
kernel AST of literals, identifiers, `if`, applications, quotes and `letrec`),
the evaluator with its environment frames, the value model with its
"applicable data" (references, arrays and dictionaries you call to read or
write), and the list and arity primitives. Properties of the model are proved
with the Dafny verifier.

## Files and structure

- `wrappers.dfy`: `Option` and `Result`. `Result.Err` carries the text of a Go
  `error`.
- `sequences.dfy`: small sequence identities.
- `numerals.dfy`: `%d` rendering of integers and `strconv.Atoi` on
  `-?[0-9]+`, proved inverse to each other.
- `values.dfy` (`value.go`, `v_*.go`, `env.go`), module `Values`:
  - `Value` is one tagged union for every variant. Integers, booleans,
    strings, symbols, Nil, Empty and cons cells are datatype values.
  - Closures, primitives, references (`RefCell`), arrays (`array<Value>`) and
    dictionaries (`DictObj`) are objects. So Dafny `==` on `Value` is exactly
    `isEqual`: structural on data, identity on the rest.
  - The kernel `Ast` is here too, and so is the environment `Frame`: a class
    with a `bindings` map that `update` rewrites, and a parent link. It also
    has a `depth` (its number of parents), which Go's `Env` does not have; it
    only makes explicit that the parent chain is finite.
  - The ghost `Store` lists the objects an evaluation may reach.
- `reader.dfy` (`reader.go`): `readToken`, `readChar`, the four atom readers,
  `read` and `readList`. `readList` is written as a loop, proved equal to a
  recursive description.
- `parser.dfy` (`parser.go`):
  - every special-form parser, the desugarings of `fn`, `let`, `let*` and
    `do`, and `parseDef`;
  - the counter behind `fresh` passed in and out explicitly as `id: nat`
    (and a `FreshCounter` class for the loops of `makeLetStar` and `makeDo`);
  - the slice-building loops of `parseSymbols`, `parseExprs`,
    `parseBindings` and `parseFunBindings` as `while` methods, proved equal
    to recursive definitions.
- `primitives.dfy` (`primitives.go`):
  - the arity gate and the primitive table;
  - `listLength` and `listAppend`;
  - the list primitives that do not call back;
  - the specification functions for the rounds of `map`, `filter`, `foldl`
    and `foldr`, and their connection to the textbook filter and folds.
- `callbacks.dfy`: the bookkeeping of those rounds, one step at a time.
- `eval.dfy` (`ast.go`, `v_function.go`, the calling primitives):
  - `evalPartial` for every kernel form and the `defaultEval` trampoline;
  - `apply` of every value;
  - `apply`, `map`, `for`, `filter`, `foldl`, `foldr`, `ref`, `array` and
    `dict`.

## Modelling decisions

- **Two value snapshots.** The repository has two copies of the value model:
  `value.go` (`VXxx`) and the `v_*.go` files (`vXxx`). They agree except for
  dictionary `apply`. The model follows `v_dict.go:30-49`, which checks the
  argument count before the key type; `value.go:1415-1432` checks the key
  first.
- **Truthiness follows the code.**
  - False: Empty, Nil, references, arrays, dictionaries, the integer 0, the
    empty string and `#f`.
  - True: everything else.
- **Panics become errors.**
  - Evaluating the nil AST (a nil interface in Go) panics; the model returns
    `Err(NilExpression)`.
  - `parseRecFunction` reads the head of its third element without checking
    that it is a cons (`parser.go:243-244`); the model returns
    `Err(UncheckedAccess)`.
  - The model keeps these as errors rather than preconditions so that every
    parser and evaluator function stays total.
- **`let*` with no bindings.** `makeLetStar` of no bindings returns the body.
  When the body is the nil AST, `parseExpr`'s `let*` case gives nil, and
  `parseExpr` then falls through to `parseApply`. So `(let* () ())` parses
  as an application of the identifier `let*` to nothing. `LetStarWithoutBindings`
  states this.
- **Nil arguments.** `parseExprs` returns an empty slice as soon as one
  element is no expression. So `(f 1 () 2)` applies `f` to no arguments
  (`NilArgumentDropsArguments`).
- **Fuel.** `defaultEval` need not terminate. Every evaluation method takes a
  `fuel` bound: the trampoline takes at most `fuel` steps, each nested
  evaluation runs on less, and running out is `Err(OutOfFuel)`. Literals,
  quotes and identifiers answer at once, as their `eval` does, and need no
  fuel.
- **The heap.**
  - Evaluation runs on a ghost `Store` (frames, closures, references, arrays,
    dictionaries) that is `Closed`: nothing in it points outside it.
  - Every evaluation method ensures `Extends(st, st')`: the new store is
    closed, holds everything of the old one, and the references, arrays and
    dictionaries it adds are freshly allocated.
  - A method may write only the references, arrays and dictionaries of its
    store.
  - `LetRec` creates a cycle: a new frame whose bindings are closures
    capturing that same frame. `BindRecursive` proves those bindings.
- **Cons cells are values.** `readList`, `listAppend`, `map` and `filter`
  grow a list in place through `setTail` on fresh cells no one else sees. The
  model collects the elements and builds the list once. The
  result is the same value.
- **Host primitives.** Arithmetic, comparisons, string primitives, type
  predicates, `type` and `not` are a pure parameter `host` returning plain
  data (`Datum`). Their arity gate is modelled; their bodies are not.

## Model

| member | source | states |
|---|---|---|
| `Numerals.IntRoundTrip` | cmd/glisp/reader.go:64-72 | `Atoi` of the `%d` text of any integer gives that integer back, so integer display and integer reading are inverse |
| `Numerals.IntToStringInjective` | cmd/glisp/parser.go:20-27 | distinct integers render as distinct decimal texts, the basis for fresh names being distinct |
| `Values.FalseValues` | cmd/glisp/v_integer.go:63-65 | a value is false exactly when it is Empty, Nil, a reference, an array, a dictionary, the integer 0, the empty string or `#f`; this is the per-variant `isTrue` (also `value.go:161-163`, `281-283`, `505-507`, `972-974`, `1085-1087`, `1204-1206`, `1338-1340`, `1488-1490`) |
| `Values.NarrowingIsExact` | cmd/glisp/v_integer.go:80-113 | each `asX` query succeeds on exactly one variant, with that variant's payload; on Nil, Empty, functions and primitives every query fails |
| `Values.IsEqual` | cmd/glisp/v_cons.go:83-100 | the `isEqual` walk (compare heads cell by cell, then the two terminators) answers true exactly when the values are equal: structural for data, identity for functions, primitives, references, arrays and dictionaries |
| `Values.Spine` | cmd/glisp/v_cons.go:122-124 | the heads of a value's cons cells are empty exactly when the value is not a cons cell |
| `Values.SpineTerminator` | cmd/glisp/v_cons.go:13-21 | every value is its cells' heads in front of its first non-cons tail |
| `Values.PrependParts` | cmd/glisp/v_cons.go:13-21 | cells put in front of a non-cons tail have exactly those heads and that terminator |
| `Values.ListOfSpine` | cmd/glisp/v_empty.go:94-96 | a proper list (chain of cells ending in Empty) is the list of its elements |
| `Values.ListOfParts` | cmd/glisp/v_empty.go:14-20 | the list built from any elements is proper and has exactly those elements in order |
| `Values.DisplayList` | cmd/glisp/v_cons.go:27-33 | a proper list of displayable values displays as `(` + the element displays separated by spaces + `)`, and Empty as `()` |
| `Values.DisplayCdrList` | cmd/glisp/v_empty.go:14-20 | `DisplayCDR` of a proper list is ` ` + its element displays followed by `)`, and of Empty just `)` |
| `Values.ReferenceProtocol` | cmd/glisp/v_reference.go:23-32 | `apply()` returns the content; `apply(x)` stores `x` and returns Nil, so a following `apply()` returns `x`; more than one argument fails and leaves the content alone |
| `Values.RefCell.constructor` | cmd/glisp/v_reference.go:11-13 | a new reference holds the given value |
| `Values.RefCell.Apply` | cmd/glisp/v_reference.go:23-32 | a reference's `apply` returns and leaves exactly what `ReferenceApply` gives for the old content |
| `Values.RefCell.SetReference` | cmd/glisp/v_reference.go:113-116 | `setReference(v)` makes `v` the content and answers true; the `asReference` updater and the older `setValue` do the same |
| `Values.ArrayProtocol` | cmd/glisp/v_array.go:28-44 | an in-bounds read gives the slot; a write changes only that slot and keeps the length, and a read after it sees the write; an out-of-bounds index, a missing or non-integer index and more than two arguments fail; every error leaves the content unchanged |
| `Values.ArrayApplyInPlace` | cmd/glisp/v_array.go:39-42 | the in-place write of `apply` leaves the array holding exactly the content `ArrayApply` describes, with its result |
| `Values.DictProtocol` | cmd/glisp/v_dict.go:30-49 | a write stores under its key only and a read after it sees it; reading a missing key fails; no arguments fail; more than two arguments fail without the key being examined; every error leaves the content unchanged |
| `Values.DictObj.constructor` | cmd/glisp/v_dict.go:12-14 | a new dictionary holds the given content |
| `Values.DictObj.Apply` | cmd/glisp/v_dict.go:30-49 | a dictionary's `apply` returns and leaves exactly what `DictApply` gives for the old content |
| `Values.LayerBindingsMeaning` | cmd/glisp/env.go:35-47 | a layered frame binds exactly the given names; each name gets the argument at the last position it occupies, or Nil when the arguments run out first |
| `Values.LayerWithoutValues` | cmd/glisp/env.go:36-44 | layering with no values binds every name to Nil |
| `Values.Frame.constructor` | cmd/glisp/env.go:35-47 | a new frame has the given bindings and parent, and its parent chain is finite |
| `Values.Frame.Chain` | cmd/glisp/env.go:10-20 | the frames `find` visits: this frame first, each next frame the parent of the one before, ending at a frame without a parent, and at most `depth + 1` of them |
| `Values.Frame.ResolveInnermost` | cmd/glisp/env.go:10-20 | resolving a name succeeds exactly when some frame of the chain binds it, and then gives the binding of the innermost such frame; otherwise it fails with "no such identifier" |
| `Values.Frame.Find` | cmd/glisp/env.go:10-20 | the `find` loop up the parent links returns exactly the resolution of the name |
| `Values.Frame.Lookup` | cmd/glisp/env.go:22-29 | `lookup` succeeds exactly when this frame binds the name, with that binding, and otherwise fails with "no such identifier" |
| `Values.Frame.LookupIsLocal` | cmd/glisp/env.go:22-29 | `lookup` agrees with `find` on the names this frame binds and fails on the others, whatever the parents bind |
| `Values.Frame.Update` | cmd/glisp/env.go:31-33 | `update` changes this frame's binding of the name only; the other keys and every other frame are unchanged |
| `Values.Frame.Layer` | cmd/glisp/env.go:35-47 | `layer` gives a fresh frame whose parent is the receiver and whose bindings are those of `LayerBindings`, leaving the receiver alone |
| `Reader.TrimSpaceMeaning` | cmd/glisp/reader.go:8-19 | `strings.TrimSpace`: the result is a slice of the input with only white space before and after it, and it neither starts nor ends with white space |
| `Reader.ReadToken` | cmd/glisp/reader.go:8-19 | on a match the token and the rest make up the trimmed input and the rest is shorter than the input; on no match the token is empty and the original input comes back unchanged |
| `Reader.ReadChar` | cmd/glisp/reader.go:21-30 | success means the trimmed input starts with the character and the rest follows it; failure gives back the original input |
| `Reader.Read` | cmd/glisp/reader.go:109-158 | a successful read always consumes input, so the reader's recursion and `readList`'s loop make progress |
| `Reader.ReadItems` | cmd/glisp/reader.go:88-107 | the text left after reading a run of items is never longer than the input |
| `Reader.ReadList` | cmd/glisp/reader.go:88-107 | the in-place list-growing loop returns the proper list of the values read one after another until a read fails, and the text at which that read failed |
| `Reader.ReadSeesTrimmedInput` | cmd/glisp/reader.go:109-158 | two inputs that trim to the same text read alike |
| `Reader.ReadSkipsLeadingSpace` | cmd/glisp/reader.go:8-19 | white space in front of the input makes no difference to `read` |
| `Reader.ReadIntegerText` | cmd/glisp/reader.go:64-72 | text `-?[0-9]+` not followed by a digit reads as that integer, and the rest of the input, without its trailing white space, remains |
| `Reader.MinusSign` | cmd/glisp/reader.go:115-122 | `-5` reads as the integer -5, while a lone `-` reads as the symbol `-`, because integers are tried before symbols |
| `Reader.ReadQuoteShorthand` | cmd/glisp/reader.go:131-139 | `'e` reads as the two-element list `(quote e)`, and an error reading `e` is the error of the whole |
| `Reader.ReadParenthesised` | cmd/glisp/reader.go:140-155 | after `(` the values read in order form a proper list, which is the result when a `)` follows them; otherwise the read fails with "missing closing parenthesis" |
| `Reader.CannotRead` | cmd/glisp/reader.go:157 | empty input, or input whose first character is `)`, fails with "Cannot read input" |
| `Reader.ReadStringLiteral` | cmd/glisp/reader.go:55-62 | a quoted text of at least one character that is neither a newline nor a quote reads as the String of the text between the quotes |
| `Reader.EmptyStringLiteral` | cmd/glisp/reader.go:55-62 | `""` is no string literal, and nothing else reads it either |
| `Reader.ReadBooleanText` | cmd/glisp/reader.go:74-86 | `#t`/`#T` read as true and `#f`/`#F` as false, whatever follows them |
| `Reader.ReadSymbolText` | cmd/glisp/reader.go:46-53 | a name of symbol characters that is not a number, followed by a delimiter, reads as that symbol |
| `Reader.DisplayReadRoundTrip` | cmd/glisp/reader.go:109-158 | reading the display of any value made of atoms and proper lists (with readable names and strings), followed by white space, `)` or nothing, gives back that value and the rest without its trailing white space |
| `Parser.FreshNamesDistinct` | cmd/glisp/parser.go:20-27 | names drawn at different counter values differ |
| `Parser.FreshCounter.Fresh` | cmd/glisp/parser.go:20-27 | `fresh` returns the prefix followed by the counter and then advances the counter by one |
| `Parser.LetStarOf` | cmd/glisp/parser.go:427-433 | the `let*` desugaring draws exactly one fresh name per binding |
| `Parser.DoOf` | cmd/glisp/parser.go:513-522 | the `do` desugaring draws no name for an empty `do` and two names per expression before the last otherwise |
| `Parser.MakeLetStar` | cmd/glisp/parser.go:427-433 | `makeLetStar`'s loop from the last binding to the first builds exactly the nested single-binding lets of `LetStarOf`, leaving the counter where `LetStarOf` says |
| `Parser.MakeDo` | cmd/glisp/parser.go:513-522 | `makeDo`'s loop builds exactly `DoOf`'s chain of lets over the last expression, leaving the counter where `DoOf` says |
| `Parser.SymbolsMeaning` | cmd/glisp/parser.go:482-496 | a symbol list parses exactly when it is a proper list of symbols, to their names in order; otherwise "expected symbol in list" (a non-symbol on the spine, reported first) or "malformed symbol list" |
| `Parser.ParseSymbols` | cmd/glisp/parser.go:482-496 | `parseSymbols`' loop gives exactly `SymbolsOf` |
| `Parser.ParseExprs` | cmd/glisp/parser.go:462-480 | `parseExprs`' loop gives exactly `ExprsOf`, with the same counter |
| `Parser.ParseBindings` | cmd/glisp/parser.go:352-381 | `parseBindings`' loop gives exactly `BindingsOf`, with the same counter |
| `Parser.ParseFunBindings` | cmd/glisp/parser.go:383-421 | `parseFunBindings`' loop gives exactly `FunBindingsOf`, with the same counter |
| `Parser.ParseExpr` | cmd/glisp/parser.go:82-120 | parsing never moves the fresh-name counter backwards |
| `Parser.Dispatch` | cmd/glisp/parser.go:82-120 | a cons cell is parsed by the form its head names (`quote`, `if`, `fn`, `let`, `let*`, `letrec`, `do`), with `let*` moving on to an application when it gives nil; any other head makes it an application |
| `Parser.MissingExactly` | cmd/glisp/parser.go:122-130 | the parse is the nil AST without error exactly for non-atoms that are not cells (Empty, Nil, the objects) and for cells whose head is no expression |
| `Parser.SpecialFormIsExpression` | cmd/glisp/parser.go:82-120 | a special form never parses to the nil AST |
| `Parser.QuoteForm` | cmd/glisp/parser.go:139-155 | `(quote x)` is `Quote(x)` unparsed; a missing operand is "malformed quote" and extra ones "too many arguments to quote"; no name is drawn |
| `Parser.IfForm` | cmd/glisp/parser.go:157-193 | `(if c t e)` parses the three operands left to right, threading the counter, and the first error wins |
| `Parser.IfArity` | cmd/glisp/parser.go:157-193 | `if` with fewer than three operands is "too few arguments to if" and with more "too many arguments to if" |
| `Parser.AnonymousFunctionForm` | cmd/glisp/parser.go:195-228 | `(fn (ps) b)` is a one-function `letrec` bound to `__temp_n`, with body that name; the name is drawn after the body is parsed, and the counter advances by one |
| `Parser.NamedFunctionForm` | cmd/glisp/parser.go:230-260 | `(fn name (ps) b)` is a one-function `letrec` bound to `name` itself, drawing no fresh name |
| `Parser.FunctionArity` | cmd/glisp/parser.go:195-228 | `(fn)` and `(fn params)` are "too few arguments to fun"; `(fn name)` reaches the unchecked head access |
| `Parser.LetForm` | cmd/glisp/parser.go:262-290 | `(let bindings body)` is the anonymous function of the names and body, applied to the initialisers |
| `Parser.LetStarForm` | cmd/glisp/parser.go:292-320 | `(let* bindings body)` is `LetStarOf` of the parsed bindings and body: nested single-binding lets in binding order, one fresh name each |
| `Parser.LetStarWithoutBindings` | cmd/glisp/parser.go:427-433 | `(let* () body)` is the body, and when the body is no expression the cell parses as an application of `let*` to nothing |
| `Parser.LetStarNests` | cmd/glisp/parser.go:292-320 | `let*` is sugar for nested `let`: a non-empty `let*` parses exactly as a `let` of its first binding over a `let*` of the rest, with the same errors and names, whenever the body is an expression |
| `Parser.LetStarBadFirstBinding` | cmd/glisp/parser.go:352-381 | a first binding that does not parse is reported alike by `let*` and by the nested `let` |
| `Parser.FirstBindingOf` | cmd/glisp/parser.go:352-381 | a binding that parses comes first in the names and initialisers of the binding list it heads |
| `Parser.LetStarFirstBinding` | cmd/glisp/parser.go:292-320 | a `let*` whose first binding parses is, in terms of its parts, a `let` of that binding over the rest |
| `Parser.LetOverLetStar` | cmd/glisp/parser.go:262-290 | a `let` of one binding over a `let*` of the rest is that same term |
| `Parser.LetRecForm` | cmd/glisp/parser.go:322-350 | `(letrec bindings body)` keeps the names, parameter lists and bodies as parsed |
| `Parser.DoForm` | cmd/glisp/parser.go:498-511 | `(do e ...)` parses the expressions first and then chains them with `DoOf` |
| `Parser.DoShortForms` | cmd/glisp/parser.go:498-522 | `(do)` is the nil literal, and `(do e)` is `e` itself, or the nil literal when `e` is no expression |
| `Parser.ApplyForm` | cmd/glisp/parser.go:444-460 | a cell whose head is no special-form keyword is the application of the parsed head to the parsed operands; a head that is no expression makes the whole cell nil |
| `Parser.NilArgumentDropsArguments` | cmd/glisp/parser.go:462-480 | `(f 1 () 2)` parses as `f` applied to no arguments |
| `Parser.ExprsShape` | cmd/glisp/parser.go:462-480 | an expression list parses either to one non-nil AST per element of a proper list, or to nothing |
| `Parser.BindingsShape` | cmd/glisp/parser.go:352-381 | a binding list that parses is a proper list of `(symbol expr)` pairs, and the names are theirs, in order |
| `Parser.FunBindingsShape` | cmd/glisp/parser.go:383-421 | a function binding list that parses is a proper list of `(symbol params expr)` triples, with their names and parameter lists in order and one body each |
| `Parser.ParseDef` | cmd/glisp/parser.go:29-80 | the result is "not a definition" exactly when the input is not a `def` form, and a value definition has no parameters |
| `Parser.DefForms` | cmd/glisp/parser.go:29-80 | `(def x e)` defines a value and `(def (f ps) b)` a function of those parameters, with errors of the parts passed on |
| `Parser.DefErrors` | cmd/glisp/parser.go:29-80 | the malformed `def` shapes, in the order they are checked: "too few arguments to def", "definition name not a symbol", "malformed def" |
| `Primitives.CheckMinArgs` | cmd/glisp/primitives.go:83-88 | fails exactly when there are fewer arguments than the minimum |
| `Primitives.CheckMaxArgs` | cmd/glisp/primitives.go:90-95 | fails exactly when there are more arguments than the maximum |
| `Primitives.CheckExactArgs` | cmd/glisp/primitives.go:97-102 | fails exactly when the argument count differs from the one required |
| `Primitives.ArityGate` | cmd/glisp/primitives.go:61-74 | the body may run exactly when the count lies between min and max (no upper bound when max is negative), and too few is reported before too many |
| `Primitives.CorePrimitives` | cmd/glisp/primitives.go:53-59 | the environment of primitives binds exactly the names of the core table, each to a new primitive with the arity and behaviour of the last row of that name |
| `Primitives.TableBindings` | cmd/glisp/primitives.go:53-59 | the names bound are exactly the table's names, each to a new primitive of the last row with that name |
| `Primitives.ListLength` | cmd/glisp/primitives.go:13-21 | `listLength` counts the cells up to the first non-cons |
| `Primitives.ListAppend` | cmd/glisp/primitives.go:23-42 | `listAppend(v1, v2)` is copies of the cells of `v1` in front of `v2` |
| `Primitives.ListAppendParts` | cmd/glisp/primitives.go:23-42 | appending keeps all cells of both operands in order and the second one's terminator; it is proper exactly when the second is; with no cells in `v1` it is `v2` itself |
| `Primitives.EqualPrim` | cmd/glisp/primitives.go:198-208 | `=` is true exactly when every later argument equals the first |
| `Primitives.ListPrim` | cmd/glisp/primitives.go:392-400 | `list` is the proper list of its arguments in order (Empty for none) |
| `Primitives.ConsPrim` | cmd/glisp/primitives.go:321-328 | `cons` succeeds exactly in front of a list, giving a cell with that head and tail whose elements are the head then the list's; otherwise a type error |
| `Primitives.HeadPrim` | cmd/glisp/primitives.go:368-378 | `head` succeeds exactly on a cell, with its first element; a non-list is a type error and Empty an empty-argument error |
| `Primitives.TailPrim` | cmd/glisp/primitives.go:380-390 | `tail` succeeds exactly on a cell, with its elements after the first and the same terminator; the errors are those of `head` |
| `Primitives.ConsHeadTail` | cmd/glisp/primitives.go:321-390 | `head` and `tail` take apart what `cons` builds, and the list of some elements yields them in order |
| `Primitives.AppendPrim` | cmd/glisp/primitives.go:330-348 | `append` of nothing is Empty; it succeeds exactly when every argument is a list, with the cells of all but the last in front of the last, uncopied; otherwise the error names the last non-list |
| `Primitives.AppendParts` | cmd/glisp/primitives.go:330-348 | the cells of an `append` are those of all its arguments in order, ending in the last argument's terminator |
| `Primitives.Reversed` | cmd/glisp/primitives.go:350-366 | the reversal has the same length and holds element `i` at position `n-1-i` |
| `Primitives.ReverseReverse` | cmd/glisp/primitives.go:350-366 | reversing twice gives back the original |
| `Primitives.ReverseConcat` | cmd/glisp/primitives.go:350-366 | reversal turns a concatenation around |
| `Primitives.ReversePrim` | cmd/glisp/primitives.go:350-366 | `reverse` of a proper list is the list of its elements reversed; a non-list is a type error and a list not ending in Empty is "malformed list" |
| `Primitives.LengthPrim` | cmd/glisp/primitives.go:402-418 | `length` of a proper list is its number of elements, with the errors of `reverse` |
| `Primitives.LengthReverseOfList` | cmd/glisp/primitives.go:392-418 | the list of `n` elements has length `n` and reverses to the list of the reversed elements |
| `Primitives.NthPrim` | cmd/glisp/primitives.go:420-442 | `nth` gives element `idx` when `0 <= idx < length` and "out of bound" otherwise; a non-list or non-integer index is a type error |
| `Primitives.EntriesKeys` | cmd/glisp/primitives.go:717-731 | the dictionary `dict` builds holds exactly the keys of its entries |
| `Primitives.EntriesLast` | cmd/glisp/primitives.go:717-731 | each key holds the value of its last entry |
| `Primitives.DictPrim` | cmd/glisp/primitives.go:717-731 | `dict` succeeds exactly when every argument is a `(symbol value)` entry, with the entries as content; otherwise it fails at the first item that is not |
| `Primitives.ApplyArguments` | cmd/glisp/primitives.go:300-318 | `apply` needs a function and a list; a list not ending in Empty is malformed; the call's arguments are the list's elements in order |
| `Primitives.AllConses` | cmd/glisp/primitives.go:44-51 | `allConses` is true exactly when every value is a cons cell |
| `Primitives.Rounds` | cmd/glisp/primitives.go:444-486 | `map` runs as many rounds as the shortest list has elements |
| `Primitives.KeptMembers` | cmd/glisp/primitives.go:520-556 | an element is kept by `filter` exactly when its answer is true |
| `Primitives.KeptConcat` | cmd/glisp/primitives.go:520-556 | filtering respects order: the kept elements of a concatenation are those of each part, one after the other |
| `Primitives.KeptExtremes` | cmd/glisp/primitives.go:520-556 | with all answers true everything is kept, and with all false nothing is |
| `Primitives.KeptIsFilter` | cmd/glisp/primitives.go:520-556 | when the answers are a pure predicate's truth on each element, `filter` keeps what the textbook filter keeps |
| `Primitives.FoldlSnoc` | cmd/glisp/primitives.go:594-617 | the left fold of a list with one more element is one more step of the fold |
| `Primitives.FoldlComputesFold` | cmd/glisp/primitives.go:594-617 | when every round answers a pure function of its arguments, `foldl`'s last accumulator is the textbook left fold |
| `Primitives.FoldrComputesFold` | cmd/glisp/primitives.go:558-592 | when every round answers a pure function of its arguments, `foldr`'s last accumulator, walking the reversed list from the front, is the textbook right fold |
| `Primitives.FoldrIsFoldlOfReversed` | cmd/glisp/primitives.go:558-592 | the rounds of `foldr` over a list are those of `foldl` over the reversed list with the arguments swapped |
| `Callbacks.MapStep` | cmd/glisp/primitives.go:444-486 | each list still has a cell at the round about to run; the heads of the current cells are that round's column; one more round keeps the bookkeeping |
| `Callbacks.MapAdvance` | cmd/glisp/primitives.go:444-486 | after `k` rounds every current cell holds element `k` of its list, and its tail is the rest of that list |
| `Callbacks.MapDone` | cmd/glisp/primitives.go:444-486 | when some current list has no further cell, `map` has run all its rounds |
| `Callbacks.FilterStep` | cmd/glisp/primitives.go:520-556 | the next call of `filter` is on the next element, and one more round keeps the bookkeeping |
| `Callbacks.FilterDone` | cmd/glisp/primitives.go:520-556 | when the walk has no further cell, `filter` has called on every element, the kept elements are those answered true, and the walk stands at the terminator |
| `Callbacks.AccumulatorExtend` | cmd/glisp/primitives.go:594-617 | a new answer leaves the earlier accumulators as they were and becomes the next one |
| `Callbacks.FoldCallsExtend` | cmd/glisp/primitives.go:594-617 | adding a round's call and answer keeps the earlier rounds' calls as they were |
| `Callbacks.FoldStep` | cmd/glisp/primitives.go:558-617 | the next call of a fold is that round's call, and one more round keeps the bookkeeping |
| `Callbacks.FoldDone` | cmd/glisp/primitives.go:558-617 | when the walk has no further cell, the fold has run one round per element |
| `Eval.FromDatum` | cmd/glisp/primitives.go:143-160 | a host primitive's plain-data answer becomes the value it stands for, never an object |
| `Eval.Eval` | cmd/glisp/ast.go:72-111 | literals and quotes give their value and identifiers their innermost binding at once, without fuel and leaving the store alone, and the nil AST is an error; every other form runs the trampoline, which repeats `evalPartial` until a value comes out, with the first error unchanged, and with no fuel is an out-of-fuel error |
| `Eval.EvalPartial` | cmd/glisp/ast.go:60-198 | one step by form: literals, quotes, identifiers and the nil AST finish with what `eval` gives them; `if` goes on by `IfStep` on the outcome of its test (the immediate answer when the test is a literal, quote or identifier); an application whose operator fails at once fails with that error, and one that goes on continues with the body of a closure of the right parameter count in a fresh frame over that closure's frame; `letrec` is the malformed error on unequal lengths and otherwise continues with its body in a fresh frame over the current one holding the recursive bindings |
| `Eval.EvalIf` | cmd/glisp/ast.go:117-127 | the test is evaluated once (at once, without touching the store, when it is a literal, quote or identifier; out of fuel when nothing is left for it); an error is the result; otherwise evaluation continues in the same frame with the then-branch when the test is true and the else-branch otherwise |
| `Eval.EvalArgs` | cmd/glisp/ast.go:142-148 | the operands are evaluated left to right, one outcome each, up to the first error, which is the result; otherwise the values are the outcomes in order; an operand that is a literal, quote or identifier has exactly `eval`'s immediate answer as its outcome |
| `Eval.EvalOperand` | cmd/glisp/ast.go:144 | one operand's outcome: the immediate answer of a literal, quote or identifier, out of fuel for any other form when none is left, and a value in the grown store beside the values before it |
| `Eval.EvalApply` | cmd/glisp/ast.go:137-161 | the operator is evaluated first (at once when it is a literal, quote or identifier) and its error is the result, with no operand evaluated; otherwise the outcome is that of `ApplyToOperands` on the operator's value |
| `Eval.ApplyToOperands` | cmd/glisp/ast.go:142-160 | the operands left to right with the first error as the result; then a closure of a different parameter count is an arity error, and otherwise evaluation continues with its body in a fresh frame layering its parameters over the closure's frame; a host primitive answers the host's datum, a primitive refused by its arity gate that error, plain data "not applicable", and a reference, array or dictionary the answer of its protocol on what it held, leaving it holding what the protocol leaves |
| `Eval.ApplyOperator` | cmd/glisp/ast.go:149-160 | the second half of an application: a closure's arity check (failing without changing anything) and the continuation with its body, a host primitive's answer, the arity gate's error, "not applicable" for data, and for a reference, array or dictionary exactly its protocol's answer and new content on the old content, no other object changing |
| `Eval.EnterClosure` | cmd/glisp/v_function.go:26-31 | a closure's body runs in a fresh frame over the closure's frame binding its parameters to the arguments |
| `Eval.EvalAtOnce` | cmd/glisp/ast.go:89-103 | `eval` of a literal or quote is its value, of an identifier the `find` of its name, which is the innermost binding, and of the nil AST an error; a value found lives in the store |
| `Eval.EvalLetRec` | cmd/glisp/ast.go:187-198 | unequal numbers of names, parameter lists and bodies is an error; otherwise one new frame over the current one binds every name to a closure of its parameters and body capturing that same frame, and evaluation continues with the body there |
| `Eval.BindRecursive` | cmd/glisp/ast.go:187-198 | rebinding every placeholder to a new closure over the frame leaves each name bound to its closure (the last one for a repeated name) |
| `Eval.BindStep` | cmd/glisp/ast.go:187-198 | one rebinding keeps the bookkeeping of the rebinding loop |
| `Eval.Callback` | cmd/glisp/primitives.go:444-486 | a function argument called back by a primitive grows the store and answers a value in it |
| `Eval.ApplyValue` | cmd/glisp/v_function.go:26-31 | `apply` of each kind of value: a closure's arity check and a primitive's arity gate, each failing without changing anything, a host primitive's answer, the read/write protocols of references, arrays and dictionaries touching that object only, and "not applicable" for data |
| `Eval.CallClosure` | cmd/glisp/v_function.go:26-31 | a closure called with the wrong number of arguments fails with the arity error and leaves the store and every frame, reference, array and dictionary unchanged |
| `Eval.ApplyReference` | cmd/glisp/v_reference.go:23-32 | a reference's `apply` within a closed store follows `ReferenceApply` |
| `Eval.ApplyArray` | cmd/glisp/v_array.go:28-44 | an array's `apply` within a closed store follows `ArrayApply` |
| `Eval.ApplyDict` | cmd/glisp/v_dict.go:30-49 | a dictionary's `apply` within a closed store follows `DictApply` |
| `Eval.ApplyPrimitive` | cmd/glisp/primitives.go:61-74 | the arity gate answers first, and a call it refuses changes nothing; a host primitive's answer is the host's |
| `Eval.PlainPrimitive` | cmd/glisp/primitives.go:143-160 | a primitive that neither allocates nor calls back answers a value of the store; a host primitive answers the host's datum |
| `Eval.AllocatingPrimitive` | cmd/glisp/primitives.go:619-731 | `ref` gives a reference holding its argument, `array` an array holding exactly its arguments, and `dict` succeeds exactly when every argument is an entry, with the entries as content; the store only gains fresh objects |
| `Eval.CallingPrimitive` | cmd/glisp/primitives.go:300-318 | the calling primitives grow the store and answer a value in it |
| `Eval.NewReference` | cmd/glisp/primitives.go:619-629 | `ref` gives a fresh reference holding its argument |
| `Eval.NewArray` | cmd/glisp/primitives.go:701-709 | `array` gives a fresh array holding exactly its arguments in order |
| `Eval.NewDict` | cmd/glisp/primitives.go:717-731 | `dict` succeeds exactly when every argument is an entry, with a fresh dictionary of the entries |
| `Eval.ApplyPrim` | cmd/glisp/primitives.go:300-318 | `apply` checks for a function and a proper list, then makes one call on the list's elements; a closure of another arity fails |
| `Eval.CheckLists` | cmd/glisp/primitives.go:444-486 | no error exactly when every argument after the function is a list; otherwise the first that is not is reported |
| `Eval.MapRound` | cmd/glisp/primitives.go:444-486 | one round of `map` calls the function on the heads of the current cells and advances every list by a cell |
| `Eval.RunRounds` | cmd/glisp/primitives.go:444-486 | round `k` calls the function on column `k` of the lists until one list runs out; the first error stops it, otherwise there is one answer per round and the answers are the outcome |
| `Eval.MapPrim` | cmd/glisp/primitives.go:444-486 | `map` needs a function and lists; it makes one call per round on that round's column, as many rounds as the shortest list, and returns the answers as a list in order, or the first error |
| `Eval.ForPrim` | cmd/glisp/primitives.go:488-518 | `for` makes the calls of `map` and returns Nil when all succeed |
| `Eval.FilterRound` | cmd/glisp/primitives.go:520-556 | one round of `filter` calls the function on the next element and keeps it when the answer is true |
| `Eval.FilterRounds` | cmd/glisp/primitives.go:520-556 | the function is called on each element in turn; the first error stops it, otherwise the outcome is the elements answered true, in order, and what follows the last cell |
| `Eval.FilterPrim` | cmd/glisp/primitives.go:520-556 | `filter` needs a function and a list; it calls on each element, fails on a list not ending in Empty, and returns the elements answered true in order |
| `Eval.FoldRound` | cmd/glisp/primitives.go:558-617 | one round of a fold: the call on the accumulator and the next element in the fold's order, whose answer is the next accumulator |
| `Eval.FoldRounds` | cmd/glisp/primitives.go:558-617 | round `k` makes the fold's `k`-th call; the first error stops it, otherwise the result is the last accumulator and what follows the last cell |
| `Eval.FoldlPrim` | cmd/glisp/primitives.go:594-617 | `foldl` needs a function and a list; round `k` calls on the accumulator and element `k`; a list not ending in Empty fails after the calls; the result is the last accumulator |
| `Eval.ReverseCells` | cmd/glisp/primitives.go:558-592 | `foldr`'s first loop conses the elements onto Empty, giving the reversed list, and stops at the terminator |
| `Eval.FoldrPrim` | cmd/glisp/primitives.go:558-592 | `foldr` needs a function and a list; a list not ending in Empty fails before any call; round `k` calls on element `k` from the end and the accumulator; the result is the last accumulator |

## Left out

- The REPL, shell and engine (`engine.go`, `shell.go`): reading standard input, printing and `os.Exit`. The model covers what they call: `read`, `parseDef`, `parseExpr`, the evaluator and `update`.
- `tests.go`: print-only smoke tests with no assertions.
- The bodies of the host primitives, treated as the pure parameter `host`:
  - arithmetic and comparisons, whose 64-bit wrap-around is not modelled (integers are unbounded);
  - `not` and the string primitives; `string-lower` and `string-upper` depend on Unicode case mapping;
  - the type predicates and `type`;
  - `quit`, which exits the process.
- `v_primitive.go`: a primitive only delegates to its Go function, so a primitive is its name, arity range and behaviour tag.
- `strconv.Atoi` overflow: integers are unbounded.
- Go's regular-expression engine: each token pattern is modelled by its character classes and a longest-match length.
- `str()` diagnostic renderings, and error messages that embed them: errors that name a value carry its display or only the primitive's name.
- `Display` of references, arrays and dictionaries: `#<ref …>` and `#[…]` display the object's current content, which lives in the heap and may hold the object itself (a reference stored in itself makes Go's `Display` recurse without end), so they are no function of the value; dictionary output also depends on Go's map iteration order.
- In-place growth of cons cells through `setTail` (`NewMutableCons`, `listAppend`, `readList`, `map`, `filter`): cons cells are values, so the list is built once from the collected elements. Aliasing of those fresh cells, which no one else can see, is not modelled.
- `getValue`/`setValue` of the older snapshot appear only as the content of `RefCell`; on other variants they panic, and that path is not modelled.
- The second end-of-list check of `foldr` on its reversed list: that list always ends in Empty, so the check cannot fail.
- Eval.Eval: its contract states the immediate forms (literals, quotes, identifiers, the nil AST) and no fuel; for `if`, applications and `letrec` it states only that the value lives in the grown store, because the steps themselves are stated by `EvalIf`, `EvalApply` and `EvalLetRec`, and a relation over the whole run would need a definition of evaluation as a function, which the mutable heap rules out.
- Eval.EvalPartial: for an application it states the operator's immediate error and the closure continuation; the operand outcomes and the answers of other operators are stated on `EvalApply` and `ApplyToOperands`, not repeated here. For `if` whose test is no immediate form, it states that the step is `IfStep` of some outcome, which `EvalIf` names.
- Eval.EvalIf: the outcome of a test that is no immediate form is stated only through `Eval`'s contract (store growth, out of fuel), for the reason given for `Eval.Eval`.
- Eval.EvalArgs: an operand that is no immediate form has its outcome stated only through `Eval`'s contract, for the reason given for `Eval.Eval`; that such an operand is out of fuel when the application had one unit left is stated on `EvalOperand` but not carried up to the list.
- Eval.EvalApply: as for `Eval.EvalArgs`, for the operator and the operands.
- Eval.ApplyToOperands: a reference, array or dictionary answers by its protocol on some earlier content, the one it held when applied; since evaluating the operands may have changed it, that content is not named in terms of the state before the application.
- Eval.Callback: states only that the store grows and the answer lives in it; what a called-back closure computes is not a function of its arguments once references, arrays and dictionaries can change.
- Eval.MapPrim: the answers are tied to the calls made, round by round, but not to what the function computes on each call, for the reason given for `Eval.Callback`.
- Eval.ForPrim: as for `Eval.MapPrim`.
- Eval.FilterPrim: as for `Eval.MapPrim`; the link from answers to a pure predicate is `Primitives.KeptIsFilter`.
- Eval.FoldlPrim: as for `Eval.MapPrim`; the link to a pure fold is `Primitives.FoldlComputesFold`.
- Eval.FoldrPrim: as for `Eval.MapPrim`; the link to a pure fold is `Primitives.FoldrComputesFold`.
- Eval.ApplyPrimitive: states the arity gate and the host primitives; which modelled body runs for each behaviour tag is stated by the body methods, not repeated here.
- Eval.PlainPrimitive: states the host case and that the answer lives in the store; the other bodies' contracts are those of the `Primitives` methods it calls.
- Eval.CallingPrimitive: states only store growth; the contracts of `apply`, `map`, `for`, `filter`, `foldl` and `foldr` are on `ApplyPrim`, `MapPrim`, `ForPrim`, `FilterPrim`, `FoldlPrim` and `FoldrPrim`.
- Reader.Read: its own contract states only progress; what it reads is stated by the `Reader` lemmas in the table.
- Parser.ParseExpr: its own contract states only that the counter does not move backwards; what each form parses to is stated by the `Parser` lemmas in the table.
