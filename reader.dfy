/**
 * The reader: text to s-expression values.  Every token reader first trims
 * white space from BOTH ends of its input (Go's `strings.TrimSpace`) and then
 * matches an anchored regular expression at the start of what is left; the
 * regular expressions are modelled by their character classes.  Text is a
 * sequence of code points.
 */
module Reader {
  import opened Wrappers
  import opened Numerals
  import opened Values
  import opened Sequences

  // ---------------------------------------------------------------------
  // Characters and trimming
  // ---------------------------------------------------------------------

  /** Go's `unicode.IsSpace`, the characters `strings.TrimSpace` removes. */
  predicate IsSpace(c: char) {
    c == '\t' || c == '\n' || c == '\U{0B}' || c == '\U{0C}' || c == '\r' || c == ' '
    || c == '\U{85}' || c == '\U{A0}' || c == '\U{1680}' || ('\U{2000}' <= c <= '\U{200A}')
    || c == '\U{2028}' || c == '\U{2029}' || c == '\U{202F}' || c == '\U{205F}' || c == '\U{3000}'
  }

  /** The `\s` class of Go's regular expressions: `[\t\n\f\r ]`. */
  predicate IsRegexSpace(c: char) {
    c == '\t' || c == '\n' || c == '\U{0C}' || c == '\r' || c == ' '
  }

  predicate AllSpace(s: string) { forall k :: 0 <= k < |s| ==> IsSpace(s[k]) }

  function TrimLeft(s: string): (r: string)
    ensures |r| <= |s|
    ensures r == [] || !IsSpace(r[0])
  {
    if |s| > 0 && IsSpace(s[0]) then TrimLeft(s[1..]) else s
  }

  function TrimRight(s: string): (r: string)
    ensures |r| <= |s|
    ensures r == [] || !IsSpace(r[|r| - 1])
  {
    if |s| > 0 && IsSpace(s[|s| - 1]) then TrimRight(s[..|s| - 1]) else s
  }

  /** Go's `strings.TrimSpace`. */
  function TrimSpace(s: string): (r: string)
    ensures |r| <= |s|
  {
    TrimLeft(TrimRight(s))
  }

  /**
   * `strings.TrimSpace` cuts the leading and the trailing white space off
   * its argument, and nothing else: what is left is a slice of the text
   * that starts and ends with a non-space character, or is empty.
   */
  lemma TrimSpaceMeaning(s: string)
    ensures var r := TrimSpace(s);
      && (exists i, j :: 0 <= i <= j <= |s| && r == s[i..j] && AllSpace(s[..i]) && AllSpace(s[j..]))
      && (r == [] || (!IsSpace(r[0]) && !IsSpace(r[|r| - 1])))
  {
    var t := TrimRight(s);
    var r := TrimLeft(t);
    TrimLeftKeepsEnd(t);
    var j := |t|;
    var i := j - |r|;
    TrimRightCut(s);
    TrimLeftCut(t);
    SliceOfPrefix(s, i, j);
    assert r == s[i..j] && AllSpace(s[..i]) && AllSpace(s[j..]);
    assert r == TrimSpace(s);
  }

  /** Left trimming cuts off a prefix of white space only. */
  lemma {:induction false} TrimLeftCut(s: string)
    ensures var n := |s| - |TrimLeft(s)|; TrimLeft(s) == s[n..] && AllSpace(s[..n])
    decreases |s|
  {
    if |s| > 0 && IsSpace(s[0]) {
      TrimLeftCut(s[1..]);
      var n := |s| - |TrimLeft(s)|;
      assert TrimLeft(s) == TrimLeft(s[1..]);
      assert s[1..][n - 1..] == s[n..];
      forall k | 0 <= k < n ensures IsSpace(s[..n][k]) {
        if k > 0 { assert s[..n][k] == s[1..][..n - 1][k - 1]; }
      }
    }
  }

  /** Right trimming cuts off a suffix of white space only. */
  lemma {:induction false} TrimRightCut(s: string)
    ensures var n := |TrimRight(s)|; TrimRight(s) == s[..n] && AllSpace(s[n..])
    decreases |s|
  {
    if |s| > 0 && IsSpace(s[|s| - 1]) {
      var t := s[..|s| - 1];
      TrimRightCut(t);
      var n := |TrimRight(s)|;
      assert TrimRight(s) == TrimRight(t);
      assert t[..n] == s[..n];
      forall k | 0 <= k < |s| - n ensures IsSpace(s[n..][k]) {
        if n + k < |s| - 1 { assert s[n..][k] == t[n..][k]; }
      }
    }
  }

  /** Left trimming a text that ends in a non-space keeps that end. */
  lemma {:induction false} TrimLeftKeepsEnd(s: string)
    requires s == [] || !IsSpace(s[|s| - 1])
    ensures TrimLeft(s) == [] || !IsSpace(TrimLeft(s)[|TrimLeft(s)| - 1])
  {
    TrimLeftCut(s);
  }

  // ---------------------------------------------------------------------
  // Tokens
  // ---------------------------------------------------------------------

  /** The five regular expressions the reader matches. */
  datatype Token =
    | IntegerToken  // -?[0-9]+
    | SymbolToken   // [^"'()#\s]+
    | StringToken   // "[^\n"]+"
    | TrueToken     // #(?:t|T)
    | FalseToken    // #(?:f|F)

  predicate IsSymbolChar(c: char) {
    c != '"' && c != '\'' && c != '(' && c != ')' && c != '#' && !IsRegexSpace(c)
  }

  predicate IsStringChar(c: char) {
    c != '\n' && c != '"'
  }

  /** Length of the longest prefix of digits. */
  function DigitPrefix(s: string): (n: nat)
    ensures n <= |s| && AllDigits(s[..n]) && (n < |s| ==> !IsDigit(s[n]))
  {
    if |s| > 0 && IsDigit(s[0]) then
      var n := 1 + DigitPrefix(s[1..]);
      assert s[..n] == [s[0]] + s[1..][..n - 1];
      n
    else 0
  }

  /** Length of the longest prefix of symbol characters. */
  function SymbolPrefix(s: string): (n: nat)
    ensures n <= |s| && (forall k :: 0 <= k < n ==> IsSymbolChar(s[k])) && (n < |s| ==> !IsSymbolChar(s[n]))
  {
    if |s| > 0 && IsSymbolChar(s[0]) then 1 + SymbolPrefix(s[1..]) else 0
  }

  /** Length of the longest prefix of characters allowed inside a string literal. */
  function StringPrefix(s: string): (n: nat)
    ensures n <= |s| && (forall k :: 0 <= k < n ==> IsStringChar(s[k])) && (n < |s| ==> !IsStringChar(s[n]))
  {
    if |s| > 0 && IsStringChar(s[0]) then 1 + StringPrefix(s[1..]) else 0
  }

  /**
   * Length of the match of `t` at the start of `ss`, 0 when there is none.
   * The matches are leftmost-first: `-?` takes the minus sign whenever a digit
   * follows it, and the greedy run inside a string literal can only end at a
   * quote, so no other split could succeed.
   */
  function MatchLength(t: Token, ss: string): (n: nat)
    ensures n <= |ss|
  {
    match t
    case IntegerToken =>
      if |ss| >= 2 && ss[0] == '-' && IsDigit(ss[1]) then 1 + DigitPrefix(ss[1..]) else DigitPrefix(ss)
    case SymbolToken => SymbolPrefix(ss)
    case StringToken =>
      if |ss| > 0 && ss[0] == '"' then
        var k := StringPrefix(ss[1..]);
        if k >= 1 && k + 1 < |ss| && ss[k + 1] == '"' then k + 2 else 0
      else 0
    case TrueToken => if |ss| >= 2 && ss[0] == '#' && (ss[1] == 't' || ss[1] == 'T') then 2 else 0
    case FalseToken => if |ss| >= 2 && ss[0] == '#' && (ss[1] == 'f' || ss[1] == 'F') then 2 else 0
  }

  /** An integer match has the shape Atoi accepts. */
  lemma IntegerMatchShape(ss: string)
    requires MatchLength(IntegerToken, ss) > 0
    ensures var tok := ss[..MatchLength(IntegerToken, ss)];
      if tok[0] == '-' then AllDigits(tok[1..]) else AllDigits(tok)
  {
    var n := MatchLength(IntegerToken, ss);
    if |ss| >= 2 && ss[0] == '-' && IsDigit(ss[1]) {
      assert ss[..n][1..] == ss[1..][..n - 1];
    }
  }

  /**
   * `readToken`: on a match, the matched text of the trimmed input and what
   * follows it; on no match, an empty token and the ORIGINAL input.
   */
  function ReadToken(t: Token, s: string): (r: (string, string))
    ensures r.0 == "" ==> r.1 == s
    ensures r.0 != "" ==> r.0 + r.1 == TrimSpace(s) && |r.1| < |s|
  {
    var ss := TrimSpace(s);
    var n := MatchLength(t, ss);
    if n == 0 then ("", s) else (ss[..n], ss[n..])
  }

  /** `readChar`: is `c` the first character of the trimmed input; on success the text after it. */
  function ReadChar(c: char, s: string): (r: (bool, string))
    ensures !r.0 ==> r.1 == s
    ensures r.0 ==> var ss := TrimSpace(s); |ss| > 0 && ss[0] == c && r.1 == ss[1..]
  {
    var ss := TrimSpace(s);
    if |ss| > 0 && ss[0] == c then (true, ss[1..]) else (false, s)
  }


  /** A token reader gives exactly `tok` and `rest` when the trimmed input is `tok + rest` and the match covers `tok`. */
  lemma TokenIs(t: Token, s: string, tok: string, rest: string)
    requires TrimSpace(s) == tok + rest && |tok| > 0 && MatchLength(t, TrimSpace(s)) == |tok|
    ensures ReadToken(t, s) == (tok, rest)
  {
    SplitConcat(tok, rest);
  }

  // The single-value readers give `None` and the original input when they do not apply.

  function ReadSymbol(s: string): (r: (Option<Value>, string))
    ensures r.0.None? ==> r.1 == s
    ensures r.0.Some? ==> |r.1| < |s|
  {
    var (tok, rest) := ReadToken(SymbolToken, s);
    if tok == "" then (None, s) else (Some(Symbol(tok)), rest)
  }

  function ReadString(s: string): (r: (Option<Value>, string))
    ensures r.0.None? ==> r.1 == s
    ensures r.0.Some? ==> |r.1| < |s|
  {
    var (tok, rest) := ReadToken(StringToken, s);
    if tok == "" then (None, s) else (Some(String(tok[1..|tok| - 1])), rest)
  }

  function ReadInteger(s: string): (r: (Option<Value>, string))
    ensures r.0.None? ==> r.1 == s
    ensures r.0.Some? ==> |r.1| < |s|
  {
    var (tok, rest) := ReadToken(IntegerToken, s);
    if tok == "" then (None, s)
    else
      IntegerMatchShape(TrimSpace(s));
      (Some(Integer(ParseInteger(tok))), rest)
  }

  function ReadBoolean(s: string): (r: (Option<Value>, string))
    ensures r.0.None? ==> r.1 == s
    ensures r.0.Some? ==> |r.1| < |s|
  {
    var (t, rest) := ReadToken(TrueToken, s);
    if t != "" then (Some(Boolean(true)), rest)
    else
      var (f, rest') := ReadToken(FalseToken, s);
      if f != "" then (Some(Boolean(false)), rest') else (None, s)
  }

  /** The four atom readers, tried in the order `read` tries them; the first that applies wins. */
  function ReadAtom(s: string): (r: (Option<Value>, string))
    ensures r.0.None? ==> r.1 == s
    ensures r.0.Some? ==> |r.1| < |s|
  {
    var (i, restI) := ReadInteger(s);
    if i.Some? then (i, restI)
    else
      var (sym, restS) := ReadSymbol(s);
      if sym.Some? then (sym, restS)
      else
        var (str, restT) := ReadString(s);
        if str.Some? then (str, restT) else ReadBoolean(s)
  }

  // ---------------------------------------------------------------------
  // read and readList
  // ---------------------------------------------------------------------

  datatype ReadResult = Success(value: Value, rest: string) | Failure(msg: string)

  /**
   * `read`: an atom (integer, symbol, string, boolean, in that order), then
   * the quote shorthand, then a parenthesised list.  (The source's failure
   * results also carry the original input as the rest; `readList` returns
   * that text, which `ReadItems` takes from its own argument.)
   */
  function Read(s: string): (r: ReadResult)
    ensures r.Success? ==> |r.rest| < |s|
    decreases |s|, 1
  {
    var (atom, restA) := ReadAtom(s);
    if atom.Some? then Success(atom.value, restA)
    else
      var (quote, restQ) := ReadChar('\'', s);
      if quote then
        match Read(restQ)
        case Failure(msg) => Failure(msg)
        case Success(e, rest) => Success(Cons(Symbol("quote"), Cons(e, Empty)), rest)
      else
        var (lp, restL) := ReadChar('(', s);
        if lp then
          var (items, restItems) := ReadItems(restL);
          var (rp, restR) := ReadChar(')', restItems);
          if !rp then Failure("missing closing parenthesis") else Success(ListOf(items), restR)
        else Failure("Cannot read input")
  }

  /**
   * What `readList` collects: values read one after another until a read
   * fails (its error is dropped), and the input of that failing read.
   */
  function ReadItems(s: string): (r: (seq<Value>, string))
    ensures |r.1| <= |s|
    decreases |s|, 2
  {
    match Read(s)
    case Failure(_) => ([], s)
    case Success(v, rest) =>
      var (vs, restAll) := ReadItems(rest);
      ([v] + vs, restAll)
  }

  /**
   * `readList`: reads values until a read fails and returns them as a proper
   * list (Empty when there are none) with the text that could not be read.
   * It never fails itself.
   */
  method ReadList(s: string) returns (list: Value, rest: string)
    ensures list == ListOf(ReadItems(s).0) && rest == ReadItems(s).1
  {
    var items: seq<Value> := [];
    rest := s;
    var r := Read(rest);
    ConcatEmpty(ReadItems(s).0);
    while r.Success?
      invariant r == Read(rest)
      invariant ReadItems(s) == (items + ReadItems(rest).0, ReadItems(rest).1)
      decreases |rest|
    {
      assert ReadItems(rest) == ([r.value] + ReadItems(r.rest).0, ReadItems(r.rest).1);
      ConcatAssoc(items, [r.value], ReadItems(r.rest).0);
      items := items + [r.value];
      rest := r.rest;
      r := Read(rest);
    }
    ConcatEmpty(items);
    list := ListOf(items);
  }

  // ---------------------------------------------------------------------
  // Facts about trimming
  // ---------------------------------------------------------------------

  lemma {:induction false} TrimLeftSpaces(w: string, x: string)
    requires AllSpace(w)
    ensures TrimLeft(w + x) == TrimLeft(x)
    decreases |w|
  {
    if |w| == 0 {
      ConcatEmpty(x);
    } else {
      DropFirst(w, x);
      assert AllSpace(w[1..]) by {
        forall k | 0 <= k < |w[1..]| ensures IsSpace(w[1..][k]) {
          assert w[1..][k] == w[k + 1];
        }
      }
      TrimLeftSpaces(w[1..], x);
    }
  }

  lemma TrimLeftKeeps(x: string)
    requires x == [] || !IsSpace(x[0])
    ensures TrimLeft(x) == x
  {
  }

  /** Trailing white space of `r` is all that trimming removes on the right, when `r` follows a non-space. */
  lemma {:induction false} TrimRightAfter(x: string, r: string)
    requires |x| > 0 && !IsSpace(x[|x| - 1])
    ensures TrimRight(x + r) == x + TrimRight(r)
    decreases |r|
  {
    if |r| == 0 {
      ConcatEmpty(x);
    } else {
      DropLast(x, r);
      if IsSpace(r[|r| - 1]) {
        TrimRightAfter(x, r[..|r| - 1]);
      }
    }
  }

  lemma {:induction false} TrimRightAppend(a: string, b: string)
    ensures TrimRight(b) != [] ==> TrimRight(a + b) == a + TrimRight(b)
    ensures TrimRight(b) == [] ==> TrimRight(a + b) == TrimRight(a)
    decreases |b|
  {
    if |b| == 0 {
      ConcatEmpty(a);
    } else {
      DropLast(a, b);
      if IsSpace(b[|b| - 1]) {
        TrimRightAppend(a, b[..|b| - 1]);
      }
    }
  }

  lemma TrimRightIdempotent(r: string)
    ensures TrimRight(TrimRight(r)) == TrimRight(r)
  {
  }

  lemma {:induction false} TrimRightPrefix(r: string)
    ensures TrimRight(r) == r[..|TrimRight(r)|]
    ensures TrimRight(r) != [] ==> TrimRight(r)[0] == r[0]
    decreases |r|
  {
    if |r| > 0 && IsSpace(r[|r| - 1]) {
      TrimRightPrefix(r[..|r| - 1]);
      assert r[..|r| - 1][..|TrimRight(r)|] == r[..|TrimRight(r)|];
    }
  }

  /**
   * Trimming text that starts and ends with a non-space, followed by `r`,
   * gives that text followed by `r` without its trailing white space.
   */
  lemma TrimEnds(x: string, r: string)
    requires |x| > 0 && !IsSpace(x[0]) && !IsSpace(x[|x| - 1])
    ensures TrimSpace(x + r) == x + TrimRight(r)
  {
    TrimRightAfter(x, r);
    DropFirst(x, TrimRight(r));
    TrimLeftKeeps(x + TrimRight(r));
  }

  /** Leading white space makes no difference to `strings.TrimSpace`. */
  lemma TrimSpaceLeading(w: string, s: string)
    requires AllSpace(w)
    ensures TrimSpace(w + s) == TrimSpace(s)
  {
    TrimRightAppend(w, s);
    if TrimRight(s) != [] {
      TrimLeftSpaces(w, TrimRight(s));
    } else {
      TrimRightOfSpaces(w);
    }
  }

  lemma {:induction false} TrimRightOfSpaces(w: string)
    requires AllSpace(w)
    ensures TrimRight(w) == []
    decreases |w|
  {
    if |w| > 0 {
      var front := w[..|w| - 1];
      assert AllSpace(front) by {
        forall k | 0 <= k < |front| ensures IsSpace(front[k]) {
          assert front[k] == w[k];
        }
      }
      TrimRightOfSpaces(front);
    }
  }

  // ---------------------------------------------------------------------
  // What read gives for each shape of input
  // ---------------------------------------------------------------------

  lemma TokenSeesTrimmedInput(t: Token, s1: string, s2: string)
    requires TrimSpace(s1) == TrimSpace(s2)
    ensures ReadToken(t, s1).0 == ReadToken(t, s2).0
    ensures ReadToken(t, s1).0 != "" ==> ReadToken(t, s1).1 == ReadToken(t, s2).1
  {
  }

  /** The atom readers see only the trimmed input. */
  lemma AtomSeesTrimmedInput(s1: string, s2: string)
    requires TrimSpace(s1) == TrimSpace(s2)
    ensures ReadAtom(s1).0 == ReadAtom(s2).0
    ensures ReadAtom(s1).0.Some? ==> ReadAtom(s1).1 == ReadAtom(s2).1
  {
    TokenSeesTrimmedInput(IntegerToken, s1, s2);
    TokenSeesTrimmedInput(SymbolToken, s1, s2);
    TokenSeesTrimmedInput(StringToken, s1, s2);
    TokenSeesTrimmedInput(TrueToken, s1, s2);
    TokenSeesTrimmedInput(FalseToken, s1, s2);
  }

  /** `read` sees only the trimmed input. */
  lemma ReadSeesTrimmedInput(s1: string, s2: string)
    requires TrimSpace(s1) == TrimSpace(s2)
    ensures Read(s1) == Read(s2)
  {
    AtomSeesTrimmedInput(s1, s2);
  }

  /** White space in front of the input makes no difference to `read`. */
  lemma ReadSkipsLeadingSpace(w: string, s: string)
    requires AllSpace(w)
    ensures Read(w + s) == Read(s)
  {
    TrimSpaceLeading(w, s);
    ReadSeesTrimmedInput(w + s, s);
  }

  /** No atom starts with a character that cannot begin a number, a symbol, a string or a boolean. */
  lemma NoAtomAt(s: string)
    requires var ss := TrimSpace(s);
      |ss| > 0 && !IsDigit(ss[0]) && ss[0] != '-' && !IsSymbolChar(ss[0]) && ss[0] != '"' && ss[0] != '#'
    ensures ReadAtom(s) == (None, s)
  {
    var ss := TrimSpace(s);
    assert MatchLength(IntegerToken, ss) == 0;
    assert MatchLength(SymbolToken, ss) == 0;
    assert MatchLength(StringToken, ss) == 0;
    assert MatchLength(TrueToken, ss) == 0;
    assert MatchLength(FalseToken, ss) == 0;
  }

  lemma {:induction false} DigitRunIs(d: string, r: string)
    requires AllDigits(d)
    requires r == [] || !IsDigit(r[0])
    ensures DigitPrefix(d + r) == |d|
    decreases |d|
  {
    if |d| == 0 {
      ConcatEmpty(r);
    } else {
      DropFirst(d, r);
      DigitRunIs(d[1..], r);
    }
  }

  lemma {:induction false} SymbolRunIs(n: string, r: string)
    requires forall k :: 0 <= k < |n| ==> IsSymbolChar(n[k])
    requires r == [] || !IsSymbolChar(r[0])
    ensures SymbolPrefix(n + r) == |n|
    decreases |n|
  {
    if |n| == 0 {
      ConcatEmpty(r);
    } else {
      DropFirst(n, r);
      SymbolRunIs(n[1..], r);
    }
  }

  lemma {:induction false} StringRunIs(body: string, r: string)
    requires forall k :: 0 <= k < |body| ==> IsStringChar(body[k])
    requires r == [] || !IsStringChar(r[0])
    ensures StringPrefix(body + r) == |body|
    decreases |body|
  {
    if |body| == 0 {
      ConcatEmpty(r);
    } else {
      DropFirst(body, r);
      StringRunIs(body[1..], r);
    }
  }

  /** Whatever atom is read is the result of `read`. */
  lemma AtomIsRead(s: string)
    requires ReadAtom(s).0.Some?
    ensures Read(s) == Success(ReadAtom(s).0.value, ReadAtom(s).1)
  {
  }

  lemma IntegerAtom(s: string, tok: string, rest: string)
    requires ReadToken(IntegerToken, s) == (tok, rest) && IntegerText(tok)
    ensures ReadAtom(s) == (Some(Integer(ParseInteger(tok))), rest)
  {
  }

  lemma SymbolAtom(s: string, tok: string, rest: string)
    requires MatchLength(IntegerToken, TrimSpace(s)) == 0
    requires ReadToken(SymbolToken, s) == (tok, rest) && tok != ""
    ensures ReadAtom(s) == (Some(Symbol(tok)), rest)
  {
    assert ReadInteger(s).0.None?;
  }

  lemma StringAtom(s: string, tok: string, rest: string)
    requires MatchLength(IntegerToken, TrimSpace(s)) == 0 && MatchLength(SymbolToken, TrimSpace(s)) == 0
    requires ReadToken(StringToken, s) == (tok, rest) && |tok| >= 2
    ensures ReadAtom(s) == (Some(String(tok[1..|tok| - 1])), rest)
  {
    assert ReadInteger(s).0.None? && ReadSymbol(s).0.None?;
  }

  lemma BooleanAtom(s: string)
    requires var ss := TrimSpace(s);
      MatchLength(IntegerToken, ss) == 0 && MatchLength(SymbolToken, ss) == 0 && MatchLength(StringToken, ss) == 0
    ensures ReadAtom(s) == ReadBoolean(s)
  {
    assert ReadInteger(s).0.None? && ReadSymbol(s).0.None? && ReadString(s).0.None?;
  }

  /** Text of the shape `-?[0-9]+`. */
  predicate IntegerText(tok: string) {
    |tok| > 0 && if tok[0] == '-' then |tok| >= 2 && AllDigits(tok[1..]) else AllDigits(tok)
  }

  lemma IntegerTextEnds(tok: string)
    requires IntegerText(tok)
    ensures !IsSpace(tok[0]) && IsDigit(tok[|tok| - 1])
  {
    if tok[0] == '-' {
      assert IsDigit(tok[1..][|tok| - 2]);
    }
  }

  lemma IntegerMatch(s: string, tok: string, tr: string)
    requires IntegerText(tok) && (tr == [] || !IsDigit(tr[0]))
    requires TrimSpace(s) == tok + tr
    ensures MatchLength(IntegerToken, TrimSpace(s)) == |tok|
  {
    DropFirst(tok, tr);
    if tok[0] == '-' {
      assert IsDigit(tok[1..][0]);
      DigitRunIs(tok[1..], tr);
    } else {
      DigitRunIs(tok, tr);
    }
  }

  /**
   * Integer text `-?[0-9]+` reads as that integer when no digit follows it,
   * and the text after it (trailing white space removed) is what remains.
   */
  lemma ReadIntegerText(tok: string, r: string)
    requires IntegerText(tok)
    requires r == [] || !IsDigit(r[0])
    ensures Read(tok + r) == Success(Integer(ParseInteger(tok)), TrimRight(r))
  {
    var s := tok + r;
    var tr := TrimRight(r);
    IntegerTextEnds(tok);
    TrimEnds(tok, r);
    TrimRightPrefix(r);
    IntegerMatch(s, tok, tr);
    TokenIs(IntegerToken, s, tok, tr);
    IntegerAtom(s, tok, tr);
    AtomIsRead(s);
  }

  /** `-5` reads as the integer -5; a lone `-` is not an integer, so it reads as a symbol. */
  lemma MinusSign()
    ensures Read("-5") == Success(Integer(-5), "")
    ensures Read("-") == Success(Symbol("-"), "")
  {
    var five := "-5";
    assert five[1..] == "5";
    assert IntegerText(five);
    ReadIntegerText(five, "");
    ConcatEmpty(five);
    assert ParseInteger(five) == -5 by {
      assert "5"[..0] == "";
    }
    var minus := "-";
    var ss := TrimSpace(minus);
    assert ss == minus;
    assert MatchLength(IntegerToken, ss) == 0;
    assert MatchLength(SymbolToken, ss) == 1;
    ConcatEmpty(minus);
    TokenIs(SymbolToken, minus, minus, "");
    SymbolAtom(minus, minus, "");
    AtomIsRead(minus);
  }

  /** `'e` reads as the two-element list `(quote e)`; an error reading `e` is the error of the whole. */
  lemma ReadQuoteShorthand(s: string)
    requires var ss := TrimSpace(s); |ss| > 0 && ss[0] == '\''
    ensures Read(s) == match Read(TrimSpace(s)[1..])
        case Failure(msg) => Failure(msg)
        case Success(e, rest) => Success(Cons(Symbol("quote"), Cons(e, Empty)), rest)
  {
    NoAtomAt(s);
  }

  /**
   * A `(` starts a list: the values read after it, in order, form a proper
   * list when a `)` follows them, and the read fails with "missing closing
   * parenthesis" otherwise.
   */
  lemma ReadParenthesised(s: string)
    requires var ss := TrimSpace(s); |ss| > 0 && ss[0] == '('
    ensures var (items, rest) := ReadItems(TrimSpace(s)[1..]);
      var (rp, after) := ReadChar(')', rest);
      && Read(s) == (if rp then Success(ListOf(items), after) else Failure("missing closing parenthesis"))
      && Spine(ListOf(items)) == items && IsProperList(ListOf(items))
  {
    NoAtomAt(s);
    ListOfParts(ReadItems(TrimSpace(s)[1..]).0);
  }

  /** Nothing to read, or a closing parenthesis first, fails with "Cannot read input". */
  lemma CannotRead(s: string)
    requires var ss := TrimSpace(s); ss == [] || ss[0] == ')'
    ensures Read(s) == Failure("Cannot read input")
  {
    var ss := TrimSpace(s);
    if ss != [] {
      NoAtomAt(s);
    } else {
      assert MatchLength(IntegerToken, ss) == 0;
      assert MatchLength(TrueToken, ss) == 0;
      assert MatchLength(FalseToken, ss) == 0;
    }
  }

  lemma StringLiteralShape(body: string)
    ensures var lit := "\"" + body + "\"";
      |lit| == |body| + 2 && lit[0] == '"' && lit[|lit| - 1] == '"' && lit[1..|lit| - 1] == body
      && lit[1..] == body + "\""
  {
  }

  lemma StringLiteralMatch(s: string, lit: string, body: string, tr: string)
    requires |body| > 0 && forall k :: 0 <= k < |body| ==> IsStringChar(body[k])
    requires lit == "\"" + body + "\"" && TrimSpace(s) == lit + tr
    ensures var ss := TrimSpace(s);
      MatchLength(IntegerToken, ss) == 0 && MatchLength(SymbolToken, ss) == 0
      && MatchLength(StringToken, ss) == |lit|
  {
    var ss := TrimSpace(s);
    StringLiteralShape(body);
    DropFirst(lit, tr);
    ConcatAssoc(body, "\"", tr);
    StringRunIs(body, "\"" + tr);
    assert ss[|body| + 1] == '"';
  }

  /**
   * A string literal with at least one character that is neither a newline
   * nor a quote reads as a String holding the text between the quotes,
   * whatever follows it.
   */
  lemma ReadStringLiteral(body: string, r: string)
    requires |body| > 0 && forall k :: 0 <= k < |body| ==> IsStringChar(body[k])
    ensures Read("\"" + body + "\"" + r) == Success(String(body), TrimRight(r))
  {
    var lit := "\"" + body + "\"";
    var s := lit + r;
    var tr := TrimRight(r);
    StringLiteralShape(body);
    TrimEnds(lit, r);
    StringLiteralMatch(s, lit, body, tr);
    TokenIs(StringToken, s, lit, tr);
    StringAtom(s, lit, tr);
    AtomIsRead(s);
  }

  /** `""` holds no character, so it is not a string literal and nothing else reads it either. */
  lemma EmptyStringLiteral()
    ensures Read("\"\"") == Failure("Cannot read input")
  {
    var s := "\"\"";
    var ss := TrimSpace(s);
    assert ss == s;
    assert StringPrefix(ss[1..]) == 0;
    assert MatchLength(IntegerToken, ss) == 0;
    assert MatchLength(SymbolToken, ss) == 0;
    assert MatchLength(StringToken, ss) == 0;
    assert MatchLength(TrueToken, ss) == 0;
    assert MatchLength(FalseToken, ss) == 0;
    assert ReadAtom(s) == (None, s);
  }

  /**
   * `#t`/`#T` read as true and `#f`/`#F` as false, whatever follows them
   * (so `#true` reads as true, leaving `rue`).
   */
  lemma ReadBooleanText(letter: char, r: string)
    requires letter in "tTfF"
    ensures Read(['#', letter] + r) == Success(Boolean(letter == 't' || letter == 'T'), TrimRight(r))
  {
    var tok := ['#', letter];
    TrimEnds(tok, r);
    ReadsBoolean(tok + r, tok, TrimRight(r));
  }

  /** A trimmed input starting with `#` matches no integer, symbol or string token. */
  lemma HashStart(ss: string)
    requires |ss| >= 2 && ss[0] == '#'
    ensures MatchLength(IntegerToken, ss) == 0 && MatchLength(SymbolToken, ss) == 0
    ensures MatchLength(StringToken, ss) == 0
  {
  }

  /** An input trimming to a boolean token and `rest` reads as that boolean. */
  lemma ReadsBoolean(s: string, tok: string, rest: string)
    requires TrimSpace(s) == tok + rest && |tok| == 2 && tok[0] == '#' && tok[1] in "tTfF"
    ensures Read(s) == Success(Boolean(tok[1] == 't' || tok[1] == 'T'), rest)
  {
    var ss := TrimSpace(s);
    assert ss[0] == '#' && ss[1] == tok[1];
    HashStart(ss);
    BooleanAtom(s);
    if tok[1] == 't' || tok[1] == 'T' {
      TokenIs(TrueToken, s, tok, rest);
    } else {
      TokenIs(FalseToken, s, tok, rest);
    }
    AtomIsRead(s);
  }

  // ---------------------------------------------------------------------
  // Display, then read, gives the value back
  // ---------------------------------------------------------------------

  /** Symbol names whose display reads back as the same symbol (not as a number). */
  predicate ReadableSymbol(n: string) {
    && |n| > 0
    && (forall k :: 0 <= k < |n| ==> IsSymbolChar(n[k]) && !IsSpace(n[k]))
    && !IsDigit(n[0])
    && !(n[0] == '-' && |n| > 1 && IsDigit(n[1]))
  }

  predicate ReadableString(s: string) {
    |s| > 0 && forall k :: 0 <= k < |s| ==> IsStringChar(s[k])
  }

  /** The values whose display the reader reads back: data whose lists are all proper. */
  predicate Readable(v: Value) {
    match v
    case Integer(_) => true
    case Boolean(_) => true
    case String(s) => ReadableString(s)
    case Symbol(n) => ReadableSymbol(n)
    case Empty => true
    case Cons(h, t) => Readable(h) && ReadableTail(t)
    case _ => false
  }

  predicate ReadableTail(v: Value) {
    match v
    case Empty => true
    case Cons(h, t) => Readable(h) && ReadableTail(t)
    case _ => false
  }

  lemma IntToStringEnds(i: int)
    ensures var s := IntToString(i); !IsSpace(s[0]) && IsDigit(s[|s| - 1])
  {
    var s := IntToString(i);
    if i < 0 {
      assert s[|s| - 1] == s[1..][|s| - 2];
    }
  }

  lemma {:induction false} ReadableDisplayable(v: Value)
    requires Readable(v)
    ensures Displayable(v) && |Display(v)| > 0
    ensures !IsSpace(Display(v)[0]) && !IsSpace(Display(v)[|Display(v)| - 1])
    decreases v, 1
  {
    match v
    case Cons(h, t) =>
      ReadableDisplayable(h);
      ReadableTailDisplayable(t);
    case Integer(i) =>
      IntToStringEnds(i);
    case _ =>
  }

  lemma {:induction false} ReadableTailDisplayable(v: Value)
    requires ReadableTail(v)
    ensures DisplayableCdr(v) && |DisplayCdr(v)| > 0
    ensures DisplayCdr(v)[|DisplayCdr(v)| - 1] == ')'
    ensures DisplayCdr(v)[0] == ' ' || DisplayCdr(v)[0] == ')'
    ensures IsProperList(v)
    decreases v, 0
  {
    if v.Cons? {
      ReadableDisplayable(v.head);
      ReadableTailDisplayable(v.tail);
    }
  }

  /** Left-over text that ends a number or a symbol. */
  predicate StartsWithDelimiter(r: string) {
    r == [] || IsRegexSpace(r[0]) || r[0] == ')'
  }

  lemma DelimiterSurvivesTrim(r: string)
    requires StartsWithDelimiter(r)
    ensures StartsWithDelimiter(TrimRight(r))
  {
    TrimRightPrefix(r);
  }

  /** A `)` in front of already-trimmed text closes the list and leaves exactly that text. */
  lemma CloseParenEnds(tr: string)
    requires tr == TrimRight(tr)
    ensures ReadChar(')', ")" + tr) == (true, tr)
    ensures ReadItems(")" + tr) == ([], ")" + tr)
  {
    var close := ")";
    TrimEnds(close, tr);
    DropFirst(close, tr);
    CannotRead(close + tr);
  }

  lemma SymbolMatch(s: string, n: string, tr: string)
    requires ReadableSymbol(n) && StartsWithDelimiter(tr)
    requires TrimSpace(s) == n + tr
    ensures MatchLength(IntegerToken, TrimSpace(s)) == 0 && MatchLength(SymbolToken, TrimSpace(s)) == |n|
  {
    var ss := TrimSpace(s);
    DropFirst(n, tr);
    if n[0] == '-' && |ss| >= 2 {
      assert ss[1] == (if |n| > 1 then n[1] else tr[0]);
    }
    SymbolRunIs(n, tr);
  }

  /** A displayed symbol followed by a delimiter reads as that symbol. */
  lemma ReadSymbolText(n: string, r: string)
    requires ReadableSymbol(n) && StartsWithDelimiter(r)
    ensures Read(n + r) == Success(Symbol(n), TrimRight(r))
  {
    var tr := TrimRight(r);
    var s := n + r;
    TrimEnds(n, r);
    DelimiterSurvivesTrim(r);
    SymbolMatch(s, n, tr);
    TokenIs(SymbolToken, s, n, tr);
    SymbolAtom(s, n, tr);
    AtomIsRead(s);
  }

  /** A displayed list: `(`, then the items with their `)`, then `r`. */
  lemma ListReadText(x: string, items: seq<Value>, r: string)
    requires |x| > 0 && x[0] == '(' && x[|x| - 1] == ')'
    requires ReadItems(x[1..] + TrimRight(r)) == (items, ")" + TrimRight(r))
    ensures Read(x + r) == Success(ListOf(items), TrimRight(r))
  {
    var tr := TrimRight(r);
    TrimRightIdempotent(r);
    TrimEnds(x, r);
    DropFirst(x, tr);
    CloseParenEnds(tr);
    ReadParenthesised(x + r);
  }

  lemma RoundTripEmpty(r: string)
    ensures Read(Display(Empty) + r) == Success(Empty, TrimRight(r))
  {
    var x := Display(Empty);
    TrimRightIdempotent(r);
    CloseParenEnds(TrimRight(r));
    assert x[1..] == ")";
    ListReadText(x, [], r);
  }

  /** A read that succeeds adds its value in front of the items read after it. */
  lemma ItemsCons(s: string, h: Value, rest: string)
    requires Read(s) == Success(h, rest)
    ensures ReadItems(s) == ([h] + ReadItems(rest).0, ReadItems(rest).1)
  {
  }

  lemma ListOfCons(h: Value, t: Value)
    requires IsProperList(t)
    ensures ListOf([h] + Spine(t)) == Cons(h, t)
  {
    ListOfSpine(t);
    assert ([h] + Spine(t))[1..] == Spine(t);
  }

  lemma DisplayConsShape(h: Value, t: Value)
    requires Displayable(h) && DisplayableCdr(t)
    ensures var x := Display(Cons(h, t));
      |x| > 0 && x[0] == '(' && x[1..] == Display(h) + DisplayCdr(t)
  {
    var open := "(";
    ConcatAssoc(open, Display(h), DisplayCdr(t));
    DropFirst(open, Display(h) + DisplayCdr(t));
  }

  lemma LastAfterFirst(x: string, y: string)
    requires |x| > 0 && x[1..] == y && |y| > 0
    ensures x[|x| - 1] == y[|y| - 1]
  {
  }

  lemma ItemsOfList(x: string, dh: string, dt: string, h: Value, items: seq<Value>, tr: string)
    requires |x| > 0 && x[1..] == dh + dt
    requires Read(dh + (dt + tr)) == Success(h, dt + tr)
    requires ReadItems(dt + tr) == (items, ")" + tr)
    ensures ReadItems(x[1..] + tr) == ([h] + items, ")" + tr)
  {
    ConcatAssoc(dh, dt, tr);
    ItemsCons(dh + (dt + tr), h, dt + tr);
  }

  /** One step of the list case: the head reads back, then the rest of the items. */
  lemma RoundTripConsStep(x: string, dh: string, dt: string, h: Value, t: Value, r: string)
    requires |x| > 0 && x[0] == '(' && x[1..] == dh + dt && |dt| > 0 && dt[|dt| - 1] == ')'
    requires IsProperList(t)
    requires ReadItems(x[1..] + TrimRight(r)) == ([h] + Spine(t), ")" + TrimRight(r))
    ensures Read(x + r) == Success(Cons(h, t), TrimRight(r))
  {
    ListOfCons(h, t);
    LastOfConcat(dh, dt);
    LastAfterFirst(x, dh + dt);
    ListReadText(x, [h] + Spine(t), r);
  }

  /**
   * Reading back what `display` wrote: the displayed text of a readable
   * value, followed by text that starts with white space or `)` (or nothing),
   * reads as the same value, leaving that text without its trailing white
   * space.
   */
  lemma {:induction false} DisplayReadRoundTrip(v: Value, r: string)
    requires Readable(v) && StartsWithDelimiter(r)
    ensures Displayable(v) && Read(Display(v) + r) == Success(v, TrimRight(r))
    decreases v, 1
  {
    ReadableDisplayable(v);
    match v
    case Integer(i) =>
      assert IntegerText(IntToString(i));
      ReadIntegerText(IntToString(i), r);
      IntRoundTrip(i);
    case Boolean(b) =>
      ReadBooleanText(if b then 't' else 'f', r);
    case String(t) =>
      ReadStringLiteral(t, r);
    case Symbol(n) =>
      ReadSymbolText(n, r);
    case Empty =>
      RoundTripEmpty(r);
    case Cons(h, t) =>
      RoundTripCons(h, t, r);
  }

  lemma {:induction false} RoundTripCons(h: Value, t: Value, r: string)
    requires Readable(h) && ReadableTail(t) && StartsWithDelimiter(r)
    ensures Displayable(Cons(h, t)) && Read(Display(Cons(h, t)) + r) == Success(Cons(h, t), TrimRight(r))
    decreases Cons(h, t), 0
  {
    ReadableDisplayable(h);
    ReadableTailDisplayable(t);
    var tr := TrimRight(r);
    DelimiterSurvivesTrim(r);
    TrimRightIdempotent(r);
    var x, dh, dt := Display(Cons(h, t)), Display(h), DisplayCdr(t);
    TrimRightAfter(dt, tr);
    DisplayReadRoundTrip(h, dt + tr);
    DisplayCdrReadItems(t, tr);
    DisplayConsShape(h, t);
    ItemsOfList(x, dh, dt, h, Spine(t), tr);
    RoundTripConsStep(x, dh, dt, h, t, r);
  }

  /** After the first element of a displayed list, the reader collects the remaining elements and stops at `)`. */
  lemma {:induction false} DisplayCdrReadItems(t: Value, tr: string)
    requires ReadableTail(t) && tr == TrimRight(tr) && StartsWithDelimiter(tr)
    ensures DisplayableCdr(t) && ReadItems(DisplayCdr(t) + tr) == (Spine(t), ")" + tr)
    decreases t, 2
  {
    ReadableTailDisplayable(t);
    match t
    case Empty =>
      CloseParenEnds(tr);
    case Cons(h, t2) =>
      ReadableDisplayable(h);
      ReadableTailDisplayable(t2);
      DisplayCdrItemsStep(h, t2, tr);
  }

  lemma {:induction false} DisplayCdrItemsStep(h: Value, t2: Value, tr: string)
    requires Readable(h) && ReadableTail(t2) && DisplayableCdr(t2) && tr == TrimRight(tr) && StartsWithDelimiter(tr)
    ensures DisplayableCdr(Cons(h, t2))
      && ReadItems(DisplayCdr(Cons(h, t2)) + tr) == ([h] + Spine(t2), ")" + tr)
    decreases Cons(h, t2), 1
  {
    ReadableDisplayable(h);
    ReadableTailDisplayable(t2);
    var dh := Display(h);
    var dt := DisplayCdr(t2);
    var x := dh + (dt + tr);
    var space := " ";
    assert DisplayCdr(Cons(h, t2)) == space + (dh + dt);
    ConcatAssoc(space, dh + dt, tr);
    ConcatAssoc(dh, dt, tr);
    assert AllSpace(space);
    TrimRightAfter(dt, tr);
    DisplayReadRoundTrip(h, dt + tr);
    ReadSkipsLeadingSpace(space, x);
    DisplayCdrReadItems(t2, tr);
  }
}
