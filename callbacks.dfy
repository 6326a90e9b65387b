/**
 * The bookkeeping of the primitives that call a function once per round
 * (`map`, `for`, `filter`, `foldl`, `foldr`): after some rounds, which
 * calls were made, where the walk down the lists stands, and what has been
 * gathered; and how one more round extends it.  These facts are about
 * values only, so the evaluator's loops carry each as one invariant.
 */
module Callbacks {
  import opened Values
  import opened Primitives

  // ---------------------------------------------------------------------
  // `map` and `for`
  // ---------------------------------------------------------------------

  /** The first elements of the lists, in order. */
  function Heads(vs: seq<Value>): (hs: seq<Value>)
    requires forall j :: 0 <= j < |vs| ==> vs[j].Cons?
    ensures |hs| == |vs| && forall j :: 0 <= j < |vs| ==> hs[j] == vs[j].head
  {
    seq(|vs|, j requires 0 <= j < |vs| => vs[j].head)
  }

  /** The rests of the lists, in order. */
  function Tails(vs: seq<Value>): (ts: seq<Value>)
    requires forall j :: 0 <= j < |vs| ==> vs[j].Cons?
    ensures |ts| == |vs| && forall j :: 0 <= j < |vs| ==> ts[j] == vs[j].tail
  {
    seq(|vs|, j requires 0 <= j < |vs| => vs[j].tail)
  }

  /** The calls of the first rounds of `map` over `lists`: round `m` gets column `m`. */
  predicate MapCalls(lists: seq<Value>, calls: seq<seq<Value>>)
    requires |lists| > 0
  {
    && (forall j :: 0 <= j < |lists| ==> |calls| <= |Spine(lists[j])|)
    && forall m :: 0 <= m < |calls| ==> calls[m] == Column(lists, m)
  }

  /**
   * After `|calls|` completed rounds of `map`: each current list is what
   * is left of its argument list after `|calls|` cells, and every call got
   * an answer.
   */
  predicate MapSoFar(lists: seq<Value>, currents: seq<Value>, calls: seq<seq<Value>>, answers: seq<Value>)
  {
    && |lists| > 0 && |currents| == |lists| && |calls| == |answers|
    && MapCalls(lists, calls)
    && forall j :: 0 <= j < |lists| ==> Spine(currents[j]) == Spine(lists[j])[|calls|..]
  }

  /**
   * When every current list still has a cell, the next round's arguments
   * are their heads, which is the next column, and the round extends the
   * bookkeeping with whatever its answer is.
   */
  lemma MapStep(lists: seq<Value>, currents: seq<Value>, calls: seq<seq<Value>>, answers: seq<Value>, a: Value)
    requires MapSoFar(lists, currents, calls, answers)
    requires forall j :: 0 <= j < |currents| ==> currents[j].Cons?
    ensures forall j :: 0 <= j < |lists| ==> |calls| < |Spine(lists[j])|
    ensures Heads(currents) == Column(lists, |calls|)
    ensures MapCalls(lists, calls + [Heads(currents)])
    ensures MapSoFar(lists, Tails(currents), calls + [Heads(currents)], answers + [a])
  {
    var k := |calls|;
    MapAdvance(lists, currents, k);
    var column := Heads(currents);
    assert column == Column(lists, k);
    var calls2 := calls + [column];
    forall m | 0 <= m < |calls2| ensures calls2[m] == Column(lists, m) {
      if m < k {
        assert calls2[m] == calls[m];
      }
    }
  }

  /** One cell further down every list. */
  lemma MapAdvance(lists: seq<Value>, currents: seq<Value>, k: nat)
    requires |currents| == |lists| && forall j :: 0 <= j < |currents| ==> currents[j].Cons?
    requires forall j :: 0 <= j < |lists| ==> k <= |Spine(lists[j])| && Spine(currents[j]) == Spine(lists[j])[k..]
    ensures forall j :: 0 <= j < |lists| ==> k < |Spine(lists[j])| && Spine(lists[j])[k] == currents[j].head
    ensures forall j :: 0 <= j < |lists| ==> Spine(Tails(currents)[j]) == Spine(lists[j])[k + 1..]
  {
    forall j | 0 <= j < |lists|
      ensures k < |Spine(lists[j])| && Spine(lists[j])[k] == currents[j].head
      ensures Spine(Tails(currents)[j]) == Spine(lists[j])[k + 1..]
    {
      SpineStep(currents[j]);
      assert Spine(lists[j])[k..][1..] == Spine(lists[j])[k + 1..];
    }
  }

  /** When some current list has no further cell, `map` has run all its rounds. */
  lemma MapDone(lists: seq<Value>, currents: seq<Value>, calls: seq<seq<Value>>, answers: seq<Value>)
    requires MapSoFar(lists, currents, calls, answers)
    requires exists j :: 0 <= j < |currents| && !currents[j].Cons?
    ensures |calls| == Rounds(lists)
  {
    var j :| 0 <= j < |currents| && !currents[j].Cons?;
    assert |Spine(lists[j])| == |calls|;
    var jmin :| 0 <= jmin < |lists| && Rounds(lists) == |Spine(lists[jmin])|;
  }

  lemma HeadsTailsIn(vs: seq<Value>, st: Store)
    requires forall j :: 0 <= j < |vs| ==> vs[j].Cons?
    requires ValuesIn(vs, st)
    ensures ValuesIn(Heads(vs), st) && ValuesIn(Tails(vs), st)
  {
    forall j | 0 <= j < |vs| ensures ValueIn(vs[j].head, st) && ValueIn(vs[j].tail, st) {
      assert ValueIn(vs[j], st);
    }
  }

  // ---------------------------------------------------------------------
  // `filter`
  // ---------------------------------------------------------------------

  /** The calls of the first rounds of `filter` over the spine `xs`: round `m` gets element `m`. */
  predicate FilterCalls(xs: seq<Value>, calls: seq<seq<Value>>) {
    |calls| <= |xs| && forall m :: 0 <= m < |calls| ==> calls[m] == [xs[m]]
  }

  /**
   * After `|calls|` completed rounds of `filter` over the spine `xs`:
   * `current` is what is left after `|calls|` cells (ending as the list
   * does, in `term`), and `kept` holds the elements answered true so far.
   */
  predicate FilterSoFar(xs: seq<Value>, current: Value, term: Value, calls: seq<seq<Value>>,
                        answers: seq<Value>, kept: seq<Value>)
  {
    && |calls| == |answers| && FilterCalls(xs, calls)
    && Spine(current) == xs[|calls|..] && Terminator(current) == term
    && kept == Kept(xs[..|calls|], answers)
  }

  lemma FilterStep(xs: seq<Value>, current: Value, term: Value, calls: seq<seq<Value>>,
                   answers: seq<Value>, kept: seq<Value>, a: Value)
    requires FilterSoFar(xs, current, term, calls, answers, kept) && current.Cons?
    ensures |calls| < |xs| && current.head == xs[|calls|]
    ensures FilterCalls(xs, calls + [[current.head]])
    ensures FilterSoFar(xs, current.tail, term, calls + [[current.head]], answers + [a],
                        kept + (if IsTrue(a) then [current.head] else []))
  {
    var k := |calls|;
    SpineStep(current);
    assert xs[k..][1..] == xs[k + 1..];
    assert xs[..k + 1][..k] == xs[..k];
    assert (answers + [a])[..k] == answers;
  }

  lemma FilterDone(xs: seq<Value>, current: Value, term: Value, calls: seq<seq<Value>>,
                   answers: seq<Value>, kept: seq<Value>)
    requires FilterSoFar(xs, current, term, calls, answers, kept) && !current.Cons?
    ensures |calls| == |xs| && kept == Kept(xs, answers) && current == term
  {
    assert xs[..|xs|] == xs;
  }

  // ---------------------------------------------------------------------
  // `foldl` and `foldr`
  // ---------------------------------------------------------------------

  /** The calls of the first rounds of a fold: round `m` gets `FoldlCall` (or `FoldrCall`) number `m`. */
  predicate FoldCalls(init: Value, xs: seq<Value>, answers: seq<Value>, calls: seq<seq<Value>>, left: bool) {
    && |calls| <= |xs| && |calls| <= |answers| + 1
    && forall m :: 0 <= m < |calls| ==>
      calls[m] == (if left then FoldlCall(init, xs, answers, m) else FoldrCall(init, xs, answers, m))
  }

  /**
   * After `|calls|` completed rounds of a fold over the spine `xs` (or,
   * for `foldr`, over its reverse): `current` is what is left after
   * `|calls|` cells, and `result` is the accumulator.
   */
  predicate FoldSoFar(init: Value, xs: seq<Value>, left: bool, current: Value, calls: seq<seq<Value>>,
                      answers: seq<Value>, result: Value)
  {
    && |calls| == |answers| && FoldCalls(init, xs, answers, calls, left)
    && Spine(current) == (if left then xs else Reversed(xs))[|calls|..]
    && result == Accumulator(init, answers, |answers|)
  }

  /** The arguments of the next round of a fold. */
  function FoldArgs(left: bool, result: Value, current: Value): seq<Value>
    requires current.Cons?
  {
    if left then [result, current.head] else [current.head, result]
  }

  /** An answer added at the end leaves the earlier accumulators as they were. */
  lemma AccumulatorExtend(init: Value, answers: seq<Value>, a: Value, m: nat)
    requires m <= |answers|
    ensures Accumulator(init, answers + [a], m) == Accumulator(init, answers, m)
    ensures Accumulator(init, answers + [a], |answers| + 1) == a
  {
  }

  /** Adding a round's answer keeps the earlier rounds' calls as they were. */
  lemma FoldCallsExtend(init: Value, xs: seq<Value>, answers: seq<Value>, calls: seq<seq<Value>>,
                        left: bool, call: seq<Value>, a: Value)
    requires FoldCalls(init, xs, answers, calls, left) && |calls| == |answers| < |xs|
    requires call == (if left then FoldlCall(init, xs, answers, |calls|) else FoldrCall(init, xs, answers, |calls|))
    ensures FoldCalls(init, xs, answers, calls + [call], left)
    ensures FoldCalls(init, xs, answers + [a], calls + [call], left)
  {
    var calls2 := calls + [call];
    var answers2 := answers + [a];
    forall m | 0 <= m < |calls2|
      ensures calls2[m] == (if left then FoldlCall(init, xs, answers2, m) else FoldrCall(init, xs, answers2, m))
    {
      AccumulatorExtend(init, answers, a, m);
    }
  }

  lemma FoldStep(init: Value, xs: seq<Value>, left: bool, current: Value, calls: seq<seq<Value>>,
                 answers: seq<Value>, result: Value, a: Value)
    requires FoldSoFar(init, xs, left, current, calls, answers, result) && current.Cons?
    ensures |calls| < |xs|
    ensures FoldArgs(left, result, current)
      == (if left then FoldlCall(init, xs, answers, |calls|) else FoldrCall(init, xs, answers, |calls|))
    ensures FoldCalls(init, xs, answers, calls + [FoldArgs(left, result, current)], left)
    ensures FoldSoFar(init, xs, left, current.tail, calls + [FoldArgs(left, result, current)], answers + [a], a)
  {
    var k := |calls|;
    var ys := if left then xs else Reversed(xs);
    SpineStep(current);
    assert ys[k..][1..] == ys[k + 1..];
    assert ys[k] == current.head;
    FoldCallsExtend(init, xs, answers, calls, left, FoldArgs(left, result, current), a);
    AccumulatorExtend(init, answers, a, k);
  }

  /** When the walk has no further cell, the fold has run one round per element. */
  lemma FoldDone(init: Value, xs: seq<Value>, left: bool, current: Value, calls: seq<seq<Value>>,
                 answers: seq<Value>, result: Value)
    requires FoldSoFar(init, xs, left, current, calls, answers, result) && !current.Cons?
    ensures |calls| == |xs|
  {
  }
}
