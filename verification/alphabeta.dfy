/**
 * The alpha-beta search shared by the two engines (minimax of js/chess.js and
 * checkersMinmax of js/checkers.js). A game is given to the search as four functions:
 * the moves of the side to move, the position a move leads to, the static evaluation used
 * at depth 0, and the score of a position whose side to move has no move. Value is plain
 * minimax over that tree, folded from integer sentinels standing for -Infinity and
 * +Infinity; Search, the pruned loop, is proved fail-soft against it.
 */
module AlphaBeta {

  /** Stands for +Infinity: strictly above every evaluation and mate score of both engines. */
  const PosInf: int := 10_000_000
  /** Stands for -Infinity. */
  const NegInf: int := -10_000_000

  function Max(a: int, b: int): int { if a >= b then a else b }
  function Min(a: int, b: int): int { if a <= b then a else b }

  /**
   * The fail-soft alpha-beta guarantee: a result at or below the window bounds the true
   * value from above, one at or above the window bounds it from below, and one strictly
   * inside the window is the true value.
   */
  predicate FailSoft(alpha: int, beta: int, v: int, truth: int)
  {
    && (v <= alpha ==> truth <= v)
    && (v >= beta ==> truth >= v)
    && (alpha < v < beta ==> truth == v)
  }

  /**
   * The loop state of a maximising node after some children: `a` is alpha raised by the
   * scores so far, `m` the best score so far (maxEval), `pre` the true maximum of the
   * children seen. While no score has beaten the original alpha the true maximum lies at
   * or below m; once one has, m is that true maximum.
   */
  predicate MaxNodeState(alpha: int, beta: int, a: int, m: int, pre: int)
  {
    && a == Max(alpha, m) && a < beta
    && (m <= alpha ==> pre <= m)
    && (alpha < m ==> pre == m)
  }

  /** The minimising mirror of MaxNodeState: `bt` is beta lowered by the scores so far, `m` is minEval. */
  predicate MinNodeState(alpha: int, beta: int, bt: int, m: int, pre: int)
  {
    && bt == Min(beta, m) && alpha < bt
    && (beta <= m ==> m <= pre)
    && (m < beta ==> pre == m)
  }

  /**
   * One iteration of the maximising loop. The child was searched in the window (a, beta)
   * and its score ev is fail-soft for its true value t. Either alpha stays below beta and
   * the state carries over with t folded into the true maximum, or the cutoff fires with a
   * result at or above beta that the true maximum reaches.
   */
  lemma {:induction false} MaxNodeStep(alpha: int, beta: int, a: int, m: int, pre: int, ev: int, t: int)
    requires MaxNodeState(alpha, beta, a, m, pre)
    requires FailSoft(a, beta, ev, t)
    ensures Max(a, ev) < beta ==> MaxNodeState(alpha, beta, Max(a, ev), Max(m, ev), Max(pre, t))
    ensures beta <= Max(a, ev) ==> beta <= Max(m, ev) <= Max(pre, t)
  {
    if ev <= a {
      assert t <= ev;
    } else if ev < beta {
      assert t == ev;
    } else {
      assert t >= ev;
    }
  }

  /** One iteration of the minimising loop, symmetric to MaxNodeStep. */
  lemma {:induction false} MinNodeStep(alpha: int, beta: int, bt: int, m: int, pre: int, ev: int, t: int)
    requires MinNodeState(alpha, beta, bt, m, pre)
    requires FailSoft(alpha, bt, ev, t)
    ensures alpha < Min(bt, ev) ==> MinNodeState(alpha, beta, Min(bt, ev), Min(m, ev), Min(pre, t))
    ensures Min(bt, ev) <= alpha ==> Min(pre, t) <= Min(m, ev) <= alpha
  {
    if ev >= bt {
      assert t >= ev;
    } else if ev > alpha {
      assert t == ev;
    } else {
      assert t <= ev;
    }
  }

  /** A maximising node that ran through all its children returns a fail-soft result. */
  lemma MaxNodeDone(alpha: int, beta: int, a: int, m: int, truth: int)
    requires MaxNodeState(alpha, beta, a, m, truth)
    ensures FailSoft(alpha, beta, m, truth)
  {
  }

  lemma MinNodeDone(alpha: int, beta: int, bt: int, m: int, truth: int)
    requires MinNodeState(alpha, beta, bt, m, truth)
    ensures FailSoft(alpha, beta, m, truth)
  {
  }

  /** A cutoff result at or above beta that the true value reaches is fail-soft. */
  lemma FailHigh(alpha: int, beta: int, v: int, truth: int)
    requires alpha < beta <= v <= truth
    ensures FailSoft(alpha, beta, v, truth)
  {
  }

  /** A cutoff result at or below alpha that bounds the true value from above is fail-soft. */
  lemma FailLow(alpha: int, beta: int, v: int, truth: int)
    requires truth <= v <= alpha < beta
    ensures FailSoft(alpha, beta, v, truth)
  {
  }

  // ---------------------------------------------------------------------------------------
  // The game tree and its unpruned value

  /**
   * A game as the search sees it. `maximizing` names the side to move: the first player
   * maximises, the second minimises. `stuck` scores a position at remaining depth > 0 whose
   * side to move has no move.
   */
  datatype Game<!P, !M> = Game(
    moves: (P, bool) -> seq<M>,
    play: (P, bool, M) -> P,
    eval: P -> int,
    stuck: (P, nat, bool) -> int)

  /**
   * Minimax without pruning: the evaluation at depth 0, the `stuck` score when the side to
   * move has no move, otherwise the best of the children's values.
   */
  function Value<P, M>(g: Game<P, M>, pos: P, depth: nat, maximizing: bool): int
    decreases depth, 1
  {
    if depth == 0 then g.eval(pos)
    else
      var ms := g.moves(pos, maximizing);
      if |ms| == 0 then g.stuck(pos, depth, maximizing)
      else Best(g, pos, depth, maximizing, ms)
  }

  /**
   * The node loop's fold over `ms` without cutoffs: the largest (maximising) or smallest
   * (minimising) child value, starting from -Infinity / +Infinity.
   */
  function Best<P, M>(g: Game<P, M>, pos: P, depth: nat, maximizing: bool, ms: seq<M>): int
    requires depth > 0
    decreases depth, 0, |ms|
  {
    if |ms| == 0 then (if maximizing then NegInf else PosInf)
    else
      var front := Best(g, pos, depth, maximizing, ms[..|ms| - 1]);
      var v := Value(g, g.play(pos, maximizing, ms[|ms| - 1]), depth - 1, !maximizing);
      if maximizing then Max(front, v) else Min(front, v)
  }

  /** One more move folds one more child value into the node's result. */
  lemma BestSnoc<P, M>(g: Game<P, M>, pos: P, depth: nat, maximizing: bool, ms: seq<M>, i: nat)
    requires depth > 0 && i < |ms|
    ensures var front, v := Best(g, pos, depth, maximizing, ms[..i]), Value(g, g.play(pos, maximizing, ms[i]), depth - 1, !maximizing);
      Best(g, pos, depth, maximizing, ms[..i + 1]) == if maximizing then Max(front, v) else Min(front, v)
  {
    assert ms[..i + 1][..i] == ms[..i];
  }

  /** Folding in more moves can only raise a maximising node's result and lower a minimising one's. */
  lemma {:induction false} BestPrefix<P, M>(g: Game<P, M>, pos: P, depth: nat, maximizing: bool, ms: seq<M>, n: nat)
    requires depth > 0 && n <= |ms|
    ensures maximizing ==> Best(g, pos, depth, maximizing, ms[..n]) <= Best(g, pos, depth, maximizing, ms)
    ensures !maximizing ==> Best(g, pos, depth, maximizing, ms) <= Best(g, pos, depth, maximizing, ms[..n])
    decreases |ms|
  {
    if n == |ms| {
      assert ms[..n] == ms;
    } else {
      var front := ms[..|ms| - 1];
      BestPrefix(g, pos, depth, maximizing, front, n);
      assert front[..n] == ms[..n];
    }
  }

  /** No child's value beats a node's fold. */
  lemma {:induction false} BestIsBest<P, M>(g: Game<P, M>, pos: P, depth: nat, maximizing: bool, ms: seq<M>)
    requires depth > 0
    ensures forall m :: m in ms ==>
      var v := Value(g, g.play(pos, maximizing, m), depth - 1, !maximizing);
      if maximizing then v <= Best(g, pos, depth, maximizing, ms) else Best(g, pos, depth, maximizing, ms) <= v
    decreases |ms|
  {
    if |ms| > 0 {
      var front := ms[..|ms| - 1];
      BestIsBest(g, pos, depth, maximizing, front);
      assert forall m :: m in ms <==> m in front || m == ms[|ms| - 1];
    }
  }

  /**
   * When the children's values lie strictly between the sentinels, a node with a move has
   * its fold attained by one of its children.
   */
  lemma {:induction false} BestAttained<P(!new), M>(g: Game<P, M>, bound: int, pos: P, depth: nat, maximizing: bool, ms: seq<M>)
    requires depth > 0 && |ms| > 0
    requires Bounded(g, bound, depth)
    ensures exists m :: m in ms && Value(g, g.play(pos, maximizing, m), depth - 1, !maximizing) == Best(g, pos, depth, maximizing, ms)
    decreases |ms|
  {
    var last := ms[|ms| - 1];
    var front := ms[..|ms| - 1];
    var v := Value(g, g.play(pos, maximizing, last), depth - 1, !maximizing);
    ValueBounded(g, bound, g.play(pos, maximizing, last), depth - 1, !maximizing);
    if |front| == 0 {
      assert Best(g, pos, depth, maximizing, ms) == v;
    } else if Best(g, pos, depth, maximizing, ms) != v {
      BestAttained(g, bound, pos, depth, maximizing, front);
      var m :| m in front && Value(g, g.play(pos, maximizing, m), depth - 1, !maximizing) == Best(g, pos, depth, maximizing, front);
      assert m in ms;
    }
  }

  /** Every leaf and every no-move score of positions searched to `depth` lies within `bound`. */
  ghost predicate Bounded<P(!new), M>(g: Game<P, M>, bound: int, depth: nat)
  {
    && 0 <= bound < PosInf
    && (forall p :: -bound <= g.eval(p) <= bound)
    && (forall p, d: nat, mx :: 0 < d <= depth ==> -bound <= g.stuck(p, d, mx) <= bound)
  }

  /** A bounded game has bounded values, strictly between the two sentinels. */
  lemma {:induction false} ValueBounded<P(!new), M>(g: Game<P, M>, bound: int, pos: P, depth: nat, maximizing: bool)
    requires Bounded(g, bound, depth)
    ensures -bound <= Value(g, pos, depth, maximizing) <= bound
    decreases depth, 1
  {
    if depth > 0 {
      var ms := g.moves(pos, maximizing);
      if |ms| > 0 {
        BestBounded(g, bound, pos, depth, maximizing, ms);
      }
    }
  }

  lemma {:induction false} BestBounded<P(!new), M>(g: Game<P, M>, bound: int, pos: P, depth: nat, maximizing: bool, ms: seq<M>)
    requires depth > 0 && |ms| > 0
    requires Bounded(g, bound, depth)
    ensures -bound <= Best(g, pos, depth, maximizing, ms) <= bound
    decreases depth, 0, |ms|
  {
    var front := ms[..|ms| - 1];
    ValueBounded(g, bound, g.play(pos, maximizing, ms[|ms| - 1]), depth - 1, !maximizing);
    if |front| > 0 {
      BestBounded(g, bound, pos, depth, maximizing, front);
    }
  }

  /** With the full window (-Infinity, +Infinity) a fail-soft result of a bounded value is exact. */
  lemma FullWindowExact(v: int, truth: int)
    requires FailSoft(NegInf, PosInf, v, truth)
    requires NegInf < truth < PosInf
    ensures v == truth
  {
  }

  // ---------------------------------------------------------------------------------------
  // The pruned search

  /**
   * minimax / checkersMinmax: the evaluation at depth 0, the no-move score when the side to
   * move has no move, otherwise the maximising or minimising loop with the cutoff
   * `beta <= alpha`. The result is fail-soft with respect to the unpruned value: exact
   * inside the window, a bound on the correct side of it outside.
   */
  method Search<P, M>(g: Game<P, M>, pos: P, depth: nat, alpha: int, beta: int, maximizing: bool) returns (v: int)
    requires NegInf <= alpha < beta <= PosInf
    ensures FailSoft(alpha, beta, v, Value(g, pos, depth, maximizing))
    decreases depth, 1
  {
    if depth == 0 {
      return g.eval(pos);
    }
    var ms := g.moves(pos, maximizing);
    if |ms| == 0 {
      return g.stuck(pos, depth, maximizing);
    }
    if maximizing {
      v := MaxNode(g, pos, depth, alpha, beta, ms);
    } else {
      v := MinNode(g, pos, depth, alpha, beta, ms);
    }
  }

  /**
   * One child of a maximising node: a fail-soft score for the child, searched with the
   * current alpha, either keeps the loop state over one more move or proves a cutoff.
   */
  lemma MaxChildStep<P, M>(g: Game<P, M>, pos: P, depth: nat, ms: seq<M>, i: nat,
                           alpha: int, beta: int, a: int, m: int, ev: int)
    requires depth > 0 && i < |ms|
    requires MaxNodeState(alpha, beta, a, m, Best(g, pos, depth, true, ms[..i]))
    requires FailSoft(a, beta, ev, Value(g, g.play(pos, true, ms[i]), depth - 1, false))
    ensures Max(a, ev) < beta ==> MaxNodeState(alpha, beta, Max(a, ev), Max(m, ev), Best(g, pos, depth, true, ms[..i + 1]))
    ensures beta <= Max(a, ev) ==> beta <= Max(m, ev) <= Best(g, pos, depth, true, ms)
  {
    BestSnoc(g, pos, depth, true, ms, i);
    MaxNodeStep(alpha, beta, a, m, Best(g, pos, depth, true, ms[..i]), ev, Value(g, g.play(pos, true, ms[i]), depth - 1, false));
    BestPrefix(g, pos, depth, true, ms, i + 1);
  }

  /** One child of a minimising node, symmetric to MaxChildStep. */
  lemma MinChildStep<P, M>(g: Game<P, M>, pos: P, depth: nat, ms: seq<M>, i: nat,
                           alpha: int, beta: int, bt: int, m: int, ev: int)
    requires depth > 0 && i < |ms|
    requires MinNodeState(alpha, beta, bt, m, Best(g, pos, depth, false, ms[..i]))
    requires FailSoft(alpha, bt, ev, Value(g, g.play(pos, false, ms[i]), depth - 1, true))
    ensures alpha < Min(bt, ev) ==> MinNodeState(alpha, beta, Min(bt, ev), Min(m, ev), Best(g, pos, depth, false, ms[..i + 1]))
    ensures Min(bt, ev) <= alpha ==> Best(g, pos, depth, false, ms) <= Min(m, ev) <= alpha
  {
    BestSnoc(g, pos, depth, false, ms, i);
    MinNodeStep(alpha, beta, bt, m, Best(g, pos, depth, false, ms[..i]), ev, Value(g, g.play(pos, false, ms[i]), depth - 1, true));
    BestPrefix(g, pos, depth, false, ms, i + 1);
  }

  /** The maximising loop: maxEval and alpha take each child's score; stop once beta <= alpha. */
  method MaxNode<P, M>(g: Game<P, M>, pos: P, depth: nat, alpha: int, beta: int, ms: seq<M>) returns (v: int)
    requires depth > 0
    requires NegInf <= alpha < beta <= PosInf
    ensures FailSoft(alpha, beta, v, Best(g, pos, depth, true, ms))
    decreases depth, 0
  {
    var maxEval := NegInf;
    var a := alpha;
    for i := 0 to |ms|
      invariant MaxNodeState(alpha, beta, a, maxEval, Best(g, pos, depth, true, ms[..i]))
    {
      var child := g.play(pos, true, ms[i]);
      var ev := Search(g, child, depth - 1, a, beta, false);
      MaxChildStep(g, pos, depth, ms, i, alpha, beta, a, maxEval, ev);
      maxEval := Max(maxEval, ev);
      a := Max(a, ev);
      if beta <= a {
        FailHigh(alpha, beta, maxEval, Best(g, pos, depth, true, ms));
        return maxEval;
      }
    }
    assert ms[..|ms|] == ms;
    MaxNodeDone(alpha, beta, a, maxEval, Best(g, pos, depth, true, ms));
    v := maxEval;
  }

  /** The minimising loop: minEval and beta take each child's score; stop once beta <= alpha. */
  method MinNode<P, M>(g: Game<P, M>, pos: P, depth: nat, alpha: int, beta: int, ms: seq<M>) returns (v: int)
    requires depth > 0
    requires NegInf <= alpha < beta <= PosInf
    ensures FailSoft(alpha, beta, v, Best(g, pos, depth, false, ms))
    decreases depth, 0
  {
    var minEval := PosInf;
    var bt := beta;
    for i := 0 to |ms|
      invariant MinNodeState(alpha, beta, bt, minEval, Best(g, pos, depth, false, ms[..i]))
    {
      var child := g.play(pos, false, ms[i]);
      var ev := Search(g, child, depth - 1, alpha, bt, true);
      MinChildStep(g, pos, depth, ms, i, alpha, beta, bt, minEval, ev);
      minEval := Min(minEval, ev);
      bt := Min(bt, ev);
      if bt <= alpha {
        FailLow(alpha, beta, minEval, Best(g, pos, depth, false, ms));
        return minEval;
      }
    }
    assert ms[..|ms|] == ms;
    MinNodeDone(alpha, beta, bt, minEval, Best(g, pos, depth, false, ms));
    v := minEval;
  }

  // ---------------------------------------------------------------------------------------
  // The root loop of aiMove

  /**
   * The score the root loop of aiMove gives move m: the value, for the opponent, of the
   * position `child(m)` searched to `depth`.
   */
  function RootScore<P, M>(g: Game<P, M>, child: M -> P, depth: nat, rootMax: bool, m: M): int
  {
    Value(g, child(m), depth, !rootMax)
  }

  /** `x` beats `y` for the root side: larger when it maximises, smaller when it minimises. */
  predicate Beats(rootMax: bool, x: int, y: int)
  {
    if rootMax then x > y else x < y
  }

  /** m is one of ms and no move of ms beats its root score. */
  predicate Optimal<P, M(==)>(g: Game<P, M>, child: M -> P, depth: nat, rootMax: bool, ms: seq<M>, m: M)
  {
    m in ms && forall q :: q in ms ==> !Beats(rootMax, RootScore(g, child, depth, rootMax, q), RootScore(g, child, depth, rootMax, m))
  }

  /** The moves of ms whose root score is s, in their order in ms. */
  function Ties<P, M>(g: Game<P, M>, child: M -> P, depth: nat, rootMax: bool, ms: seq<M>, s: int): seq<M>
  {
    if |ms| == 0 then []
    else
      var last := ms[|ms| - 1];
      Ties(g, child, depth, rootMax, ms[..|ms| - 1], s)
        + (if RootScore(g, child, depth, rootMax, last) == s then [last] else [])
  }

  /** Ties keeps exactly the moves of ms scoring s. */
  lemma {:induction false} TiesIff<P, M>(g: Game<P, M>, child: M -> P, depth: nat, rootMax: bool, ms: seq<M>, s: int)
    ensures forall m :: m in Ties(g, child, depth, rootMax, ms, s) <==> m in ms && RootScore(g, child, depth, rootMax, m) == s
  {
    if |ms| > 0 {
      var front := ms[..|ms| - 1];
      TiesIff(g, child, depth, rootMax, front, s);
      assert forall m :: m in ms <==> m in front || m == ms[|ms| - 1];
    }
  }

  /** No move of ms scores s. */
  lemma {:induction false} TiesNone<P, M>(g: Game<P, M>, child: M -> P, depth: nat, rootMax: bool, ms: seq<M>, s: int)
    requires forall m :: m in ms ==> RootScore(g, child, depth, rootMax, m) != s
    ensures Ties(g, child, depth, rootMax, ms, s) == []
  {
    if |ms| > 0 {
      var front := ms[..|ms| - 1];
      assert forall m :: m in front ==> m in ms;
      TiesNone(g, child, depth, rootMax, front, s);
    }
  }

  /**
   * The root loop of aiMove: search each move's child with the full window; a score that
   * beats bestScore restarts the list of best moves, an equal one joins it. The result is
   * the optimal score over all moves and every move attaining it, in move order.
   */
  method SelectBest<P(!new), M>(g: Game<P, M>, bound: int, child: M -> P, depth: nat, rootMax: bool, ms: seq<M>)
    returns (best: seq<M>, bestScore: int)
    requires Bounded(g, bound, depth)
    ensures forall m :: m in ms ==> !Beats(rootMax, RootScore(g, child, depth, rootMax, m), bestScore)
    ensures |ms| > 0 ==> exists m :: m in ms && RootScore(g, child, depth, rootMax, m) == bestScore
    ensures best == Ties(g, child, depth, rootMax, ms, bestScore)
    ensures forall m :: m in best <==> Optimal(g, child, depth, rootMax, ms, m)
    ensures |best| > 0 <==> |ms| > 0
  {
    best := [];
    bestScore := if rootMax then NegInf else PosInf;
    for i := 0 to |ms|
      invariant forall m :: m in ms[..i] ==> !Beats(rootMax, RootScore(g, child, depth, rootMax, m), bestScore)
      invariant i > 0 ==> exists m :: m in ms[..i] && RootScore(g, child, depth, rootMax, m) == bestScore
      invariant i == 0 ==> bestScore == if rootMax then NegInf else PosInf
      invariant best == Ties(g, child, depth, rootMax, ms[..i], bestScore)
    {
      var m := ms[i];
      var score := Search(g, child(m), depth, NegInf, PosInf, !rootMax);
      ValueBounded(g, bound, child(m), depth, !rootMax);
      FullWindowExact(score, RootScore(g, child, depth, rootMax, m));
      assert ms[..i + 1] == ms[..i] + [m];
      assert forall x :: x in ms[..i + 1] <==> x in ms[..i] || x == m;
      if Beats(rootMax, score, bestScore) {
        TiesNone(g, child, depth, rootMax, ms[..i], score);
        bestScore := score;
        best := [m];
      } else if score == bestScore {
        best := best + [m];
      }
    }
    assert ms[..|ms|] == ms;
    TiesIff(g, child, depth, rootMax, ms, bestScore);
    if |ms| > 0 {
      ghost var m :| m in ms && RootScore(g, child, depth, rootMax, m) == bestScore;
      assert m in best;
    }
  }
}
