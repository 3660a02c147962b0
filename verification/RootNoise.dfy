/**
 Where self-play mixes noise into the priors: at the first evaluation of a game's root, and at every root a
 move leads to, each time with the draw of the game for that root.
 */
module RootNoises {
  import opened Board
  import opened Policies
  import opened PolicyShape
  import opened SearchTree
  import opened Games
  import opened SelfPlayGames
  import opened Steps

  /** Over the legal columns of `pos`, `after` is `before` moved the fraction `epsilon` towards `draw`. */
  ghost predicate MovedTowards(pos: Grid, before: Policy, after: Policy, epsilon: real, draw: Policy) {
    forall c: nat :: c < COLS && Legal(pos, c) ==> after[c] - before[c] == Times(epsilon, draw[c] - before[c])
  }

  lemma MixMovesTowards(pos: Grid, before: Policy, noise: Noise)
    requires MixNoise(before, LegalColumns(pos), noise).Some?
    ensures MovedTowards(pos, before, MixNoise(before, LegalColumns(pos), noise).value, noise.epsilon, noise.draw)
  {
    forall c: nat | c < COLS && Legal(pos, c)
      ensures var m := MixNoise(before, LegalColumns(pos), noise).value;
              m[c] - before[c] == Times(noise.epsilon, noise.draw[c] - before[c])
    {
      NoiseMovesPriors(before, LegalColumns(pos), noise, c);
    }
  }

  lemma NoiseMovesRoot(o: Options, eval: Grid -> Evaluation, meta: Metadata, h: Game)
    requires ValidOptions(o) && o.epsilon > 0.0 && Inv(eval, o.prm.plyPenalty, h) && Sound(h)
    requires h.nodes[h.root].expanded
    ensures WithNoise(o, meta, h).Some?
    ensures var r := WithNoise(o, meta, h).value;
            && r.root == h.root && r.root in r.nodes
            && MovedTowards(RootPosition(h), h.nodes[h.root].priors, r.nodes[r.root].priors, o.epsilon,
                            o.draw(meta.id, RootPosition(h)))
  {
    var n := h.nodes[h.root];
    var noise := RootNoise(o, meta, RootPosition(h));
    assert Placed(h.start, h.root, h.nodes, h.root);
    MixMovesTowards(n.pos, n.priors, noise);
    ReprioredRoot(o.prm, eval, h, MixNoise(n.priors, LegalColumns(n.pos), noise).value);
  }

  /** The promoted child keeps the priors it had. */
  lemma PromotedPriors(prm: Params, eval: Grid -> Evaluation, g: Game, move: nat)
    requires Inv(eval, prm.plyPenalty, g) && Sound(g) && MakeMove(prm, g, move).Some?
    requires g.root + [move] in g.nodes
    ensures var h := MakeMove(prm, g, move).value;
            h.root == g.root + [move] && h.root in h.nodes && h.nodes[h.root] == g.nodes[g.root + [move]]
  {
    var down := g.root + [move];
    PromotedTree(eval, prm.plyPenalty, g, move);
    var below := Subtree(Materialise(g.nodes, down), down);
    ReselectedTree(prm, eval, g.start, down, below, g.moves + [Recorded(g.nodes[g.root].pos, RootPolicy(g), move)]);
    assert below[down] == g.nodes[down];
  }

  /** A self-play move to an evaluated child moves the priors of that child towards the draw for its position. */
  lemma MoveTakesNoise(o: Options, eval: Grid -> Evaluation, meta: Metadata, g: Game)
    requires ValidOptions(o) && o.epsilon > 0.0 && Inv(eval, o.prm.plyPenalty, g) && Sound(g)
    requires RootVisits(g) == o.iterations && TerminalState(RootPosition(g)).None?
    ensures PlayedColumn(o, meta, g).Some? && Moved(o, meta, g).Some?
    ensures var down := g.root + [PlayedColumn(o, meta, g).value];
            var r := Moved(o, meta, g).value;
            down in g.nodes && g.nodes[down].expanded ==>
              && r.root == down && down in r.nodes
              && MovedTowards(g.nodes[down].pos, g.nodes[down].priors, r.nodes[down].priors, o.epsilon,
                              o.draw(meta.id, g.nodes[down].pos))
  {
    var h := MoveProgress(o, eval, meta, g);
    MovedProgress(o, eval, meta, g);
    var move := PlayedColumn(o, meta, g).value;
    assert MakeMove(o.prm, g, move) == Some(h);
    if g.root + [move] in g.nodes && g.nodes[g.root + [move]].expanded {
      PromotedPriors(o.prm, eval, g, move);
      NoiseMovesRoot(o, eval, meta, h);
    }
  }

  /** The softmax of the evaluator's masked logits. */
  function SoftPriors(prm: Params, eval: Grid -> Evaluation, pos: Grid): Option<Policy> {
    Softmax(prm.exp, MaskLogits(eval(pos).policy, LegalColumns(pos)))
  }

  /** The root of `h` has the softmax priors of its evaluation, moved towards the draw. */
  ghost predicate FirstPriors(prm: Params, eval: Grid -> Evaluation, h: Game, epsilon: real, draw: Policy)
    requires Sound(h)
  {
    var pos := RootPosition(h);
    && SoftPriors(prm, eval, pos).Some?
    && MovedTowards(pos, SoftPriors(prm, eval, pos).value, h.nodes[h.root].priors, epsilon, draw)
  }

  lemma FirstEvaluation(prm: Params, eval: Grid -> Evaluation, g: Game, noise: Noise, h: Game, before: Policy)
    requires Inv(eval, prm.plyPenalty, g) && Sound(g) && g.leaf == g.root && TerminalState(RootPosition(g)).None?
    requires noise.epsilon > 0.0 && Receive(prm, g, eval(LeafPosition(g)), noise) == Some(h)
    requires Sound(h) && SoftPriors(prm, eval, RootPosition(g)) == Some(before)
    ensures MovedTowards(RootPosition(g), before, h.nodes[h.root].priors, noise.epsilon, noise.draw)
  {
    forall c: nat | c < COLS && Legal(RootPosition(g), c)
      ensures h.nodes[h.root].priors[c] - before[c] == Times(noise.epsilon, noise.draw[c] - before[c])
    {
      RootTakesNoise(prm, eval, g, noise, h, before, c);
    }
  }

  lemma SoftPriorsExist(prm: Params, eval: Grid -> Evaluation, pos: Grid)
    requires IsExp(prm.exp) && HasFiniteLegalLogit(pos, eval(pos).policy)
    ensures SoftPriors(prm, eval, pos).Some?
  {
    var c: nat :| c < COLS && Legal(pos, c) && eval(pos).policy[c].Finite?;
    var masked := MaskLogits(eval(pos).policy, LegalColumns(pos));
    assert masked[c] == eval(pos).policy[c];
    SoftmaxSupport(prm.exp, masked);
  }

  lemma GoesOnSearching(o: Options, evaluate: Evaluator, j: Owned)
    requires ValidOptions(o) && ValidEvaluator(evaluate) && Waiting(o, evaluate, j)
    requires RootVisits(j.game) + 1 < o.iterations
    ensures var noise := RootNoise(o, j.meta, RootPosition(j.game));
            var h := Receive(o.prm, j.game, EvalFor(evaluate, j.meta)(LeafPosition(j.game)), noise);
            && h.Some? && Sound(h.value) && RootPosition(h.value) == RootPosition(j.game)
            && Tick(o, j, OwnEvaluation(evaluate, j)) == Again(Owned(j.meta, h.value))
  {
    var eval := EvalFor(evaluate, j.meta);
    assert eval(LeafPosition(j.game)) == OwnEvaluation(evaluate, j);
    assert Usable(LeafPosition(j.game), evaluate(Model(j.meta, LeafPosition(j.game)), LeafPosition(j.game)));
    ReceiveAccepts(o, eval, j.game, RootNoise(o, j.meta, RootPosition(j.game)));
  }

  /** The first evaluation of a game gives its root the softmax priors, moved towards the draw. */
  lemma FirstTickTakesNoise(o: Options, evaluate: Evaluator, j: Owned)
    requires ValidOptions(o) && ValidEvaluator(evaluate) && Waiting(o, evaluate, j) && o.epsilon > 0.0
    requires o.iterations > 1 && j.game.leaf == j.game.root && RootVisits(j.game) == 0
    requires TerminalState(RootPosition(j.game)).None?
    ensures var p := Tick(o, j, OwnEvaluation(evaluate, j));
            && p.Again? && Sound(p.next.game) && RootPosition(p.next.game) == RootPosition(j.game)
            && FirstPriors(o.prm, EvalFor(evaluate, j.meta), p.next.game, o.epsilon,
                           o.draw(j.meta.id, RootPosition(j.game)))
  {
    var eval, pos := EvalFor(evaluate, j.meta), RootPosition(j.game);
    var noise := RootNoise(o, j.meta, pos);
    GoesOnSearching(o, evaluate, j);
    assert Usable(pos, evaluate(Model(j.meta, pos), pos));
    SoftPriorsExist(o.prm, eval, pos);
    FirstEvaluation(o.prm, eval, j.game, noise, Receive(o.prm, j.game, eval(pos), noise).value,
                    SoftPriors(o.prm, eval, pos).value);
  }
}
