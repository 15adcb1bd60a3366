/**
 * When a settled chain goes without a group. A link joins exactly the two lines' components,
 * whatever true-up and flips come with it, so it leaves a settled chain ungrouped exactly when
 * two lines already connected to its ends carry different stamps. Unlinks make that reachable.
 */
module ReconcileDivergence {
  import opened Wrappers
  import opened ReconcileGraph
  import opened ReconcileInvariants
  import opened ReconcileVerbs
  import opened ReconcileGrowth
  import opened ReconcileSteps
  import opened ReconcileReversals
  import opened ReconcileRuns
  import opened ReconcileUndo

  // ------------------------------------------------------------------ what a link connects

  ghost predicate EndsBelow(edges: seq<Edge>, n: nat) {
    forall i | 0 <= i < |edges| :: edges[i].debit < n && edges[i].credit < n
  }

  /** The two sets hold the same lines below `n`. */
  ghost predicate SameBelow(a: set<nat>, b: set<nat>, n: nat) {
    forall l | 0 <= l < n :: l in a <==> l in b
  }

  /** An edge to a line nothing else touches connects nothing that was apart. */
  lemma {:induction false} LeafKeepsClosed(edges: seq<Edge>, e: Edge, leaf: nat, a: set<nat>) returns (b: set<nat>)
    requires Closed(edges, a) && EndsBelow(edges, leaf)
    requires (e.debit == leaf && e.credit < leaf) || (e.credit == leaf && e.debit < leaf)
    ensures Closed(edges + [e], b) && EndsBelow(edges + [e], leaf + 1) && SameBelow(a, b, leaf)
  {
    var other := if e.debit == leaf then e.credit else e.debit;
    b := if other in a then a + {leaf} else a - {leaf};
  }

  /** The derived edge of one flip, to a leg nothing else touches. */
  lemma {:induction false} InsertFlipConnects(g: Graph, g': Graph, f: Flip, leg: nat, below: nat, partial: nat,
                                              origin: string, date: int, a: set<nat>) returns (b: set<nat>)
    requires InsertFlip(g, f, leg, partial, origin, date) == Ok(g')
    requires Closed(g.edges, a) && EndsBelow(g.edges, below) && below <= leg && f.d.sourceLine < leg
    ensures Closed(g'.edges, b) && EndsBelow(g'.edges, leg + 1) && SameBelow(a, b, leg)
  {
    var e := g'.edges[|g.edges|];
    assert g'.edges == g.edges + [e] && EndsBelow(g.edges, leg);
    b := LeafKeepsClosed(g.edges, e, leg, a);
  }

  lemma {:induction false} SameBelowChains(a: set<nat>, b: set<nat>, c: set<nat>, n: nat, m: nat)
    requires SameBelow(a, b, n) && SameBelow(b, c, m) && n <= m
    ensures SameBelow(a, c, n)
  {
  }

  lemma {:induction false} PairFlipsConnect(g: Graph, flips: seq<Flip>, first: nat, partial: nat, origin: string,
                                            date: int, a: set<nat>) returns (b: set<nat>)
    requires PairFlips(g, flips, OwnLegs(|flips|), first, partial, origin, date).Ok?
    requires Closed(g.edges, a) && EndsBelow(g.edges, first)
    requires forall k | 0 <= k < |flips| :: flips[k].d.sourceLine < first
    ensures var g' := PairFlips(g, flips, OwnLegs(|flips|), first, partial, origin, date).value;
      Closed(g'.edges, b) && EndsBelow(g'.edges, first + 2 * |flips|) && SameBelow(a, b, first)
  {
    if flips == [] {
      b := a;
    } else {
      var k := |flips| - 1;
      assert OwnLegs(|flips|)[..k] == OwnLegs(k);
      var b1 := PairFlipsConnect(g, flips[..k], first, partial, origin, date, a);
      var g1 := PairFlips(g, flips[..k], OwnLegs(k), first, partial, origin, date).value;
      PairFlipsUnfolds(g, g1, flips, first, partial, origin, date);
      var g2 := PairFlips(g, flips, OwnLegs(|flips|), first, partial, origin, date).value;
      b := InsertFlipConnects(g1, g2, flips[k], first + 2 * k + 1, first + 2 * k, partial, origin, date, b1);
      SameBelowChains(a, b1, b, first, first + 2 * k + 1);
    }
  }

  lemma {:induction false} EdgesBelow(g: Graph)
    requires Inv(g)
    ensures EndsBelow(g.edges, |g.lines|)
  {
    Clauses(g);
    forall i | 0 <= i < |g.edges| ensures g.edges[i].debit < |g.lines| && g.edges[i].credit < |g.lines| {
      assert EdgeOk(g.edges[i], |g.lines|, g.nextEdge);
    }
  }

  lemma {:induction false} FlipSideConnects(cfg: Config, env: Env, g: Graph, req: PairRequest, side: nat, partial: nat,
                                            applied: int, resBefore: int, date: int, a: set<nat>) returns (b: set<nat>)
    requires Inv(g) && side < |g.lines| && EnvOk(g, env) && Closed(g.edges, a)
    requires 0 <= applied <= resBefore <= g.lines[side].base
    requires FlipSide(cfg, env, g, req, side, partial, applied, resBefore, date).Ok?
    ensures Closed(FlipSide(cfg, env, g, req, side, partial, applied, resBefore, date).value.edges, b)
    ensures SameBelow(a, b, |g.lines|)
  {
    b := a;
    var flips := SideFlips(cfg, env, g, side, applied, resBefore);
    SideFlipsSound(cfg, env, g, side, applied, resBefore);
    if flips != [] {
      LegsMatchIff(flips);
      EdgesBelow(g);
      var g1 := Commit(g, FlipPosting(g, side, partial, flips, date)).value;
      b := PairFlipsConnect(g1, flips, |g.lines|, partial, req.origin, date, a);
    }
  }

  lemma {:induction false} TrueUpConnects(cfg: Config, env: Env, g: Graph, req: PairRequest, d: nat, c: nat,
                                          partial: nat,
                                          applied: int, a: set<nat>) returns (b: set<nat>)
    requires Inv(g) && d < |g.lines| && c < |g.lines| && Closed(g.edges, a)
    requires TrueUp(cfg, env, g, req, d, c, partial, applied).Ok?
    ensures Closed(TrueUp(cfg, env, g, req, d, c, partial, applied).value.0.edges, b)
    ensures SameBelow(a, b, |g.lines|)
  {
    b := a;
    var (g', total) := TrueUp(cfg, env, g, req, d, c, partial, applied).value;
    if g.lines[d].rate != g.lines[c].rate && total != 0 {
      EdgesBelow(g);
      b := PostTrueUpConnects(cfg, env, g, req, d, c, partial, total, MaxDate(g, d, c), a);
    }
  }

  lemma {:induction false} PostTrueUpConnects(cfg: Config, env: Env, g: Graph, req: PairRequest, d: nat, c: nat,
                                              partial: nat, diff: int, date: int, a: set<nat>) returns (b: set<nat>)
    requires EndsBelow(g.edges, |g.lines|) && d < |g.lines| && c < |g.lines| && Closed(g.edges, a)
    requires PostTrueUp(cfg, env, g, req, d, c, partial, diff, date).Ok?
    ensures Closed(PostTrueUp(cfg, env, g, req, d, c, partial, diff, date).value.edges, b)
    ensures SameBelow(a, b, |g.lines|)
  {
    var g1 := PostExchange(g, cfg.fx.value, d, partial, diff, date).value;
    var exch := LineOn(g1.lines, g.lines[d].account, |g.lines|, |g1.lines|).value;
    var g2 := SettleExchange(g1, req, d, c, exch, partial, diff, date).value;
    assert EndsBelow(g1.edges, exch) && Closed(g1.edges, a);
    b := LeafKeepsClosed(g1.edges, g2.edges[|g1.edges|], exch, a);
  }

  lemma {:induction false} LinkEdgesConnect(cfg: Config, env: Env, g: Graph, req: PairRequest, d: nat, c: nat,
                                            applied: int,
                                            a: set<nat>) returns (b: set<nat>)
    requires Inv(g) && EnvOk(g, env) && d < |g.lines| && c < |g.lines| && d != c
    requires 0 < applied <= Residual(g, d) && applied <= Residual(g, c)
    requires LinkEdges(cfg, env, g, req, d, c, applied).Ok?
    requires Closed(g.edges, a) && d in a && c in a
    ensures Closed(LinkEdges(cfg, env, g, req, d, c, applied).value.0.edges, b)
    ensures SameBelow(a, b, |g.lines|)
  {
    var partial, date := g.nextEdge, MaxDate(g, d, c);
    var g1 := InsertPartial(g, d, c, applied, date, req.origin, g.lines[c].sourceId).value;
    InsertKeepsInv(g, d, c, applied, date, req.origin, g.lines[c].sourceId);
    var b1 := TrueUpConnects(cfg, env, g1, req, d, c, partial, applied, a);
    var (g2, total) := TrueUp(cfg, env, g1, req, d, c, partial, applied).value;
    assert Inv(g2) by {
      TrueUpKeepsInv(cfg, env, g1, req, d, c, partial, applied);
    }
    ResidualAt(g, d);
    ResidualAt(g, c);
    b := BothFlipsConnect(cfg, env, g2, req, d, c, partial, applied, Residual(g, d), Residual(g, c), date, b1);
  }

  lemma {:induction false} BothFlipsConnect(cfg: Config, env: Env, g: Graph, req: PairRequest, d: nat, c: nat,
                                            partial: nat, applied: int, resD: int, resC: int, date: int, a: set<nat>)
    returns (b: set<nat>)
    requires Inv(g) && EnvOk(g, env) && d < |g.lines| && c < |g.lines| && Closed(g.edges, a)
    requires 0 <= applied <= resD <= g.lines[d].base && applied <= resC <= g.lines[c].base
    requires FlipSide(cfg, env, g, req, d, partial, applied, resD, date).Ok?
    requires FlipSide(cfg, env, FlipSide(cfg, env, g, req, d, partial, applied, resD, date).value, req, c, partial,
                      applied, resC, date).Ok?
    ensures var g1 := FlipSide(cfg, env, g, req, d, partial, applied, resD, date).value;
      Closed(FlipSide(cfg, env, g1, req, c, partial, applied, resC, date).value.edges, b)
    ensures SameBelow(a, b, |g.lines|)
  {
    var b1 := FlipSideConnects(cfg, env, g, req, d, partial, applied, resD, date, a);
    FlipSideKeepsInv(cfg, env, g, req, d, partial, applied, resD, date);
    var g1 := FlipSide(cfg, env, g, req, d, partial, applied, resD, date).value;
    b := FlipSideConnects(cfg, env, g1, req, c, partial, applied, resC, date, b1);
  }

  /** Among the lines the graph held, a link joins the components of its two lines and no others. */
  lemma {:induction false} LinkJoins(cfg: Config, env: Env, g: Graph, req: PairRequest, d: nat, c: nat, applied: int)
    requires Inv(g) && EnvOk(g, env) && d < |g.lines| && c < |g.lines| && d != c
    requires 0 < applied <= Residual(g, d) && applied <= Residual(g, c)
    requires LinkEdges(cfg, env, g, req, d, c, applied).Ok?
    ensures var g1 := LinkEdges(cfg, env, g, req, d, c, applied).value.0;
      SameBelow(Component(g.edges, {d, c}), Component(g1.edges, {d, c}), |g.lines|)
  {
    var g1 := LinkEdges(cfg, env, g, req, d, c, applied).value.0;
    var before, after := Component(g.edges, {d, c}), Component(g1.edges, {d, c});
    ComponentCloses(g.edges, {d, c});
    ComponentCloses(g1.edges, {d, c});
    var b := LinkEdgesConnect(cfg, env, g, req, d, c, applied, before);
    ComponentLeast(g1.edges, {d, c}, b);
    LinkEdgesGrows(cfg, env, g, req, d, c, applied);
    forall i | 0 <= i < |g.edges| ensures g.edges[i].debit in after <==> g.edges[i].credit in after {
      assert g1.edges[..|g.edges|][i] == g1.edges[i];
    }
    ComponentLeast(g.edges, {d, c}, after);
  }

  // ------------------------------------------------------------------ when a settled chain is grouped

  ghost predicate StampsAgree(g: Graph, comp: set<nat>) {
    forall a, b | a in comp && b in comp && a in g.stamps && b in g.stamps :: g.stamps[a] == g.stamps[b]
  }

  lemma {:induction false} StampsAgreeIff(g: Graph, comp: set<nat>)
    requires Inv(g)
    ensures |DistinctStamps(g, comp)| <= 1 <==> StampsAgree(g, comp)
  {
    var stamps := DistinctStamps(g, comp);
    FewStamps(g, comp);
    StampCases(g, comp);
    if |stamps| >= 2 {
      assert stamps[0] in stamps && stamps[1] in stamps && stamps[0] < stamps[1];
      var a :| a in comp && a in g.stamps && g.stamps[a] == stamps[0];
      var b :| b in comp && b in g.stamps && g.stamps[b] == stamps[1];
    }
  }

  /** Completion groups a chain exactly when it is settled and its lines carry at most one stamp. */
  lemma {:induction false} CompleteGroupsIff(g: Graph, seeds: set<nat>, total: int)
    requires Inv(g) && seeds != {}
    ensures var comp := Component(g.edges, seeds);
      Complete(g, seeds, total).1.Some? <==> Settled(g, comp) && StampsAgree(g, comp)
  {
    var comp := Component(g.edges, seeds);
    ComponentCloses(g.edges, seeds);
    StampsAgreeIff(g, comp);
  }

  /**
   * A link that applies something groups the chain it completes exactly when that chain is
   * settled and the lines connected to its two ends beforehand carried at most one stamp.
   */
  lemma {:induction false} LinkGroupsIff(cfg: Config, env: Env, g: Graph, req: PairRequest)
    requires Sound(g) && EnvOk(g, env) && Link(cfg, env, g, req).Ok? && Link(cfg, env, g, req).value.1.applied > 0
    ensures var d, c := Resolve(g, req.debit).value, Resolve(g, req.credit).value;
      var (g', outcome) := Link(cfg, env, g, req).value;
      outcome.group.Some? <==>
        Settled(g', Component(g'.edges, {d, c})) && StampsAgree(g, Component(g.edges, {d, c}))
  {
    var d, c := Resolve(g, req.debit).value, Resolve(g, req.credit).value;
    ValidPair(cfg, g, d, c, req.amount);
    var applied := ValidatePair(cfg, g, d, c, req.amount).value;
    LinkEdgesKeepsInv(cfg, env, g, req, d, c, applied);
    var (g1, total) := LinkEdges(cfg, env, g, req, d, c, applied).value;
    CompleteGroupsIff(g1, {d, c}, total);
    LinkJoins(cfg, env, g, req, d, c, applied);
    StampsBelow(g);
    LinkEdgesGrows(cfg, env, g, req, d, c, applied);
    LinkEnds(cfg, env, g, req, d, c, applied);
    SameFlowsSettled(g1, Link(cfg, env, g, req).value.0, {d, c});
  }

  lemma {:induction false} StampsBelow(g: Graph)
    requires Inv(g)
    ensures forall l | l in g.stamps :: l < |g.lines|
  {
    Clauses(g);
  }

  lemma {:induction false} SameFlowsSettled(g: Graph, g': Graph, seeds: set<nat>)
    requires SameFlows(g, g')
    ensures Settled(g, Component(g.edges, seeds)) <==> Settled(g', Component(g'.edges, seeds))
  {
    ComponentCloses(g.edges, seeds);
    ComponentCloses(g'.edges, seeds);
    assert Closed(g'.edges, Component(g.edges, seeds)) && Closed(g.edges, Component(g'.edges, seeds));
    ComponentLeast(g.edges, seeds, Component(g'.edges, seeds));
    ComponentLeast(g'.edges, seeds, Component(g.edges, seeds));
    SameFlowsResiduals(g, g');
  }
}
