/**
 * Why no deferral's real account may be another's transition account on the opposite side: the
 * later flip is paired with the earlier flip's real leg, which is too small for it.
 */
module ReconcileCrossed {
  import opened Wrappers
  import opened Rounding
  import opened ReconcileGraph
  import opened ReconcileInvariants
  import opened ReconcileVerbs
  import opened ReconcileGrowth
  import opened ReconcileSteps
  import opened ReconcileReversals
  import opened ReconcileEnds
  import opened ReconcileRuns
  import opened ReconcileOutcomes
  import opened ReconcileUndo
  import opened ReconcileExact
  import opened ReconcileExamples

  const CFG := Config(map[1 := AccountFlags(true, "accounts_receivable")], None)

  /** The first deferral's real account is the second one's transition account. */
  const FIRST := Deferral(1, 3, 7, 10, true)
  const SECOND := Deferral(2, 7, 5, 60, false)
  const ENV := Env({}, Some(map[DocumentKey(0, Some("invoice"), Some(Document(0))) := [FIRST, SECOND]]), 0)
  const FLIPS := [Flip(FIRST, 10), Flip(SECOND, 60)]

  function Invoice(): Doc {
    Doc("invoice", 0, false, 0, "IDR", [Item(1, 100, 0), Item(3, 10, 0), Item(7, 0, 60), Item(4, 0, 50)])
  }

  function Payment(): Doc {
    Doc("payment", 1, false, 0, "IDR", [Item(1, 0, 100), Item(2, 100, 0)])
  }

  function Ask(): PairRequest {
    PairRequest(LineLocator("invoice", Document(0), 1, false), LineLocator("payment", Document(1), 1, false), 100, MANUAL)
  }

  /** The deferrals meet every other clause of the lookup's contract. */
  ghost predicate OtherwiseOk(g: Graph, ds: seq<Deferral>) {
    && (forall i | 0 <= i < |ds| ::
      && ds[i].sourceLine < |g.lines| && g.lines[ds[i].sourceLine].base == ds[i].amount
      && g.lines[ds[i].sourceLine].account == ds[i].transition && (g.lines[ds[i].sourceLine].debit > 0) == ds[i].isDebit)
    && forall i, k | 0 <= i < k < |ds| :: ds[i].sourceLine != ds[k].sourceLine
  }

  // ------------------------------------------------------------------ which legs are matched

  lemma {:induction false} LegsAre()
    ensures FlipLines(FLIPS) == [RealLeg(FLIPS[0]), TransitionLeg(FLIPS[0]), RealLeg(FLIPS[1]), TransitionLeg(FLIPS[1])]
  {
    var legs := FlipLines(FLIPS);
    assert legs[2 * 0] == RealLeg(FLIPS[0]) && legs[2 * 0 + 1] == TransitionLeg(FLIPS[0]);
    assert legs[2 * 1] == RealLeg(FLIPS[1]) && legs[2 * 1 + 1] == TransitionLeg(FLIPS[1]);
  }

  /** The second flip finds the first one's real leg. */
  lemma {:induction false} WrongLegMatches()
    ensures MatchLegs(FlipLines(FLIPS), FLIPS) == Some([1, 0])
  {
    LegsAre();
    var legs, none: seq<nat>, one: seq<nat> := FlipLines(FLIPS), [], [1];
    assert FLIPS[..1] == [FLIPS[0]] && FLIPS[..1][..0] == [];
    assert MatchLegs(legs, []) == Some(none) && Used(none) == {} && Used(one) == {1};
    assert FindLeg(legs, Used(none), FLIPS[0], 0) == Some(1);
    assert none + [1] == one;
    assert MatchLegs(legs, FLIPS[..1]) == Some(one);
    assert FindLeg(legs, Used(one), FLIPS[1], 0) == Some(0);
    assert one + [0] == [1, 0];
  }

  // ------------------------------------------------------------------ the run

  /** The invoice is lines 0 to 3, its payment lines 4 and 5. */
  ghost predicate Posted(g: Graph) {
    && Sound(g) && |g.lines| == 6 && |g.journals| == 2 && g.edges == [] && g.nextEdge == 0
    && DocAt(g, Invoice(), 0, 0) && DocAt(g, Payment(), 4, 1)
  }

  lemma {:induction false} DocsOk()
    ensures DocOk(Invoice()) && DocOk(Payment()) && |Invoice().lines| == 4 && |Payment().lines| == 2
  {
  }

  lemma {:induction false} PostBoth() returns (g: Graph)
    ensures Reachable(CFG, g) && Posted(g)
  {
    DocsOk();
    g := PostTwo(CFG, Invoice(), Payment());
  }

  lemma {:induction false} LinesAre(g: Graph)
    requires Posted(g)
    ensures g.lines[0] == LineOf(Invoice(), 0, Item(1, 100, 0)) && g.lines[1] == LineOf(Invoice(), 0, Item(3, 10, 0))
    ensures g.lines[2] == LineOf(Invoice(), 0, Item(7, 0, 60)) && g.lines[3].account == 4
    ensures g.lines[4] == LineOf(Payment(), 1, Item(1, 0, 100)) && g.lines[5].account == 2
  {
    DocLineAt(g, Invoice(), 0, 0, 0, 0);
    DocLineAt(g, Invoice(), 0, 0, 1, 1);
    DocLineAt(g, Invoice(), 0, 0, 2, 2);
    DocLineAt(g, Invoice(), 0, 0, 3, 3);
    DocLineAt(g, Payment(), 4, 1, 0, 4);
    DocLineAt(g, Payment(), 4, 1, 1, 5);
  }

  lemma {:induction false} BothFound(g: Graph)
    requires Posted(g)
    ensures Asks(CFG, g, Ask(), 0, 4, 100) && OtherwiseOk(g, [FIRST, SECOND])
    ensures DeferralsOf(ENV, g, 0) == [FIRST, SECOND] && DeferralsOf(ENV, g, 4) == []
    ensures g.lines[0].rate == g.lines[4].rate && MaxDate(g, 0, 4) == 0 && g.lines[0].base == 100
    ensures g.lines[0].account == 1 && g.lines[1].base == 10 && g.lines[2].base == 60 && g.lines[4].base == 100
    ensures g.lines[4].sourceId == Some(Document(1))
  {
    LinesAre(g);
    ResolveUnique(g, Ask().debit, 0);
    ResolveUnique(g, Ask().credit, 4);
  }

  /** Both deferrals are owed in full. */
  lemma {:induction false} BothOwed(g: Graph)
    requires |g.lines| == 6 && Residual(g, 1) == 10 && Residual(g, 2) == 60
    ensures Flips(g, [FIRST, SECOND], 100, 100) == FLIPS
  {
    var ds := [FIRST, SECOND];
    assert RoundHalfAway(10 * 100, 100) == 10 && RoundHalfAway(60 * 100, 100) == 60;
    assert ds[..1] == [FIRST] && ds[..1][..0] == [];
    assert Flips(g, [], 100, 100) == [];
    assert Flips(g, ds[..1], 100, 100) == [] + [Flip(FIRST, 10)];
    assert Flips(g, ds, 100, 100) == [Flip(FIRST, 10)] + [Flip(SECOND, 60)];
  }

  /** The edges the flips add, the second one on the first one's real leg. */
  lemma {:induction false} FlipsPair(g: Graph, partial: nat) returns (g': Graph)
    requires |g.lines| == 10
    ensures PairFlips(g, FLIPS, [1, 0], 6, partial, MANUAL, 0) == Ok(g')
    ensures g'.lines == g.lines && g'.edges == g.edges
      + [DerivedEdge(g.nextEdge, 1, 7, 10, 0, MANUAL, partial)] + [DerivedEdge(g.nextEdge + 1, 6, 2, 60, 0, MANUAL, partial)]
  {
    var matched: seq<nat> := [1, 0];
    assert FLIPS[..1] == [FLIPS[0]] && matched[..1] == [1];
    PairOneFlip(g, FLIPS[0], 6, partial, MANUAL, 0);
    var g1 := InsertFlip(g, FLIPS[0], 7, partial, MANUAL, 0).value;
    assert PairFlips(g, FLIPS[..1], matched[..1], 6, partial, MANUAL, 0) == Ok(g1);
    g' := InsertFlip(g1, FLIPS[1], 6, partial, MANUAL, 0).value;
  }

  lemma {:induction false} FlipsPost(g: Graph, partial: nat) returns (g': Graph)
    requires |g.lines| == 6 && Caba(partial, 0) !in g.keys
    ensures PostFlips(ENV, g, Ask(), 0, partial, FLIPS, 0) == Ok(g')
    ensures |g'.lines| == 10 && g.lines <= g'.lines && g'.lines[6].base == 10 && |g'.edges| == |g.edges| + 2
    ensures g'.edges[..|g.edges|] == g.edges
    ensures g'.edges[|g.edges|] == DerivedEdge(g.nextEdge, 1, 7, 10, 0, MANUAL, partial)
    ensures g'.edges[|g.edges| + 1] == DerivedEdge(g.nextEdge + 1, 6, 2, 60, 0, MANUAL, partial)
  {
    WrongLegMatches();
    LegsAre();
    var w := FlipPosting(g, 0, partial, FLIPS, 0);
    assert Commit(g, w).Ok?;
    var g1 := Commit(g, w).value;
    assert g1.lines[6] == NewLine(w, |g.journals|, w.lines[0]);
    g' := FlipsPair(g1, partial);
  }

  lemma {:induction false} RootedOwes(g: Graph)
    requires Posted(g)
    ensures SideFlips(CFG, ENV, Rooted(g, Ask(), 0, 4, 100), 0, 100, 100) == FLIPS && Residual(g, 0) == 100
  {
    BothFound(g);
    var g1 := Rooted(g, Ask(), 0, 4, 100);
    AppliedPush(g.edges, RootEdge(g, Ask(), 0, 4, 100), 1);
    AppliedPush(g.edges, RootEdge(g, Ask(), 0, 4, 100), 2);
    BothOwed(g1);
  }

  /** The root edge, and then the flips: the second one on the first one's real leg, line 6. */
  ghost predicate Over(g: Graph) {
    && |g.lines| == 10 && g.lines[6].base == 10 && |g.edges| == 3
    && EdgeAt(g.edges, 0, 0, 0, 4, 100, Some(Document(1))) && EdgeAt(g.edges, 1, 1, 1, 7, 10, Some(PartialRef(0)))
    && EdgeAt(g.edges, 2, 2, 6, 2, 60, Some(PartialRef(0)))
    && g.lines[0].base == 100 && g.lines[4].base == 100
  }

  lemma {:induction false} LinkEdgesOver(g: Graph) returns (g': Graph)
    requires Posted(g) && g.nextEdge == 0
    ensures LinkEdges(CFG, ENV, g, Ask(), 0, 4, 100) == Ok((g', 0)) && Over(g')
  {
    BothFound(g);
    RootedOwes(g);
    RootInserts(CFG, ENV, g, Ask(), 0, 4, 100);
    NextKeysFree(g, 0);
    var g1 := Rooted(g, Ask(), 0, 4, 100);
    g' := FlipsPost(g1, 0);
    NoFlips(CFG, ENV, g', Ask(), 4, 0, 100, Residual(g, 4), 0);
    FromStages(CFG, ENV, g, Ask(), 0, 4, 100, g1, g1, g', g', 0);
    assert g'.edges[..1][0] == RootEdge(g, Ask(), 0, 4, 100);
  }

  lemma {:induction false} OverResiduals(g: Graph)
    requires Over(g)
    ensures Residual(g, 6) == -50 && Residual(g, 0) == 0 && Residual(g, 4) == 0
  {
    ThreeShares(g.edges, 6);
    ThreeShares(g.edges, 0);
    ThreeShares(g.edges, 4);
  }

  /** Grouping and pairing change no residual. */
  lemma {:induction false} LinkOver(g: Graph)
    requires Posted(g) && g.nextEdge == 0
    ensures Link(CFG, ENV, g, Ask()).Ok? && |Link(CFG, ENV, g, Ask()).value.0.lines| == 10
    ensures Residual(Link(CFG, ENV, g, Ask()).value.0, 6) == -50
  {
    BothFound(g);
    var g1 := LinkEdgesOver(g);
    OverResiduals(g1);
    OnlyStamps(g1);
  }

  lemma {:induction false} OnlyStamps(g1: Graph)
    requires |g1.lines| == 10 && Residual(g1, 0) == 0 && Residual(g1, 4) == 0
    requires g1.lines[0].base == 100 && g1.lines[4].base == 100
    ensures var g2 := Complete(g1, {0, 4}, 0).0;
      PairAll(g2, [0, 4]) == Ok(g2) && |g2.lines| == 10 && Residual(g2, 6) == Residual(g1, 6)
  {
    var g2, ids := Complete(g1, {0, 4}, 0).0, [0, 4];
    CompleteFlows(g1, {0, 4}, 0);
    SameFlowsResiduals(g1, g2);
    assert forall i | 0 <= i < |ids| :: !PairsNow(g2, ids[i]);
    PairAllIdle(g2, ids);
  }

  /** A link that over-applies a line. */
  ghost predicate OverApplies(g: Graph) {
    && |g.lines| > 0 && OtherwiseOk(g, [FIRST, SECOND]) && DeferralsOf(ENV, g, 0) == [FIRST, SECOND]
    && var r := Link(CFG, ENV, g, Ask());
    && r.Ok? && exists l | 0 <= l < |r.value.0.lines| :: Residual(r.value.0, l) < 0
  }

  /** Without that clause alone, a link over-applies a line of its own flip journal. */
  lemma {:induction false} CrossingOverApplies()
    ensures exists g | Reachable(CFG, g) :: OverApplies(g)
  {
    var g := PostBoth();
    BothFound(g);
    LinkOver(g);
    assert OverApplies(g);
  }

  lemma {:induction false} ThreeShares(edges: seq<Edge>, l: nat)
    requires |edges| == 3
    ensures Applied(edges, l) == Share(edges[0], l) + Share(edges[1], l) + Share(edges[2], l)
  {
    assert edges[..2][..1] == edges[..1] && edges[..1][..0] == [];
    assert Applied(edges[..1], l) == Share(edges[0], l);
    assert Applied(edges[..2], l) == Share(edges[0], l) + Share(edges[1], l);
  }
}
