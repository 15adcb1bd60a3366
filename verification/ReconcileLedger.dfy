/**
 * Open items and the general ledger: on every account, open debit lines minus open credit
 * lines equal the booked debits minus credits, as long as every edge joins a debit line and a
 * credit line of one account. Every verb inserts only such edges.
 */
module ReconcileLedger {
  import opened Wrappers
  import opened GlPosting
  import opened ReconcileGraph
  import opened ReconcileInvariants
  import opened ReconcileVerbs
  import opened ReconcileGrowth
  import opened ReconcileSteps
  import opened ReconcileReversals
  import opened ReconcileEnds

  // ------------------------------------------------------------------ the identity

  /** +1 for a debit line of the account, -1 for a credit line of it, 0 elsewhere. */
  function Sign(line: Line, account: nat): int {
    if line.account != account then 0 else if line.debit > 0 then 1 else -1
  }

  /** Booked debits minus credits of an account, in company currency. */
  function Booked(lines: seq<Line>, account: nat): int {
    if lines == [] then 0
    else
      var last := lines[|lines| - 1];
      Booked(lines[..|lines| - 1], account) + Sign(last, account) * last.base
  }

  /** Open debit lines minus open credit lines of an account, over the first `n` lines. */
  function OpenItems(g: Graph, n: nat, account: nat): int
    requires n <= |g.lines|
  {
    if n == 0 then 0 else OpenItems(g, n - 1, account) + Sign(g.lines[n - 1], account) * Residual(g, n - 1)
  }

  ghost predicate Agrees(g: Graph) {
    forall a: nat :: OpenItems(g, |g.lines|, a) == Booked(g.lines, a)
  }

  /** What the edges take out of an account's open items. */
  function Drift(lines: seq<Line>, edges: seq<Edge>, account: nat): int {
    if edges == [] then 0
    else
      var e := edges[|edges| - 1];
      Drift(lines, edges[..|edges| - 1], account)
      + e.amount * (SignAt(lines, e.debit, account) + SignAt(lines, e.credit, account))
  }

  function SignAt(lines: seq<Line>, l: nat, account: nat): int {
    if l < |lines| then Sign(lines[l], account) else 0
  }

  /** The signed applied amounts of the first `n` lines. */
  function SignedApplied(lines: seq<Line>, edges: seq<Edge>, n: nat, account: nat): int
    requires n <= |lines|
  {
    if n == 0 then 0
    else SignedApplied(lines, edges, n - 1, account) + Sign(lines[n - 1], account) * Applied(edges, n - 1)
  }

  lemma {:induction false} SignedAppliedNone(lines: seq<Line>, n: nat, account: nat)
    requires n <= |lines|
    ensures SignedApplied(lines, [], n, account) == 0
  {
    if n == 0 {
    } else {
      SignedAppliedNone(lines, n - 1, account);
      assert Applied([], n - 1) == 0;
    }
  }

  lemma {:induction false} SignedAppliedPush(lines: seq<Line>, edges: seq<Edge>, e: Edge, n: nat, account: nat)
    requires n <= |lines| && e.debit < |lines| && e.credit < |lines| && e.debit != e.credit
    ensures SignedApplied(lines, edges + [e], n, account) == SignedApplied(lines, edges, n, account)
      + (if e.debit < n then e.amount * Sign(lines[e.debit], account) else 0)
      + (if e.credit < n then e.amount * Sign(lines[e.credit], account) else 0)
  {
    if n == 0 {
    } else {
      var l := n - 1;
      var s := Sign(lines[l], account);
      SignedAppliedPush(lines, edges, e, l, account);
      AppliedPush(edges, e, l);
      Distribute(s, Applied(edges, l), Share(e, l));
    }
  }

  lemma {:induction false} Distribute(s: int, a: int, b: int)
    ensures s * (a + b) == s * a + b * s
  {
  }

  lemma {:induction false} DriftIsSignedApplied(lines: seq<Line>, edges: seq<Edge>, account: nat)
    requires forall i | 0 <= i < |edges| ::
      edges[i].debit < |lines| && edges[i].credit < |lines| && edges[i].debit != edges[i].credit
    ensures SignedApplied(lines, edges, |lines|, account) == Drift(lines, edges, account)
  {
    if edges == [] {
      SignedAppliedNone(lines, |lines|, account);
    } else {
      var k := |edges| - 1;
      var e := edges[k];
      DriftIsSignedApplied(lines, edges[..k], account);
      SignedAppliedPush(lines, edges[..k], e, |lines|, account);
      assert edges[..k] + [e] == edges;
      assert e.amount * (SignAt(lines, e.debit, account) + SignAt(lines, e.credit, account))
          == e.amount * Sign(lines[e.debit], account) + e.amount * Sign(lines[e.credit], account);
    }
  }

  lemma {:induction false} OpenItemsSplit(g: Graph, n: nat, account: nat)
    requires n <= |g.lines|
    ensures OpenItems(g, n, account) == Booked(g.lines[..n], account) - SignedApplied(g.lines, g.edges, n, account)
  {
    if n == 0 {
    } else {
      OpenItemsSplit(g, n - 1, account);
      assert g.lines[..n][..n - 1] == g.lines[..n - 1];
      var s, base, applied := Sign(g.lines[n - 1], account), g.lines[n - 1].base, Applied(g.edges, n - 1);
      assert s * (base - applied) == s * base - s * applied;
    }
  }

  ghost predicate EdgesInRange(lines: seq<Line>, edges: seq<Edge>) {
    forall i | 0 <= i < |edges| ::
      edges[i].debit < |lines| && edges[i].credit < |lines| && edges[i].debit != edges[i].credit
  }

  /** Open items are what is booked, less what edges take out. */
  lemma {:induction false} OpenItemsAre(g: Graph, account: nat)
    requires EdgesInRange(g.lines, g.edges)
    ensures OpenItems(g, |g.lines|, account) == Booked(g.lines, account) - Drift(g.lines, g.edges, account)
  {
    OpenItemsSplit(g, |g.lines|, account);
    assert g.lines[..|g.lines|] == g.lines;
    DriftIsSignedApplied(g.lines, g.edges, account);
  }

  lemma {:induction false} InRange(g: Graph)
    requires EdgesOk(g)
    ensures EdgesInRange(g.lines, g.edges)
  {
    assert forall i | 0 <= i < |g.edges| :: EdgeOk(g.edges[i], |g.lines|, g.nextEdge);
  }

  /** An edge joins a debit line and a credit line of one account. */
  ghost predicate AlignedEdge(lines: seq<Line>, d: nat, c: nat) {
    && d < |lines| && c < |lines|
    && lines[d].debit > 0 && lines[c].credit > 0 && lines[c].debit == 0
    && lines[d].account == lines[c].account
  }

  ghost predicate Aligned(g: Graph) {
    forall i | 0 <= i < |g.edges| :: AlignedEdge(g.lines, g.edges[i].debit, g.edges[i].credit)
  }

  lemma {:induction false} AlignedDriftsNothing(lines: seq<Line>, edges: seq<Edge>, account: nat)
    requires forall i | 0 <= i < |edges| :: AlignedEdge(lines, edges[i].debit, edges[i].credit)
    ensures Drift(lines, edges, account) == 0
  {
    if edges == [] {
    } else {
      var k := |edges| - 1;
      assert AlignedEdge(lines, edges[k].debit, edges[k].credit);
      AlignedDriftsNothing(lines, edges[..k], account);
    }
  }

  /** Aligned edges keep the open items equal to the books on every account. */
  lemma {:induction false} AlignedAgrees(g: Graph)
    requires EdgesOk(g) && Aligned(g)
    ensures Agrees(g)
  {
    InRange(g);
    forall a: nat ensures OpenItems(g, |g.lines|, a) == Booked(g.lines, a) {
      OpenItemsAre(g, a);
      AlignedDriftsNothing(g.lines, g.edges, a);
    }
  }

  /** How far one more edge moves an account's open items from its books. */
  lemma {:induction false} InsertDrifts(g: Graph, g': Graph, e: Edge, a: nat)
    requires EdgesInRange(g.lines, g.edges) && EdgesInRange(g.lines, [e])
    requires OpenItems(g, |g.lines|, a) == Booked(g.lines, a)
    requires g'.lines == g.lines && g'.edges == g.edges + [e]
    ensures OpenItems(g', |g'.lines|, a)
      == Booked(g'.lines, a) - e.amount * (SignAt(g.lines, e.debit, a) + SignAt(g.lines, e.credit, a))
  {
    assert [e][0] == e;
    assert EdgesInRange(g'.lines, g'.edges);
    OpenItemsAre(g, a);
    OpenItemsAre(g', a);
    assert g'.edges[..|g.edges|] == g.edges;
  }

  /**
   * One more edge keeps the agreement exactly when its two lines are on one account and on
   * opposite sides of it.
   */
  lemma {:induction false} EdgeKeepsAgreementIff(g: Graph, d: nat, c: nat, amount: int, date: int, origin: string,
                                                 source: Option<Ref>)
    requires EdgesOk(g) && Agrees(g) && InsertPartial(g, d, c, amount, date, origin, source).Ok?
    ensures Agrees(InsertPartial(g, d, c, amount, date, origin, source).value)
      <==> g.lines[d].account == g.lines[c].account && (g.lines[d].debit > 0) != (g.lines[c].debit > 0)
  {
    var g' := InsertPartial(g, d, c, amount, date, origin, source).value;
    var e := g'.edges[|g.edges|];
    InRange(g);
    assert EdgesInRange(g.lines, [e]);
    if g.lines[d].account == g.lines[c].account && (g.lines[d].debit > 0) != (g.lines[c].debit > 0) {
      forall a: nat ensures OpenItems(g', |g'.lines|, a) == Booked(g'.lines, a) {
        InsertDrifts(g, g', e, a);
      }
    } else {
      var a := g.lines[d].account;
      InsertDrifts(g, g', e, a);
      assert amount * (SignAt(g.lines, d, a) + SignAt(g.lines, c, a)) != 0;
      assert OpenItems(g', |g'.lines|, a) != Booked(g'.lines, a);
    }
  }

  /** In books kept in one currency the booked balance is the ledger's debits minus credits. */
  lemma {:induction false} BookedIsLedger(g: Graph, n: nat, account: nat)
    requires LinesOk(g) && LedgerMirrors(g) && n <= |g.lines|
    requires forall l | 0 <= l < |g.lines| :: g.lines[l].base == g.lines[l].debit + g.lines[l].credit
    ensures Booked(g.lines[..n], account) == Net(g.ledger[..n], account)
  {
    if n == 0 {
    } else {
      BookedIsLedger(g, n - 1, account);
      assert g.lines[..n][..n - 1] == g.lines[..n - 1] && g.ledger[..n][..n - 1] == g.ledger[..n - 1];
      assert LineOk(g.lines[n - 1], |g.journals|);
      assert g.ledger[n - 1] == AsPosting(g.lines[n - 1]);
    }
  }

  // ------------------------------------------------------------------ every verb inserts aligned edges

  lemma {:induction false} InsertKeepsAligned(g: Graph, d: nat, c: nat, amount: int, date: int, origin: string,
                                              source: Option<Ref>)
    requires Aligned(g) && AlignedEdge(g.lines, d, c)
    requires InsertPartial(g, d, c, amount, date, origin, source).Ok?
    ensures Aligned(InsertPartial(g, d, c, amount, date, origin, source).value)
  {
  }

  lemma {:induction false} MoreLinesKeepAligned(g: Graph, g': Graph)
    requires Aligned(g) && g.lines <= g'.lines && SameFlow(g.edges, g'.edges)
    ensures Aligned(g')
  {
    forall i | 0 <= i < |g'.edges| ensures AlignedEdge(g'.lines, g'.edges[i].debit, g'.edges[i].credit) {
      assert AlignedEdge(g.lines, g.edges[i].debit, g.edges[i].credit);
    }
  }

  /** A linkable pair: a debit line and a credit line of one account, which is not the exchange account. */
  ghost predicate Linkable(cfg: Config, g: Graph, d: nat, c: nat) {
    && AlignedEdge(g.lines, d, c)
    && cfg.fx != Some(g.lines[d].account)
  }

  lemma {:induction false} TrueUpKeepsAligned(cfg: Config, env: Env, g: Graph, req: PairRequest, d: nat, c: nat,
                                              partial: nat, applied: int)
    requires Aligned(g) && Linkable(cfg, g, d, c)
    requires TrueUp(cfg, env, g, req, d, c, partial, applied).Ok?
    ensures Aligned(TrueUp(cfg, env, g, req, d, c, partial, applied).value.0)
  {
    var (g', total) := TrueUp(cfg, env, g, req, d, c, partial, applied).value;
    if total != 0 {
      PostTrueUpKeepsAligned(cfg, env, g, req, d, c, partial, total, MaxDate(g, d, c));
    }
  }

  lemma {:induction false} PostTrueUpKeepsAligned(cfg: Config, env: Env, g: Graph, req: PairRequest, d: nat, c: nat,
                                                  partial: nat, diff: int, date: int)
    requires Aligned(g) && Linkable(cfg, g, d, c) && diff != 0
    requires PostTrueUp(cfg, env, g, req, d, c, partial, diff, date).Ok?
    ensures Aligned(PostTrueUp(cfg, env, g, req, d, c, partial, diff, date).value)
  {
    var fx := cfg.fx.value;
    var g1 := PostExchange(g, fx, d, partial, diff, date).value;
    PostExchangeLine(g, fx, d, partial, diff, date);
    ExchangeLineSide(g, fx, d, partial, diff, date);
    MoreLinesKeepAligned(g, g1);
    var exch := |g.lines| + 1;
    if diff > 0 {
      InsertKeepsAligned(g1, d, exch, diff, date, req.origin, Some(PartialRef(partial)));
    } else {
      InsertKeepsAligned(g1, exch, c, -diff, date, req.origin, Some(PartialRef(partial)));
    }
  }

  lemma {:induction false} ExchangeLineSide(g: Graph, fx: nat, d: nat, partial: nat, diff: int, date: int)
    requires d < |g.lines| && diff != 0 && PostExchange(g, fx, d, partial, diff, date).Ok?
    ensures var g' := PostExchange(g, fx, d, partial, diff, date).value;
      && |g'.lines| == |g.lines| + 2 && SameFlow(g.edges, g'.edges)
      && g'.lines[|g.lines| + 1].account == g.lines[d].account
      && (diff > 0 ==> g'.lines[|g.lines| + 1].credit > 0 && g'.lines[|g.lines| + 1].debit == 0)
      && (diff < 0 ==> g'.lines[|g.lines| + 1].debit > 0)
  {
    var w := ExchangePosting(g, fx, d, partial, diff, date);
    var g' := PostExchange(g, fx, d, partial, diff, date).value;
    assert g'.lines[|g.lines| + 1] == NewLine(w, |g.journals|, w.lines[1]);
  }

  /** A deferral names a line of its transition account, on the side it says. */
  ghost predicate DeferralAligned(lines: seq<Line>, d: Deferral) {
    && d.sourceLine < |lines|
    && lines[d.sourceLine].account == d.transition
    && (if d.isDebit then lines[d.sourceLine].debit > 0
        else lines[d.sourceLine].credit > 0 && lines[d.sourceLine].debit == 0)
  }

  ghost predicate EnvAligned(lines: seq<Line>, env: Env) {
    env.deferred.Some? ==>
      forall key, i | key in env.deferred.value && 0 <= i < |env.deferred.value[key]| ::
        DeferralAligned(lines, env.deferred.value[key][i])
  }

  ghost predicate LegAligned(lines: seq<Line>, leg: nat, f: Flip) {
    && leg < |lines| && lines[leg].account == f.d.transition
    && (if f.d.isDebit then lines[leg].credit > 0 && lines[leg].debit == 0 else lines[leg].debit > 0)
  }

  ghost predicate FlipsAligned(lines: seq<Line>, flips: seq<Flip>, first: nat) {
    forall k | 0 <= k < |flips| :: DeferralAligned(lines, flips[k].d) && LegAligned(lines, first + 2 * k + 1, flips[k])
  }

  lemma {:induction false} InsertFlipKeepsAligned(g: Graph, f: Flip, leg: nat, partial: nat, origin: string, date: int)
    requires Aligned(g) && DeferralAligned(g.lines, f.d) && LegAligned(g.lines, leg, f)
    requires InsertFlip(g, f, leg, partial, origin, date).Ok?
    ensures Aligned(InsertFlip(g, f, leg, partial, origin, date).value)
  {
    if f.d.isDebit {
      InsertKeepsAligned(g, f.d.sourceLine, leg, f.amount, date, origin, Some(PartialRef(partial)));
    } else {
      InsertKeepsAligned(g, leg, f.d.sourceLine, f.amount, date, origin, Some(PartialRef(partial)));
    }
  }

  lemma {:induction false} PairFlipsPrefix(g: Graph, flips: seq<Flip>, first: nat, partial: nat, origin: string,
                                           date: int)
    requires flips != [] && PairFlips(g, flips, OwnLegs(|flips|), first, partial, origin, date).Ok?
    ensures PairFlips(g, flips[..|flips| - 1], OwnLegs(|flips| - 1), first, partial, origin, date).Ok?
  {
    assert OwnLegs(|flips|)[..|flips| - 1] == OwnLegs(|flips| - 1);
  }

  lemma {:induction false} PairFlipsKeepsAligned(g: Graph, flips: seq<Flip>, first: nat, partial: nat, origin: string,
                                                 date: int)
    requires Aligned(g) && FlipsAligned(g.lines, flips, first)
    requires PairFlips(g, flips, OwnLegs(|flips|), first, partial, origin, date).Ok?
    ensures Aligned(PairFlips(g, flips, OwnLegs(|flips|), first, partial, origin, date).value)
  {
    if flips == [] {
    } else {
      var k := |flips| - 1;
      PairFlipsPrefix(g, flips, first, partial, origin, date);
      PairFlipsKeepsAligned(g, flips[..k], first, partial, origin, date);
      var g1 := PairFlips(g, flips[..k], OwnLegs(k), first, partial, origin, date).value;
      PairFlipsUnfolds(g, g1, flips, first, partial, origin, date);
      InsertFlipKeepsAligned(g1, flips[k], first + 2 * |flips| - 1, partial, origin, date);
    }
  }

  lemma {:induction false} FlipLegsAligned(g: Graph, side: nat, partial: nat, flips: seq<Flip>, date: int)
    requires side < |g.lines| && PositiveFlips(flips)
    requires forall k | 0 <= k < |flips| :: DeferralAligned(g.lines, flips[k].d)
    requires Commit(g, FlipPosting(g, side, partial, flips, date)).Ok?
    ensures FlipsAligned(Commit(g, FlipPosting(g, side, partial, flips, date)).value.lines, flips, |g.lines|)
  {
    var w := FlipPosting(g, side, partial, flips, date);
    var g' := Commit(g, w).value;
    forall k | 0 <= k < |flips|
      ensures DeferralAligned(g'.lines, flips[k].d) && LegAligned(g'.lines, |g.lines| + 2 * k + 1, flips[k])
    {
      assert g'.lines[|g.lines| + (2 * k + 1)] == NewLine(w, |g.journals|, w.lines[2 * k + 1]);
    }
  }

  lemma {:induction false} PostFlipsKeepsAligned(env: Env, g: Graph, req: PairRequest, side: nat, partial: nat,
                                                 flips: seq<Flip>, date: int)
    requires Aligned(g) && side < |g.lines| && PositiveFlips(flips) && NoCross(flips)
    requires forall k | 0 <= k < |flips| :: DeferralAligned(g.lines, flips[k].d)
    requires PostFlips(env, g, req, side, partial, flips, date).Ok?
    ensures Aligned(PostFlips(env, g, req, side, partial, flips, date).value)
  {
    if flips != [] {
      LegsMatchIff(flips);
      FlipLegsAligned(g, side, partial, flips, date);
      var g1 := Commit(g, FlipPosting(g, side, partial, flips, date)).value;
      MoreLinesKeepAligned(g, g1);
      PairFlipsKeepsAligned(g1, flips, |g.lines|, partial, req.origin, date);
    }
  }

  lemma {:induction false} FlipsFromAligned(g: Graph, ds: seq<Deferral>, cum: int, base: nat)
    requires base > 0 && forall i | 0 <= i < |ds| :: DeferralAligned(g.lines, ds[i])
    ensures var flips := Flips(g, ds, cum, base);
      forall k | 0 <= k < |flips| :: DeferralAligned(g.lines, flips[k].d)
  {
    var flips := Flips(g, ds, cum, base);
    FlipsMembers(g, ds, cum, base);
    forall k | 0 <= k < |flips| ensures DeferralAligned(g.lines, flips[k].d) {
      assert flips[k] in flips;
      var i :| 0 <= i < |ds| && ds[i] == flips[k].d;
    }
  }

  lemma {:induction false} SideFlipsAligned(cfg: Config, env: Env, g: Graph, side: nat, applied: int, resBefore: int)
    requires side < |g.lines| && EnvOk(g, env) && EnvAligned(g.lines, env)
    ensures var flips := SideFlips(cfg, env, g, side, applied, resBefore);
      && PositiveFlips(flips) && NoCross(flips)
      && forall k | 0 <= k < |flips| :: DeferralAligned(g.lines, flips[k].d)
  {
    var ds, base := DeferralsOf(env, g, side), g.lines[side].base;
    if base > 0 {
      assert forall i | 0 <= i < |ds| :: DeferralAligned(g.lines, ds[i]);
      FlipsKeepPort(g, ds, base - resBefore + applied, base);
      FlipsFromAligned(g, ds, base - resBefore + applied, base);
    }
  }

  lemma {:induction false} FlipSideKeepsAligned(cfg: Config, env: Env, g: Graph, req: PairRequest, side: nat,
                                                partial: nat, applied: int, resBefore: int, date: int)
    requires Aligned(g) && side < |g.lines| && EnvOk(g, env) && EnvAligned(g.lines, env)
    requires FlipSide(cfg, env, g, req, side, partial, applied, resBefore, date).Ok?
    ensures Aligned(FlipSide(cfg, env, g, req, side, partial, applied, resBefore, date).value)
  {
    SideFlipsAligned(cfg, env, g, side, applied, resBefore);
    PostFlipsKeepsAligned(env, g, req, side, partial, SideFlips(cfg, env, g, side, applied, resBefore), date);
  }

  lemma {:induction false} BothFlipsKeepAligned(cfg: Config, env: Env, g: Graph, g1: Graph, g2: Graph, req: PairRequest,
                                                d: nat, c: nat, partial: nat, applied: int, resD: int, resC: int,
                                                date: int)
    requires Aligned(g) && d < |g.lines| && c < |g.lines| && EnvOk(g, env) && EnvAligned(g.lines, env)
    requires FlipSide(cfg, env, g, req, d, partial, applied, resD, date) == Ok(g1)
    requires FlipSide(cfg, env, g1, req, c, partial, applied, resC, date) == Ok(g2)
    ensures Aligned(g2)
  {
    FlipSideKeepsAligned(cfg, env, g, req, d, partial, applied, resD, date);
    EnvStaysAligned(g.lines, g1.lines, env);
    FlipSideKeepsAligned(cfg, env, g1, req, c, partial, applied, resC, date);
  }

  lemma {:induction false} LinkEdgesKeepsAligned(cfg: Config, env: Env, g: Graph, req: PairRequest, d: nat, c: nat,
                                                 applied: int)
    requires Aligned(g) && Linkable(cfg, g, d, c) && EnvOk(g, env) && EnvAligned(g.lines, env)
    requires LinkEdges(cfg, env, g, req, d, c, applied).Ok?
    ensures Aligned(LinkEdges(cfg, env, g, req, d, c, applied).value.0)
  {
    var p, date := g.nextEdge, MaxDate(g, d, c);
    InsertKeepsAligned(g, d, c, applied, date, req.origin, g.lines[c].sourceId);
    var g1 := InsertPartial(g, d, c, applied, date, req.origin, g.lines[c].sourceId).value;
    TrueUpKeepsAligned(cfg, env, g1, req, d, c, p, applied);
    var g2 := TrueUp(cfg, env, g1, req, d, c, p, applied).value.0;
    EnvStaysAligned(g1.lines, g2.lines, env);
    var g3 := FlipSide(cfg, env, g2, req, d, p, applied, Residual(g, d), date).value;
    var g4 := FlipSide(cfg, env, g3, req, c, p, applied, Residual(g, c), date).value;
    BothFlipsKeepAligned(cfg, env, g2, g3, g4, req, d, c, p, applied, Residual(g, d), Residual(g, c), date);
  }

  lemma {:induction false} EnvStaysAligned(a: seq<Line>, b: seq<Line>, env: Env)
    requires a <= b && EnvAligned(a, env)
    ensures EnvAligned(b, env)
  {
    if env.deferred.Some? {
      forall key, i | key in env.deferred.value && 0 <= i < |env.deferred.value[key]|
        ensures DeferralAligned(b, env.deferred.value[key][i])
      {
        assert DeferralAligned(a, env.deferred.value[key][i]);
      }
    }
  }

  // ------------------------------------------------------------------ whole verbs

  /** The exchange account is not itself reconcilable. */
  ghost predicate FxApart(cfg: Config) {
    cfg.fx.Some? && cfg.fx.value in cfg.accounts ==> !cfg.accounts[cfg.fx.value].reconcilable
  }

  /** Two lines of one source on one account. */
  predicate SameItem(g: Graph, l: nat, k: nat)
    requires l < |g.lines| && k < |g.lines|
  {
    && g.lines[l].account == g.lines[k].account
    && g.lines[l].sourceType == g.lines[k].sourceType && g.lines[l].sourceId == g.lines[k].sourceId
  }

  predicate Opposite(g: Graph, l: nat, k: nat)
    requires l < |g.lines| && k < |g.lines|
  {
    (g.lines[l].debit > 0) != (g.lines[k].debit > 0)
  }

  /** Among the lines of l's source on l's account, every reversal counterpart is on the other side. */
  predicate Faced(g: Graph, l: nat)
    requires l < |g.lines|
  {
    forall x, k | 0 <= x < |g.lines| && 0 <= k < |g.lines| && SameItem(g, l, x) && IsCounterpart(g, x, k) ::
      Opposite(g, x, k)
  }

  /** The lines whose pairing cannot go wrong: those of the machinery, which never pair, and the faced ones. */
  function FacedLines(g: Graph): set<nat> {
    set l | 0 <= l < |g.lines| && (Machinery(g.lines[l]) || Faced(g, l))
  }

  /** Every line an edge touches is such a line. */
  ghost predicate Mirrors(g: Graph) {
    Within(g.edges, FacedLines(g), |g.lines|)
  }

  lemma {:induction false} FacedPairs(g: Graph)
    ensures PairsWithin(g, FacedLines(g), |g.lines|)
  {
    forall l, k | 0 <= l < |g.lines| && 0 <= k < |g.lines| && InOrNew(l, FacedLines(g), |g.lines|)
      && !Machinery(g.lines[l]) && IsCounterpart(g, l, k) ensures k in FacedLines(g)
    {
      assert Faced(g, l) && SameItem(g, l, k);
      forall x, y | 0 <= x < |g.lines| && 0 <= y < |g.lines| && SameItem(g, k, x) && IsCounterpart(g, x, y)
        ensures Opposite(g, x, y)
      {
        assert SameItem(g, l, x);
      }
    }
  }

  /** Only the machinery has posted since, and no void was taken back. */
  ghost predicate Quieter(g: Graph, g': Graph) {
    && g.lines <= g'.lines && |g.journals| <= |g'.journals|
    && (forall l | |g.lines| <= l < |g'.lines| :: Machinery(g'.lines[l]))
    && forall j | 0 <= j < |g.journals| ::
      && g'.journals[j].(status := g.journals[j].status) == g.journals[j]
      && (g'.journals[j].status == Posted ==> g.journals[j].status == Posted)
  }

  lemma {:induction false} CounterpartWas(g: Graph, g': Graph, x: nat, k: nat)
    requires LinesOk(g) && Quieter(g, g') && x < |g'.lines| && k < |g'.lines|
    requires !Machinery(g'.lines[x]) && IsCounterpart(g', x, k)
    ensures x < |g.lines| && k < |g.lines| && IsCounterpart(g, x, k)
  {
    assert x < |g.lines| && k < |g.lines|;
    assert LineOk(g.lines[x], |g.journals|) && LineOk(g.lines[k], |g.journals|);
    assert g'.lines[x] == g.lines[x] && g'.lines[k] == g.lines[k];
  }

  lemma {:induction false} FacedStays(g: Graph, g': Graph, l: nat)
    requires LinesOk(g) && Quieter(g, g') && l in FacedLines(g)
    ensures l in FacedLines(g')
  {
    assert g'.lines[l] == g.lines[l];
    if !Machinery(g.lines[l]) {
      forall x, k | 0 <= x < |g'.lines| && 0 <= k < |g'.lines| && SameItem(g', l, x) && IsCounterpart(g', x, k)
        ensures Opposite(g', x, k)
      {
        CounterpartWas(g, g', x, k);
        assert SameItem(g, l, x) && Opposite(g, x, k);
      }
    }
  }

  /** Edges within the faced lines of before are within those of after. */
  lemma {:induction false} MirrorsStay(g: Graph, g': Graph)
    requires LinesOk(g) && Quieter(g, g') && Within(g'.edges, FacedLines(g), |g.lines|)
    requires forall i | 0 <= i < |g'.edges| :: g'.edges[i].debit < |g'.lines| && g'.edges[i].credit < |g'.lines|
    ensures Mirrors(g')
  {
    forall l: nat | InOrNew(l, FacedLines(g), |g.lines|) && l < |g'.lines| ensures l in FacedLines(g') {
      if l in FacedLines(g) {
        FacedStays(g, g', l);
      }
    }
    forall i | 0 <= i < |g'.edges|
      ensures InOrNew(g'.edges[i].debit, FacedLines(g'), |g'.lines|)
      ensures InOrNew(g'.edges[i].credit, FacedLines(g'), |g'.lines|)
    {
    }
  }

  /** What a link may touch is faced: its two lines and the lines deferred for their documents. */
  ghost predicate LinkFaced(env: Env, g: Graph, req: PairRequest) {
    var d, c := Resolve(g, req.debit), Resolve(g, req.credit);
    d.Ok? && c.Ok? ==>
      && d.value in FacedLines(g) && c.value in FacedLines(g)
      && DeferredWithin(env, g, d.value, FacedLines(g), |g.lines|)
      && DeferredWithin(env, g, c.value, FacedLines(g), |g.lines|)
  }

  lemma {:induction false} ValidPairAligned(cfg: Config, g: Graph, d: nat, c: nat, amount: int)
    requires LinesOk(g) && FxApart(cfg) && d < |g.lines| && c < |g.lines|
    requires ValidatePair(cfg, g, d, c, amount).Ok?
    ensures Linkable(cfg, g, d, c)
  {
    assert LineOk(g.lines[c], |g.journals|);
  }

  lemma {:induction false} LinkKeepsTidy(cfg: Config, env: Env, g: Graph, req: PairRequest)
    requires Tidy(g) && FxApart(cfg) && EnvOk(g, env) && EnvAligned(g.lines, env) && LinkFaced(env, g, req)
    requires Link(cfg, env, g, req).Ok?
    ensures Tidy(Link(cfg, env, g, req).value.0)
  {
    var d, c := Resolve(g, req.debit).value, Resolve(g, req.credit).value;
    LinkKeepsSound(cfg, env, g, req);
    ValidPair(cfg, g, d, c, req.amount);
    assert LinesOk(g) by {
      Clauses(g);
    }
    ValidPairAligned(cfg, g, d, c, req.amount);
    var applied := ValidatePair(cfg, g, d, c, req.amount).value;
    if applied != 0 {
      LinkEdgesKeepsAligned(cfg, env, g, req, d, c, applied);
      LinkEdgesKeepsInv(cfg, env, g, req, d, c, applied);
      LinkEdgesGrows(cfg, env, g, req, d, c, applied);
      LinkEnds(cfg, env, g, req, d, c, applied);
      LinkEdgesWithin(cfg, env, g, req, d, c, applied, FacedLines(g), |g.lines|);
      var (g1, total) := LinkEdges(cfg, env, g, req, d, c, applied).value;
      var g2 := Complete(g1, {d, c}, total).0;
      MoreLinesKeepAligned(g1, g2);
      GrownMirrors(g, g1, g2);
    }
  }

  /** Stamped or not, edges grown within the faced lines stay within them. */
  lemma {:induction false} GrownMirrors(g: Graph, g1: Graph, g2: Graph)
    requires LinesOk(g) && Inv(g2) && Grows(g, g1, g.nextEdge) && SameFlows(g1, g2)
    requires Within(g1.edges, FacedLines(g), |g.lines|)
    ensures Mirrors(g2)
  {
    SameFlowWithin(g1.edges, g2.edges, FacedLines(g), |g.lines|);
    EdgeEnds(g2);
    assert Quieter(g, g2);
    MirrorsStay(g, g2);
  }

  lemma {:induction false} EdgeEnds(g: Graph)
    requires Inv(g)
    ensures forall i | 0 <= i < |g.edges| :: g.edges[i].debit < |g.lines| && g.edges[i].credit < |g.lines|
  {
    Clauses(g);
    forall i | 0 <= i < |g.edges| ensures g.edges[i].debit < |g.lines| && g.edges[i].credit < |g.lines| {
      assert EdgeOk(g.edges[i], |g.lines|, g.nextEdge);
    }
  }

  /** What every verb keeps: open items that agree, and edges on lines that pair with the other side only. */
  ghost predicate Tidy(g: Graph) {
    Sound(g) && Aligned(g) && Mirrors(g)
  }

  lemma {:induction false} PairOneKeepsAligned(g: Graph, l: nat)
    requires Inv(g) && Aligned(g) && l < |g.lines| && (Machinery(g.lines[l]) || Faced(g, l))
    ensures PairOne(g, l).Ok? && Aligned(PairOne(g, l).value)
  {
    PairOneKeepsInv(g, l);
    if PairsNow(g, l) {
      var k := Counterpart(g, l).value;
      var d, c := if g.lines[l].debit > 0 then l else k, if g.lines[l].debit > 0 then k else l;
      CounterpartSound(g, l);
      assert SameItem(g, l, l) && Opposite(g, l, k);
      var amount, date := Min(g.lines[d].base, g.lines[c].base), MaxDate(g, d, c);
      assert LineOk(g.lines[d], |g.journals|) && LineOk(g.lines[c], |g.journals|) by {
        Clauses(g);
      }
      InsertKeepsAligned(g, d, c, amount, date, MANUAL, g.lines[d].sourceId);
      var g1 := InsertPartial(g, d, c, amount, date, MANUAL, g.lines[d].sourceId).value;
      CompleteFlows(g1, {d, c}, 0);
      MoreLinesKeepAligned(g1, Complete(g1, {d, c}, 0).0);
    }
  }

  /** The code's pairing ignores sides: it keeps the agreement exactly when the counterpart is on the other one. */
  lemma {:induction false} PairKeepsAgreementIff(g: Graph, l: nat)
    requires Inv(g) && Agrees(g) && PairsNow(g, l)
    ensures Counterpart(g, l).value < |g.lines| && PairOne(g, l).Ok?
    ensures Agrees(PairOne(g, l).value) <==> Opposite(g, l, Counterpart(g, l).value)
  {
    var k := Counterpart(g, l).value;
    var d, c := if g.lines[l].debit > 0 then l else k, if g.lines[l].debit > 0 then k else l;
    CounterpartSound(g, l);
    PairOneKeepsInv(g, l);
    var amount, date := Min(g.lines[d].base, g.lines[c].base), MaxDate(g, d, c);
    assert EdgesOk(g) by {
      Clauses(g);
    }
    EdgeKeepsAgreementIff(g, d, c, amount, date, MANUAL, g.lines[d].sourceId);
    var g1 := InsertPartial(g, d, c, amount, date, MANUAL, g.lines[d].sourceId).value;
    CompleteFlows(g1, {d, c}, 0);
    FlowsAgree(g1, Complete(g1, {d, c}, 0).0);
  }

  lemma {:induction false} OpenItemsSame(g: Graph, g': Graph, n: nat, account: nat)
    requires n <= |g.lines| && g'.lines == g.lines && forall l | 0 <= l < |g.lines| :: Residual(g', l) == Residual(g, l)
    ensures OpenItems(g', n, account) == OpenItems(g, n, account)
  {
    if n == 0 {
    } else {
      OpenItemsSame(g, g', n - 1, account);
    }
  }

  lemma {:induction false} FlowsAgree(g: Graph, g': Graph)
    requires SameFlows(g, g')
    ensures Agrees(g') <==> Agrees(g)
  {
    SameFlowsResiduals(g, g');
    forall a: nat ensures OpenItems(g', |g'.lines|, a) == OpenItems(g, |g.lines|, a) {
      OpenItemsSame(g, g', |g.lines|, a);
    }
    if Agrees(g) {
      forall a: nat ensures OpenItems(g', |g'.lines|, a) == Booked(g'.lines, a) {
        assert OpenItems(g, |g.lines|, a) == Booked(g.lines, a);
      }
    }
    if Agrees(g') {
      forall a: nat ensures OpenItems(g, |g.lines|, a) == Booked(g.lines, a) {
        assert OpenItems(g', |g'.lines|, a) == Booked(g'.lines, a);
      }
    }
  }

  lemma {:induction false} PairAllKeepsAligned(g: Graph, ids: seq<nat>)
    requires Inv(g) && Aligned(g) && forall i | 0 <= i < |ids| :: ids[i] in FacedLines(g)
    ensures PairAll(g, ids).Ok? && Inv(PairAll(g, ids).value) && Aligned(PairAll(g, ids).value)
    ensures PairAll(g, ids).value.lines == g.lines && PairAll(g, ids).value.journals == g.journals
  {
    if ids == [] {
    } else {
      var init, l := ids[..|ids| - 1], ids[|ids| - 1];
      PairAllKeepsAligned(g, init);
      var g1 := PairAll(g, init).value;
      assert l in FacedLines(g1) by {
        FacedSame(g, g1, l);
      }
      PairOneKeepsInv(g1, l);
      PairOneKeepsAligned(g1, l);
      PairOneJournals(g1, l);
    }
  }

  lemma {:induction false} PairOneJournals(g: Graph, l: nat)
    requires PairOne(g, l).Ok?
    ensures PairOne(g, l).value.journals == g.journals && PairOne(g, l).value.lines == g.lines
  {
  }

  lemma {:induction false} FacedSame(g: Graph, g': Graph, l: nat)
    requires l in FacedLines(g) && g'.lines == g.lines && g'.journals == g.journals
    ensures l in FacedLines(g')
  {
    if !Machinery(g.lines[l]) {
      forall x, k | 0 <= x < |g'.lines| && 0 <= k < |g'.lines| && SameItem(g', l, x) && IsCounterpart(g', x, k)
        ensures Opposite(g', x, k)
      {
        assert SameItem(g, l, x) && IsCounterpart(g, x, k);
      }
    }
  }

  lemma {:induction false} ReversalsPostOnlyMachinery(env: Env, g: Graph, js: seq<nat>)
    requires Inv(g) && ReverseAll(env, g, js).Ok?
    ensures var g' := ReverseAll(env, g, js).value;
      forall l | |g.lines| <= l < |g'.lines| :: g'.lines[l].sourceType == Some(RECONCILIATION)
  {
    if js == [] {
    } else {
      var init := js[..|js| - 1];
      ReversalsPostOnlyMachinery(env, g, init);
      var g1 := ReverseAll(env, g, init).value;
      var j := js[|js| - 1];
      if j < |g1.journals| && JournalLines(g1, j) != [] {
        CommitsMachinery(g1, ReversalPosting(env, g1, j));
      }
    }
  }

  lemma {:induction false} CommitsMachinery(g: Graph, w: Posting)
    requires Commit(g, w).Ok? && w.sourceType == RECONCILIATION
    ensures var g' := Commit(g, w).value;
      forall l | |g.lines| <= l < |g'.lines| :: g'.lines[l].sourceType == Some(RECONCILIATION)
  {
    var g' := Commit(g, w).value;
    forall l | |g.lines| <= l < |g'.lines| ensures g'.lines[l].sourceType == Some(RECONCILIATION) {
      assert g'.lines[l] == NewLine(w, |g.journals|, w.lines[l - |g.lines|]);
    }
  }

  lemma {:induction false} RemoveKeepsAligned(g: Graph, roots: set<nat>)
    requires Aligned(g)
    ensures Aligned(RemoveEdges(g, roots))
  {
    var kept := Select(g.edges, roots, false);
    SelectMembers(g.edges, roots, false);
    forall i | 0 <= i < |kept| ensures AlignedEdge(g.lines, kept[i].debit, kept[i].credit) {
      assert kept[i] in g.edges;
    }
  }

  lemma {:induction false} RemovalQuiet(g: Graph, g1: Graph, roots: set<nat>)
    requires OnlyPosts(g, g1)
    requires forall l | |g.lines| <= l < |g1.lines| :: g1.lines[l].sourceType == Some(RECONCILIATION)
    ensures Quieter(g, RemoveEdges(g1, roots))
  {
  }

  lemma {:induction false} RemovalTidy(g: Graph, g1: Graph, roots: set<nat>)
    requires Tidy(g) && OnlyPosts(g, g1) && Sound(RemoveEdges(g1, roots))
    requires forall l | |g.lines| <= l < |g1.lines| :: g1.lines[l].sourceType == Some(RECONCILIATION)
    ensures Tidy(RemoveEdges(g1, roots))
    ensures forall l | l in Ends(Select(g.edges, roots, true)) :: l in FacedLines(RemoveEdges(g1, roots))
  {
    var g2 := RemoveEdges(g1, roots);
    MoreLinesKeepAligned(g, g1);
    RemoveKeepsAligned(g1, roots);
    assert LinesOk(g) by {
      Clauses(g);
    }
    RemovalQuiet(g, g1, roots);
    SelectWithin(g.edges, roots, false, FacedLines(g), |g.lines|);
    EdgeEnds(g2);
    MirrorsStay(g, g2);
    SelectWithin(g.edges, roots, true, FacedLines(g), |g.lines|);
    var taken := Select(g.edges, roots, true);
    EndsWithin(taken, FacedLines(g), |g.lines|);
    assert EdgesOk(g) by {
      Clauses(g);
    }
    TakenEndsInLines(g, roots);
    forall l | l in Ends(taken) ensures l in FacedLines(g2) {
      FacedStays(g, g2, l);
    }
  }

  lemma {:induction false} PairAllKeepsTidy(g: Graph, ids: seq<nat>)
    requires Tidy(g) && forall i | 0 <= i < |ids| :: ids[i] in FacedLines(g)
    ensures PairAll(g, ids).Ok? && Tidy(PairAll(g, ids).value)
  {
    FacedPairs(g);
    PairAllKeepsAligned(g, ids);
    PairAllWithin(g, ids, FacedLines(g), |g.lines|);
    PairAllKeepsSound(g, ids);
    var g' := PairAll(g, ids).value;
    assert LinesOk(g) by {
      Clauses(g);
    }
    EdgeEnds(g');
    MirrorsStay(g, g');
  }

  lemma {:induction false} UnlinkClosureKeepsTidy(env: Env, g: Graph, roots: set<nat>)
    requires Tidy(g)
    ensures UnlinkClosure(env, g, roots).Ok? && Tidy(UnlinkClosure(env, g, roots).value)
  {
    UnlinkClosureStages(env, g, roots);
    var taken := Select(g.edges, roots, true);
    var js := GeneratedJournals(g, Ids(taken));
    var g1 := ReverseAll(env, g, js).value;
    ReverseAllKeepsInv(env, g, js);
    ReversalsPostOnlyMachinery(env, g, js);
    RemovalTidy(g, g1, roots);
    var ids := Ascending(|g1.lines|, Ends(taken));
    assert forall i | 0 <= i < |ids| :: ids[i] in ids;
    PairAllKeepsTidy(RemoveEdges(g1, roots), ids);
  }
}
