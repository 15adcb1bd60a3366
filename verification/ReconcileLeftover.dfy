/**
 * A reachable link that settles an invoice through an exchange true-up and leaves part of its
 * deferred tax open for good: the flips count what the payment applied, not what the true-up
 * settled, and a settled line can be linked no more.
 */
module ReconcileLeftover {
  import opened Wrappers
  import opened Rounding
  import opened GlPosting
  import opened ReconcileGraph
  import opened ReconcileInvariants
  import opened ReconcileVerbs
  import opened ReconcileGrowth
  import opened ReconcileSteps
  import opened ReconcileReversals
  import opened ReconcileRuns
  import opened ReconcileOutcomes
  import opened ReconcileExamples

  const CFG := Config(map[1 := AccountFlags(true, "accounts_receivable")], Some(9))

  /** 1,100 of tax on account 3 is deferred until the invoice, journal 0, is paid. */
  const TAX := Deferral(1, 3, 5, 1100, false)
  const ENV := Env({}, Some(map[DocumentKey(0, Some("invoice"), Some(Document(0))) := [TAX]]), 0)

  /** 1,000 in foreign currency, booked at rate 11. */
  function Invoice(): Doc {
    Doc("invoice", 0, false, 0, "USD",
        [DocLine(PostingLine(1, 1000, 0, Some("customer"), Some(7)), 11000, 11 * RATE_ONE),
         DocLine(PostingLine(3, 0, 100, None, None), 1100, 11 * RATE_ONE),
         DocLine(PostingLine(4, 0, 900, None, None), 9900, 11 * RATE_ONE)])
  }

  /** The same 1,000, paid at rate 10. */
  function Payment(): Doc {
    Doc("payment", 1, false, 0, "USD",
        [DocLine(PostingLine(1, 0, 1000, Some("customer"), Some(7)), 10000, 10 * RATE_ONE),
         DocLine(PostingLine(2, 1000, 0, None, None), 10000, 10 * RATE_ONE)])
  }

  function Ask(): PairRequest {
    PairRequest(LineLocator("invoice", Document(0), 1, false), LineLocator("payment", Document(1), 1, false), 10000, MANUAL)
  }

  /** Both documents are posted and nothing is linked: the invoice is line 0, its tax line 1, the payment line 3. */
  ghost predicate Ready(g: Graph) {
    && Sound(g) && |g.lines| == 5 && |g.journals| == 2 && g.edges == []
    && g.lines[0] == LineOf(Invoice(), 0, Invoice().lines[0])
    && g.lines[1] == LineOf(Invoice(), 0, Invoice().lines[1])
    && g.lines[2].account == 4 && g.lines[4].account == 2
    && g.lines[3] == LineOf(Payment(), 1, Payment().lines[0])
    && forall j | 0 <= j < 2 :: !g.journals[j].reversing && g.journals[j].status == JournalStatus.Posted
  }

  lemma {:induction false} DocsOk()
    ensures DocOk(Invoice()) && DocOk(Payment()) && |Invoice().lines| == 3 && |Payment().lines| == 2
  {
  }

  lemma {:induction false} BothPosted(cfg: Config) returns (g: Graph)
    ensures Reachable(cfg, g) && Ready(g)
  {
    DocsOk();
    g := PostTwo(cfg, Invoice(), Payment());
    DocLineAt(g, Invoice(), 0, 0, 0, 0);
    DocLineAt(g, Invoice(), 0, 0, 1, 1);
    DocLineAt(g, Invoice(), 0, 0, 2, 2);
    DocLineAt(g, Payment(), 3, 1, 0, 3);
    DocLineAt(g, Payment(), 3, 1, 1, 4);
  }

  lemma {:induction false} BothFound(g: Graph)
    requires Ready(g)
    ensures Resolve(g, Ask().debit) == Ok(0) && Resolve(g, Ask().credit) == Ok(3)
    ensures Residual(g, 0) == 11000 && Residual(g, 1) == 1100 && Residual(g, 3) == 10000
    ensures ValidatePair(CFG, g, 0, 3, 10000) == Ok(10000)
  {
    ResolveUnique(g, Ask().debit, 0);
    ResolveUnique(g, Ask().credit, 3);
  }

  /** What the root edge leaves open is the predicted rate difference. */
  lemma {:induction false} PredictedDelta()
    ensures RoundHalfAway(10000 * (11 * RATE_ONE - 10 * RATE_ONE), 10 * RATE_ONE) == 1000
    ensures ExchangeDiff(1000, 0, 1000) == Some(1000)
    ensures Target(TAX, 10000, 11000) == 1000
  {
  }

  lemma {:induction false} EnvFits(g: Graph)
    requires Ready(g)
    ensures EnvOk(g, ENV) && DeferralsOf(ENV, g, 0) == [TAX]
    ensures DeferralsOf(ENV, g, 3) == []
  {
  }

  /** The exchange account is configured and no period is closed, so nothing refuses the link. */
  lemma {:induction false} LinkGoesThrough(g: Graph)
    requires Sound(g) && EnvOk(g, ENV) && |g.lines| == 5
    requires Residual(g, 0) == 11000 && Residual(g, 3) == 10000
    ensures LinkEdges(CFG, ENV, g, Ask(), 0, 3, 10000).Ok?
  {
    LinkEdgesFails(CFG, ENV, g, Ask(), 0, 3, 10000);
  }

  lemma {:induction false} RootLeavesDelta(g: Graph, g1: Graph)
    requires |g.lines| == 5 && Residual(g, 0) == 11000 && Residual(g, 3) == 10000
    requires InsertPartial(g, 0, 3, 10000, MaxDate(g, 0, 3), MANUAL, g.lines[3].sourceId) == Ok(g1)
    ensures g1.lines == g.lines && Residual(g1, 0) == 1000 && Residual(g1, 3) == 0
  {
    InsertResiduals(g, 0, 3, 10000, MaxDate(g, 0, 3), MANUAL, g.lines[3].sourceId);
  }

  lemma {:induction false} StagesTotal(g: Graph, g1: Graph, g2: Graph, g3: Graph, g4: Graph, total: int)
    requires |g.lines| == 5 && Residual(g, 0) == 11000 && Residual(g, 3) == 10000
    requires g.lines[0].rate == 11 * RATE_ONE && g.lines[3].rate == 10 * RATE_ONE
    requires Stages(CFG, ENV, g, Ask(), 0, 3, 10000, g1, g2, g3, g4, total)
    ensures total == 1000
  {
    RootLeavesDelta(g, g1);
    TotalIs(g1, g2, g.nextEdge, total);
  }

  /** The link goes through, and finds the exchange difference. */
  lemma {:induction false} LinkTruesUp(g: Graph)
    requires Ready(g)
    ensures LinkEdges(CFG, ENV, g, Ask(), 0, 3, 10000).Ok?
    ensures LinkEdges(CFG, ENV, g, Ask(), 0, 3, 10000).value.1 == 1000
  {
    BothFound(g);
    EnvFits(g);
    LinkGoesThrough(g);
    var g1, g2, g3, g4, total := LinkStages(CFG, ENV, g, Ask(), 0, 3, 10000);
    StagesTotal(g, g1, g2, g3, g4, total);
  }

  lemma {:induction false} TotalIs(g: Graph, g': Graph, partial: nat, total: int)
    requires |g.lines| == 5 && Residual(g, 0) == 1000 && Residual(g, 3) == 0
    requires g.lines[0].rate == 11 * RATE_ONE && g.lines[3].rate == 10 * RATE_ONE
    requires TrueUp(CFG, ENV, g, Ask(), 0, 3, partial, 10000) == Ok((g', total))
    ensures total == 1000
  {
    PredictedDelta();
  }

  /** The invoice ends settled, and 100 of its 1,100 deferred tax is still open. */
  lemma {:induction false} TaxRemains(g: Graph)
    requires Ready(g)
    ensures var r := Link(CFG, ENV, g, Ask());
      && r.Ok? && |r.value.0.lines| >= 5
      && Residual(r.value.0, 0) == 0 && Residual(r.value.0, 3) == 0 && Residual(r.value.0, TAX.sourceLine) == 100
  {
    BothFound(g);
    EnvFits(g);
    LinkTruesUp(g);
    var g1 := LinkEdges(CFG, ENV, g, Ask(), 0, 3, 10000).value.0;
    ExchangeSettlesAll(CFG, ENV, g, Ask(), 0, 3, 10000, 0);
    ExchangeSettlesAll(CFG, ENV, g, Ask(), 0, 3, 10000, 3);
    LinkRetires(CFG, ENV, g, Ask(), 0, 3, 10000, 0, 11000, 10000, TAX);
    PredictedDelta();
    LinkKeepsResiduals(CFG, ENV, g, Ask());
  }

  /** Grouping and pairing after the edges are in move no residual. */
  lemma {:induction false} LinkKeepsResiduals(cfg: Config, env: Env, g: Graph, req: PairRequest)
    requires Sound(g) && EnvOk(g, env)
    requires Resolve(g, req.debit).Ok? && Resolve(g, req.credit).Ok?
    requires var v := ValidatePair(cfg, g, Resolve(g, req.debit).value, Resolve(g, req.credit).value, req.amount);
      v.Ok? && v.value != 0
      && LinkEdges(cfg, env, g, req, Resolve(g, req.debit).value, Resolve(g, req.credit).value, v.value).Ok?
    ensures var d, c := Resolve(g, req.debit).value, Resolve(g, req.credit).value;
      var g1 := LinkEdges(cfg, env, g, req, d, c, ValidatePair(cfg, g, d, c, req.amount).value).value.0;
      && Link(cfg, env, g, req).Ok? && SameFlows(g1, Link(cfg, env, g, req).value.0)
      && forall l | 0 <= l < |g1.lines| :: Residual(Link(cfg, env, g, req).value.0, l) == Residual(g1, l)
  {
    var d, c := Resolve(g, req.debit).value, Resolve(g, req.credit).value;
    ValidPair(cfg, g, d, c, req.amount);
    var applied := ValidatePair(cfg, g, d, c, req.amount).value;
    LinkEdgesKeepsInv(cfg, env, g, req, d, c, applied);
    LinkEnds(cfg, env, g, req, d, c, applied);
    SameFlowsResiduals(LinkEdges(cfg, env, g, req, d, c, applied).value.0, Link(cfg, env, g, req).value.0);
  }

  /**
   * A reachable state whose next link settles both of its lines and leaves tax of the invoice
   * open; and as the invoice is settled, no later link on it applies anything.
   */
  lemma {:induction false} TaxStaysOpen()
    ensures exists g | Reachable(CFG, g) :: LeavesTaxOpen(g)
  {
    var g := BothPosted(CFG);
    BothFound(g);
    EnvFits(g);
    TaxRemains(g);
    assert LeavesTaxOpen(g);
  }

  ghost predicate LeavesTaxOpen(g: Graph) {
    var r := Link(CFG, ENV, g, Ask());
    && EnvOk(g, ENV) && Resolve(g, Ask().debit) == Ok(0) && TAX in DeferralsOf(ENV, g, 0)
    && r.Ok? && TAX.sourceLine < |r.value.0.lines|
    && Residual(r.value.0, 0) == 0 && Residual(r.value.0, TAX.sourceLine) > 0
  }
}
