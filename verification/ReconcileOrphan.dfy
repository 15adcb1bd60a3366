/**
 * A derived edge that outlives its root: a tax payment is linked with the line a flip posted, so
 * its root edge counts as derived from the invoice's link, and unlinking that link takes the root
 * edge away and leaves the edge that settled its exchange difference.
 */
module ReconcileOrphan {
  import opened Wrappers
  import opened Rounding
  import opened GlPosting
  import opened ReconcileGraph
  import opened ReconcileInvariants
  import opened ReconcileVerbs
  import opened ReconcileGrowth
  import opened ReconcileSteps
  import opened ReconcileReversals
  import opened ReconcileEnds
  import opened ReconcileLedger
  import opened ReconcileRuns
  import opened ReconcileOutcomes
  import opened ReconcileUndo
  import opened ReconcileRepair
  import opened ReconcileLineage
  import opened ReconcileExact
  import opened ReconcileExamples

  const CFG := Config(map[1 := AccountFlags(true, "accounts_receivable"), 5 := AccountFlags(true, "")], Some(9))
  const TAX := Deferral(1, 3, 5, 10, false)
  const ENV := Env({}, Some(map[DocumentKey(0, Some("invoice"), Some(Document(0))) := [TAX]]), 0)
  const FLIP := Flip(TAX, 10)

  /** 10 of tax on account 3 is deferred until the invoice is paid, and then due on account 5. */
  function Invoice(): Doc {
    Doc("invoice", 0, false, 0, "IDR", [Item(1, 100, 0), Item(3, 0, 10), Item(4, 0, 90)])
  }

  function Payment(): Doc {
    Doc("payment", 1, false, 0, "IDR", [Item(1, 0, 100), Item(2, 100, 0)])
  }

  /** The tax is paid at a rate of 1.1. */
  function TaxPayment(): Doc {
    Doc("tax", 2, false, 0, "IDR",
        [DocLine(PostingLine(5, 11, 0, None, None), 11, 1_100_000),
         DocLine(PostingLine(2, 0, 11, None, None), 11, RATE_ONE)])
  }

  function Ask(): PairRequest {
    PairRequest(LineLocator("invoice", Document(0), 1, false), LineLocator("payment", Document(1), 1, false), 100, MANUAL)
  }

  /** The tax payment against the line the flip of edge 0 posted on account 5. */
  function AskTax(): PairRequest {
    PairRequest(LineLocator("tax", Document(2), 5, false), LineLocator(RECONCILIATION, PartialRef(0), 5, false), 10, MANUAL)
  }

  /** The invoice is lines 0 to 2, its payment lines 3 and 4. */
  ghost predicate Posted(g: Graph) {
    DocAt(g, Invoice(), 0, 0) && DocAt(g, Payment(), 3, 1)
  }

  lemma {:induction false} DocsOk()
    ensures DocOk(Invoice()) && DocOk(Payment()) && DocOk(TaxPayment())
    ensures |Invoice().lines| == 3 && |Payment().lines| == 2 && |TaxPayment().lines| == 2
  {
  }

  lemma {:induction false} LinesAre(g: Graph)
    requires Posted(g)
    ensures |g.lines| >= 5 && |g.journals| >= 2
    ensures g.lines[0] == LineOf(Invoice(), 0, Item(1, 100, 0)) && g.lines[1] == LineOf(Invoice(), 0, Item(3, 0, 10))
    ensures g.lines[2] == LineOf(Invoice(), 0, Item(4, 0, 90)) && g.lines[3] == LineOf(Payment(), 1, Item(1, 0, 100))
    ensures g.lines[4] == LineOf(Payment(), 1, Item(2, 100, 0))
  {
    DocsOk();
    DocLineAt(g, Invoice(), 0, 0, 0, 0);
    DocLineAt(g, Invoice(), 0, 0, 1, 1);
    DocLineAt(g, Invoice(), 0, 0, 2, 2);
    DocLineAt(g, Payment(), 3, 1, 0, 3);
    DocLineAt(g, Payment(), 3, 1, 1, 4);
  }

  lemma {:induction false} PostedStays(g: Graph, g': Graph)
    requires Posted(g) && g.lines <= g'.lines && g.journals <= g'.journals
    ensures Posted(g')
  {
    DocStays(g, g', Invoice(), 0, 0);
    DocStays(g, g', Payment(), 3, 1);
  }

  lemma {:induction false} PostBoth() returns (g: Graph)
    ensures Reachable(CFG, g) && Sound(g) && Posted(g) && |g.lines| == 5 && |g.journals| == 2
    ensures g.edges == [] && g.nextEdge == 0
  {
    DocsOk();
    g := PostTwo(CFG, Invoice(), Payment());
  }

  // ------------------------------------------------------------------ the invoice is paid

  lemma {:induction false} InvoiceFound(g: Graph)
    requires Posted(g) && |g.lines| == 5
    ensures Resolve(g, Ask().debit) == Ok(0) && Resolve(g, Ask().credit) == Ok(3)
  {
    LinesAre(g);
    ResolveUnique(g, Ask().debit, 0);
    ResolveUnique(g, Ask().credit, 3);
  }

  lemma {:induction false} InvoiceOwes(g: Graph)
    requires Posted(g) && |g.lines| == 5 && g.edges == []
    ensures ValidatePair(CFG, g, 0, 3, 100) == Ok(100) && g.lines[0].rate == g.lines[3].rate
    ensures Owes(CFG, ENV, g, 0, 100, Residual(g, 0), FLIP) && DeferralsOf(ENV, g, 3) == [] && EnvOk(g, ENV)
  {
    LinesAre(g);
    assert RoundHalfAway(10 * 100, 100) == 10;
  }

  /** The payment is linked: line 5 is what the flip posted on account 5. */
  ghost predicate Paid(g: Graph) {
    && Posted(g) && |g.lines| == 7 && |g.journals| == 3
    && !g.journals[2].reversing && g.journals[2].status == JournalStatus.Posted
    && MachineLine(g, 5, 5, 0, 10, 0) && MachineLine(g, 6, 3, 10, 0, 0)
    && g.lines[5].journal == 2 && g.lines[5].currency == "IDR"
    && |g.edges| == 2 && g.nextEdge == 2
    && EdgeAt(g.edges, 0, 0, 0, 3, 100, Some(Document(1))) && EdgeAt(g.edges, 1, 1, 6, 1, 10, Some(PartialRef(0)))
  }

  lemma {:induction false} Pay() returns (g: Graph)
    ensures Reachable(CFG, g) && Sound(g) && Paid(g)
  {
    var g0 := PostBoth();
    InvoiceFound(g0);
    InvoiceOwes(g0);
    g := FlipsReach(CFG, ENV, g0, Ask(), 0, 3, 100, FLIP);
    PaidIs(g0, g);
  }

  lemma {:induction false} PaidIs(g0: Graph, g: Graph)
    requires Posted(g0) && |g0.lines| == 5 && |g0.journals| == 2 && g0.edges == [] && g0.nextEdge == 0
    requires FlipAdded(g0, g, 0, 3, 100, FLIP)
    ensures Paid(g)
  {
    LinesAre(g0);
    PostedStays(g0, g);
  }

  // ------------------------------------------------------------------ the tax is paid

  ghost predicate TaxPosted(g: Graph) {
    && Posted(g) && DocAt(g, TaxPayment(), 7, 3) && |g.lines| == 9 && |g.journals| == 4
    && !g.journals[2].reversing && g.journals[2].status == JournalStatus.Posted
    && MachineLine(g, 5, 5, 0, 10, 0) && MachineLine(g, 6, 3, 10, 0, 0)
    && g.lines[5].journal == 2 && g.lines[5].currency == "IDR"
    && |g.edges| == 2 && g.nextEdge == 2
    && EdgeAt(g.edges, 0, 0, 0, 3, 100, Some(Document(1))) && EdgeAt(g.edges, 1, 1, 6, 1, 10, Some(PartialRef(0)))
  }

  lemma {:induction false} PostTax() returns (g: Graph)
    ensures Reachable(CFG, g) && Sound(g) && TaxPosted(g)
  {
    var g1 := Pay();
    DocsOk();
    g := DocPosts(CFG, g1, TaxPayment());
    PostedStays(g1, g);
    assert g.lines[5] == g1.lines[5] && g.lines[6] == g1.lines[6] && g.journals[2] == g1.journals[2];
  }

  lemma {:induction false} TaxLinesAre(g: Graph)
    requires TaxPosted(g)
    ensures g.lines[7] == LineOf(TaxPayment(), 3, TaxPayment().lines[0]) && TaxPayment().lines[0].rate == 1_100_000
    ensures g.lines[7].account == 5 && g.lines[7].debit == 11 && g.lines[7].base == 11 && g.lines[8].account == 2
    ensures !g.journals[3].reversing && g.journals[3].status == JournalStatus.Posted
  {
    DocsOk();
    DocLineAt(g, TaxPayment(), 7, 3, 0, 7);
    DocLineAt(g, TaxPayment(), 7, 3, 1, 8);
  }

  lemma {:induction false} TaxFound(g: Graph)
    requires TaxPosted(g)
    ensures Resolve(g, AskTax().debit) == Ok(7) && Resolve(g, AskTax().credit) == Ok(5)
  {
    LinesAre(g);
    TaxLinesAre(g);
    ResolveUnique(g, AskTax().debit, 7);
    ResolveUnique(g, AskTax().credit, 5);
  }

  lemma {:induction false} TaxTruesUp(g: Graph)
    requires TaxPosted(g)
    ensures ValidatePair(CFG, g, 7, 5, 10) == Ok(10) && TruesUp(g, 7, 5, 10, 1)
    ensures DeferralsOf(ENV, g, 7) == [] && DeferralsOf(ENV, g, 5) == [] && EnvOk(g, ENV)
  {
    TaxLinesAre(g);
    AppliedUntouched(g.edges, 7);
    AppliedUntouched(g.edges, 5);
    assert RoundHalfAway(10 * (1_100_000 - RATE_ONE), RATE_ONE) == 1;
  }

  /** The edges of the invoice's link, then those of the tax payment's. */
  ghost predicate TwoLinks(edges: seq<Edge>) {
    && |edges| == 4
    && EdgeAt(edges, 0, 0, 0, 3, 100, Some(Document(1))) && EdgeAt(edges, 1, 1, 6, 1, 10, Some(PartialRef(0)))
    && EdgeAt(edges, 2, 2, 7, 5, 10, Some(PartialRef(0))) && EdgeAt(edges, 3, 3, 7, 10, 1, Some(PartialRef(2)))
  }

  lemma {:induction false} PayTax() returns (g: Graph)
    ensures Reachable(CFG, g) && Sound(g) && TwoLinks(g.edges)
  {
    var g0 := PostTax();
    TaxFound(g0);
    TaxTruesUp(g0);
    g := TrueUpReaches(CFG, ENV, g0, AskTax(), 9, 7, 5, 10, 1);
    assert g.edges[..2][0] == g.edges[0] && g.edges[..2][1] == g.edges[1];
  }

  lemma {:induction false} TwoLinksNest(edges: seq<Edge>)
    requires TwoLinks(edges)
    ensures Younger(edges) && RootsLive(edges) && Nested(edges, 0) && 0 in Ids(edges)
  {
    assert edges[0].id == 0 && edges[2].id == 2;
    assert Derived(edges[2], 0) && Derived(edges[3], edges[2].id);
  }

  /** In a reachable state every derived edge has its root, and unlinking an edge leaves one without. */
  lemma {:induction false} RootIsOutlived()
    ensures exists g | Reachable(CFG, g) ::
      RootsLive(g.edges) && UnlinkOne(ENV, g, 0).Ok? && !RootsLive(UnlinkOne(ENV, g, 0).value.edges)
  {
    var g := PayTax();
    ReachableIsSourced(CFG, g);
    TwoLinksNest(g.edges);
    UnlinkKeepsRootsIff(ENV, g, 0);
  }
}
