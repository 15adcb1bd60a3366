/**
 * A reachable state in which open items no longer agree with the books. The counterpart lookup
 * goes by source, account and kind of journal and ignores sides: when a source has two journals
 * of one kind, unlinking a line of the first pairs it with the reversal of the second.
 */
module ReconcileMispaired {
  import opened Wrappers
  import opened GlPosting
  import opened ReconcileGraph
  import opened ReconcileInvariants
  import opened ReconcileVerbs
  import opened ReconcileGrowth
  import opened ReconcileSteps
  import opened ReconcileReversals
  import opened ReconcileLedger
  import opened ReconcileRuns
  import opened ReconcileUndo

  const CFG := Config(map[1 := AccountFlags(true, "")], None)
  const ENV := Env({}, None, 0)

  /** A document of `amount` on account 1, on the side given, against account 2. */
  function Paper(source: nat, reversing: bool, debits: bool, amount: nat): Doc {
    var d, c := if debits then amount else 0, if debits then 0 else amount;
    Doc("order", source, reversing, 0, "IDR",
        [DocLine(PostingLine(1, d, c, None, None), amount, RATE_ONE),
         DocLine(PostingLine(2, c, d, None, None), amount, RATE_ONE)])
  }

  /** The k-th document's line on account 1. */
  ghost predicate LineIs(g: Graph, k: nat, source: nat, reversing: bool, debits: bool, amount: nat) {
    && 2 * k + 1 < |g.lines| && k < |g.journals| && amount > 0
    && g.lines[2 * k] == LineOf(Paper(source, reversing, debits, amount), k, Paper(source, reversing, debits, amount).lines[0])
    && g.lines[2 * k + 1].account == 2
    && g.journals[k].reversing == reversing && g.journals[k].status == JournalStatus.Posted
    && g.journals[k].sourceType == Some("order")
  }

  lemma {:induction false} PaperPosts(g: Graph, n: nat, source: nat, reversing: bool, debits: bool, amount: nat)
    requires Reachable(CFG, g) && Sound(g) && |g.lines| == 2 * n && |g.journals| == n && amount > 0
    ensures DocOk(Paper(source, reversing, debits, amount))
    ensures var g' := PostDocument(g, Paper(source, reversing, debits, amount));
      && Reachable(CFG, g') && Sound(g') && |g'.lines| == 2 * n + 2 && |g'.journals| == n + 1
      && LineIs(g', n, source, reversing, debits, amount) && g'.edges == g.edges && g'.nextEdge == g.nextEdge
      && g.lines <= g'.lines && g.journals <= g'.journals
  {
    var paper := Paper(source, reversing, debits, amount);
    PaperLines(g, n, source, reversing, debits, amount);
    DocReaches(g, paper);
  }

  lemma {:induction false} DocReaches(g: Graph, doc: Doc)
    requires Reachable(CFG, g) && Sound(g) && DocOk(doc)
    ensures var g' := PostDocument(g, doc);
      && Reachable(CFG, g') && Sound(g') && |g'.journals| == |g.journals| + 1 && g.journals <= g'.journals
      && g'.edges == g.edges && g'.nextEdge == g.nextEdge
  {
    PostDocumentKeepsSound(g, doc);
    StepReaches(CFG, g, PostDoc(doc));
  }

  lemma {:induction false} PaperLines(g: Graph, n: nat, source: nat, reversing: bool, debits: bool, amount: nat)
    requires |g.lines| == 2 * n && |g.journals| == n && amount > 0
    ensures DocOk(Paper(source, reversing, debits, amount))
    ensures var g' := PostDocument(g, Paper(source, reversing, debits, amount));
      |g'.lines| == 2 * n + 2 && LineIs(g', n, source, reversing, debits, amount) && g.lines <= g'.lines
  {
    var paper := Paper(source, reversing, debits, amount);
    var lines, g' := DocLines(paper, n, paper.lines), PostDocument(g, paper);
    assert g'.lines[2 * n] == lines[0] && g'.lines[2 * n + 1] == lines[1];
  }

  lemma {:induction false} LineStays(g: Graph, g': Graph, k: nat, source: nat, reversing: bool, debits: bool, amount: nat)
    requires LineIs(g, k, source, reversing, debits, amount) && g.lines <= g'.lines && g.journals <= g'.journals
    ensures LineIs(g', k, source, reversing, debits, amount)
  {
    assert g'.lines[2 * k] == g.lines[2 * k] && g'.lines[2 * k + 1] == g.lines[2 * k + 1];
    assert g'.journals[k] == g.journals[k];
  }

  // ------------------------------------------------------------------ the run

  /** An order for 100 and its payment, linked. */
  ghost predicate Linked(g: Graph) {
    && Reachable(CFG, g) && Sound(g) && |g.lines| == 4 && |g.journals| == 2
    && LineIs(g, 0, 0, false, true, 100) && LineIs(g, 1, 1, false, false, 100)
    && |g.edges| == 1 && g.edges[0].debit == 0 && g.edges[0].credit == 2 && g.edges[0].id == 0
    && g.edges[0].sourceId == Some(Document(1))
  }

  function Ask(): PairRequest {
    PairRequest(LineLocator("order", Document(0), 1, false), LineLocator("order", Document(1), 1, false), 100, MANUAL)
  }

  ghost predicate TwoPosted(g: Graph) {
    && Reachable(CFG, g) && Sound(g) && |g.lines| == 4 && |g.journals| == 2 && g.edges == [] && g.nextEdge == 0
    && LineIs(g, 0, 0, false, true, 100) && LineIs(g, 1, 1, false, false, 100)
  }

  lemma {:induction false} PostTwo() returns (g: Graph)
    ensures TwoPosted(g)
  {
    EmptyReaches(CFG);
    EmptyIsTidy();
    PaperPosts(EMPTY, 0, 0, false, true, 100);
    var g1 := PostDocument(EMPTY, Paper(0, false, true, 100));
    PaperPosts(g1, 1, 1, false, false, 100);
    g := PostDocument(g1, Paper(1, false, false, 100));
    LineStays(g1, g, 0, 0, false, true, 100);
  }

  lemma {:induction false} TwoResolved(g: Graph)
    requires TwoPosted(g)
    ensures Resolve(g, Ask().debit) == Ok(0) && Resolve(g, Ask().credit) == Ok(2)
  {
    TwoLinesAre(g);
    LocatesOne(g, Ask().debit, 0, 0);
    LocatesOne(g, Ask().credit, 2, 1);
  }

  lemma {:induction false} TwoLinesAre(g: Graph)
    requires TwoPosted(g)
    ensures |g.lines| == 4 && |g.journals| == 2 && g.lines[1].account == 2 && g.lines[3].account == 2
    ensures g.lines[0] == LineOf(Paper(0, false, true, 100), 0, Paper(0, false, true, 100).lines[0])
    ensures g.lines[2] == LineOf(Paper(1, false, false, 100), 1, Paper(1, false, false, 100).lines[0])
    ensures !g.journals[0].reversing && !g.journals[1].reversing
  {
    assert g.lines[2 * 0 + 1].account == 2 && g.lines[2 * 1 + 1].account == 2;
    assert g.lines[2 * 0].journal == 0 && g.lines[2 * 1].journal == 1;
  }

  lemma {:induction false} LocatesOne(g: Graph, loc: LineLocator, l: nat, source: nat)
    requires |g.lines| == 4 && |g.journals| == 2 && g.lines[1].account == 2 && g.lines[3].account == 2
    requires g.lines[0] == LineOf(Paper(0, false, true, 100), 0, Paper(0, false, true, 100).lines[0])
    requires g.lines[2] == LineOf(Paper(1, false, false, 100), 1, Paper(1, false, false, 100).lines[0])
    requires !g.journals[0].reversing && !g.journals[1].reversing
    requires loc == LineLocator("order", Document(source), 1, false) && ((l == 0 && source == 0) || (l == 2 && source == 1))
    ensures Resolve(g, loc) == Ok(l)
  {
    ResolveUnique(g, loc, l);
  }

  lemma {:induction false} TwoFound(g: Graph)
    requires TwoPosted(g)
    ensures Resolve(g, Ask().debit) == Ok(0) && Resolve(g, Ask().credit) == Ok(2)
    ensures Residual(g, 0) == 100 && Residual(g, 2) == 100
    ensures ValidatePair(CFG, g, 0, 2, 100) == Ok(100)
  {
    TwoResolved(g);
    assert g.lines[2 * 0].account == 1 && g.lines[2 * 1].account == 1;
  }

  function Root(): Edge {
    Edge(0, 0, 2, 100, 0, MANUAL, Some(Document(1)), None, None)
  }

  lemma {:induction false} RootOnly(g: Graph)
    requires TwoPosted(g) && Residual(g, 0) == 100 && Residual(g, 2) == 100
    ensures LinkEdges(CFG, ENV, g, Ask(), 0, 2, 100) == Ok((g.(edges := [Root()], nextEdge := 1), 0))
  {
    var g1 := g.(edges := [Root()], nextEdge := 1);
    assert g.lines[2 * 0].rate == RATE_ONE && g.lines[2 * 1].rate == RATE_ONE && g.lines[2 * 1].sourceId == Some(Document(1));
    assert g.lines[2 * 0].account == 1 && g.lines[2 * 1].account == 1;
    assert g.edges + [Root()] == [Root()];
    assert InsertPartial(g, 0, 2, 100, MaxDate(g, 0, 2), MANUAL, g.lines[2].sourceId) == Ok(g1);
    assert TrueUp(CFG, ENV, g1, Ask(), 0, 2, 0, 100) == Ok((g1, 0));
    assert FlipSide(CFG, ENV, g1, Ask(), 0, 0, 100, 100, 0) == Ok(g1);
    assert FlipSide(CFG, ENV, g1, Ask(), 2, 0, 100, 100, 0) == Ok(g1);
  }

  lemma {:induction false} LinkTwo() returns (g: Graph)
    ensures Linked(g)
  {
    var g0 := PostTwo();
    TwoFound(g0);
    RootOnly(g0);
    var g1 := g0.(edges := [Root()], nextEdge := 1);
    LinkEdgesKeepsInv(CFG, ENV, g0, Ask(), 0, 2, 100);
    LinkEnds(CFG, ENV, g0, Ask(), 0, 2, 100);
    g := Complete(g1, {0, 2}, 0).0;
    assert Link(CFG, ENV, g0, Ask()).Ok? && Link(CFG, ENV, g0, Ask()).value.0 == g;
    StepReaches(CFG, g0, LinkStep(ENV, Ask()));
    LinkKeepsSound(CFG, ENV, g0, Ask());
    assert SameFlow(g1.edges, g.edges);
    LineStays(g0, g, 0, 0, false, true, 100);
    LineStays(g0, g, 1, 1, false, false, 100);
  }

  /** A second journal of the order credits the account for 30, and is reversed. */
  ghost predicate AllPosted(g: Graph) {
    && Reachable(CFG, g) && Sound(g) && |g.lines| == 8 && |g.journals| == 4
    && LineIs(g, 0, 0, false, true, 100) && LineIs(g, 1, 1, false, false, 100)
    && LineIs(g, 2, 0, false, false, 30) && LineIs(g, 3, 0, true, true, 30)
    && |g.edges| == 1 && g.edges[0].debit == 0 && g.edges[0].credit == 2 && g.edges[0].id == 0
    && g.edges[0].sourceId == Some(Document(1))
  }

  lemma {:induction false} PostMore() returns (g: Graph)
    ensures AllPosted(g)
  {
    var g1 := LinkTwo();
    PaperPosts(g1, 2, 0, false, false, 30);
    var g2 := PostDocument(g1, Paper(0, false, false, 30));
    PaperPosts(g2, 3, 0, true, true, 30);
    g := PostDocument(g2, Paper(0, true, true, 30));
    LineStays(g1, g, 0, 0, false, true, 100);
    LineStays(g1, g, 1, 1, false, false, 100);
    LineStays(g2, g, 2, 0, false, false, 30);
  }

  /** What the unlink leaves before it pairs: the same books, no edge. */
  ghost predicate Bare(g: Graph) {
    && Sound(g) && |g.lines| == 8 && |g.journals| == 4 && g.edges == []
    && LineIs(g, 0, 0, false, true, 100) && LineIs(g, 1, 1, false, false, 100)
    && LineIs(g, 2, 0, false, false, 30) && LineIs(g, 3, 0, true, true, 30)
  }

  /** The order's line is paired with the reversal of the other journal: a debit with a debit. */
  lemma {:induction false} OrderPairs(g: Graph)
    requires Bare(g)
    ensures PairsNow(g, 0) && Counterpart(g, 0) == Some(6) && !Opposite(g, 0, 6)
  {
    assert g.lines[2 * 0].debit > 0 && g.lines[2 * 3].debit > 0;
    forall k | 0 <= k < |g.lines| ensures k in Counterparts(g, 0) <==> k == 6 {
      assert g.lines[2 * (k / 2)].account == 1 && g.lines[2 * (k / 2) + 1].account == 2;
      assert k == 2 * (k / 2) || k == 2 * (k / 2) + 1;
    }
    OnlyOne(|g.lines|, Counterparts(g, 0), 6);
  }

  lemma {:induction false} PaymentStays(g: Graph)
    requires |g.lines| == 8 && |g.journals| == 4
    requires LineIs(g, 0, 0, false, true, 100) && LineIs(g, 1, 1, false, false, 100)
    requires LineIs(g, 2, 0, false, false, 30) && LineIs(g, 3, 0, true, true, 30)
    ensures !PairsNow(g, 2)
  {
    forall k | 0 <= k < |g.lines| ensures k !in Counterparts(g, 2) {
      assert g.lines[2 * (k / 2)].account == 1 && g.lines[2 * (k / 2) + 1].account == 2;
      assert g.lines[2 * 1].sourceId == Some(Document(1));
    }
    NoneBelow(|g.lines|, Counterparts(g, 2));
  }

  lemma {:induction false} PairsWrong(g: Graph)
    requires Bare(g)
    ensures PairAll(g, [0, 2]).Ok? && !Agrees(PairAll(g, [0, 2]).value)
  {
    OrderPairs(g);
    assert Agrees(g) by {
      Clauses(g);
      AlignedAgrees(g);
    }
    PairKeepsAgreementIff(g, 0);
    var g1 := PairOne(g, 0).value;
    PairOneBooks(g, 0);
    PaymentStays(g1);
    assert [0, 2][..1] == [0] && [0][..0] == [];
    assert PairAll(g, []) == Ok(g);
    assert PairAll(g, [0]) == PairOne(g, 0);
  }

  lemma {:induction false} PairOneBooks(g: Graph, l: nat)
    requires PairOne(g, l).Ok?
    ensures PairOne(g, l).value.lines == g.lines && PairOne(g, l).value.journals == g.journals
  {
  }

  lemma {:induction false} EndsOf(edges: seq<Edge>)
    requires |edges| == 1 && edges[0].debit == 0 && edges[0].credit == 2 && edges[0].id == 0
    ensures Select(edges, {0}, true) == edges && Select(edges, {0}, false) == []
    ensures Ends(edges) == {0, 2} && Ids(edges) == {0}
  {
    assert edges == [] + [edges[0]];
    assert edges[..0] == [];
  }

  lemma {:induction false} FirstAndThird(s: set<nat>)
    requires s == {0, 2}
    ensures Ascending(8, s) == [0, 2]
  {
    AscendingStays(3, 8, s);
    OnlyOne(2, {0}, 0);
    AscendingAgrees(2, s, {0});
  }

  lemma {:induction false} AscendingAgrees(n: nat, a: set<nat>, b: set<nat>)
    requires forall x | x < n :: x in a <==> x in b
    ensures Ascending(n, a) == Ascending(n, b)
  {
    if n == 0 {
    } else {
      AscendingAgrees(n - 1, a, b);
    }
  }

  lemma {:induction false} NothingGenerated(g: Graph)
    requires AllPosted(g)
    ensures GeneratedJournals(g, {0}) == []
  {
    forall j | 0 <= j < |g.journals| ensures !GeneratedBy(g.journals[j], {0}) {
      assert g.journals[0].sourceType == g.journals[1].sourceType == Some("order");
      assert g.journals[2].sourceType == g.journals[3].sourceType == Some("order");
    }
    NoneBelow(|g.journals|, set j | 0 <= j < |g.journals| && GeneratedBy(g.journals[j], {0}));
  }

  lemma {:induction false} RemovedIsBare(g: Graph)
    requires AllPosted(g) && Sound(RemoveEdges(g, {0}))
    ensures Bare(RemoveEdges(g, {0}))
  {
    var g' := RemoveEdges(g, {0});
    EndsOf(g.edges);
    LineStays(g, g', 0, 0, false, true, 100);
    LineStays(g, g', 1, 1, false, false, 100);
    LineStays(g, g', 2, 0, false, false, 30);
    LineStays(g, g', 3, 0, true, true, 30);
  }

  /** Nothing was generated, so unlinking only removes the edge and pairs its two lines. */
  lemma {:induction false} UnlinkPairs(g: Graph)
    requires AllPosted(g)
    ensures Bare(RemoveEdges(g, {0}))
    ensures UnlinkOne(ENV, g, 0) == PairAll(RemoveEdges(g, {0}), [0, 2])
  {
    EndsOf(g.edges);
    NothingGenerated(g);
    assert ReverseAll(ENV, g, []) == Ok(g);
    UnlinkClosureStages(ENV, g, {0});
    RemovedIsBare(g);
    FirstAndThird(Ends(g.edges));
  }

  /** Open items stop agreeing with the books in a reachable state. */
  lemma {:induction false} AgreementFails()
    ensures exists g | Reachable(CFG, g) :: !Agrees(g)
  {
    var g := PostMore();
    UnlinkPairs(g);
    PairsWrong(RemoveEdges(g, {0}));
    StepReaches(CFG, g, UnlinkStep(ENV, 0));
    assert Reachable(CFG, UnlinkOne(ENV, g, 0).value);
  }
}
