/**
 * Why a reversed line's edge need not be the only new one: an order and its payment are both
 * reversed before they are unlinked, and each is then paired with its own reversal.
 */
module ReconcileBothReversed {
  import opened Wrappers
  import opened ReconcileGraph
  import opened ReconcileInvariants
  import opened ReconcileVerbs
  import opened ReconcileGrowth
  import opened ReconcileSteps
  import opened ReconcileReversals
  import opened ReconcileEnds
  import opened ReconcileLedger
  import opened ReconcileRuns
  import opened ReconcileUndo
  import opened ReconcileRepair
  import opened ReconcileReversed
  import opened ReconcileMispaired

  /** The order's line 0 and the payment's line 2 are linked; lines 4 and 6 are their reversals. */
  ghost predicate BothReversed(g: Graph) {
    && Reachable(CFG, g) && Sound(g) && |g.lines| == 8 && |g.journals| == 4
    && LineIs(g, 0, 0, false, true, 100) && LineIs(g, 1, 1, false, false, 100)
    && LineIs(g, 2, 0, true, false, 100) && LineIs(g, 3, 1, true, true, 100)
    && |g.edges| == 1 && g.edges[0].debit == 0 && g.edges[0].credit == 2 && g.edges[0].id == 0
  }

  lemma {:induction false} ReverseBoth() returns (g: Graph)
    ensures BothReversed(g)
  {
    var g1 := LinkTwo();
    PaperPosts(g1, 2, 0, true, false, 100);
    var g2 := PostDocument(g1, Paper(0, true, false, 100));
    PaperPosts(g2, 3, 1, true, true, 100);
    g := PostDocument(g2, Paper(1, true, true, 100));
    LineStays(g1, g, 0, 0, false, true, 100);
    LineStays(g1, g, 1, 1, false, false, 100);
    LineStays(g2, g, 2, 0, true, false, 100);
  }

  /** A line on account 1 for 100, of a posted journal. */
  predicate ItemAt(g: Graph, l: nat, journal: nat, source: nat, reversing: bool) {
    && l < |g.lines| && journal < |g.journals|
    && g.lines[l].account == 1 && g.lines[l].journal == journal && g.lines[l].base == 100
    && g.lines[l].sourceType == Some("order") && g.lines[l].sourceId == Some(Document(source))
    && g.journals[journal].reversing == reversing && g.journals[journal].status == JournalStatus.Posted
  }

  ghost predicate Papers(g: Graph) {
    && |g.lines| == 8 && ItemAt(g, 0, 0, 0, false) && ItemAt(g, 2, 1, 1, false) && ItemAt(g, 4, 2, 0, true)
    && ItemAt(g, 6, 3, 1, true)
    && g.lines[1].account == 2 && g.lines[3].account == 2 && g.lines[5].account == 2 && g.lines[7].account == 2
  }

  lemma {:induction false} ItemIs(g: Graph, k: nat, source: nat, reversing: bool, debits: bool)
    requires LineIs(g, k, source, reversing, debits, 100)
    ensures ItemAt(g, 2 * k, k, source, reversing) && g.lines[2 * k + 1].account == 2
  {
  }

  lemma {:induction false} PapersAre(g: Graph)
    requires BothReversed(g)
    ensures Papers(g)
  {
    ItemIs(g, 0, 0, false, true);
    ItemIs(g, 1, 1, false, false);
    ItemIs(g, 2, 0, true, false);
    ItemIs(g, 3, 1, true, true);
  }

  /** A line and its reversal. */
  predicate IsPair(x: nat, k: nat) {
    (x == 0 && k == 4) || (x == 2 && k == 6)
  }

  /** Of the four lines on account 1, those of one source are each other's counterparts. */
  lemma {:induction false} Opposites(g: Graph, x: nat, k: nat)
    requires Papers(g) && IsPair(x, k)
    ensures Counterpart(g, x) == Some(k)
  {
    forall y | 0 <= y < |g.lines| ensures y in Counterparts(g, x) <==> y == k {
      assert y == 0 || y == 1 || y == 2 || y == 3 || y == 4 || y == 5 || y == 6 || y == 7;
    }
    OnlyOne(|g.lines|, Counterparts(g, x), k);
  }

  /** The one edge is the whole closure of its id. */
  lemma {:induction false} OneEdge(g: Graph)
    requires |g.edges| == 1 && g.edges[0].debit == 0 && g.edges[0].credit == 2 && g.edges[0].id == 0
    ensures Elements([0]) == {0} && TouchedBy(g, {0}) == {0, 2} && Separate(g, [0])
  {
    assert [0][..0] == [] && Elements([]) == {};
    EndsOf(g.edges);
    assert Standing(g.edges, 0, {0}) by {
      assert !InClosure(g.edges[0], {0} - {0});
    }
  }

  lemma {:induction false} OnlyTwoTouched(g: Graph)
    requires Inv(g) && Papers(g) && |g.edges| == 1 && g.edges[0].debit == 0 && g.edges[0].credit == 2
    ensures !Unapplied(g, 0) && !Unapplied(g, 2) && Unapplied(g, 4) && Unapplied(g, 6)
  {
    Positive(g);
    AppliedBounds(g.edges, 0);
    AppliedBounds(g.edges, 2);
    AppliedUntouched(g.edges, 4);
    AppliedUntouched(g.edges, 6);
  }

  lemma {:induction false} IsReversible(g: Graph, x: nat, k: nat)
    requires BothReversed(g) && IsPair(x, k)
    ensures Reversible(g, x, k, [0])
  {
    PapersAre(g);
    OneEdge(g);
    OnlyTwoTouched(g);
    Opposites(g, x, k);
    SoleHere(g, x);
  }

  lemma {:induction false} SoleHere(g: Graph, x: nat)
    requires Papers(g) && (x == 0 || x == 2)
    ensures SoleItem(g, {0, 2}, x) && !Machinery(g.lines[x])
  {
  }

  /** Two pairing edges of full face. */
  ghost predicate TwoPaired(edges: seq<Edge>) {
    exists i, j | 0 <= i < |edges| && 0 <= j < |edges| && i != j ::
      ReversalEdge(edges[i], 0, 4, 100) && ReversalEdge(edges[j], 2, 6, 100)
  }

  /** A reachable state with one edge, whose unlink leaves two: the payment pairs as well. */
  lemma {:induction false} PaymentPairsToo()
    ensures exists g | Reachable(CFG, g) && Reversible(g, 0, 4, [0]) ::
      |g.edges| == 1 && UnlinkEach(ENV, g, [0]).Ok? && TwoPaired(UnlinkEach(ENV, g, [0]).value.edges)
  {
    var g := ReverseBoth();
    IsReversible(g, 0, 4);
    IsReversible(g, 2, 6);
    PapersAre(g);
    ReachableIsSourced(CFG, g);
    var h, i := OneEdgeIsLeft(ENV, g, 0, 4, [0]);
    var h2, j := OneEdgeIsLeft(ENV, g, 2, 6, [0]);
    assert ReversalEdge(h.edges[i], 0, 4, 100) && ReversalEdge(h.edges[j], 2, 6, 100);
  }
}
