/**
 * A reachable state in which a link settles its whole chain and yet no group is made: two
 * full groups lose one edge each, and the two lines set free are linked to each other.
 */
module ReconcileUngrouped {
  import opened Wrappers
  import opened GlPosting
  import opened ReconcileGraph
  import opened ReconcileInvariants
  import opened ReconcileGrowth
  import opened ReconcileSteps
  import opened ReconcileReversals
  import opened ReconcileRuns
  import opened ReconcileUndo
  import opened ReconcileDivergence

  const CFG := Config(map[1 := AccountFlags(true, "")], None)
  const ENV := Env({}, None, 0)

  /** Documents 0, 4 and 5 debit the account, 1, 2 and 3 credit it; 0 and 3 are the large ones. */
  predicate Debits(k: nat) {
    k == 0 || k == 4 || k == 5
  }

  function Face(k: nat): nat {
    if k == 0 || k == 3 then 200 else 100
  }

  function Paper(k: nat): Doc {
    var d, c := if Debits(k) then Face(k) else 0, if Debits(k) then 0 else Face(k);
    Doc("invoice", k, false, 0, "IDR",
        [DocLine(PostingLine(1, d, c, None, None), Face(k), RATE_ONE),
         DocLine(PostingLine(2, c, d, None, None), Face(k), RATE_ONE)])
  }

  function PaperLine(k: nat): Line {
    var d, c := if Debits(k) then Face(k) else 0, if Debits(k) then 0 else Face(k);
    Line(k, 1, None, None, d, c, Face(k), "IDR", RATE_ONE, 0, Some("invoice"), Some(Document(k)))
  }

  function At(k: nat): LineLocator {
    LineLocator("invoice", Document(k), 1, false)
  }

  function Ask(d: nat, c: nat): PairRequest {
    PairRequest(At(d), At(c), 100, MANUAL)
  }

  /** The first `n` documents are posted; document k's line on the shared account is line 2k. */
  ghost predicate Posted(g: Graph, n: nat) {
    && |g.lines| == 2 * n && |g.journals| == n
    && (forall k: nat | k < n :: g.lines[2 * k] == PaperLine(k) && g.lines[2 * k + 1].account == 2)
    && forall k: nat | k < n ::
      !g.journals[k].reversing && g.journals[k].status == JournalStatus.Posted && g.journals[k].sourceType == Some("invoice")
  }

  /** A sound state over the first `n` documents. */
  ghost predicate Desk(g: Graph, n: nat) {
    Sound(g) && Posted(g, n)
  }

  lemma {:induction false} PaperLines(n: nat)
    ensures DocOk(Paper(n))
    ensures var lines := DocLines(Paper(n), n, Paper(n).lines);
      |lines| == 2 && lines[0] == PaperLine(n) && lines[1].account == 2
  {
    var paper := Paper(n);
    assert paper.lines[..1] == [paper.lines[0]] && [paper.lines[0]][..0] == [];
    assert DocLines(paper, n, [paper.lines[0]]) == [] + [PaperLine(n)];
  }

  lemma {:induction false} PostNext(g: Graph, n: nat)
    requires Desk(g, n)
    ensures DocOk(Paper(n)) && Desk(PostDocument(g, Paper(n)), n + 1)
  {
    PaperLines(n);
    PostDocumentKeepsSound(g, Paper(n));
    var lines, g' := DocLines(Paper(n), n, Paper(n).lines), PostDocument(g, Paper(n));
    forall k: nat | k < n + 1 ensures g'.lines[2 * k] == PaperLine(k) && g'.lines[2 * k + 1].account == 2 {
      if k == n {
        assert g'.lines[2 * n] == lines[0] && g'.lines[2 * n + 1] == lines[1];
      }
    }
  }

  lemma {:induction false} PostAll(n: nat) returns (g: Graph)
    ensures Reachable(CFG, g) && Desk(g, n)
    ensures g.edges == [] && g.stamps == map[] && g.nextEdge == 0 && g.nextGroup == 0
  {
    if n == 0 {
      g := EMPTY;
      EmptyIsTidy();
      assert RunOk(CFG, EMPTY, []) && Run(CFG, EMPTY, []) == EMPTY;
    } else {
      var g1 := PostAll(n - 1);
      PostNext(g1, n - 1);
      StepReaches(CFG, g1, PostDoc(Paper(n - 1)));
      g := PostDocument(g1, Paper(n - 1));
    }
  }

  lemma {:induction false} Resolved(g: Graph, k: nat)
    requires Posted(g, 6) && k < 6
    ensures Resolve(g, At(k)) == Ok(2 * k)
  {
    forall x | 0 <= x < |g.lines| ensures Located(g, x, At(k)) <==> x == 2 * k {
      var m := x / 2;
      assert x == 2 * m || x == 2 * m + 1;
      assert g.lines[2 * m] == PaperLine(m) && g.lines[2 * m + 1].account == 2;
    }
    ResolveUnique(g, At(k), 2 * k);
  }

  function Pair(id: nat, d: nat, c: nat, group: Option<nat>): Edge {
    Edge(id, 2 * d, 2 * c, 100, 0, MANUAL, Some(Document(c)), None, group)
  }

  function Paired(g: Graph, d: nat, c: nat): Graph {
    g.(edges := g.edges + [Pair(g.nextEdge, d, c, None)], nextEdge := g.nextEdge + 1)
  }

  /** A link of two of the documents with room on both sides inserts its edge and completes. */
  lemma {:induction false} PlainLink(g: Graph, d: nat, c: nat)
    requires Desk(g, 6) && d < 6 && c < 6 && Debits(d) && !Debits(c)
    requires Residual(g, 2 * d) >= 100 && Residual(g, 2 * c) >= 100
    ensures var done := Complete(Paired(g, d, c), {2 * d, 2 * c}, 0);
      Link(CFG, ENV, g, Ask(d, c)) == Ok((done.0, EdgeOutcome(Some(g.nextEdge), 100, done.1)))
  {
    Resolved(g, d);
    Resolved(g, c);
    PlainEdges(g, d, c);
    PairedInserts(g, d, c);
    ResidualAt(g, 2 * d);
    ResidualAt(g, 2 * c);
    LinkEnds(CFG, ENV, g, Ask(d, c), 2 * d, 2 * c, 100);
  }

  lemma {:induction false} PlainEdges(g: Graph, d: nat, c: nat)
    requires Posted(g, 6) && d < 6 && c < 6 && Debits(d) && !Debits(c)
    requires Residual(g, 2 * d) >= 100 && Residual(g, 2 * c) >= 100
    ensures ValidatePair(CFG, g, 2 * d, 2 * c, 100) == Ok(100)
    ensures LinkEdges(CFG, ENV, g, Ask(d, c), 2 * d, 2 * c, 100) == Ok((Paired(g, d, c), 0))
  {
    assert g.lines[2 * d] == PaperLine(d) && g.lines[2 * c] == PaperLine(c);
  }

  lemma {:induction false} PairedInserts(g: Graph, d: nat, c: nat)
    requires Inv(g) && Posted(g, 6) && d < 6 && c < 6 && d != c
    requires Residual(g, 2 * d) >= 100 && Residual(g, 2 * c) >= 100
    ensures Inv(Paired(g, d, c))
    ensures forall l | 0 <= l < |g.lines| ::
      Residual(Paired(g, d, c), l) == Residual(g, l) - (if l == 2 * d || l == 2 * c then 100 else 0)
  {
    InsertKeepsInv(g, 2 * d, 2 * c, 100, 0, MANUAL, Some(Document(c)));
    InsertResiduals(g, 2 * d, 2 * c, 100, 0, MANUAL, Some(Document(c)));
  }

  /** The residuals of the six lines. */
  ghost predicate Opens(g: Graph, open: seq<nat>) {
    |open| == 6 && |g.lines| == 12 && forall k: nat | k < 6 :: Residual(g, 2 * k) == open[k]
  }

  function Linked(g: Graph, d: nat, c: nat): Graph {
    Complete(Paired(g, d, c), {2 * d, 2 * c}, 0).0
  }

  lemma {:induction false} PerformsLinked(g: Graph, d: nat, c: nat)
    requires Desk(g, 6) && d < 6 && c < 6 && Debits(d) && !Debits(c)
    requires Residual(g, 2 * d) >= 100 && Residual(g, 2 * c) >= 100
    ensures Perform(CFG, g, LinkStep(ENV, Ask(d, c))) == Linked(g, d, c)
  {
    PlainLink(g, d, c);
  }

  lemma {:induction false} LinkedKeepsPapers(g: Graph, d: nat, c: nat)
    requires Posted(g, 6)
    ensures Posted(Linked(g, d, c), 6)
  {
  }

  lemma {:induction false} LinkReaches(g: Graph, d: nat, c: nat)
    requires Reachable(CFG, g) && Desk(g, 6) && d < 6 && c < 6 && Debits(d) && !Debits(c)
    requires Residual(g, 2 * d) >= 100 && Residual(g, 2 * c) >= 100
    ensures Reachable(CFG, Linked(g, d, c)) && Desk(Linked(g, d, c), 6)
  {
    var step := LinkStep(ENV, Ask(d, c));
    PerformsLinked(g, d, c);
    StepReaches(CFG, g, step);
    StepKeepsSound(CFG, g, step);
    LinkedKeepsPapers(g, d, c);
  }

  lemma {:induction false} PairedOpens(g: Graph, d: nat, c: nat, open: seq<nat>)
    requires Desk(g, 6) && d < 6 && c < 6 && d != c
    requires Opens(g, open) && open[d] >= 100 && open[c] >= 100
    ensures Opens(Paired(g, d, c), open[d := open[d] - 100][c := open[c] - 100])
  {
    PairedInserts(g, d, c);
  }

  lemma {:induction false} GroupedOpens(g: Graph, comp: set<nat>, open: seq<nat>)
    requires Opens(g, open)
    ensures Opens(Grouped(g, comp), open)
  {
    assert SameFlows(g, Grouped(g, comp));
    SameFlowsResiduals(g, Grouped(g, comp));
  }

  /** While one side keeps something open a link only adds its edge. */
  lemma {:induction false} OpenLink(g: Graph, d: nat, c: nat, open: seq<nat>)
    requires Desk(g, 6) && d < 6 && c < 6 && Debits(d) && !Debits(c)
    requires Opens(g, open) && open[d] >= 100 && open[c] >= 100 && (open[d] > 100 || open[c] > 100)
    ensures Linked(g, d, c) == Paired(g, d, c)
  {
    var g1 := Paired(g, d, c);
    PairedInserts(g, d, c);
    ComponentCloses(g1.edges, {2 * d, 2 * c});
    var open1 := if open[d] > 100 then 2 * d else 2 * c;
    assert open1 in Component(g1.edges, {2 * d, 2 * c}) && Residual(g1, open1) > 0;
  }

  /** The graph after a settled chain without stamps is grouped. */
  function Grouped(g: Graph, comp: set<nat>): Graph {
    Attach(g.(groups := g.groups[g.nextGroup := 0], nextGroup := g.nextGroup + 1), g.nextGroup, comp)
  }

  lemma {:induction false} FreshGroup(g: Graph, seeds: set<nat>, comp: set<nat>)
    requires Component(g.edges, seeds) == comp && comp != {} && Settled(g, comp)
    requires forall l | l in comp :: l !in g.stamps
    ensures Complete(g, seeds, 0).0 == Grouped(g, comp)
  {
    FirstIsIn(DistinctStamps(g, comp));
  }

  /** Nothing was generated, so nothing is reversed. */
  lemma {:induction false} NothingGenerated(g: Graph, partials: set<nat>)
    requires Posted(g, 6)
    ensures GeneratedJournals(g, partials) == []
  {
    FirstIsIn(GeneratedJournals(g, partials));
  }

  lemma {:induction false} NoCounterpart(g: Graph, l: nat)
    requires Posted(g, 6)
    ensures !PairsNow(g, l)
  {
    if l < |g.lines| {
      var found := Ascending(|g.lines|, Counterparts(g, l));
      assert found != [] ==> found[0] in found;
      forall k | 0 <= k < |g.lines| ensures !IsCounterpart(g, l, k) {
      }
    }
  }

  /** An unlink only removes: no journal was generated, and no line has a reversal. */
  lemma {:induction false} UnlinkReaches(g: Graph, id: nat)
    requires Reachable(CFG, g) && Desk(g, 6) && id in Ids(g.edges)
    ensures Reachable(CFG, RemoveEdges(g, {id})) && Desk(RemoveEdges(g, {id}), 6)
  {
    var taken, g2 := Select(g.edges, {id}, true), RemoveEdges(g, {id});
    NothingGenerated(g, Ids(taken));
    RegroupIsIdle(g, {id});
    var ids := Ascending(|g2.lines|, Ends(taken));
    forall i | 0 <= i < |ids| ensures !PairsNow(g2, ids[i]) {
      NoCounterpart(g2, ids[i]);
    }
    PairAllIdle(g2, ids);
    assert UnlinkClosure(ENV, g, {id}) == Ok(g2);
    UnlinkClosureSucceeds(ENV, g, {id});
    StepReaches(CFG, g, UnlinkStep(ENV, id));
  }

  // ------------------------------------------------------------------ the run

  ghost predicate Is(g: Graph, edges: seq<Edge>, stamps: map<nat, nat>, groups: nat, open: seq<nat>) {
    && Reachable(CFG, g) && Desk(g, 6) && Opens(g, open)
    && g.edges == edges && g.stamps == stamps && g.nextGroup == groups
  }

  /** Two lines joined through a third are one component. */
  lemma {:induction false} Chain(edges: seq<Edge>, e: Edge, f: Edge, seeds: set<nat>, comp: set<nat>)
    requires e in edges && f in edges && seeds == {f.debit, f.credit} && comp == seeds + {e.debit, e.credit}
    requires e.debit in seeds || e.credit in seeds
    requires Closed(edges, comp)
    ensures Component(edges, seeds) == comp
  {
    ComponentCloses(edges, seeds);
    ComponentLeast(edges, seeds, comp);
  }

  /** A link that leaves one side open. */
  lemma {:induction false} Opened(g: Graph, edges: seq<Edge>, stamps: map<nat, nat>, groups: nat, open: seq<nat>,
                                  d: nat, c: nat)
    requires Is(g, edges, stamps, groups, open) && d < 6 && c < 6 && Debits(d) && !Debits(c)
    requires open[d] >= 100 && open[c] >= 100 && (open[d] > 100 || open[c] > 100)
    ensures var g' := Paired(g, d, c);
      Is(g', edges + [Pair(g.nextEdge, d, c, None)], stamps, groups, open[d := open[d] - 100][c := open[c] - 100])
  {
    OpenLink(g, d, c, open);
    LinkReaches(g, d, c);
    PairedOpens(g, d, c, open);
  }

  lemma {:induction false} ThreeSettled(g: Graph, d: nat, c: nat, m: nat, open: seq<nat>)
    requires Desk(g, 6) && Opens(g, open) && d < 6 && c < 6 && m < 6 && d != c && m != d && m != c
    requires open[d] == open[c] == 100 && open[m] == 0
    ensures Settled(Paired(g, d, c), {2 * d, 2 * c, 2 * m})
  {
    PairedInserts(g, d, c);
  }

  lemma {:induction false} ThreeGrouped(g: Graph, d: nat, c: nat, m: nat, open: seq<nat>)
    requires Desk(g, 6) && Opens(g, open) && d < 6 && c < 6 && m < 6 && d != c && m != d && m != c
    requires open[d] == open[c] == 100 && open[m] == 0
    requires Component(Paired(g, d, c).edges, {2 * d, 2 * c}) == {2 * d, 2 * c, 2 * m}
    requires 2 * d !in g.stamps && 2 * c !in g.stamps && 2 * m !in g.stamps
    ensures Linked(g, d, c) == Grouped(Paired(g, d, c), {2 * d, 2 * c, 2 * m})
    ensures Opens(Linked(g, d, c), open[d := 0][c := 0])
  {
    ThreeSettled(g, d, c, m, open);
    FreshGroup(Paired(g, d, c), {2 * d, 2 * c}, {2 * d, 2 * c, 2 * m});
    PairedOpens(g, d, c, open);
    GroupedOpens(Paired(g, d, c), {2 * d, 2 * c, 2 * m}, open[d := 0][c := 0]);
  }

  /** A link that settles the chain of three lines it completes; `m` is the third. */
  lemma {:induction false} Filled(g: Graph, edges: seq<Edge>, stamps: map<nat, nat>, groups: nat, open: seq<nat>,
                                  d: nat,
                                  c: nat, m: nat) returns (g': Graph)
    requires Is(g, edges, stamps, groups, open) && d < 6 && c < 6 && Debits(d) && !Debits(c)
    requires open[d] == open[c] == 100 && m < 6 && m != d && m != c && open[m] == 0
    requires Component(edges + [Pair(g.nextEdge, d, c, None)], {2 * d, 2 * c}) == {2 * d, 2 * c, 2 * m}
    requires 2 * d !in stamps && 2 * c !in stamps && 2 * m !in stamps
    ensures var comp := {2 * d, 2 * c, 2 * m};
      Is(g', StampEdges(edges + [Pair(g.nextEdge, d, c, None)], groups, comp), StampLines(stamps, groups, comp),
         groups + 1, open[d := 0][c := 0])
    ensures g'.nextEdge == g.nextEdge + 1
  {
    ThreeGrouped(g, d, c, m, open);
    LinkReaches(g, d, c);
    g' := Linked(g, d, c);
  }

  lemma {:induction false} FreshDesk() returns (g: Graph)
    ensures Is(g, [], map[], 0, [200, 100, 100, 200, 100, 100]) && g.nextEdge == 0
  {
    g := PostAll(6);
    forall k: nat | k < 6 ensures Residual(g, 2 * k) == Face(k) {
      assert g.lines[2 * k] == PaperLine(k);
    }
  }

  lemma {:induction false} FirstTaken()
    ensures [200, 100, 100, 200, 100, 100][0 := 100][1 := 0] == [100, 0, 100, 200, 100, 100]
  {
  }

  lemma {:induction false} FirstLink() returns (g: Graph)
    ensures Is(g, [Pair(0, 0, 1, None)], map[], 0, [100, 0, 100, 200, 100, 100]) && g.nextEdge == 1
  {
    var g0 := FreshDesk();
    var open := [200, 100, 100, 200, 100, 100];
    Opened(g0, [], map[], 0, open, 0, 1);
    FirstTaken();
    assert [] + [Pair(0, 0, 1, None)] == [Pair(0, 0, 1, None)];
    g := Paired(g0, 0, 1);
  }

  /** The first chain's edges, before it is stamped and after. */
  function FirstEdges(group: Option<nat>): seq<Edge> {
    [Pair(0, 0, 1, group), Pair(1, 0, 2, group)]
  }

  lemma {:induction false} FirstChain()
    ensures Component(FirstEdges(None), {0, 4}) == {0, 4, 2}
    ensures StampEdges(FirstEdges(None), 0, {0, 4, 2}) == FirstEdges(Some(0))
    ensures StampLines(map[], 0, {0, 4, 2}) == FIRST_STAMPS
    ensures [Pair(0, 0, 1, None)] + [Pair(1, 0, 2, None)] == FirstEdges(None)
    ensures [100, 0, 100, 200, 100, 100][0 := 0][2 := 0] == [0, 0, 0, 200, 100, 100]
  {
    var edges := FirstEdges(None);
    assert edges[0] in edges && edges[1] in edges;
    Chain(edges, edges[0], edges[1], {0, 4}, {0, 4, 2});
  }

  lemma {:induction false} FirstGroup() returns (g: Graph)
    ensures Is(g, FirstEdges(Some(0)), FIRST_STAMPS, 1, [0, 0, 0, 200, 100, 100]) && g.nextEdge == 2
  {
    var g1 := FirstLink();
    var open := [100, 0, 100, 200, 100, 100];
    FirstChain();
    g := Filled(g1, [Pair(0, 0, 1, None)], map[], 0, open, 0, 2, 1);
  }

  const FIRST_STAMPS: map<nat, nat> := map[0 := 0, 2 := 0, 4 := 0]
  const ALL_STAMPS: map<nat, nat> := map[0 := 0, 2 := 0, 4 := 0, 6 := 1, 8 := 1, 10 := 1]

  /** Both chains' edges: the first stamped 0, the second stamped `group`. */
  function AllEdges(group: Option<nat>): seq<Edge> {
    [Pair(0, 0, 1, Some(0)), Pair(1, 0, 2, Some(0)), Pair(2, 4, 3, group), Pair(3, 5, 3, group)]
  }

  lemma {:induction false} SecondChain()
    ensures Component(AllEdges(None), {10, 6}) == {10, 6, 8}
  {
    var all := AllEdges(None);
    assert all[2] in all && all[3] in all;
    Chain(all, all[2], all[3], {10, 6}, {10, 6, 8});
  }

  lemma {:induction false} SecondStamps()
    ensures StampEdges(AllEdges(None), 1, {10, 6, 8}) == AllEdges(Some(1))
    ensures FirstEdges(Some(0)) + [Pair(2, 4, 3, None)] + [Pair(3, 5, 3, None)] == AllEdges(None)
    ensures StampLines(FIRST_STAMPS, 1, {10, 6, 8}) == ALL_STAMPS
    ensures [0, 0, 0, 100, 0, 100][5 := 0][3 := 0] == [0, 0, 0, 0, 0, 0]
  {
    var after := StampEdges(AllEdges(None), 1, {10, 6, 8});
    forall i | 0 <= i < 4 ensures after[i] == AllEdges(Some(1))[i] {
      assert after[i] == StampEdge(AllEdges(None)[i], 1, {10, 6, 8});
    }
  }

  lemma {:induction false} SecondLink() returns (g: Graph)
    ensures Is(g, FirstEdges(Some(0)) + [Pair(2, 4, 3, None)], FIRST_STAMPS, 1, [0, 0, 0, 100, 0, 100])
    ensures g.nextEdge == 3
  {
    var g2 := FirstGroup();
    var open := [0, 0, 0, 200, 100, 100];
    Opened(g2, FirstEdges(Some(0)), FIRST_STAMPS, 1, open, 4, 3);
    assert open[4 := 0][3 := 100] == [0, 0, 0, 100, 0, 100];
    g := Paired(g2, 4, 3);
  }

  lemma {:induction false} SecondGroup() returns (g: Graph)
    ensures Is(g, AllEdges(Some(1)), ALL_STAMPS, 2, [0, 0, 0, 0, 0, 0])
  {
    var g3 := SecondLink();
    var open := [0, 0, 0, 100, 0, 100];
    SecondFits();
    SecondStamps();
    g := Filled(g3, FirstEdges(Some(0)) + [Pair(2, 4, 3, None)], FIRST_STAMPS, 1, open, 5, 3, 4);
  }

  /** The last link of the second chain closes over its three lines, none of them stamped. */
  lemma {:induction false} SecondFits()
    ensures Component(FirstEdges(Some(0)) + [Pair(2, 4, 3, None)] + [Pair(3, 5, 3, None)], {2 * 5, 2 * 3})
      == {2 * 5, 2 * 3, 2 * 4}
    ensures 2 * 5 !in FIRST_STAMPS && 2 * 3 !in FIRST_STAMPS && 2 * 4 !in FIRST_STAMPS
  {
    SecondChain();
    SecondStamps();
  }

  /** Only one edge is in the closure. */
  lemma {:induction false} SelectOne(edges: seq<Edge>, k: nat, roots: set<nat>)
    requires k < |edges| && forall i | 0 <= i < |edges| :: InClosure(edges[i], roots) <==> i == k
    ensures Select(edges, roots, true) == [edges[k]]
    ensures Select(edges, roots, false) == edges[..k] + edges[k + 1..]
  {
    var n := |edges| - 1;
    if k < n {
      SelectOne(edges[..n], k, roots);
      assert edges[..n][..k] + edges[..n][k + 1..] + [edges[n]] == edges[..k] + edges[k + 1..];
    } else {
      SelectNone(edges[..n], roots);
      assert edges[..n] + edges[k + 1..] == edges[..n];
    }
  }

  lemma {:induction false} SelectNone(edges: seq<Edge>, roots: set<nat>)
    requires forall i | 0 <= i < |edges| :: !InClosure(edges[i], roots)
    ensures Select(edges, roots, true) == [] && Select(edges, roots, false) == edges
  {
    if edges == [] {
    } else {
      SelectNone(edges[..|edges| - 1], roots);
    }
  }

  lemma {:induction false} EndsOne(e: Edge)
    ensures Ends([e]) == {e.debit, e.credit}
  {
    assert [e][0] == e;
  }

  lemma {:induction false} UnlinkAt(g: Graph, k: nat, id: nat) returns (g': Graph)
    requires Reachable(CFG, g) && Desk(g, 6) && k < |g.edges| && g.edges[k].id == id
    requires forall i | 0 <= i < |g.edges| :: InClosure(g.edges[i], {id}) <==> i == k
    ensures Reachable(CFG, g') && Desk(g', 6)
    ensures g'.edges == g.edges[..k] + g.edges[k + 1..]
    ensures g'.stamps == g.stamps - {g.edges[k].debit, g.edges[k].credit}
  {
    assert id in Ids(g.edges);
    UnlinkReaches(g, id);
    SelectOne(g.edges, k, {id});
    EndsOne(g.edges[k]);
    g' := RemoveEdges(g, {id});
  }

  /** What is left of both chains. */
  function LeftEdges(): seq<Edge> {
    [Pair(0, 0, 1, Some(0)), Pair(2, 4, 3, Some(1))]
  }

  lemma {:induction false} FirstCut()
    ensures var all := AllEdges(Some(1));
      && (forall i | 0 <= i < |all| :: InClosure(all[i], {1}) <==> i == 1)
      && all[..1] + all[2..] == LeftEdges() + [Pair(3, 5, 3, Some(1))]
    ensures ALL_STAMPS - {0, 4} == map[2 := 0, 6 := 1, 8 := 1, 10 := 1]
  {
  }

  lemma {:induction false} SecondCut()
    ensures var rest := LeftEdges() + [Pair(3, 5, 3, Some(1))];
      && (forall i | 0 <= i < |rest| :: InClosure(rest[i], {3}) <==> i == 2)
      && rest[..2] + rest[3..] == LeftEdges()
    ensures map[2 := 0, 6 := 1, 8 := 1, 10 := 1] - {10, 6} == map[2 := 0, 8 := 1]
  {
  }

  lemma {:induction false} FirstUnlink() returns (g: Graph)
    ensures Reachable(CFG, g) && Desk(g, 6)
    ensures g.edges == LeftEdges() + [Pair(3, 5, 3, Some(1))] && g.stamps == map[2 := 0, 6 := 1, 8 := 1, 10 := 1]
  {
    var g4 := SecondGroup();
    FirstCut();
    g := UnlinkAt(g4, 1, 1);
  }

  /** Unlinking the second edge of each chain leaves the first of each stamped. */
  lemma {:induction false} SecondUnlink() returns (g: Graph)
    ensures Reachable(CFG, g) && Desk(g, 6) && g.edges == LeftEdges() && g.stamps == map[2 := 0, 8 := 1]
  {
    var g5 := FirstUnlink();
    SecondCut();
    g := UnlinkAt(g5, 2, 3);
  }

  lemma {:induction false} AppliedTwo(a: Edge, b: Edge, l: nat)
    ensures Applied([a, b], l) == Share(a, l) + Share(b, l)
  {
    AppliedPush([], a, l);
    AppliedPush([a], b, l);
    assert [] + [a] == [a] && [a] + [b] == [a, b];
  }

  lemma {:induction false} AfterUnlinks(g: Graph)
    requires Posted(g, 6) && g.edges == LeftEdges()
    ensures Opens(g, [100, 0, 100, 100, 0, 100])
  {
    forall k: nat | k < 6 ensures Residual(g, 2 * k) == [100, 0, 100, 100, 0, 100][k] {
      assert g.lines[2 * k] == PaperLine(k);
      AppliedTwo(g.edges[0], g.edges[1], 2 * k);
    }
  }

  /** A link that settles its whole chain and makes no group. */
  ghost predicate LeavesSettledUngrouped(cfg: Config, env: Env, g: Graph, req: PairRequest) {
    var r := Link(cfg, env, g, req);
    && r.Ok? && r.value.1.applied > 0 && r.value.1.group.None?
    && Resolve(g, req.debit).Ok? && Resolve(g, req.credit).Ok?
    && Settled(r.value.0, Component(r.value.0.edges, {Resolve(g, req.debit).value, Resolve(g, req.credit).value}))
  }

  lemma {:induction false} LastChain(id: nat)
    ensures Component(LeftEdges() + [Pair(id, 0, 3, None)], {0, 6}) == {0, 2, 6, 8}
  {
    var edges := LeftEdges() + [Pair(id, 0, 3, None)];
    assert edges[0] == Pair(0, 0, 1, Some(0)) && edges[1] == Pair(2, 4, 3, Some(1)) && edges[2] == Pair(id, 0, 3, None);
    ComponentCloses(edges, {0, 6});
    ComponentLeast(edges, {0, 6}, {0, 2, 6, 8});
  }

  lemma {:induction false} LastSettled(g: Graph)
    requires Desk(g, 6) && Opens(g, [100, 0, 100, 100, 0, 100])
    ensures Settled(Paired(g, 0, 3), {0, 2, 6, 8})
  {
    PairedInserts(g, 0, 3);
    assert Residual(g, 2 * 0) == 100 && Residual(g, 2 * 1) == 0 && Residual(g, 2 * 3) == 100 && Residual(g, 2 * 4) == 0;
  }

  lemma {:induction false} LastUngrouped(g: Graph, seeds: set<nat>)
    requires Inv(g) && seeds != {} && Component(g.edges, seeds) == {0, 2, 6, 8} && g.stamps == map[2 := 0, 8 := 1]
    ensures Complete(g, seeds, 0) == (g, None)
  {
    CompleteGroupsIff(g, seeds, 0);
    assert g.stamps[2] != g.stamps[8];
  }

  lemma {:induction false} LastLink(g: Graph)
    requires Desk(g, 6) && g.edges == LeftEdges() && g.stamps == map[2 := 0, 8 := 1]
    ensures Complete(Paired(g, 0, 3), {0, 6}, 0) == (Paired(g, 0, 3), None)
    ensures Settled(Paired(g, 0, 3), Component(Paired(g, 0, 3).edges, {0, 6}))
    ensures Residual(g, 0) == 100 && Residual(g, 6) == 100
  {
    AfterUnlinks(g);
    assert Residual(g, 2 * 0) == 100 && Residual(g, 2 * 3) == 100;
    LastChain(g.nextEdge);
    LastSettled(g);
    PairedInserts(g, 0, 3);
    LastUngrouped(Paired(g, 0, 3), {0, 6});
  }

  /** The divergent arm is reached: some run's next link settles its whole chain and makes no group. */
  lemma {:induction false} DivergenceIsReachable()
    ensures exists g | Reachable(CFG, g) :: LeavesSettledUngrouped(CFG, ENV, g, Ask(0, 3))
  {
    var g := SecondUnlink();
    LastLink(g);
    PlainLink(g, 0, 3);
    Resolved(g, 0);
    Resolved(g, 3);
    assert LeavesSettledUngrouped(CFG, ENV, g, Ask(0, 3));
  }
}
