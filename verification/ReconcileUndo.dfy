/**
 * What unlinking gives back: unlinking a link just made restores every residual and every
 * account.
 */
module ReconcileUndo {
  import opened Wrappers
  import opened GlPosting
  import opened ReconcileGraph
  import opened ReconcileInvariants
  import opened ReconcileVerbs
  import opened ReconcileGrowth
  import opened ReconcileSteps
  import opened ReconcileReversals
  import opened ReconcileLedger
  import opened ReconcileTrace

  // ------------------------------------------------------------------ what the machinery adds pairs with nothing

  /** Only lines of the machinery were added, and no journal changed. */
  ghost predicate MachineryOnly(g: Graph, g': Graph) {
    && g.lines <= g'.lines && g.journals <= g'.journals
    && forall l | |g.lines| <= l < |g'.lines| :: g'.lines[l].sourceType == Some(RECONCILIATION)
  }

  lemma {:induction false} AscendingStays(n: nat, m: nat, s: set<nat>)
    requires n <= m && forall x | x in s :: x < n
    ensures Ascending(m, s) == Ascending(n, s)
  {
    if n < m {
      AscendingStays(n, m - 1, s);
      assert Ascending(m - 1, s) + [] == Ascending(m - 1, s);
    }
  }

  /** A document's reversal counterpart is the same whatever the machinery adds. */
  lemma {:induction false} CounterpartStays(g: Graph, g': Graph, l: nat)
    requires LinesOk(g) && MachineryOnly(g, g') && l < |g.lines|
    requires g.lines[l].sourceType != Some(RECONCILIATION)
    ensures Counterpart(g', l) == Counterpart(g, l)
  {
    forall k: nat ensures k in Counterparts(g', l) <==> k in Counterparts(g, l) {
      if k < |g.lines| {
        assert LineOk(g.lines[l], |g.journals|) && LineOk(g.lines[k], |g.journals|);
        assert IsCounterpart(g', l, k) <==> IsCounterpart(g, l, k);
      }
    }
    assert Counterparts(g', l) == Counterparts(g, l);
    AscendingStays(|g.lines|, |g'.lines|, Counterparts(g, l));
  }

  /** A line that pairs with nothing: of the machinery, or without a reversal counterpart. */
  ghost predicate Alone(g: Graph, l: nat) {
    l < |g.lines| ==> g.lines[l].sourceType == Some(RECONCILIATION) || Counterpart(g, l).None?
  }

  lemma {:induction false} AloneStays(g: Graph, g': Graph, l: nat)
    requires LinesOk(g) && MachineryOnly(g, g') && Alone(g, l)
    ensures Alone(g', l)
  {
    if l < |g.lines| && g.lines[l].sourceType != Some(RECONCILIATION) {
      CounterpartStays(g, g', l);
    }
  }

  lemma {:induction false} PairAllIdle(g: Graph, ids: seq<nat>)
    requires forall i | 0 <= i < |ids| :: !PairsNow(g, ids[i])
    ensures PairAll(g, ids) == Ok(g)
  {
    if ids == [] {
    } else {
      PairAllIdle(g, ids[..|ids| - 1]);
    }
  }

  // ------------------------------------------------------------------ selecting edges

  lemma {:induction false} SelectSameFlow(a: seq<Edge>, b: seq<Edge>, roots: set<nat>, taken: bool)
    requires SameFlow(a, b)
    ensures SameFlow(Select(a, roots, taken), Select(b, roots, taken))
  {
    if a == [] {
    } else {
      SelectSameFlow(a[..|a| - 1], b[..|b| - 1], roots, taken);
    }
  }

  lemma {:induction false} SameFlowPush(a: seq<Edge>, b: seq<Edge>, e: Edge, c: seq<Edge>)
    requires SameFlow(a, b) && SameFlow(b + [e], c)
    ensures SameFlow(a + [e], c)
  {
  }

  /** Taking away two closures one after the other takes away both. */
  lemma {:induction false} SelectTwice(edges: seq<Edge>, a: set<nat>, b: set<nat>)
    ensures Select(Select(edges, a, false), b, false) == Select(edges, a + b, false)
  {
    if edges == [] {
    } else {
      var k := |edges| - 1;
      SelectTwice(edges[..k], a, b);
      var init := Select(edges[..k], a, false);
      assert (init + [edges[k]])[..|init|] == init;
      assert InClosure(edges[k], a + b) <==> InClosure(edges[k], a) || InClosure(edges[k], b);
    }
  }

  /** When the closure is exactly the tail, what is kept is the rest. */
  lemma {:induction false} SelectTail(edges: seq<Edge>, n: nat, roots: set<nat>)
    requires n <= |edges|
    requires forall i | 0 <= i < n :: !InClosure(edges[i], roots)
    requires forall i | n <= i < |edges| :: InClosure(edges[i], roots)
    ensures Select(edges, roots, false) == edges[..n]
  {
    if edges == [] {
    } else {
      var k := |edges| - 1;
      if n <= k {
        SelectTail(edges[..k], n, roots);
        assert edges[..k][..n] == edges[..n];
      } else {
        SelectTail(edges[..k], k, roots);
        assert edges[..k][..k] == edges[..k] && edges[..n] == edges[..k] + [edges[k]];
      }
    }
  }

  // ------------------------------------------------------------------ one unlink

  /** After the removal, and before pairing: what is kept, over books the machinery alone extended. */
  ghost predicate Removed(g: Graph, g': Graph, roots: set<nat>) {
    && Sound(g') && MachineryOnly(g, g') && g'.nextEdge == g.nextEdge
    && g'.edges == Select(g.edges, roots, false)
    && forall j | |g.journals| <= j < |g'.journals| :: IsReversal(g'.journals[j])
  }

  predicate IsReversal(j: Journal) {
    j.sourceType == Some(RECONCILIATION) && j.sourceId.Some? && j.sourceId.value.JournalRef?
  }

  lemma {:induction false} ReversalsAre(env: Env, g: Graph, js: seq<nat>)
    requires ReverseAll(env, g, js).Ok?
    ensures var g' := ReverseAll(env, g, js).value;
      |g.journals| <= |g'.journals| && forall j | |g.journals| <= j < |g'.journals| :: IsReversal(g'.journals[j])
  {
    if js == [] {
    } else {
      ReversalsAre(env, g, js[..|js| - 1]);
    }
  }

  lemma {:induction false} UnlinkRemoves(env: Env, g: Graph, roots: set<nat>) returns (g2: Graph)
    requires Sound(g)
    ensures Removed(g, g2, roots)
    ensures UnlinkClosure(env, g, roots)
      == PairAll(g2, Ascending(|g2.lines|, Ends(Select(g.edges, roots, true))))
  {
    UnlinkClosureStages(env, g, roots);
    var js := GeneratedJournals(g, Ids(Select(g.edges, roots, true)));
    var g1 := ReverseAll(env, g, js).value;
    ReversalsPostOnlyMachinery(env, g, js);
    ReversalsAre(env, g, js);
    g2 := RemoveEdges(g1, roots);
  }

  /** An unlink that meets no reversal counterpart only removes. */
  lemma {:induction false} UnlinkOnlyRemoves(env: Env, g: Graph, roots: set<nat>) returns (g2: Graph)
    requires Sound(g)
    requires forall l | l in Ends(Select(g.edges, roots, true)) :: Alone(g, l)
    ensures UnlinkClosure(env, g, roots) == Ok(g2) && Removed(g, g2, roots)
  {
    g2 := UnlinkRemoves(env, g, roots);
    var ids := Ascending(|g2.lines|, Ends(Select(g.edges, roots, true)));
    assert LinesOk(g) by {
      Clauses(g);
    }
    forall i | 0 <= i < |ids| ensures !PairsNow(g2, ids[i]) {
      assert ids[i] in ids;
      AloneStays(g, g2, ids[i]);
    }
    PairAllIdle(g2, ids);
  }

  // ------------------------------------------------------------------ link, then unlink

  lemma {:induction false} GrownClosure(g: Graph, g1: Graph, p: nat)
    requires EdgesOk(g) && RefsKnown(g) && p == g.nextEdge && |g.edges| <= |g1.edges|
    requires SameFlow(g.edges, g1.edges[..|g.edges|])
    requires forall i | |g.edges| <= i < |g1.edges| :: OfFamily(g1.edges[i], p)
    ensures Select(g1.edges, {p}, false) == g1.edges[..|g.edges|]
  {
    var n := |g.edges|;
    forall i | 0 <= i < n ensures !InClosure(g1.edges[i], {p}) {
      assert g1.edges[..n][i] == g1.edges[i];
      assert EdgeOk(g.edges[i], |g.lines|, g.nextEdge) && Known(g.edges[i].sourceId, g.nextEdge, |g.journals|);
    }
    SelectTail(g1.edges, n, {p});
  }

  /** What a link that applied something leaves: the family of its root edge on top of what was there. */
  ghost predicate LinkedOn(g: Graph, g1: Graph) {
    && Sound(g1) && MachineryOnly(g, g1)
    && |g.edges| < |g1.edges| && SameFlow(g.edges, g1.edges[..|g.edges|])
    && (forall i | |g.edges| <= i < |g1.edges| :: OfFamily(g1.edges[i], g.nextEdge))
    && g1.edges[|g.edges|].id == g.nextEdge
    && forall j | |g.journals| <= j < |g1.journals| :: GeneratedFor(g1.journals[j], g.nextEdge)
  }

  lemma {:induction false} LinkGives(cfg: Config, env: Env, g: Graph, req: PairRequest)
    requires Sound(g) && EnvOk(g, env) && Link(cfg, env, g, req).Ok? && Link(cfg, env, g, req).value.1.partial.Some?
    ensures LinkedOn(g, Link(cfg, env, g, req).value.0)
    ensures Link(cfg, env, g, req).value.1.partial == Some(g.nextEdge)
  {
    var d, c := Resolve(g, req.debit).value, Resolve(g, req.credit).value;
    ValidPair(cfg, g, d, c, req.amount);
    var applied := ValidatePair(cfg, g, d, c, req.amount).value;
    LinkKeepsSound(cfg, env, g, req);
    LinkEdgesKeepsInv(cfg, env, g, req, d, c, applied);
    LinkEdgesGrows(cfg, env, g, req, d, c, applied);
    RootStays(cfg, env, g, req, d, c, applied);
    LinkEnds(cfg, env, g, req, d, c, applied);
    var (g1, total) := LinkEdges(cfg, env, g, req, d, c, applied).value;
    FamilyStays(g, g1, Complete(g1, {d, c}, total).0, g.nextEdge);
  }

  lemma {:induction false} FamilyStays(g: Graph, g1: Graph, g2: Graph, p: nat)
    requires Grows(g, g1, p) && SameFlows(g1, g2) && |g.edges| < |g1.edges| && g1.edges[|g.edges|].id == p
    ensures MachineryOnly(g, g2)
    ensures |g.edges| < |g2.edges| && SameFlow(g.edges, g2.edges[..|g.edges|])
    ensures forall i | |g.edges| <= i < |g2.edges| :: OfFamily(g2.edges[i], p)
    ensures g2.edges[|g.edges|].id == p
    ensures forall j | |g.journals| <= j < |g2.journals| :: GeneratedFor(g2.journals[j], p)
  {
    var n := |g.edges|;
    forall i | 0 <= i < n ensures SameFlow([g.edges[i]], [g2.edges[..n][i]]) {
      assert g1.edges[..n][i] == g1.edges[i];
    }
    forall i | 0 <= i < n
      ensures g.edges[i].id == g2.edges[..n][i].id && g.edges[i].debit == g2.edges[..n][i].debit
        && g.edges[i].credit == g2.edges[..n][i].credit && g.edges[i].amount == g2.edges[..n][i].amount
        && g.edges[i].sourceId == g2.edges[..n][i].sourceId
    {
      assert g1.edges[..n][i] == g1.edges[i];
    }
    forall i | n <= i < |g2.edges| ensures OfFamily(g2.edges[i], p) {
      assert OfFamily(g1.edges[i], p);
    }
  }

  /**
   * Unlinking the root edge of a link just made, where no touched line has a reversal
   * counterpart posted, succeeds and gives back the edges and every residual of before.
   */
  lemma {:induction false} UnlinkUndoesLink(cfg: Config, env: Env, g: Graph, req: PairRequest, later: Env)
    requires Sound(g) && EnvOk(g, env) && Link(cfg, env, g, req).Ok? && Link(cfg, env, g, req).value.1.partial.Some?
    requires var g1 := Link(cfg, env, g, req).value.0;
      forall l | l in Ends(Select(g1.edges, {g.nextEdge}, true)) :: Alone(g1, l)
    ensures var g1 := Link(cfg, env, g, req).value.0;
      && UnlinkOne(later, g1, g.nextEdge).Ok?
      && var g2 := UnlinkOne(later, g1, g.nextEdge).value;
      && SameFlow(g.edges, g2.edges)
      && g.lines <= g2.lines && forall l | 0 <= l < |g.lines| :: Residual(g2, l) == Residual(g, l)
  {
    LinkGives(cfg, env, g, req);
    var g1 := Link(cfg, env, g, req).value.0;
    UndoLinked(later, g, g1);
  }

  lemma {:induction false} UndoLinked(later: Env, g: Graph, g1: Graph)
    requires Sound(g) && LinkedOn(g, g1)
    requires forall l | l in Ends(Select(g1.edges, {g.nextEdge}, true)) :: Alone(g1, l)
    ensures UnlinkOne(later, g1, g.nextEdge).Ok?
    ensures var g2 := UnlinkOne(later, g1, g.nextEdge).value;
      && Removed(g1, g2, {g.nextEdge}) && SameFlow(g.edges, g2.edges)
      && g.lines <= g2.lines && forall l | 0 <= l < |g.lines| :: Residual(g2, l) == Residual(g, l)
  {
    var p := g.nextEdge;
    assert p in Ids(g1.edges) by {
      assert g1.edges[|g.edges|].id == p;
    }
    var g2 := UnlinkOnlyRemoves(later, g1, {p});
    assert EdgesOk(g) && RefsKnown(g) by {
      Clauses(g);
      Books(g);
    }
    GrownClosure(g, g1, p);
    forall l | 0 <= l < |g.lines| ensures Residual(g2, l) == Residual(g, l) {
      AppliedSameFlow(g.edges, g2.edges, l);
    }
  }

  /** The general ledger too: on every account the link, what it generated and the unlink cancel. */
  lemma {:induction false} UnlinkClearsLedger(cfg: Config, env: Env, g: Graph, req: PairRequest, later: Env,
                                              account: nat)
    requires Sound(g) && Traceless(g) && EnvOk(g, env)
    requires Link(cfg, env, g, req).Ok? && Link(cfg, env, g, req).value.1.partial.Some?
    requires var g1 := Link(cfg, env, g, req).value.0;
      forall l | l in Ends(Select(g1.edges, {g.nextEdge}, true)) :: Alone(g1, l)
    ensures var g1 := Link(cfg, env, g, req).value.0;
      && UnlinkOne(later, g1, g.nextEdge).Ok?
      && Net(UnlinkOne(later, g1, g.nextEdge).value.ledger, account) == Net(g.ledger, account)
  {
    LinkGives(cfg, env, g, req);
    LinkKeepsTraceless(cfg, env, g, req);
    var g1 := Link(cfg, env, g, req).value.0;
    UndoLinked(later, g, g1);
    UnlinkKeepsTraceless(later, g1, {g.nextEdge});
    var g2 := UnlinkOne(later, g1, g.nextEdge).value;
    IdsSameFlow(g.edges, g2.edges);
    OnlyDeadAdded(g, g1, g2, account);
    LedgerIsLive(g, account);
    LedgerIsLive(g2, account);
  }

  lemma {:induction false} SameLive(g: Graph, g': Graph, ids: set<nat>, n: nat, account: nat)
    requires JournalsShaped(g) && g.lines <= g'.lines && g.journals <= g'.journals && n <= |g.journals|
    ensures LiveNet(g', ids, n, account) == LiveNet(g, ids, n, account)
  {
    if n == 0 {
    } else {
      SameLive(g, g', ids, n - 1, account);
      JournalNetStays(g, g', n - 1, account);
    }
  }

  lemma {:induction false} AllDead(g: Graph, ids: set<nat>, from: nat, n: nat, account: nat)
    requires from <= n <= |g.journals| && forall j | from <= j < n :: Dead(g.journals[j], ids)
    ensures LiveNet(g, ids, n, account) == LiveNet(g, ids, from, account)
  {
    if from < n {
      AllDead(g, ids, from, n - 1, account);
    }
  }

  /** The journals a link and its unlink add are all dead in the end. */
  lemma {:induction false} OnlyDeadAdded(g: Graph, g1: Graph, g2: Graph, account: nat)
    requires Sound(g) && LinkedOn(g, g1) && Removed(g1, g2, {g.nextEdge}) && Ids(g2.edges) == Ids(g.edges)
    ensures LiveNet(g2, Ids(g2.edges), |g2.journals|, account) == LiveNet(g, Ids(g.edges), |g.journals|, account)
  {
    var ids := Ids(g.edges);
    assert JournalsShaped(g) && g.nextEdge !in ids by {
      Books(g);
      Clauses(g);
    }
    forall j | |g.journals| <= j < |g2.journals| ensures Dead(g2.journals[j], ids) {
      if j < |g1.journals| {
        assert g2.journals[j] == g1.journals[j] && GeneratedFor(g1.journals[j], g.nextEdge);
      } else {
        assert IsReversal(g2.journals[j]);
      }
    }
    SameLive(g, g2, ids, |g.journals|, account);
    AllDead(g2, ids, |g.journals|, |g2.journals|, account);
  }
}
