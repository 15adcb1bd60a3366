/**
 * Removing an edge is never a bare delete: in every state, a journal the machinery generated
 * has been reversed exactly when its root edge is gone. It follows that unlinking a live edge
 * never collides with an earlier reversal.
 */
module ReconcileReversals {
  import opened Wrappers
  import opened ReconcileGraph
  import opened ReconcileInvariants
  import opened ReconcileVerbs
  import opened ReconcileGrowth
  import opened ReconcileSteps

  predicate Generated(j: Journal) {
    j.sourceType == Some(RECONCILIATION) && j.sourceId.Some? && j.sourceId.value.PartialRef?
  }

  ghost predicate ReversedOk(g: Graph) {
    forall j | 0 <= j < |g.journals| && Generated(g.journals[j]) ::
      Unlink(j) in g.keys <==> g.journals[j].sourceId.value.n !in Ids(g.edges)
  }

  /** Everything that holds in every reachable state. */
  ghost predicate Sound(g: Graph) {
    Inv(g) && Shelf(g) && ReversedOk(g)
  }

  // ------------------------------------------------------------------ ids

  lemma {:induction false} IdsByMember(edges: seq<Edge>)
    ensures forall n :: n in Ids(edges) <==> exists e | e in edges :: e.id == n
  {
    forall n | n in Ids(edges) ensures exists e | e in edges :: e.id == n {
      var i :| 0 <= i < |edges| && edges[i].id == n;
      assert edges[i] in edges;
    }
    forall n | exists e | e in edges :: e.id == n ensures n in Ids(edges) {
      var e :| e in edges && e.id == n;
      var i :| 0 <= i < |edges| && edges[i] == e;
    }
  }

  lemma {:induction false} IdsSameFlow(a: seq<Edge>, b: seq<Edge>)
    requires SameFlow(a, b)
    ensures Ids(a) == Ids(b)
  {
    forall n | n in Ids(a) ensures n in Ids(b) {
      var i :| 0 <= i < |a| && a[i].id == n;
      assert b[i].id == n;
    }
    forall n | n in Ids(b) ensures n in Ids(a) {
      var i :| 0 <= i < |b| && b[i].id == n;
      assert a[i].id == n;
    }
  }

  /** Ids are unique, so the removed ids are exactly the ones that disappear. */
  lemma {:induction false} IdsAfterSelect(edges: seq<Edge>, roots: set<nat>)
    requires IdsAscend(edges)
    ensures Ids(Select(edges, roots, false)) == Ids(edges) - Ids(Select(edges, roots, true))
    ensures Ids(Select(edges, roots, true)) <= Ids(edges)
  {
    var taken, kept := Select(edges, roots, true), Select(edges, roots, false);
    SelectMembers(edges, roots, true);
    SelectMembers(edges, roots, false);
    IdsByMember(edges);
    IdsByMember(taken);
    IdsByMember(kept);
    forall n | n in Ids(kept) ensures n !in Ids(taken) {
      var e :| e in kept && e.id == n;
      forall f | f in taken ensures f.id != n {
        SameIdSameEdge(edges, e, f);
      }
    }
  }

  lemma {:induction false} SameIdSameEdge(edges: seq<Edge>, e: Edge, f: Edge)
    requires IdsAscend(edges) && e in edges && f in edges
    ensures e.id == f.id ==> e == f
  {
    var i :| 0 <= i < |edges| && edges[i] == e;
    var k :| 0 <= k < |edges| && edges[k] == f;
  }

  // ------------------------------------------------------------------ link

  lemma {:induction false} GrowsKeepsReversed(g: Graph, g': Graph, p: nat)
    requires Shelf(g) && EdgesOk(g) && ReversedOk(g) && Grows(g, g', p) && p == g.nextEdge
    requires p in Ids(g'.edges) && forall n | n in Ids(g'.edges) && n !in Ids(g.edges) :: n >= p
    ensures ReversedOk(g')
  {
    Books(g);
    forall n | n in Ids(g.edges) ensures n in Ids(g'.edges) {
      var i :| 0 <= i < |g.edges| && g.edges[i].id == n;
      assert g'.edges[..|g.edges|][i].id == n;
      assert g'.edges[i].id == n;
    }
    forall j | 0 <= j < |g'.journals| && Generated(g'.journals[j])
      ensures Unlink(j) in g'.keys <==> g'.journals[j].sourceId.value.n !in Ids(g'.edges)
    {
      if j < |g.journals| {
        assert g'.journals[j] == g.journals[j];
        assert Known(g.journals[j].sourceId, g.nextEdge, |g.journals|);
      } else {
        assert GeneratedFor(g'.journals[j], p);
      }
    }
  }

  /** The edges a link adds have new ids, the first of them the root's. */
  lemma {:induction false} GrownIds(g: Graph, g': Graph, p: nat)
    requires EdgesOk(g) && EdgesOk(g') && p == g.nextEdge && Grows(g, g', p)
    requires |g.edges| < |g'.edges| && g'.edges[|g.edges|].id == p
    ensures p in Ids(g'.edges) && forall n | n in Ids(g'.edges) && n !in Ids(g.edges) :: n >= p
  {
    forall i | 0 <= i < |g.edges| ensures g'.edges[i].id in Ids(g.edges) {
      assert g'.edges[..|g.edges|][i].id == g.edges[i].id;
    }
    forall n | n in Ids(g'.edges) && n !in Ids(g.edges) ensures n >= p {
      var i :| 0 <= i < |g'.edges| && g'.edges[i].id == n;
      assert i >= |g.edges|;
    }
  }

  lemma {:induction false} RootStays(cfg: Config, env: Env, g: Graph, req: PairRequest, d: nat, c: nat, applied: int)
    requires d < |g.lines| && c < |g.lines| && LinkEdges(cfg, env, g, req, d, c, applied).Ok?
    ensures var g' := LinkEdges(cfg, env, g, req, d, c, applied).value.0;
      |g.edges| < |g'.edges| && g'.edges[|g.edges|].id == g.nextEdge
      && g'.edges[|g.edges|].debit == d && g'.edges[|g.edges|].credit == c
      && g'.edges[|g.edges|].sourceId == g.lines[c].sourceId
  {
    var p, date := g.nextEdge, MaxDate(g, d, c);
    var g1 := InsertPartial(g, d, c, applied, date, req.origin, g.lines[c].sourceId).value;
    TrueUpGrows(cfg, env, g1, req, d, c, p, applied);
    var g2 := TrueUp(cfg, env, g1, req, d, c, p, applied).value.0;
    FlipSideGrows(cfg, env, g2, req, d, p, applied, Residual(g, d), date);
    var g3 := FlipSide(cfg, env, g2, req, d, p, applied, Residual(g, d), date).value;
    FlipSideGrows(cfg, env, g3, req, c, p, applied, Residual(g, c), date);
    var g4 := FlipSide(cfg, env, g3, req, c, p, applied, Residual(g, c), date).value;
    GrowsTransitive(g1, g2, g3, p);
    GrowsTransitive(g1, g3, g4, p);
    assert g4.edges[..|g1.edges|][|g.edges|] == g4.edges[|g.edges|];
  }

  lemma {:induction false} LinkEdgesKeepsSound(cfg: Config, env: Env, g: Graph, req: PairRequest, d: nat, c: nat,
                                               applied: int)
    requires Sound(g) && EnvOk(g, env) && d < |g.lines| && c < |g.lines| && d != c
    requires 0 < applied <= Residual(g, d) && applied <= Residual(g, c)
    requires LinkEdges(cfg, env, g, req, d, c, applied).Ok?
    ensures Sound(LinkEdges(cfg, env, g, req, d, c, applied).value.0)
  {
    var g' := LinkEdges(cfg, env, g, req, d, c, applied).value.0;
    LinkEdgesKeepsInv(cfg, env, g, req, d, c, applied);
    LinkEdgesGrows(cfg, env, g, req, d, c, applied);
    RootStays(cfg, env, g, req, d, c, applied);
    assert EdgesOk(g) && EdgesOk(g') by {
      Clauses(g);
      Clauses(g');
    }
    GrownIds(g, g', g.nextEdge);
    GrowsKeepsReversed(g, g', g.nextEdge);
  }

  /** Stamping and marking change neither the books nor the ids. */
  lemma {:induction false} SameFlowsKeepsSound(g: Graph, g': Graph)
    requires Sound(g) && SameFlows(g, g') && Inv(g')
    ensures Sound(g')
  {
    IdsSameFlow(g.edges, g'.edges);
    Books(g);
    Books(g');
    forall i | 0 <= i < |g'.edges| ensures Known(g'.edges[i].sourceId, g'.nextEdge, |g'.journals|) {
      assert g'.edges[i].sourceId == g.edges[i].sourceId;
    }
  }

  lemma {:induction false} LinkKeepsSound(cfg: Config, env: Env, g: Graph, req: PairRequest)
    requires Sound(g) && EnvOk(g, env) && Link(cfg, env, g, req).Ok?
    ensures Sound(Link(cfg, env, g, req).value.0)
  {
    var d, c := Resolve(g, req.debit).value, Resolve(g, req.credit).value;
    ValidPair(cfg, g, d, c, req.amount);
    var applied := ValidatePair(cfg, g, d, c, req.amount).value;
    if applied != 0 {
      LinkEdgesKeepsSound(cfg, env, g, req, d, c, applied);
      LinkEdgesKeepsInv(cfg, env, g, req, d, c, applied);
      LinkEnds(cfg, env, g, req, d, c, applied);
      var (g1, total) := LinkEdges(cfg, env, g, req, d, c, applied).value;
      SameFlowsKeepsSound(g1, Complete(g1, {d, c}, total).0);
    }
  }

  // ------------------------------------------------------------------ unlink

  function UnlinkKeys(js: seq<nat>): set<Key> {
    set i | 0 <= i < |js| :: Unlink(js[i])
  }

  /** The graph after the journals `js` were reversed, each once, under its own key. */
  ghost predicate ReversedAll(g: Graph, g': Graph, js: seq<nat>) {
    && Inv(g') && Shelf(g') && OnlyPosts(g, g')
    && g'.keys == g.keys + UnlinkKeys(js)
    && forall j | |g.journals| <= j < |g'.journals| :: !Generated(g'.journals[j])
  }

  lemma {:induction false} ReversalCommits(env: Env, g: Graph, j: nat)
    requires Inv(g) && Shelf(g) && j < |g.journals| && Unlink(j) !in g.keys
    ensures ReverseJournal(env, g, j).Ok?
    ensures ReversedAll(g, ReverseJournal(env, g, j).value, [j])
  {
    var w := ReversalPosting(env, g, j);
    assert JournalLines(g, j) != [] by {
      Books(g);
      TilesAt(g.journals, |g.lines|, j);
    }
    assert NonNegative(w.lines);
    ReverseJournalKeepsInv(env, g, j);
    CommitShelf(g, w);
    assert UnlinkKeys([j]) == {Unlink(j)} by {
      assert [j][0] == j;
    }
  }

  lemma {:induction false} ReversedAllChains(g: Graph, g1: Graph, g2: Graph, js: seq<nat>, j: nat)
    requires ReversedAll(g, g1, js) && ReversedAll(g1, g2, [j])
    ensures ReversedAll(g, g2, js + [j])
  {
    var all := js + [j];
    forall k | k in UnlinkKeys(all) ensures k in UnlinkKeys(js) + UnlinkKeys([j]) {
      var i :| 0 <= i < |all| && Unlink(all[i]) == k;
      if i < |js| {
        assert all[i] == js[i];
      } else {
        assert [j][0] == all[i];
      }
    }
    forall k | k in UnlinkKeys(js) + UnlinkKeys([j]) ensures k in UnlinkKeys(all) {
      if k in UnlinkKeys(js) {
        var i :| 0 <= i < |js| && Unlink(js[i]) == k;
        assert all[i] == js[i];
      } else {
        assert all[|js|] == j;
      }
    }
    assert UnlinkKeys(all) == UnlinkKeys(js) + UnlinkKeys([j]);
    forall x | |g.journals| <= x < |g2.journals| ensures !Generated(g2.journals[x]) {
      if x < |g1.journals| {
        assert g2.journals[x] == g1.journals[x];
      }
    }
  }

  lemma {:induction false} ReverseAllCommits(env: Env, g: Graph, js: seq<nat>)
    requires Inv(g) && Shelf(g)
    requires forall i | 0 <= i < |js| :: js[i] < |g.journals| && Unlink(js[i]) !in g.keys
    requires forall i, k | 0 <= i < k < |js| :: js[i] < js[k]
    ensures ReverseAll(env, g, js).Ok? && ReversedAll(g, ReverseAll(env, g, js).value, js)
  {
    if js == [] {
      assert UnlinkKeys(js) == {};
    } else {
      var k := |js| - 1;
      ReverseAllCommits(env, g, js[..k]);
      NextReversal(env, g, ReverseAll(env, g, js[..k]).value, js, k);
    }
  }

  /** With the earlier journals reversed, the next one still can be. */
  lemma {:induction false} NextReversal(env: Env, g: Graph, g1: Graph, js: seq<nat>, k: nat)
    requires |js| == k + 1 && ReversedAll(g, g1, js[..k])
    requires js[k] < |g.journals| && Unlink(js[k]) !in g.keys
    requires forall i | 0 <= i < k :: js[i] < js[k]
    ensures ReverseJournal(env, g1, js[k]).Ok? && ReversedAll(g, ReverseJournal(env, g1, js[k]).value, js)
  {
    assert Unlink(js[k]) !in UnlinkKeys(js[..k]);
    ReversalCommits(env, g1, js[k]);
    ReversedAllChains(g, g1, ReverseJournal(env, g1, js[k]).value, js[..k], js[k]);
    assert js[..k] + [js[k]] == js;
  }

  /** The journals a closure generated are all still to be reversed. */
  lemma {:induction false} ClosureJournals(g: Graph, roots: set<nat>)
    requires EdgesOk(g) && ReversedOk(g)
    ensures var ids := Ids(Select(g.edges, roots, true));
      var js := GeneratedJournals(g, ids);
      && (forall i | 0 <= i < |js| :: js[i] < |g.journals| && Unlink(js[i]) !in g.keys)
      && (forall j | 0 <= j < |g.journals| ::
        Generated(g.journals[j]) && g.journals[j].sourceId.value.n in ids <==> Unlink(j) in UnlinkKeys(js))
  {
    var ids := Ids(Select(g.edges, roots, true));
    var js := GeneratedJournals(g, ids);
    IdsAfterSelect(g.edges, roots);
    forall i | 0 <= i < |js| ensures js[i] < |g.journals| && Unlink(js[i]) !in g.keys {
      assert js[i] in js;
      assert GeneratedBy(g.journals[js[i]], ids);
    }
    forall j | 0 <= j < |g.journals|
      ensures Generated(g.journals[j]) && g.journals[j].sourceId.value.n in ids <==> Unlink(j) in UnlinkKeys(js)
    {
      if Generated(g.journals[j]) && g.journals[j].sourceId.value.n in ids {
        assert j in js;
        var i :| 0 <= i < |js| && js[i] == j;
        assert Unlink(js[i]) in UnlinkKeys(js);
      }
      if Unlink(j) in UnlinkKeys(js) {
        var i :| 0 <= i < |js| && Unlink(js[i]) == Unlink(j);
        assert js[i] in js;
      }
    }
  }

  lemma {:induction false} RemoveKeepsReversed(g: Graph, g1: Graph, roots: set<nat>)
    requires EdgesOk(g) && ReversedOk(g) && Shelf(g)
    requires ReversedAll(g, g1, GeneratedJournals(g, Ids(Select(g.edges, roots, true))))
    ensures ReversedOk(RemoveEdges(g1, roots)) && Shelf(RemoveEdges(g1, roots))
  {
    var ids := Ids(Select(g.edges, roots, true));
    var g2 := RemoveEdges(g1, roots);
    ClosureJournals(g, roots);
    IdsAfterSelect(g.edges, roots);
    Books(g1);
    Books(g2);
    forall j | 0 <= j < |g2.journals| && Generated(g2.journals[j])
      ensures Unlink(j) in g2.keys <==> g2.journals[j].sourceId.value.n !in Ids(g2.edges)
    {
      assert j < |g.journals| && g2.journals[j] == g.journals[j];
    }
    SelectMembers(g.edges, roots, false);
    forall i | 0 <= i < |g2.edges| ensures Known(g2.edges[i].sourceId, g2.nextEdge, |g2.journals|) {
      assert g2.edges[i] in g.edges;
    }
  }

  lemma {:induction false} PairOneKeepsSound(g: Graph, l: nat)
    requires Sound(g) && l < |g.lines|
    ensures PairOne(g, l).Ok? && Sound(PairOne(g, l).value) && PairOne(g, l).value.lines == g.lines
  {
    PairOneKeepsInv(g, l);
    if PairsNow(g, l) {
      var k := Counterpart(g, l).value;
      var d, c := if g.lines[l].debit > 0 then l else k, if g.lines[l].debit > 0 then k else l;
      CounterpartSound(g, l);
      var amount, date := Min(g.lines[d].base, g.lines[c].base), MaxDate(g, d, c);
      assert amount > 0 && EdgesOk(g) by {
        Clauses(g);
      }
      InsertKeepsInv(g, d, c, amount, date, MANUAL, g.lines[d].sourceId);
      assert RefsKnown(g) by {
        Books(g);
      }
      InsertShelf(g, d, c, amount, date, MANUAL, g.lines[d].sourceId);
      var g1 := InsertPartial(g, d, c, amount, date, MANUAL, g.lines[d].sourceId).value;
      InsertKeepsReversed(g, g1);
      CompleteKeepsInv(g1, {d, c}, 0);
      SameFlowsKeepsSound(g1, Complete(g1, {d, c}, 0).0);
    }
  }

  lemma {:induction false} InsertKeepsReversed(g: Graph, g1: Graph)
    requires ReversedOk(g) && RefsKnown(g)
    requires |g1.edges| == |g.edges| + 1 && g1.edges[..|g.edges|] == g.edges && g1.edges[|g.edges|].id == g.nextEdge
    requires g1.journals == g.journals && g1.keys == g.keys
    ensures ReversedOk(g1)
  {
    IdsByMember(g.edges);
    IdsByMember(g1.edges);
    assert g1.edges == g.edges + [g1.edges[|g.edges|]];
    forall j | 0 <= j < |g1.journals| && Generated(g1.journals[j])
      ensures Unlink(j) in g1.keys <==> g1.journals[j].sourceId.value.n !in Ids(g1.edges)
    {
      assert Known(g.journals[j].sourceId, g.nextEdge, |g.journals|);
    }
  }

  lemma {:induction false} PairAllKeepsSound(g: Graph, ids: seq<nat>)
    requires Sound(g) && forall i | 0 <= i < |ids| :: ids[i] < |g.lines|
    ensures PairAll(g, ids).Ok? && Sound(PairAll(g, ids).value) && PairAll(g, ids).value.lines == g.lines
  {
    if ids == [] {
    } else {
      PairAllKeepsSound(g, ids[..|ids| - 1]);
      PairOneKeepsSound(PairAll(g, ids[..|ids| - 1]).value, ids[|ids| - 1]);
    }
  }

  /** The stages of an unlink: reverse, remove, then pair; the regrouping between is idle. */
  lemma {:induction false} UnlinkClosureStages(env: Env, g: Graph, roots: set<nat>)
    requires Sound(g)
    ensures var taken := Select(g.edges, roots, true);
      var js := GeneratedJournals(g, Ids(taken));
      && ReverseAll(env, g, js).Ok?
      && var g1 := ReverseAll(env, g, js).value;
      var g2 := RemoveEdges(g1, roots);
      && ReversedAll(g, g1, js) && Sound(g2)
      && UnlinkClosure(env, g, roots) == PairAll(g2, Ascending(|g2.lines|, Ends(taken)))
  {
    var taken := Select(g.edges, roots, true);
    var js := GeneratedJournals(g, Ids(taken));
    assert EdgesOk(g) by {
      Clauses(g);
    }
    ClosureJournals(g, roots);
    ReverseAllCommits(env, g, js);
    var g1 := ReverseAll(env, g, js).value;
    RemoveKeepsInv(g1, roots);
    RemoveKeepsReversed(g, g1, roots);
    RegroupIsIdle(g1, roots);
  }

  /** Unlinking any closure of a sound graph succeeds and leaves a sound graph. */
  lemma {:induction false} UnlinkClosureSucceeds(env: Env, g: Graph, roots: set<nat>)
    requires Sound(g)
    ensures UnlinkClosure(env, g, roots).Ok? && Sound(UnlinkClosure(env, g, roots).value)
  {
    UnlinkClosureStages(env, g, roots);
    var taken := Select(g.edges, roots, true);
    var g1 := ReverseAll(env, g, GeneratedJournals(g, Ids(taken))).value;
    var g2 := RemoveEdges(g1, roots);
    var ids := Ascending(|g2.lines|, Ends(taken));
    assert forall i | 0 <= i < |ids| :: ids[i] in ids;
    PairAllKeepsSound(g2, ids);
  }
}
