/**
 * Which derived edges outlive their root. An unlink takes the edges derived from its root and
 * not those derived from them; and a link copies its credit line's source, so a link of a line
 * some edge posted is itself derived from that edge.
 */
module ReconcileLineage {
  import opened Wrappers
  import opened ReconcileGraph
  import opened ReconcileInvariants
  import opened ReconcileVerbs
  import opened ReconcileGrowth
  import opened ReconcileSteps
  import opened ReconcileReversals
  import opened ReconcileEnds
  import opened ReconcileLedger
  import opened ReconcileRuns
  import opened ReconcileUndo
  import opened ReconcileRepair

  predicate Derived(e: Edge, root: nat) {
    e.sourceId == Some(PartialRef(root))
  }

  /** The root of every derived edge is still there. */
  ghost predicate RootsLive(edges: seq<Edge>) {
    forall i, n: nat | 0 <= i < |edges| && Derived(edges[i], n) :: n in Ids(edges)
  }

  /** An edge is younger than what it is derived from. */
  ghost predicate Younger(edges: seq<Edge>) {
    forall i, n: nat | 0 <= i < |edges| && Derived(edges[i], n) :: n < edges[i].id
  }

  /** Some edge derived from `id` has an edge derived from it. */
  ghost predicate Nested(edges: seq<Edge>, id: nat) {
    exists i, k | 0 <= i < |edges| && 0 <= k < |edges| :: Derived(edges[i], id) && Derived(edges[k], edges[i].id)
  }

  /** No edge is derived from a derived one. */
  ghost predicate Shallow(edges: seq<Edge>) {
    forall id :: !Nested(edges, id)
  }

  // ------------------------------------------------------------------ unlinking

  /** What unlinking a closure leaves: the edges outside it and pairing edges, which are derived from none. */
  ghost predicate LeftBy(g: Graph, roots: set<nat>, edges: seq<Edge>, extra: seq<Edge>) {
    && SameFlow(Select(g.edges, roots, false) + extra, edges)
    && forall i | 0 <= i < |extra| :: extra[i].id >= g.nextEdge && OfSource(extra[i].sourceId)
  }

  lemma {:induction false} ClosureLeaves(env: Env, g: Graph, roots: set<nat>) returns (h: Graph, extra: seq<Edge>)
    requires Sound(g) && Sourced(g)
    ensures UnlinkClosure(env, g, roots) == Ok(h) && LeftBy(g, roots, h.edges, extra)
  {
    var kept, s := Select(g.edges, roots, false), Ends(Select(g.edges, roots, true));
    var g2 := UnlinkRemoves(env, g, roots);
    assert kept + [] == kept;
    var list := Ascending(|g2.lines|, s);
    forall i | 0 <= i < |list| ensures list[i] in s && list[i] < |g2.lines| {
      assert list[i] in list;
    }
    assert LinesOk(g) by {
      Clauses(g);
    }
    h, extra := PairAllRepairs(g, g2, kept, [], s, list);
    forall i | 0 <= i < |extra| ensures extra[i].id >= g.nextEdge && OfSource(extra[i].sourceId) {
      assert Repair(g, extra[i], s);
    }
  }

  /** The edges left, each an old one outside the closure or a new one derived from none. */
  lemma {:induction false} LeftEdge(g: Graph, roots: set<nat>, edges: seq<Edge>, extra: seq<Edge>, i: nat)
    requires LeftBy(g, roots, edges, extra) && i < |edges|
    ensures (edges[i].id >= g.nextEdge && OfSource(edges[i].sourceId))
      || exists k | 0 <= k < |g.edges| ::
        !InClosure(g.edges[k], roots) && g.edges[k].id == edges[i].id && g.edges[k].sourceId == edges[i].sourceId
  {
    var kept := Select(g.edges, roots, false);
    var all := kept + extra;
    SelectMembers(g.edges, roots, false);
    if i < |kept| {
      assert all[i] == kept[i] && kept[i] in g.edges;
    } else {
      assert all[i] == extra[i - |kept|];
    }
  }

  /** And every old one outside the closure is among them. */
  lemma {:induction false} EdgeLeft(g: Graph, roots: set<nat>, edges: seq<Edge>, extra: seq<Edge>, k: nat) returns (i: nat)
    requires LeftBy(g, roots, edges, extra) && k < |g.edges| && !InClosure(g.edges[k], roots)
    ensures i < |edges| && edges[i].id == g.edges[k].id && edges[i].sourceId == g.edges[k].sourceId
  {
    var kept := Select(g.edges, roots, false);
    SelectMembers(g.edges, roots, false);
    assert g.edges[k] in kept;
    i :| 0 <= i < |kept| && kept[i] == g.edges[k];
    assert (kept + extra)[i] == kept[i];
  }

  /** An edge of the closure is not among them. */
  lemma {:induction false} TakenIsGone(g: Graph, roots: set<nat>, edges: seq<Edge>, extra: seq<Edge>, k: nat)
    requires EdgesOk(g) && LeftBy(g, roots, edges, extra) && k < |g.edges| && InClosure(g.edges[k], roots)
    ensures g.edges[k].id !in Ids(edges)
  {
    assert EdgeOk(g.edges[k], |g.lines|, g.nextEdge);
    forall i | 0 <= i < |edges| ensures edges[i].id != g.edges[k].id {
      LeftEdge(g, roots, edges, extra, i);
      if edges[i].id < g.nextEdge {
        var m :| 0 <= m < |g.edges| && !InClosure(g.edges[m], roots) && g.edges[m].id == edges[i].id;
        assert m != k;
      }
    }
  }

  lemma {:induction false} NestedOutlives(g: Graph, id: nat, edges: seq<Edge>, extra: seq<Edge>)
    requires EdgesOk(g) && Younger(g.edges) && LeftBy(g, {id}, edges, extra) && Nested(g.edges, id)
    ensures !RootsLive(edges)
  {
    var i, k :| 0 <= i < |g.edges| && 0 <= k < |g.edges| && Derived(g.edges[i], id)
      && Derived(g.edges[k], g.edges[i].id);
    assert id < g.edges[i].id < g.edges[k].id;
    TakenIsGone(g, {id}, edges, extra, i);
    var m := EdgeLeft(g, {id}, edges, extra, k);
    assert Derived(edges[m], g.edges[i].id);
  }

  lemma {:induction false} RootIsLeft(g: Graph, roots: set<nat>, edges: seq<Edge>, extra: seq<Edge>, i: nat, n: nat)
    requires RootsLive(g.edges) && LeftBy(g, roots, edges, extra) && i < |edges| && Derived(edges[i], n)
    requires forall id | id in roots :: !Nested(g.edges, id)
    ensures n in Ids(edges)
  {
    LeftEdge(g, roots, edges, extra, i);
    var k :| 0 <= k < |g.edges| && !InClosure(g.edges[k], roots) && g.edges[k].sourceId == edges[i].sourceId;
    assert Derived(g.edges[k], n);
    assert n in Ids(g.edges);
    var r :| 0 <= r < |g.edges| && g.edges[r].id == n;
    if InClosure(g.edges[r], roots) {
      assert n !in roots;
      var id := g.edges[r].sourceId.value.n;
      assert Derived(g.edges[r], id) && Nested(g.edges, id);
      assert false;
    } else {
      var m := EdgeLeft(g, roots, edges, extra, r);
    }
  }

  /**
   * Exactly when an unlink leaves a derived edge without its root: when some edge derived from
   * the unlinked one has an edge derived from it in turn.
   */
  lemma {:induction false} UnlinkKeepsRootsIff(env: Env, g: Graph, id: nat)
    requires Sound(g) && Sourced(g) && Younger(g.edges) && RootsLive(g.edges) && id in Ids(g.edges)
    ensures UnlinkOne(env, g, id).Ok?
    ensures RootsLive(UnlinkOne(env, g, id).value.edges) <==> !Nested(g.edges, id)
  {
    var h, extra := ClosureLeaves(env, g, {id});
    assert EdgesOk(g) by {
      Clauses(g);
    }
    if Nested(g.edges, id) {
      NestedOutlives(g, id, h.edges, extra);
    } else {
      forall i, n: nat | 0 <= i < |h.edges| && Derived(h.edges[i], n) ensures n in Ids(h.edges) {
        RootIsLeft(g, {id}, h.edges, extra, i, n);
      }
    }
  }

  // ------------------------------------------------------------------ linking

  lemma {:induction false} LinkedEdges(cfg: Config, env: Env, g: Graph, req: PairRequest) returns (c: nat)
    requires Sound(g) && EnvOk(g, env) && Link(cfg, env, g, req).Ok? && Link(cfg, env, g, req).value.1.partial.Some?
    ensures LinkedOn(g, Link(cfg, env, g, req).value.0)
    ensures Resolve(g, req.credit) == Ok(c) && c < |g.lines|
    ensures Link(cfg, env, g, req).value.0.edges[|g.edges|].sourceId == g.lines[c].sourceId
  {
    LinkGives(cfg, env, g, req);
    var d := Resolve(g, req.debit).value;
    c := Resolve(g, req.credit).value;
    ValidPair(cfg, g, d, c, req.amount);
    var applied := ValidatePair(cfg, g, d, c, req.amount).value;
    LinkEdgesKeepsInv(cfg, env, g, req, d, c, applied);
    RootStays(cfg, env, g, req, d, c, applied);
    LinkEnds(cfg, env, g, req, d, c, applied);
  }

  /** The edges of a link: those of before, the root, and edges derived from the root. */
  ghost predicate GrownBy(g: Graph, edges: seq<Edge>, source: Option<Ref>) {
    && |g.edges| < |edges| && SameFlow(g.edges, edges[..|g.edges|])
    && edges[|g.edges|].id == g.nextEdge && edges[|g.edges|].sourceId == source
    && Known(source, g.nextEdge, |g.journals|)
    && forall i | |g.edges| < i < |edges| :: Derived(edges[i], g.nextEdge) && edges[i].id > g.nextEdge
  }

  lemma {:induction false} LinkGrows(cfg: Config, env: Env, g: Graph, req: PairRequest) returns (c: nat)
    requires Sound(g) && EnvOk(g, env) && Link(cfg, env, g, req).Ok? && Link(cfg, env, g, req).value.1.partial.Some?
    ensures Resolve(g, req.credit) == Ok(c) && c < |g.lines|
    ensures GrownBy(g, Link(cfg, env, g, req).value.0.edges, g.lines[c].sourceId)
  {
    c := LinkedEdges(cfg, env, g, req);
    var g1 := Link(cfg, env, g, req).value.0;
    assert RefsKnown(g) by {
      Books(g);
    }
    assert IdsAscend(g1.edges) by {
      Clauses(g1);
    }
    forall i | |g.edges| < i < |g1.edges| ensures Derived(g1.edges[i], g.nextEdge) && g1.edges[i].id > g.nextEdge {
      assert OfFamily(g1.edges[i], g.nextEdge) && g1.edges[|g.edges|].id < g1.edges[i].id;
    }
  }

  lemma {:induction false} OldEdge(g: Graph, edges: seq<Edge>, source: Option<Ref>, i: nat)
    requires GrownBy(g, edges, source) && i < |g.edges|
    ensures edges[i].id == g.edges[i].id && edges[i].sourceId == g.edges[i].sourceId
  {
    assert edges[..|g.edges|][i] == edges[i];
  }

  lemma {:induction false} GrownKeepsYounger(g: Graph, edges: seq<Edge>, source: Option<Ref>)
    requires Younger(g.edges) && GrownBy(g, edges, source)
    ensures Younger(edges)
  {
    forall i, n: nat | 0 <= i < |edges| && Derived(edges[i], n) ensures n < edges[i].id {
      if i < |g.edges| {
        OldEdge(g, edges, source, i);
        assert Derived(g.edges[i], n);
      }
    }
  }

  lemma {:induction false} GrownIdsAre(g: Graph, edges: seq<Edge>, source: Option<Ref>)
    requires GrownBy(g, edges, source)
    ensures forall n | n in Ids(g.edges) :: n in Ids(edges)
    ensures g.nextEdge in Ids(edges) && forall n | n in Ids(edges) && n < g.nextEdge :: n in Ids(g.edges)
  {
    forall n | n in Ids(g.edges) ensures n in Ids(edges) {
      var k :| 0 <= k < |g.edges| && g.edges[k].id == n;
      OldEdge(g, edges, source, k);
      assert edges[k].id == n;
    }
    assert edges[|g.edges|].id == g.nextEdge;
    forall n | n in Ids(edges) && n < g.nextEdge ensures n in Ids(g.edges) {
      var k :| 0 <= k < |edges| && edges[k].id == n;
      OldEdge(g, edges, source, k);
      assert g.edges[k].id == n;
    }
  }

  /** A source that is no edge. */
  predicate NoEdge(source: Option<Ref>) {
    !(source.Some? && source.value.PartialRef?)
  }

  lemma {:induction false} GrownKeepsLive(g: Graph, edges: seq<Edge>, source: Option<Ref>)
    requires RootsLive(g.edges) && GrownBy(g, edges, source)
    ensures RootsLive(edges) <==> NoEdge(source) || source.value.n in Ids(g.edges)
  {
    GrownIdsAre(g, edges, source);
    if NoEdge(source) || source.value.n in Ids(g.edges) {
      forall i, n: nat | 0 <= i < |edges| && Derived(edges[i], n) ensures n in Ids(edges) {
        if i < |g.edges| {
          OldEdge(g, edges, source, i);
          assert Derived(g.edges[i], n);
        }
      }
    } else {
      assert Derived(edges[|g.edges|], source.value.n);
    }
  }

  /** A link leaves its root edge without the edge it copies exactly when that edge is gone already. */
  lemma {:induction false} LinkKeepsRootsIff(cfg: Config, env: Env, g: Graph, req: PairRequest) returns (c: nat)
    requires Sound(g) && EnvOk(g, env) && Link(cfg, env, g, req).Ok? && Link(cfg, env, g, req).value.1.partial.Some?
    requires RootsLive(g.edges)
    ensures Resolve(g, req.credit) == Ok(c) && c < |g.lines|
    ensures RootsLive(Link(cfg, env, g, req).value.0.edges)
      <==> NoEdge(g.lines[c].sourceId) || g.lines[c].sourceId.value.n in Ids(g.edges)
  {
    c := LinkGrows(cfg, env, g, req);
    GrownKeepsLive(g, Link(cfg, env, g, req).value.0.edges, g.lines[c].sourceId);
  }

  /** The live edge of that id is itself derived. */
  ghost predicate DerivedRoot(edges: seq<Edge>, id: nat) {
    exists k | 0 <= k < |edges| :: edges[k].id == id && !NoEdge(edges[k].sourceId)
  }

  /** Ids and sources of the edges there are point below the next id. */
  ghost predicate Below(g: Graph) {
    forall i | 0 <= i < |g.edges| ::
      g.edges[i].id < g.nextEdge && (NoEdge(g.edges[i].sourceId) || g.edges[i].sourceId.value.n < g.nextEdge)
  }

  lemma {:induction false} SoundIsBelow(g: Graph)
    requires Sound(g)
    ensures Below(g)
  {
    Books(g);
    Clauses(g);
    forall i | 0 <= i < |g.edges|
      ensures g.edges[i].id < g.nextEdge && (NoEdge(g.edges[i].sourceId) || g.edges[i].sourceId.value.n < g.nextEdge)
    {
      assert EdgeOk(g.edges[i], |g.lines|, g.nextEdge) && Known(g.edges[i].sourceId, g.nextEdge, |g.journals|);
    }
  }

  /** The edge copies the id of an edge that is derived, or has edges derived from it while it is derived. */
  ghost predicate Nests(g: Graph, edges: seq<Edge>, source: Option<Ref>) {
    !NoEdge(source) && (|edges| > |g.edges| + 1 || DerivedRoot(g.edges, source.value.n))
  }

  lemma {:induction false} NotNested(g: Graph, edges: seq<Edge>, source: Option<Ref>, i: nat, k: nat, id: nat)
    requires GrownBy(g, edges, source) && Below(g) && !Nested(g.edges, id) && !Nests(g, edges, source)
    requires i < |edges| && k < |edges| && Derived(edges[i], id)
    ensures !Derived(edges[k], edges[i].id)
  {
    if i < |g.edges| {
      OldEdge(g, edges, source, i);
      assert g.edges[i].id < g.nextEdge && Derived(g.edges[i], id);
    }
    if k < |g.edges| {
      OldEdge(g, edges, source, k);
      assert NoEdge(g.edges[k].sourceId) || g.edges[k].sourceId.value.n < g.nextEdge;
      assert Derived(edges[k], edges[i].id) == Derived(g.edges[k], edges[i].id);
    }
  }

  lemma {:induction false} NestsMakesNested(g: Graph, edges: seq<Edge>, source: Option<Ref>)
    requires GrownBy(g, edges, source) && Nests(g, edges, source)
    ensures !Shallow(edges)
  {
    var n, p := |g.edges|, source.value.n;
    assert Derived(edges[n], p);
    if |edges| > n + 1 {
      assert Derived(edges[n + 1], edges[n].id);
      assert Nested(edges, p);
    } else {
      var k :| 0 <= k < n && g.edges[k].id == p && !NoEdge(g.edges[k].sourceId);
      OldEdge(g, edges, source, k);
      assert Derived(edges[k], edges[k].sourceId.value.n) && Derived(edges[n], edges[k].id);
      assert Nested(edges, edges[k].sourceId.value.n);
    }
  }

  /**
   * A link makes an edge derived from a derived one exactly when its credit line was posted by some
   * edge, and it has side effects of its own or that edge is itself derived.
   */
  lemma {:induction false} LinkKeepsShallowIff(cfg: Config, env: Env, g: Graph, req: PairRequest) returns (c: nat)
    requires Sound(g) && EnvOk(g, env) && Link(cfg, env, g, req).Ok? && Link(cfg, env, g, req).value.1.partial.Some?
    requires Shallow(g.edges)
    ensures Resolve(g, req.credit) == Ok(c) && c < |g.lines|
    ensures Shallow(Link(cfg, env, g, req).value.0.edges)
      <==> !Nests(g, Link(cfg, env, g, req).value.0.edges, g.lines[c].sourceId)
  {
    c := LinkGrows(cfg, env, g, req);
    var edges, source := Link(cfg, env, g, req).value.0.edges, g.lines[c].sourceId;
    SoundIsBelow(g);
    if Nests(g, edges, source) {
      NestsMakesNested(g, edges, source);
    } else {
      forall id: nat ensures !Nested(edges, id) {
        assert !Nested(g.edges, id);
        forall i, k | 0 <= i < |edges| && 0 <= k < |edges| && Derived(edges[i], id)
          ensures !Derived(edges[k], edges[i].id)
        {
          NotNested(g, edges, source, i, k, id);
        }
      }
    }
  }

  // ------------------------------------------------------------------ runs

  /** What unlink needs so that no derived edge outlives its root. */
  ghost predicate Lineage(g: Graph) {
    Sourced(g) && Younger(g.edges) && Shallow(g.edges) && RootsLive(g.edges)
  }

  lemma {:induction false} LeftKeepsYounger(g: Graph, roots: set<nat>, edges: seq<Edge>, extra: seq<Edge>)
    requires LeftBy(g, roots, edges, extra) && Younger(g.edges)
    ensures Younger(edges)
  {
    forall i, n: nat | 0 <= i < |edges| && Derived(edges[i], n) ensures n < edges[i].id {
      LeftEdge(g, roots, edges, extra, i);
      var k :| 0 <= k < |g.edges| && g.edges[k].id == edges[i].id && g.edges[k].sourceId == edges[i].sourceId;
      assert Derived(g.edges[k], n);
    }
  }

  lemma {:induction false} LeftKeepsRoots(g: Graph, roots: set<nat>, edges: seq<Edge>, extra: seq<Edge>)
    requires LeftBy(g, roots, edges, extra) && Shallow(g.edges) && RootsLive(g.edges)
    ensures RootsLive(edges)
  {
    forall i, n: nat | 0 <= i < |edges| && Derived(edges[i], n) ensures n in Ids(edges) {
      RootIsLeft(g, roots, edges, extra, i, n);
    }
  }

  lemma {:induction false} ClosureKeepsLineage(env: Env, g: Graph, roots: set<nat>)
    requires Sound(g) && Lineage(g)
    ensures UnlinkClosure(env, g, roots).Ok? && Lineage(UnlinkClosure(env, g, roots).value)
  {
    var h, extra := ClosureLeaves(env, g, roots);
    ClosureKeepsSourced(env, g, roots);
    LeftKeepsYounger(g, roots, h.edges, extra);
    LeftKeepsRoots(g, roots, h.edges, extra);
    forall id: nat ensures !Nested(h.edges, id) {
      LeftNotNested(g, roots, h.edges, extra, id);
    }
  }

  lemma {:induction false} LeftNotNested(g: Graph, roots: set<nat>, edges: seq<Edge>, extra: seq<Edge>, id: nat)
    requires LeftBy(g, roots, edges, extra) && !Nested(g.edges, id)
    ensures !Nested(edges, id)
  {
    forall i, k | 0 <= i < |edges| && 0 <= k < |edges| && Derived(edges[i], id) ensures !Derived(edges[k], edges[i].id) {
      LeftEdge(g, roots, edges, extra, i);
      LeftEdge(g, roots, edges, extra, k);
      var a :| 0 <= a < |g.edges| && g.edges[a].id == edges[i].id && g.edges[a].sourceId == edges[i].sourceId;
      assert Derived(g.edges[a], id);
      if Derived(edges[k], edges[i].id) {
        var b :| 0 <= b < |g.edges| && g.edges[b].sourceId == edges[k].sourceId;
        assert Derived(g.edges[b], g.edges[a].id);
        assert false;
      }
    }
  }

  /** No link's credit line is one that an edge posted. */
  ghost predicate CreditsOwn(g: Graph, step: Step) {
    match step
    case LinkStep(env, req) =>
      var c := Resolve(g, req.credit);
      c.Ok? ==> NoEdge(g.lines[c.value].sourceId)
    case _ => true
  }

  ghost predicate CreditsOwnRun(cfg: Config, g: Graph, steps: seq<Step>)
    requires RunOk(cfg, g, steps)
    decreases |steps|
  {
    steps != [] ==> CreditsOwn(g, steps[0]) && CreditsOwnRun(cfg, Perform(cfg, g, steps[0]), steps[1..])
  }

  lemma {:induction false} LinkKeepsLineage(cfg: Config, env: Env, g: Graph, req: PairRequest)
    requires Sound(g) && EnvOk(g, env) && Lineage(g) && Link(cfg, env, g, req).Ok?
    requires CreditsOwn(g, LinkStep(env, req)) && Link(cfg, env, g, req).value.1.partial.Some?
    ensures Lineage(Link(cfg, env, g, req).value.0)
  {
    var g1 := Link(cfg, env, g, req).value.0;
    var c := LinkGrows(cfg, env, g, req);
    LinkGives(cfg, env, g, req);
    MachineryKeepsSourced(g, g1);
    GrownKeepsYounger(g, g1.edges, g.lines[c].sourceId);
    var c1 := LinkKeepsRootsIff(cfg, env, g, req);
    var c2 := LinkKeepsShallowIff(cfg, env, g, req);
  }

  lemma {:induction false} StepKeepsLineage(cfg: Config, g: Graph, step: Step)
    requires Sound(g) && Lineage(g) && StepOk(g, step) && CreditsOwn(g, step)
    ensures Lineage(Perform(cfg, g, step))
  {
    match step
    case PostDoc(doc) => PostKeepsSourced(g, doc);
    case VoidOne(j) =>
    case LinkStep(env, req) =>
      if Link(cfg, env, g, req).Ok? && Link(cfg, env, g, req).value.1.partial.Some? {
        LinkKeepsLineage(cfg, env, g, req);
      }
    case UnlinkStep(env, id) => ClosureKeepsLineage(env, g, {id});
    case UnlinkPairStep(env, d, c) =>
      if Resolve(g, d).Ok? && Resolve(g, c).Ok? {
        ClosureKeepsLineage(env, g, Between(g.edges, Resolve(g, d).value, Resolve(g, c).value));
      }
  }

  lemma {:induction false} RunKeepsLineage(cfg: Config, g: Graph, steps: seq<Step>)
    requires Sound(g) && Lineage(g) && RunOk(cfg, g, steps) && CreditsOwnRun(cfg, g, steps)
    ensures Lineage(Run(cfg, g, steps))
    decreases |steps|
  {
    if steps == [] {
    } else {
      StepKeepsSound(cfg, g, steps[0]);
      StepKeepsLineage(cfg, g, steps[0]);
      RunKeepsLineage(cfg, Perform(cfg, g, steps[0]), steps[1..]);
    }
  }

  /** While no link's credit line is one that an edge posted, every derived edge's root is live. */
  lemma {:induction false} RootsStayLive(cfg: Config, steps: seq<Step>)
    requires RunOk(cfg, EMPTY, steps) && CreditsOwnRun(cfg, EMPTY, steps)
    ensures RootsLive(Run(cfg, EMPTY, steps).edges)
  {
    EmptyIsTidy();
    RunKeepsLineage(cfg, EMPTY, steps);
  }
}
