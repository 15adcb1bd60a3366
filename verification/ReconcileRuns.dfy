/**
 * Runs: any interleaving of document postings, voids, links and unlinks, starting from an
 * empty graph. The invariants hold in every state a run can reach; open items agree with the
 * books; and while nothing has been unlinked a group stamp is shared by its whole component.
 */
module ReconcileRuns {
  import opened Wrappers
  import opened GlPosting
  import opened ReconcileGraph
  import opened ReconcileInvariants
  import opened ReconcileVerbs
  import opened ReconcileGrowth
  import opened ReconcileSteps
  import opened ReconcileReversals
  import opened ReconcileEnds
  import opened ReconcileLedger

  // ------------------------------------------------------------------ the environment's steps

  datatype DocLine = DocLine(posting: PostingLine, base: nat, rate: nat)

  datatype Doc = Doc(sourceType: string, sourceId: nat, reversing: bool, date: int, currency: string,
                     lines: seq<DocLine>)

  function LineOf(doc: Doc, journal: nat, l: DocLine): Line
    requires Clean(l.posting)
  {
    Line(journal, l.posting.account, l.posting.partyType, l.posting.partyId, l.posting.debit, l.posting.credit,
         l.base, doc.currency, l.rate, doc.date, Some(doc.sourceType), Some(Document(doc.sourceId)))
  }

  function DocLines(doc: Doc, journal: nat, lines: seq<DocLine>): (r: seq<Line>)
    requires forall i | 0 <= i < |lines| :: Clean(lines[i].posting)
    ensures |r| == |lines|
    ensures forall i | 0 <= i < |lines| :: r[i] == LineOf(doc, journal, lines[i])
  {
    if lines == [] then []
    else
      var l := lines[|lines| - 1];
      assert Clean(l.posting);
      DocLines(doc, journal, lines[..|lines| - 1]) + [LineOf(doc, journal, l)]
  }

  function Postings(lines: seq<DocLine>): (r: seq<PostingLine>)
    ensures |r| == |lines| && forall i | 0 <= i < |lines| :: r[i] == lines[i].posting
  {
    if lines == [] then [] else Postings(lines[..|lines| - 1]) + [lines[|lines| - 1].posting]
  }

  /** What a producer's posting must be: clean lines with a positive face and rate, not the machinery's own. */
  predicate DocOk(doc: Doc) {
    && doc.lines != [] && doc.sourceType != RECONCILIATION
    && forall i | 0 <= i < |doc.lines| :: Clean(doc.lines[i].posting) && doc.lines[i].base > 0 && doc.lines[i].rate > 0
  }

  function PostDocument(g: Graph, doc: Doc): Graph
    requires DocOk(doc)
  {
    g.(lines := g.lines + DocLines(doc, |g.journals|, doc.lines),
       journals := g.journals + [Journal(|g.lines|, |doc.lines|, Some(doc.sourceType), Some(Document(doc.sourceId)),
                                         doc.reversing, doc.currency, Posted)],
       ledger := g.ledger + Postings(doc.lines))
  }

  function VoidJournal(g: Graph, j: nat): Graph {
    if j < |g.journals| then g.(journals := g.journals[j := g.journals[j].(status := Voided)]) else g
  }

  lemma {:induction false} PostDocumentKeepsInv(g: Graph, doc: Doc)
    requires Inv(g) && DocOk(doc)
    ensures Inv(PostDocument(g, doc))
  {
    var g' := PostDocument(g, doc);
    Clauses(g);
    Clauses(g');
    forall l | 0 <= l < |g'.lines|
      ensures LineOk(g'.lines[l], |g'.journals|) && 0 <= Residual(g', l) <= g'.lines[l].base
      ensures l >= |g.lines| ==> Residual(g', l) > 0
    {
      if l >= |g.lines| {
        assert AsPosting(g'.lines[l]) == doc.lines[l - |g.lines|].posting;
        AppliedUntouched(g.edges, l);
      } else {
        assert LineOk(g.lines[l], |g.journals|);
        assert Residual(g', l) == Residual(g, l);
      }
    }
  }

  lemma {:induction false} PostDocumentKeepsSound(g: Graph, doc: Doc)
    requires Sound(g) && DocOk(doc)
    ensures Sound(PostDocument(g, doc))
  {
    var g' := PostDocument(g, doc);
    PostDocumentKeepsInv(g, doc);
    assert RefsKnown(g) by {
      Books(g);
    }
    AppendShelf(g, g', g'.journals[|g.journals|], DocLines(doc, |g.journals|, doc.lines), Postings(doc.lines));
    forall j | 0 <= j < |g'.journals| && Generated(g'.journals[j])
      ensures Unlink(j) in g'.keys <==> g'.journals[j].sourceId.value.n !in Ids(g'.edges)
    {
      assert g'.journals[j] == g.journals[j];
    }
  }

  lemma {:induction false} VoidKeepsInv(g: Graph, j: nat)
    requires Inv(g)
    ensures Inv(VoidJournal(g, j))
  {
    var g' := VoidJournal(g, j);
    Clauses(g);
    Clauses(g');
    assert forall l | 0 <= l < |g.lines| :: Residual(g', l) == Residual(g, l);
  }

  /** A journal's status has no part in how the journals cut up the lines. */
  lemma {:induction false} TilesIgnoreStatus(a: seq<Journal>, b: seq<Journal>, n: nat)
    requires Tiles(a, n) && |a| == |b|
    requires forall i | 0 <= i < |a| :: b[i] == a[i].(status := b[i].status)
    ensures Tiles(b, n)
  {
    if a == [] {
    } else {
      var k := |a| - 1;
      TilesIgnoreStatus(a[..k], b[..k], a[k].first);
    }
  }

  lemma {:induction false} VoidKeepsSound(g: Graph, j: nat)
    requires Sound(g)
    ensures Sound(VoidJournal(g, j))
  {
    var g' := VoidJournal(g, j);
    VoidKeepsInv(g, j);
    Books(g);
    Books(g');
    if j < |g.journals| {
      TilesIgnoreStatus(g.journals, g'.journals, |g.lines|);
    }
  }

  lemma {:induction false} VoidKeepsTidy(g: Graph, j: nat)
    requires Tidy(g)
    ensures Tidy(VoidJournal(g, j))
  {
    var g' := VoidJournal(g, j);
    VoidKeepsSound(g, j);
    assert LinesOk(g) by {
      Clauses(g);
    }
    EdgeEnds(g');
    MirrorsStay(g, g');
  }

  // ------------------------------------------------------------------ runs

  datatype Step =
    | PostDoc(doc: Doc)
    | VoidOne(journal: nat)
    | LinkStep(env: Env, req: PairRequest)
    | UnlinkStep(env: Env, id: nat)
    | UnlinkPairStep(env: Env, debit: LineLocator, credit: LineLocator)

  /** What the environment owes a step: well-formed documents and the deferral port's contract. */
  ghost predicate StepOk(g: Graph, step: Step) {
    match step
    case PostDoc(doc) => DocOk(doc)
    case LinkStep(env, _) => EnvOk(g, env)
    case _ => true
  }

  /** One step; a failed verb rolls back. */
  ghost function Perform(cfg: Config, g: Graph, step: Step): Graph
    requires StepOk(g, step)
  {
    match step
    case PostDoc(doc) => PostDocument(g, doc)
    case VoidOne(j) => VoidJournal(g, j)
    case LinkStep(env, req) => var r := Link(cfg, env, g, req); if r.Ok? then r.value.0 else g
    case UnlinkStep(env, id) => var r := UnlinkOne(env, g, id); if r.Ok? then r.value else g
    case UnlinkPairStep(env, d, c) => var r := UnlinkPair(env, g, d, c); if r.Ok? then r.value else g
  }

  ghost predicate RunOk(cfg: Config, g: Graph, steps: seq<Step>)
    decreases |steps|
  {
    steps != [] ==> StepOk(g, steps[0]) && RunOk(cfg, Perform(cfg, g, steps[0]), steps[1..])
  }

  ghost function Run(cfg: Config, g: Graph, steps: seq<Step>): Graph
    requires RunOk(cfg, g, steps)
    decreases |steps|
  {
    if steps == [] then g else Run(cfg, Perform(cfg, g, steps[0]), steps[1..])
  }

  ghost predicate Reachable(cfg: Config, g: Graph) {
    exists steps | RunOk(cfg, EMPTY, steps) :: Run(cfg, EMPTY, steps) == g
  }

  lemma {:induction false} RunSnoc(cfg: Config, g: Graph, steps: seq<Step>, step: Step)
    requires RunOk(cfg, g, steps) && StepOk(Run(cfg, g, steps), step)
    ensures RunOk(cfg, g, steps + [step])
    ensures Run(cfg, g, steps + [step]) == Perform(cfg, Run(cfg, g, steps), step)
    decreases |steps|
  {
    if steps == [] {
      assert [] + [step] == [step] && [step][1..] == [];
    } else {
      assert (steps + [step])[1..] == steps[1..] + [step];
      RunSnoc(cfg, Perform(cfg, g, steps[0]), steps[1..], step);
    }
  }

  lemma {:induction false} StepReaches(cfg: Config, g: Graph, step: Step)
    requires Reachable(cfg, g) && StepOk(g, step)
    ensures Reachable(cfg, Perform(cfg, g, step))
  {
    var steps :| RunOk(cfg, EMPTY, steps) && Run(cfg, EMPTY, steps) == g;
    RunSnoc(cfg, EMPTY, steps, step);
  }

  lemma {:induction false} EmptyReaches(cfg: Config)
    ensures Reachable(cfg, EMPTY)
  {
    assert RunOk(cfg, EMPTY, []) && Run(cfg, EMPTY, []) == EMPTY;
  }

  lemma {:induction false} StepKeepsSound(cfg: Config, g: Graph, step: Step)
    requires Sound(g) && StepOk(g, step)
    ensures Sound(Perform(cfg, g, step))
  {
    match step
    case PostDoc(doc) => PostDocumentKeepsSound(g, doc);
    case VoidOne(j) => VoidKeepsSound(g, j);
    case LinkStep(env, req) =>
      if Link(cfg, env, g, req).Ok? {
        LinkKeepsSound(cfg, env, g, req);
      }
    case UnlinkStep(env, id) => UnlinkClosureSucceeds(env, g, {id});
    case UnlinkPairStep(env, d, c) =>
      if Resolve(g, d).Ok? && Resolve(g, c).Ok? {
        UnlinkClosureSucceeds(env, g, Between(g.edges, Resolve(g, d).value, Resolve(g, c).value));
      }
  }

  lemma {:induction false} EmptyIsTidy()
    ensures Tidy(EMPTY)
  {
    Clauses(EMPTY);
  }

  lemma {:induction false} RunKeepsSound(cfg: Config, g: Graph, steps: seq<Step>)
    requires Sound(g) && RunOk(cfg, g, steps)
    ensures Sound(Run(cfg, g, steps))
    decreases |steps|
  {
    if steps == [] {
    } else {
      StepKeepsSound(cfg, g, steps[0]);
      RunKeepsSound(cfg, Perform(cfg, g, steps[0]), steps[1..]);
    }
  }

  /**
   * Every reachable state: edges are positive, no line is over-applied, a stamped line is
   * settled and keeps a live edge of its group, the groups are exactly those live edges
   * carry, and generated journals are reversed exactly when their root edge is gone.
   */
  lemma {:induction false} EveryReachableState(cfg: Config, steps: seq<Step>)
    requires RunOk(cfg, EMPTY, steps)
    ensures var g := Run(cfg, EMPTY, steps);
      && (forall i | 0 <= i < |g.edges| :: g.edges[i].amount > 0)
      && (forall l | 0 <= l < |g.lines| :: 0 <= Residual(g, l) <= g.lines[l].base)
      && (forall l | l in g.stamps ::
        l < |g.lines| && Residual(g, l) == 0 && HasEdge(g.edges, l, Some(g.stamps[l])) && g.stamps[l] in g.groups)
      && g.groups.Keys == GroupsOn(g.edges)
      && ReversedOk(g)
  {
    EmptyIsTidy();
    RunKeepsSound(cfg, EMPTY, steps);
    var g := Run(cfg, EMPTY, steps);
    Clauses(g);
    assert forall i | 0 <= i < |g.edges| :: EdgeOk(g.edges[i], |g.lines|, g.nextEdge);
    forall l | l in g.stamps ensures g.stamps[l] in g.groups {
      StampIsGroup(g, l);
    }
  }

  // ------------------------------------------------------------------ open items agree with the books

  /**
   * The extra contract behind the agreement: on lines that carry edges, or are about to, a
   * source's reversal is on the other side of the account; and deferrals name their own lines.
   */
  ghost predicate AlignedStep(cfg: Config, g: Graph, step: Step)
    requires StepOk(g, step)
  {
    match step
    case PostDoc(doc) => Mirrors(Perform(cfg, g, step))
    case LinkStep(env, req) => EnvAligned(g.lines, env) && LinkFaced(env, g, req)
    case _ => true
  }

  ghost predicate AlignedRun(cfg: Config, g: Graph, steps: seq<Step>)
    requires RunOk(cfg, g, steps)
    decreases |steps|
  {
    steps != [] ==> AlignedStep(cfg, g, steps[0]) && AlignedRun(cfg, Perform(cfg, g, steps[0]), steps[1..])
  }

  lemma {:induction false} StepKeepsTidy(cfg: Config, g: Graph, step: Step)
    requires Tidy(g) && StepOk(g, step) && FxApart(cfg) && AlignedStep(cfg, g, step)
    ensures Tidy(Perform(cfg, g, step))
  {
    match step
    case PostDoc(doc) =>
      PostDocumentKeepsSound(g, doc);
      MoreLinesKeepAligned(g, PostDocument(g, doc));
    case VoidOne(j) => VoidKeepsTidy(g, j);
    case LinkStep(env, req) =>
      if Link(cfg, env, g, req).Ok? {
        LinkKeepsTidy(cfg, env, g, req);
      }
    case UnlinkStep(env, id) => UnlinkClosureKeepsTidy(env, g, {id});
    case UnlinkPairStep(env, d, c) =>
      if Resolve(g, d).Ok? && Resolve(g, c).Ok? {
        UnlinkClosureKeepsTidy(env, g, Between(g.edges, Resolve(g, d).value, Resolve(g, c).value));
      }
  }

  lemma {:induction false} RunKeepsTidy(cfg: Config, g: Graph, steps: seq<Step>)
    requires Tidy(g) && FxApart(cfg) && RunOk(cfg, g, steps) && AlignedRun(cfg, g, steps)
    ensures Tidy(Run(cfg, g, steps))
    decreases |steps|
  {
    if steps == [] {
    } else {
      StepKeepsTidy(cfg, g, steps[0]);
      RunKeepsTidy(cfg, Perform(cfg, g, steps[0]), steps[1..]);
    }
  }

  /** On every account and after every run, open items equal booked debits minus credits. */
  lemma {:induction false} OpenItemsAgree(cfg: Config, steps: seq<Step>, account: nat)
    requires FxApart(cfg) && RunOk(cfg, EMPTY, steps) && AlignedRun(cfg, EMPTY, steps)
    ensures var g := Run(cfg, EMPTY, steps);
      && OpenItems(g, |g.lines|, account) == Booked(g.lines, account)
      && ((forall l | 0 <= l < |g.lines| :: g.lines[l].base == g.lines[l].debit + g.lines[l].credit)
          ==> OpenItems(g, |g.lines|, account) == Net(g.ledger, account))
  {
    EmptyIsTidy();
    RunKeepsTidy(cfg, EMPTY, steps);
    var g := Run(cfg, EMPTY, steps);
    Clauses(g);
    AlignedAgrees(g);
    assert OpenItems(g, |g.lines|, account) == Booked(g.lines, account);
    if forall l | 0 <= l < |g.lines| :: g.lines[l].base == g.lines[l].debit + g.lines[l].credit {
      Books(g);
      BookedIsLedger(g, |g.lines|, account);
      assert g.lines[..|g.lines|] == g.lines && g.ledger[..|g.lines|] == g.ledger;
    }
  }

  // ------------------------------------------------------------------ unlink-free runs

  function StampOf(g: Graph, l: nat): Option<nat> {
    if l in g.stamps then Some(g.stamps[l]) else None
  }

  /** Both ends of every edge carry the edge's own stamp, or none of the three has one. */
  ghost predicate Uniform(g: Graph) {
    forall i | 0 <= i < |g.edges| ::
      StampOf(g, g.edges[i].debit) == g.edges[i].group && StampOf(g, g.edges[i].credit) == g.edges[i].group
  }

  /** What growth adds to a line is at least the amount of any new edge on it. */
  lemma {:induction false} GrowthApplies(g: Graph, g': Graph, p: nat, i: nat, l: nat)
    requires EdgesOk(g') && Grows(g, g', p) && |g.edges| <= i < |g'.edges| && Touches(g'.edges[i], l)
    ensures Applied(g'.edges, l) >= Applied(g.edges, l) + g'.edges[i].amount && g'.edges[i].amount > 0
  {
    var n := |g.edges|;
    AppliedSameFlow(g.edges, g'.edges[..n], l);
    AppliedSplit(g'.edges, n, l);
    var added := g'.edges[n..];
    forall k | 0 <= k < |added| ensures added[k].amount > 0 {
      assert EdgeOk(g'.edges[n + k], |g'.lines|, g'.nextEdge);
    }
    AppliedBounds(added, l);
    assert added[i - n] == g'.edges[i];
  }

  /** Growth touches no stamped line: a stamped line has nothing left to apply. */
  lemma {:induction false} GrowthAvoidsStamped(g: Graph, g': Graph, p: nat, i: nat, l: nat)
    requires Inv(g) && Inv(g') && Grows(g, g', p) && |g.edges| <= i < |g'.edges|
    ensures Touches(g'.edges[i], l) ==> l !in g.stamps
  {
    if Touches(g'.edges[i], l) && l in g.stamps {
      assert EdgesOk(g') by {
        Clauses(g');
      }
      GrowthApplies(g, g', p, i, l);
      StampAt(g, l);
      ResidualAt(g', l);
      assert false;
    }
  }

  lemma {:induction false} AppliedSplit(edges: seq<Edge>, n: nat, l: nat)
    requires n <= |edges|
    ensures Applied(edges, l) == Applied(edges[..n], l) + Applied(edges[n..], l)
    decreases |edges| - n
  {
    if n == |edges| {
      assert edges[..n] == edges;
    } else {
      var k := |edges| - 1;
      AppliedSplit(edges[..k], n, l);
      assert edges[..k][..n] == edges[..n];
      assert edges[n..] == edges[..k][n..] + [edges[k]];
      AppliedPush(edges[..k][n..], edges[k], l);
    }
  }

  lemma {:induction false} GrowthKeepsUniform(g: Graph, g': Graph, p: nat)
    requires Inv(g) && Inv(g') && Uniform(g) && Grows(g, g', p)
    ensures Uniform(g')
  {
    forall i | 0 <= i < |g'.edges|
      ensures StampOf(g', g'.edges[i].debit) == g'.edges[i].group
        && StampOf(g', g'.edges[i].credit) == g'.edges[i].group
    {
      if i < |g.edges| {
        assert g'.edges[..|g.edges|][i] == g'.edges[i];
      } else {
        GrowthAvoidsStamped(g, g', p, i, g'.edges[i].debit);
        GrowthAvoidsStamped(g, g', p, i, g'.edges[i].credit);
      }
    }
  }

  lemma {:induction false} AttachKeepsUniform(g: Graph, group: nat, comp: set<nat>)
    requires Uniform(g) && Closed(g.edges, comp)
    requires forall l | l in comp && l in g.stamps :: g.stamps[l] == group
    ensures Uniform(Attach(g, group, comp))
  {
  }

  lemma {:induction false} FewStamps(g: Graph, comp: set<nat>)
    requires Inv(g)
    ensures DistinctStamps(g, comp) == [] ==> forall l | l in comp :: l !in g.stamps
    ensures |DistinctStamps(g, comp)| == 1 ==>
      forall l | l in comp && l in g.stamps :: g.stamps[l] == DistinctStamps(g, comp)[0]
  {
    StampCases(g, comp);
  }

  lemma {:induction false} GroupUpKeepsUniform(g: Graph, comp: set<nat>, total: int)
    requires Inv(g) && Uniform(g) && Closed(g.edges, comp)
    ensures Uniform(GroupUp(g, comp, total).0)
  {
    var stamps := DistinctStamps(g, comp);
    FewStamps(g, comp);
    if stamps == [] {
      var g1 := g.(groups := g.groups[g.nextGroup := total], nextGroup := g.nextGroup + 1);
      assert GroupUp(g, comp, total).0 == Attach(g1, g.nextGroup, comp);
      AttachKeepsUniform(g1, g.nextGroup, comp);
    } else if |stamps| == 1 {
      AttachKeepsUniform(g, stamps[0], comp);
    }
  }

  lemma {:induction false} CompleteKeepsUniform(g: Graph, seeds: set<nat>, total: int)
    requires Inv(g) && Uniform(g)
    ensures Uniform(Complete(g, seeds, total).0)
  {
    var comp := Component(g.edges, seeds);
    if comp != {} && Settled(g, comp) {
      ComponentCloses(g.edges, seeds);
      GroupUpKeepsUniform(g, comp, total);
    }
  }

  /** In a uniform graph a component grown from lines of one stamp carries that stamp, or none. */
  lemma {:induction false} ComponentSharesStamp(g: Graph, seeds: set<nat>, d: nat)
    requires EdgesOk(g) && Uniform(g)
    requires forall l | l in seeds :: l < |g.lines| && StampOf(g, l) == StampOf(g, d)
    ensures forall l | l in Component(g.edges, seeds) :: StampOf(g, l) == StampOf(g, d)
  {
    var same := set l | 0 <= l < |g.lines| && StampOf(g, l) == StampOf(g, d);
    forall i | 0 <= i < |g.edges| ensures g.edges[i].debit in same <==> g.edges[i].credit in same {
      assert EdgeOk(g.edges[i], |g.lines|, g.nextEdge);
    }
    ComponentLeast(g.edges, seeds, same);
  }

  lemma {:induction false} AgreeingStampsAreOne(g: Graph, comp: set<nat>, stamp: Option<nat>)
    requires Inv(g) && forall l | l in comp :: StampOf(g, l) == stamp
    ensures |DistinctStamps(g, comp)| <= 1
  {
    var stamps := DistinctStamps(g, comp);
    assert |stamps| >= 2 ==> stamps[0] < stamps[1];
    StampCases(g, comp);
    forall k | k in stamps ensures Some(k) == stamp {
      var l :| l in comp && l in g.stamps && g.stamps[l] == k;
      assert StampOf(g, l) == stamp;
    }
    assert forall i | 0 <= i < |stamps| :: stamps[i] in stamps && Some(stamps[i]) == stamp;
  }

  lemma {:induction false} UnlinkFreeStep(cfg: Config, g: Graph, step: Step)
    requires Sound(g) && Uniform(g) && StepOk(g, step) && !step.UnlinkStep? && !step.UnlinkPairStep?
    ensures Uniform(Perform(cfg, g, step))
  {
    if step.LinkStep? && Link(cfg, step.env, g, step.req).Ok? {
      LinkKeepsUniform(cfg, step.env, g, step.req);
    }
  }

  lemma {:induction false} LinkKeepsUniform(cfg: Config, env: Env, g: Graph, req: PairRequest)
    requires Sound(g) && Uniform(g) && EnvOk(g, env) && Link(cfg, env, g, req).Ok?
    ensures Uniform(Link(cfg, env, g, req).value.0)
  {
    var d, c := Resolve(g, req.debit).value, Resolve(g, req.credit).value;
    ValidPair(cfg, g, d, c, req.amount);
    var applied := ValidatePair(cfg, g, d, c, req.amount).value;
    if applied != 0 {
      LinkEdgesKeepsInv(cfg, env, g, req, d, c, applied);
      LinkEdgesGrows(cfg, env, g, req, d, c, applied);
      LinkEnds(cfg, env, g, req, d, c, applied);
      var (g1, total) := LinkEdges(cfg, env, g, req, d, c, applied).value;
      GrowthKeepsUniform(g, g1, g.nextEdge);
      CompleteKeepsUniform(g1, {d, c}, total);
    }
  }

  ghost predicate UnlinkFree(steps: seq<Step>) {
    forall i | 0 <= i < |steps| :: !steps[i].UnlinkStep? && !steps[i].UnlinkPairStep?
  }

  lemma {:induction false} UnlinkFreeRun(cfg: Config, g: Graph, steps: seq<Step>)
    requires Sound(g) && Uniform(g) && RunOk(cfg, g, steps) && UnlinkFree(steps)
    ensures Sound(Run(cfg, g, steps)) && Uniform(Run(cfg, g, steps))
    decreases |steps|
  {
    if steps == [] {
    } else {
      StepKeepsSound(cfg, g, steps[0]);
      UnlinkFreeStep(cfg, g, steps[0]);
      UnlinkFreeRun(cfg, Perform(cfg, g, steps[0]), steps[1..]);
    }
  }

  /** While nothing was unlinked, a stamped line's whole component is settled and shares its stamp. */
  lemma {:induction false} StampedComponents(cfg: Config, steps: seq<Step>, l: nat)
    requires RunOk(cfg, EMPTY, steps) && UnlinkFree(steps)
    requires l in Run(cfg, EMPTY, steps).stamps
    ensures var g := Run(cfg, EMPTY, steps);
      forall m | m in Component(g.edges, {l}) ::
        m < |g.lines| && m in g.stamps && g.stamps[m] == g.stamps[l] && Residual(g, m) == 0
  {
    EmptyIsTidy();
    UnlinkFreeRun(cfg, EMPTY, steps);
    UniformComponent(Run(cfg, EMPTY, steps), l);
  }

  lemma {:induction false} UniformComponent(g: Graph, l: nat)
    requires Inv(g) && Uniform(g) && l in g.stamps
    ensures forall m | m in Component(g.edges, {l}) ::
      m < |g.lines| && m in g.stamps && g.stamps[m] == g.stamps[l] && Residual(g, m) == 0
  {
    assert EdgesOk(g) && (forall m | m in g.stamps :: m < |g.lines| && Residual(g, m) == 0) by {
      Clauses(g);
    }
    ComponentSharesStamp(g, {l}, l);
  }

  /** While nothing was unlinked, the arm for divergent stamps is never taken by a link. */
  lemma {:induction false} DivergenceNeedsUnlink(cfg: Config, steps: seq<Step>, env: Env, req: PairRequest)
    requires RunOk(cfg, EMPTY, steps) && UnlinkFree(steps) && EnvOk(Run(cfg, EMPTY, steps), env)
    requires var g := Run(cfg, EMPTY, steps);
      Link(cfg, env, g, req).Ok? && Link(cfg, env, g, req).value.1.applied > 0
    ensures var g := Run(cfg, EMPTY, steps);
      var d, c := Resolve(g, req.debit).value, Resolve(g, req.credit).value;
      var g1 := LinkEdges(cfg, env, g, req, d, c, Link(cfg, env, g, req).value.1.applied).value.0;
      var comp := Component(g1.edges, {d, c});
      && |DistinctStamps(g1, comp)| <= 1
      && (Link(cfg, env, g, req).value.1.group.Some? <==> Settled(g1, comp))
  {
    EmptyIsTidy();
    UnlinkFreeRun(cfg, EMPTY, steps);
    UniformLinkGroups(cfg, env, Run(cfg, EMPTY, steps), req);
  }

  lemma {:induction false} UniformLinkGroups(cfg: Config, env: Env, g: Graph, req: PairRequest)
    requires Sound(g) && Uniform(g) && EnvOk(g, env)
    requires Link(cfg, env, g, req).Ok? && Link(cfg, env, g, req).value.1.applied > 0
    ensures var d, c := Resolve(g, req.debit).value, Resolve(g, req.credit).value;
      var g1 := LinkEdges(cfg, env, g, req, d, c, Link(cfg, env, g, req).value.1.applied).value.0;
      var comp := Component(g1.edges, {d, c});
      && |DistinctStamps(g1, comp)| <= 1
      && (Link(cfg, env, g, req).value.1.group.Some? <==> Settled(g1, comp))
  {
    var d, c := Resolve(g, req.debit).value, Resolve(g, req.credit).value;
    ValidPair(cfg, g, d, c, req.amount);
    var applied := ValidatePair(cfg, g, d, c, req.amount).value;
    LinkEdgesKeepsInv(cfg, env, g, req, d, c, applied);
    LinkEdgesGrows(cfg, env, g, req, d, c, applied);
    RootStays(cfg, env, g, req, d, c, applied);
    var g1 := LinkEdges(cfg, env, g, req, d, c, applied).value.0;
    GrowthKeepsUniform(g, g1, g.nextEdge);
    UniformCompletes(g1, d, c, LinkEdges(cfg, env, g, req, d, c, applied).value.1, |g.edges|);
  }

  /** In a uniform graph completing around an edge groups exactly when the component is settled. */
  lemma {:induction false} UniformCompletes(g: Graph, d: nat, c: nat, total: int, i: nat)
    requires Inv(g) && Uniform(g)
    requires i < |g.edges| && g.edges[i].debit == d && g.edges[i].credit == c
    ensures var comp := Component(g.edges, {d, c});
      && |DistinctStamps(g, comp)| <= 1
      && (Complete(g, {d, c}, total).1.Some? <==> Settled(g, comp))
  {
    var comp := Component(g.edges, {d, c});
    assert StampOf(g, d) == StampOf(g, c);
    assert EdgesOk(g) by {
      Clauses(g);
    }
    assert |DistinctStamps(g, comp)| <= 1 by {
      EdgeLines(g, i);
      ComponentSharesStamp(g, {d, c}, d);
      AgreeingStampsAreOne(g, comp, StampOf(g, d));
    }
    assert d in comp by {
      ComponentCloses(g.edges, {d, c});
    }
  }

  lemma {:induction false} EdgeLines(g: Graph, i: nat)
    requires EdgesOk(g) && i < |g.edges|
    ensures g.edges[i].debit < |g.lines| && g.edges[i].credit < |g.lines|
  {
    assert EdgeOk(g.edges[i], |g.lines|, g.nextEdge);
  }
}
