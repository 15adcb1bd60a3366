/**
 * What a link adds, to the row, when it has no side effect, one tax flip, or one exchange
 * true-up: the lines and journals posted, and the edges, up to stamps and marks.
 */
module ReconcileExact {
  import opened Wrappers
  import opened Rounding
  import opened GlPosting
  import opened ReconcileGraph
  import opened ReconcileInvariants
  import opened ReconcileVerbs
  import opened ReconcileGrowth
  import opened ReconcileSteps
  import opened ReconcileReversals
  import opened ReconcileRuns
  import opened ReconcileOutcomes
  import opened ReconcileUndo

  function RootEdge(g: Graph, req: PairRequest, d: nat, c: nat, applied: int): Edge
    requires d < |g.lines| && c < |g.lines|
  {
    Edge(g.nextEdge, d, c, applied, MaxDate(g, d, c), req.origin, g.lines[c].sourceId, None, None)
  }

  function DerivedEdge(id: nat, d: nat, c: nat, amount: int, date: int, origin: string, partial: nat): Edge {
    Edge(id, d, c, amount, date, origin, Some(PartialRef(partial)), None, None)
  }

  /** The journal row of a posting with two lines, as the n-th line and the next. */
  function JournalOf(w: Posting, first: nat): Journal {
    Journal(first, |w.lines|, Some(w.sourceType), Some(w.sourceId), w.reversing, w.currency, Posted)
  }

  /** A request that resolves to `d` and `c` and applies `applied` cents. */
  ghost predicate Asks(cfg: Config, g: Graph, req: PairRequest, d: nat, c: nat, applied: int) {
    && d < |g.lines| && c < |g.lines| && applied > 0
    && Resolve(g, req.debit) == Ok(d) && Resolve(g, req.credit) == Ok(c)
    && ValidatePair(cfg, g, d, c, req.amount) == Ok(applied)
  }

  /** The graph with the root edge of a link. */
  function Rooted(g: Graph, req: PairRequest, d: nat, c: nat, applied: int): Graph
    requires d < |g.lines| && c < |g.lines|
  {
    g.(edges := g.edges + [RootEdge(g, req, d, c, applied)], nextEdge := g.nextEdge + 1)
  }

  // ------------------------------------------------------------------ the stages

  lemma {:induction false} NoFlips(cfg: Config, env: Env, g: Graph, req: PairRequest, side: nat, partial: nat,
                                   applied: int, resBefore: int, date: int)
    requires side < |g.lines| && DeferralsOf(env, g, side) == []
    ensures FlipSide(cfg, env, g, req, side, partial, applied, resBefore, date) == Ok(g)
  {
  }

  function FlipEdge(g: Graph, req: PairRequest, f: Flip, partial: nat, date: int): Edge {
    if f.d.isDebit then DerivedEdge(g.nextEdge, f.d.sourceLine, |g.lines| + 1, f.amount, date, req.origin, partial)
    else DerivedEdge(g.nextEdge, |g.lines| + 1, f.d.sourceLine, f.amount, date, req.origin, partial)
  }

  lemma {:induction false} OneLegMatches(f: Flip)
    requires f.amount > 0
    ensures FlipLines([f]) == [RealLeg(f), TransitionLeg(f)] && MatchLegs(FlipLines([f]), [f]) == Some([1])
  {
    var legs := FlipLines([f]);
    assert [f][..0] == [];
    assert legs[2 * 0] == RealLeg(f) && legs[2 * 0 + 1] == TransitionLeg(f);
    var none: seq<nat> := [];
    assert MatchLegs(legs, []) == Some(none) && Used(none) == {};
    assert !LegFits(legs[0], f) && LegFits(legs[1], f);
    assert FindLeg(legs, Used(none), f, 0) == Some(1);
    assert none + [1] == [1];
  }

  /** A posting of two lines, committed. */
  lemma {:induction false} CommitTwo(g: Graph, w: Posting, a: PostingLine, b: PostingLine) returns (g': Graph)
    requires w.key !in g.keys && w.lines == [a, b] && a.debit >= 0 && a.credit >= 0 && b.debit >= 0 && b.credit >= 0
    ensures Commit(g, w) == Ok(g')
    ensures g'.lines == g.lines + [NewLine(w, |g.journals|, a), NewLine(w, |g.journals|, b)]
    ensures g'.journals == g.journals + [JournalOf(w, |g.lines|)]
    ensures g'.edges == g.edges && g'.nextEdge == g.nextEdge && g'.keys == g.keys + {w.key}
  {
    g' := Commit(g, w).value;
    assert NewLines(w, |g.journals|, w.lines) == [NewLine(w, |g.journals|, a), NewLine(w, |g.journals|, b)];
  }

  lemma {:induction false} PairOneFlip(g: Graph, f: Flip, first: nat, partial: nat, origin: string, date: int)
    ensures PairFlips(g, [f], [1], first, partial, origin, date) == InsertFlip(g, f, first + 1, partial, origin, date)
  {
    var flips, matched: seq<nat> := [f], [1];
    assert flips[..0] == [] && matched[..0] == [];
    assert PairFlips(g, flips[..0], matched[..0], first, partial, origin, date) == Ok(g);
  }

  /** One flip posted and paired: two lines, one journal, one derived edge. */
  ghost predicate ByFlip(g: Graph, g': Graph, req: PairRequest, side: nat, partial: nat, f: Flip, date: int)
    requires side < |g.lines| && f.amount > 0
  {
    var w := FlipPosting(g, side, partial, [f], date);
    && g'.lines == g.lines + [NewLine(w, |g.journals|, RealLeg(f)), NewLine(w, |g.journals|, TransitionLeg(f))]
    && |w.lines| == 2 && g'.journals == g.journals + [JournalOf(w, |g.lines|)]
    && g'.edges == g.edges + [FlipEdge(g, req, f, partial, date)] && g'.nextEdge == g.nextEdge + 1
  }

  lemma {:induction false} OneFlip(env: Env, g: Graph, req: PairRequest, side: nat, partial: nat, f: Flip, date: int)
    returns (g': Graph)
    requires side < |g.lines| && f.amount > 0 && f.d.sourceLine < |g.lines|
    requires date !in env.closedDates && Caba(partial, side) !in g.keys
    ensures PostFlips(env, g, req, side, partial, [f], date) == Ok(g') && ByFlip(g, g', req, side, partial, f, date)
  {
    OneLegMatches(f);
    var g1 := CommitTwo(g, FlipPosting(g, side, partial, [f], date), RealLeg(f), TransitionLeg(f));
    PairOneFlip(g1, f, |g.lines|, partial, req.origin, date);
    g' := InsertFlip(g1, f, |g.lines| + 1, partial, req.origin, date).value;
  }

  // ------------------------------------------------------------------ whole links

  /** The same graph but for stamps and groups. */
  ghost predicate UpToStamps(g: Graph, g': Graph) {
    g'.lines == g.lines && g'.journals == g.journals && g'.nextEdge == g.nextEdge && SameFlow(g.edges, g'.edges)
  }

  /** Linking only stamps what its edges gave. */
  lemma {:induction false} LinkIsEdges(cfg: Config, env: Env, g: Graph, req: PairRequest, d: nat, c: nat, applied: int,
                                       g1: Graph, total: int) returns (g': Graph)
    requires Sound(g) && EnvOk(g, env) && Asks(cfg, g, req, d, c, applied)
    requires LinkEdges(cfg, env, g, req, d, c, applied) == Ok((g1, total))
    ensures Link(cfg, env, g, req).Ok? && Link(cfg, env, g, req).value.0 == g' && Sound(g')
    ensures UpToStamps(g1, g')
  {
    ValidPair(cfg, g, d, c, req.amount);
    LinkEdgesKeepsInv(cfg, env, g, req, d, c, applied);
    LinkEnds(cfg, env, g, req, d, c, applied);
    g' := Complete(g1, {d, c}, total).0;
    LinkKeepsSound(cfg, env, g, req);
  }

  /** No exchange difference and nothing deferred: the root edge alone. */
  lemma {:induction false} PlainLink(cfg: Config, env: Env, g: Graph, req: PairRequest, d: nat, c: nat, applied: int)
    returns (g': Graph)
    requires Sound(g) && EnvOk(g, env) && Asks(cfg, g, req, d, c, applied)
    requires g.lines[d].rate == g.lines[c].rate && DeferralsOf(env, g, d) == [] && DeferralsOf(env, g, c) == []
    ensures Link(cfg, env, g, req).Ok? && Link(cfg, env, g, req).value.0 == g' && Sound(g')
    ensures UpToStamps(Rooted(g, req, d, c, applied), g')
  {
    var p, date, g1 := g.nextEdge, MaxDate(g, d, c), Rooted(g, req, d, c, applied);
    ValidPair(cfg, g, d, c, req.amount);
    NoFlips(cfg, env, g1, req, d, p, applied, Residual(g, d), date);
    NoFlips(cfg, env, g1, req, c, p, applied, Residual(g, c), date);
    g' := LinkIsEdges(cfg, env, g, req, d, c, applied, g1, 0);
  }

  /** The flip owed on the one line deferred for a side. */
  ghost predicate Owes(cfg: Config, env: Env, g: Graph, side: nat, applied: int, resBefore: int, f: Flip)
    requires side < |g.lines|
  {
    var base := g.lines[side].base;
    && PartySubtype(SubtypeOf(cfg, g.lines[side].account)) && base > 0
    && DeferralsOf(env, g, side) == [f.d] && f.d.sourceLine < |g.lines| && f.amount > 0
    && FlipAmount(g, f.d, base - resBefore + applied, base) == f.amount
  }

  lemma {:induction false} OwesOne(cfg: Config, env: Env, g: Graph, side: nat, applied: int, resBefore: int, f: Flip)
    requires side < |g.lines| && Owes(cfg, env, g, side, applied, resBefore, f)
    ensures SideFlips(cfg, env, g, side, applied, resBefore) == [f]
  {
    assert [f.d][..0] == [];
    assert Flips(g, [f.d][..0], g.lines[side].base - resBefore + applied, g.lines[side].base) == [];
  }

  /** A root edge on other lines leaves the flip owed. */
  lemma {:induction false} StillOwes(cfg: Config, env: Env, g: Graph, g1: Graph, side: nat, applied: int, resBefore: int,
                                     f: Flip, e: Edge)
    requires side < |g.lines| && Owes(cfg, env, g, side, applied, resBefore, f)
    requires g1.lines == g.lines && g1.edges == g.edges + [e] && !Touches(e, f.d.sourceLine)
    ensures Owes(cfg, env, g1, side, applied, resBefore, f)
  {
    AppliedPush(g.edges, e, f.d.sourceLine);
  }

  /** The root edge and the three stages after it, put together. */
  lemma {:induction false} FromStages(cfg: Config, env: Env, g: Graph, req: PairRequest, d: nat, c: nat, applied: int,
                                      g1: Graph, g2: Graph, g3: Graph, g4: Graph, total: int)
    requires d < |g.lines| && c < |g.lines| && g.lines <= g2.lines && g2.lines <= g3.lines && g1.lines == g.lines
    requires InsertPartial(g, d, c, applied, MaxDate(g, d, c), req.origin, g.lines[c].sourceId) == Ok(g1)
    requires TrueUp(cfg, env, g1, req, d, c, g.nextEdge, applied) == Ok((g2, total))
    requires FlipSide(cfg, env, g2, req, d, g.nextEdge, applied, Residual(g, d), MaxDate(g, d, c)) == Ok(g3)
    requires FlipSide(cfg, env, g3, req, c, g.nextEdge, applied, Residual(g, c), MaxDate(g, d, c)) == Ok(g4)
    ensures LinkEdges(cfg, env, g, req, d, c, applied) == Ok((g4, total))
  {
  }

  lemma {:induction false} RootInserts(cfg: Config, env: Env, g: Graph, req: PairRequest, d: nat, c: nat, applied: int)
    requires d < |g.lines| && c < |g.lines| && d != c && applied > 0
    ensures InsertPartial(g, d, c, applied, MaxDate(g, d, c), req.origin, g.lines[c].sourceId)
      == Ok(Rooted(g, req, d, c, applied))
    ensures g.lines[d].rate == g.lines[c].rate ==>
      TrueUp(cfg, env, Rooted(g, req, d, c, applied), req, d, c, g.nextEdge, applied)
        == Ok((Rooted(g, req, d, c, applied), 0))
  {
  }

  lemma {:induction false} FlippedEdges(cfg: Config, env: Env, g: Graph, req: PairRequest, d: nat, c: nat, applied: int,
                                        f: Flip) returns (g': Graph)
    requires Sound(g) && d < |g.lines| && c < |g.lines| && d != c && applied > 0
    requires g.lines[d].rate == g.lines[c].rate && MaxDate(g, d, c) !in env.closedDates
    requires SideFlips(cfg, env, Rooted(g, req, d, c, applied), d, applied, Residual(g, d)) == [f]
    requires f.amount > 0 && f.d.sourceLine < |g.lines| && DeferralsOf(env, g, c) == []
    ensures LinkEdges(cfg, env, g, req, d, c, applied) == Ok((g', 0))
    ensures ByFlip(Rooted(g, req, d, c, applied), g', req, d, g.nextEdge, f, MaxDate(g, d, c))
  {
    var p, date, g1 := g.nextEdge, MaxDate(g, d, c), Rooted(g, req, d, c, applied);
    RootInserts(cfg, env, g, req, d, c, applied);
    NextKeysFree(g, d);
    g' := OneFlip(env, g1, req, d, p, f, date);
    NoFlips(cfg, env, g', req, c, p, applied, Residual(g, c), date);
    FromStages(cfg, env, g, req, d, c, applied, g1, g1, g', g', 0);
  }

  /** One line deferred for the debit side and owed something: one flip. */
  lemma {:induction false} FlippedLink(cfg: Config, env: Env, g: Graph, req: PairRequest, d: nat, c: nat, applied: int,
                                       f: Flip) returns (g1: Graph, g': Graph)
    requires Sound(g) && EnvOk(g, env) && Asks(cfg, g, req, d, c, applied)
    requires g.lines[d].rate == g.lines[c].rate && MaxDate(g, d, c) !in env.closedDates
    requires Owes(cfg, env, g, d, applied, Residual(g, d), f) && f.d.sourceLine != d && f.d.sourceLine != c
    requires DeferralsOf(env, g, c) == []
    ensures Link(cfg, env, g, req).Ok? && Link(cfg, env, g, req).value.0 == g' && Sound(g')
    ensures UpToStamps(g1, g') && ByFlip(Rooted(g, req, d, c, applied), g1, req, d, g.nextEdge, f, MaxDate(g, d, c))
  {
    ValidPair(cfg, g, d, c, req.amount);
    StillOwes(cfg, env, g, Rooted(g, req, d, c, applied), d, applied, Residual(g, d), f, RootEdge(g, req, d, c, applied));
    OwesOne(cfg, env, Rooted(g, req, d, c, applied), d, applied, Residual(g, d), f);
    g1 := FlippedEdges(cfg, env, g, req, d, c, applied, f);
    g' := LinkIsEdges(cfg, env, g, req, d, c, applied, g1, 0);
  }

  // ------------------------------------------------------------------ the rows, one by one

  /** An edge by its id, its ends and where it comes from. */
  predicate EdgeAt(edges: seq<Edge>, i: nat, id: nat, d: nat, c: nat, amount: int, source: Option<Ref>) {
    && i < |edges|
    && edges[i].id == id && edges[i].debit == d && edges[i].credit == c && edges[i].amount == amount
    && edges[i].sourceId == source
  }

  /** A line the machinery posted for a root edge. */
  predicate MachineLine(g: Graph, l: nat, account: nat, debit: nat, credit: nat, partial: nat) {
    && l < |g.lines| && g.lines[l].account == account && g.lines[l].debit == debit && g.lines[l].credit == credit
    && g.lines[l].base == debit + credit && g.lines[l].rate == RATE_ONE
    && g.lines[l].sourceType == Some(RECONCILIATION) && g.lines[l].sourceId == Some(PartialRef(partial))
  }

  /** What one more side effect keeps, and how much it adds. */
  ghost predicate TwoMore(g: Graph, g': Graph) {
    && g.lines <= g'.lines && |g'.lines| == |g.lines| + 2
    && g.journals <= g'.journals && |g'.journals| == |g.journals| + 1
    && |g'.edges| == |g.edges| + 2 && SameFlow(g.edges, g'.edges[..|g.edges|]) && g'.nextEdge == g.nextEdge + 2
  }

  lemma {:induction false} FlippedEdgeRows(g: Graph, req: PairRequest, d: nat, c: nat, applied: int, f: Flip, g1: Graph,
                                           g': Graph)
    requires d < |g.lines| && c < |g.lines| && f.amount > 0 && !f.d.isDebit && UpToStamps(g1, g')
    requires ByFlip(Rooted(g, req, d, c, applied), g1, req, d, g.nextEdge, f, MaxDate(g, d, c))
    ensures TwoMore(g, g')
    ensures EdgeAt(g'.edges, |g.edges|, g.nextEdge, d, c, applied, g.lines[c].sourceId)
    ensures EdgeAt(g'.edges, |g.edges| + 1, g.nextEdge + 1, |g.lines| + 1, f.d.sourceLine, f.amount,
                   Some(PartialRef(g.nextEdge)))
  {
    var n := |g.edges|;
    assert g1.edges[n] == RootEdge(g, req, d, c, applied);
    assert g1.edges[n + 1] == FlipEdge(Rooted(g, req, d, c, applied), req, f, g.nextEdge, MaxDate(g, d, c));
    assert g1.edges[..n] == g.edges;
    PrefixFlow(g1.edges, g'.edges, n);
  }

  lemma {:induction false} PrefixFlow(a: seq<Edge>, b: seq<Edge>, n: nat)
    requires SameFlow(a, b) && n <= |a|
    ensures SameFlow(a[..n], b[..n])
  {
  }

  lemma {:induction false} FlippedLineRows(g: Graph, req: PairRequest, d: nat, c: nat, applied: int, f: Flip, g1: Graph,
                                           g': Graph)
    requires d < |g.lines| && c < |g.lines| && f.amount > 0 && !f.d.isDebit && UpToStamps(g1, g')
    requires ByFlip(Rooted(g, req, d, c, applied), g1, req, d, g.nextEdge, f, MaxDate(g, d, c))
    ensures MachineLine(g', |g.lines|, f.d.exigible, 0, f.amount, g.nextEdge)
    ensures MachineLine(g', |g.lines| + 1, f.d.transition, f.amount, 0, g.nextEdge)
    ensures |g'.journals| == |g.journals| + 1 && |g'.lines| == |g.lines| + 2
    ensures g'.lines[|g.lines|].journal == |g.journals| && g'.lines[|g.lines|].currency == g.lines[d].currency
    ensures !g'.journals[|g.journals|].reversing && g'.journals[|g.journals|].status == JournalStatus.Posted
  {
  }

  ghost predicate MachineryAdded(g: Graph, g': Graph) {
    forall l | |g.lines| <= l < |g'.lines| :: g'.lines[l].sourceType == Some(RECONCILIATION)
  }

  /** What a link with one flip adds: the root, the flip's two lines, and the edge between them and the deferred line. */
  ghost predicate FlipAdded(g: Graph, g': Graph, d: nat, c: nat, applied: int, f: Flip)
    requires d < |g.lines| && c < |g.lines| && f.amount > 0
  {
    && TwoMore(g, g') && MachineryAdded(g, g')
    && EdgeAt(g'.edges, |g.edges|, g.nextEdge, d, c, applied, g.lines[c].sourceId)
    && EdgeAt(g'.edges, |g.edges| + 1, g.nextEdge + 1, |g.lines| + 1, f.d.sourceLine, f.amount,
              Some(PartialRef(g.nextEdge)))
    && MachineLine(g', |g.lines|, f.d.exigible, 0, f.amount, g.nextEdge)
    && MachineLine(g', |g.lines| + 1, f.d.transition, f.amount, 0, g.nextEdge)
    && g'.lines[|g.lines|].journal == |g.journals| && g'.lines[|g.lines|].currency == g.lines[d].currency
    && !g'.journals[|g.journals|].reversing && g'.journals[|g.journals|].status == JournalStatus.Posted
  }

  lemma {:induction false} FlippedLinkAdds(cfg: Config, env: Env, g: Graph, req: PairRequest, d: nat, c: nat,
                                           applied: int, f: Flip) returns (g': Graph)
    requires Sound(g) && EnvOk(g, env) && Asks(cfg, g, req, d, c, applied) && !f.d.isDebit
    requires g.lines[d].rate == g.lines[c].rate && MaxDate(g, d, c) !in env.closedDates
    requires Owes(cfg, env, g, d, applied, Residual(g, d), f) && f.d.sourceLine != d && f.d.sourceLine != c
    requires DeferralsOf(env, g, c) == []
    ensures Link(cfg, env, g, req).Ok? && Link(cfg, env, g, req).value.0 == g' && Sound(g')
    ensures FlipAdded(g, g', d, c, applied, f)
  {
    var g1;
    g1, g' := FlippedLink(cfg, env, g, req, d, c, applied, f);
    FlippedEdgeRows(g, req, d, c, applied, f, g1, g');
    FlippedLineRows(g, req, d, c, applied, f, g1, g');
  }

  /** The same in a run. */
  lemma {:induction false} FlipsReach(cfg: Config, env: Env, g: Graph, req: PairRequest, d: nat, c: nat, applied: int,
                                      f: Flip) returns (g': Graph)
    requires Reachable(cfg, g)
    requires Sound(g) && EnvOk(g, env) && Asks(cfg, g, req, d, c, applied) && !f.d.isDebit
    requires g.lines[d].rate == g.lines[c].rate && MaxDate(g, d, c) !in env.closedDates
    requires Owes(cfg, env, g, d, applied, Residual(g, d), f) && f.d.sourceLine != d && f.d.sourceLine != c
    requires DeferralsOf(env, g, c) == []
    ensures Reachable(cfg, g') && Sound(g') && FlipAdded(g, g', d, c, applied, f)
  {
    g' := FlippedLinkAdds(cfg, env, g, req, d, c, applied, f);
    StepReaches(cfg, g, LinkStep(env, req));
  }

  // ------------------------------------------------------------------ an exchange true-up

  /** The difference the root edge leaves, when it is the predicted one. */
  ghost predicate TruesUp(g: Graph, d: nat, c: nat, applied: int, diff: int)
    requires d < |g.lines| && c < |g.lines|
  {
    var rd, rc := g.lines[d].rate, g.lines[c].rate;
    && rd != rc && Lo(rd, rc) > 0 && diff != 0
    && ExchangeDiff(Residual(g, d) - applied, Residual(g, c) - applied,
                    RoundHalfAway(applied * (Hi(rd, rc) - Lo(rd, rc)), Lo(rd, rc))) == Some(diff)
  }

  /** The line of the pair's account in the exchange journal: the first one when that is the exchange account. */
  function ExchangeAt(g: Graph, fx: nat, d: nat): nat
    requires d < |g.lines|
  {
    |g.lines| + if fx == g.lines[d].account then 0 else 1
  }

  function SettlingEdge(g: Graph, req: PairRequest, fx: nat, d: nat, c: nat, partial: nat, diff: int): Edge
    requires d < |g.lines| && c < |g.lines|
  {
    if diff > 0 then DerivedEdge(g.nextEdge, d, ExchangeAt(g, fx, d), diff, MaxDate(g, d, c), req.origin, partial)
    else DerivedEdge(g.nextEdge, ExchangeAt(g, fx, d), c, -diff, MaxDate(g, d, c), req.origin, partial)
  }

  /** The exchange journal posted and settled: two lines, one journal, one derived edge. */
  ghost predicate ByTrueUp(g: Graph, g': Graph, req: PairRequest, fx: nat, d: nat, c: nat, partial: nat, diff: int)
    requires d < |g.lines| && c < |g.lines|
  {
    var w := ExchangePosting(g, fx, d, partial, diff, MaxDate(g, d, c));
    && |w.lines| == 2 && NonNegative(w.lines)
    && g'.lines == g.lines + [NewLine(w, |g.journals|, w.lines[0]), NewLine(w, |g.journals|, w.lines[1])]
    && g'.journals == g.journals + [JournalOf(w, |g.lines|)]
    && SameFlow(g.edges + [SettlingEdge(g, req, fx, d, c, partial, diff)], g'.edges) && g'.nextEdge == g.nextEdge + 1
  }

  lemma {:induction false} PostedTrueUp(cfg: Config, env: Env, g: Graph, req: PairRequest, fx: nat, d: nat, c: nat,
                                        partial: nat, diff: int) returns (g': Graph)
    requires d < |g.lines| && c < |g.lines| && diff != 0 && cfg.fx == Some(fx)
    requires MaxDate(g, d, c) !in env.closedDates && Exch(partial) !in g.keys
    ensures PostTrueUp(cfg, env, g, req, d, c, partial, diff, MaxDate(g, d, c)) == Ok(g')
    ensures ByTrueUp(g, g', req, fx, d, c, partial, diff)
  {
    var date := MaxDate(g, d, c);
    var w := ExchangePosting(g, fx, d, partial, diff, date);
    var g0 := CommitTwo(g, w, w.lines[0], w.lines[1]);
    var g1 := PostExchange(g, fx, d, partial, diff, date).value;
    PostExchangeLine(g, fx, d, partial, diff, date);
    g' := SettleExchange(g1, req, d, c, ExchangeAt(g, fx, d), partial, diff, date).value;
    assert SameFlow(g.edges, g1.edges);
    SameFlowPush(g.edges, g1.edges, SettlingEdge(g, req, fx, d, c, partial, diff), g'.edges);
  }

  lemma {:induction false} TruedUpEdges(cfg: Config, env: Env, g: Graph, req: PairRequest, fx: nat, d: nat, c: nat,
                                        applied: int, diff: int) returns (g': Graph)
    requires Sound(g) && d < |g.lines| && c < |g.lines| && d != c && applied > 0 && cfg.fx == Some(fx)
    requires TruesUp(g, d, c, applied, diff) && MaxDate(g, d, c) !in env.closedDates
    requires DeferralsOf(env, g, d) == [] && DeferralsOf(env, g, c) == []
    ensures LinkEdges(cfg, env, g, req, d, c, applied) == Ok((g', diff))
    ensures ByTrueUp(Rooted(g, req, d, c, applied), g', req, fx, d, c, g.nextEdge, diff)
  {
    var p, date, g1 := g.nextEdge, MaxDate(g, d, c), Rooted(g, req, d, c, applied);
    RootInserts(cfg, env, g, req, d, c, applied);
    NextKeysFree(g, d);
    g' := PostedTrueUp(cfg, env, g1, req, fx, d, c, p, diff);
    RootedTruesUp(cfg, env, g, g', req, fx, d, c, applied, diff);
    NoFlips(cfg, env, g', req, d, p, applied, Residual(g, d), date);
    NoFlips(cfg, env, g', req, c, p, applied, Residual(g, c), date);
    FromStages(cfg, env, g, req, d, c, applied, g1, g', g', g', diff);
  }

  /** Nothing deferred and an exchange difference found: one true-up. */
  lemma {:induction false} TruedUpLink(cfg: Config, env: Env, g: Graph, req: PairRequest, fx: nat, d: nat, c: nat,
                                       applied: int, diff: int) returns (g1: Graph, g': Graph)
    requires Sound(g) && EnvOk(g, env) && Asks(cfg, g, req, d, c, applied) && cfg.fx == Some(fx)
    requires TruesUp(g, d, c, applied, diff) && MaxDate(g, d, c) !in env.closedDates
    requires DeferralsOf(env, g, d) == [] && DeferralsOf(env, g, c) == []
    ensures Link(cfg, env, g, req).Ok? && Link(cfg, env, g, req).value.0 == g' && Sound(g')
    ensures UpToStamps(g1, g') && ByTrueUp(Rooted(g, req, d, c, applied), g1, req, fx, d, c, g.nextEdge, diff)
  {
    ValidPair(cfg, g, d, c, req.amount);
    g1 := TruedUpEdges(cfg, env, g, req, fx, d, c, applied, diff);
    g' := LinkIsEdges(cfg, env, g, req, d, c, applied, g1, diff);
  }

  lemma {:induction false} RootedTruesUp(cfg: Config, env: Env, g: Graph, g': Graph, req: PairRequest, fx: nat, d: nat,
                                         c: nat, applied: int, diff: int)
    requires d < |g.lines| && c < |g.lines| && d != c && applied > 0 && TruesUp(g, d, c, applied, diff)
    requires PostTrueUp(cfg, env, Rooted(g, req, d, c, applied), req, d, c, g.nextEdge, diff, MaxDate(g, d, c)) == Ok(g')
    ensures TrueUp(cfg, env, Rooted(g, req, d, c, applied), req, d, c, g.nextEdge, applied) == Ok((g', diff))
  {
    var g1 := Rooted(g, req, d, c, applied);
    assert Residual(g1, d) == Residual(g, d) - applied && Residual(g1, c) == Residual(g, c) - applied by {
      AppliedPush(g.edges, RootEdge(g, req, d, c, applied), d);
      AppliedPush(g.edges, RootEdge(g, req, d, c, applied), c);
    }
    TrueUpIs(cfg, env, g1, g', req, d, c, g.nextEdge, applied, diff,
             RoundHalfAway(applied * (Hi(g.lines[d].rate, g.lines[c].rate) - Lo(g.lines[d].rate, g.lines[c].rate)),
                           Lo(g.lines[d].rate, g.lines[c].rate)));
  }

  /** What a link with one true-up adds: the root, the exchange journal, and the edge that settles it. */
  ghost predicate TrueUpAdded(g: Graph, g': Graph, fx: nat, d: nat, c: nat, applied: int, diff: int)
    requires d < |g.lines| && c < |g.lines|
  {
    && TwoMore(g, g') && MachineryAdded(g, g')
    && EdgeAt(g'.edges, |g.edges|, g.nextEdge, d, c, applied, g.lines[c].sourceId)
    && EdgeAt(g'.edges, |g.edges| + 1, g.nextEdge + 1, if diff > 0 then d else ExchangeAt(g, fx, d),
              if diff > 0 then ExchangeAt(g, fx, d) else c, Abs(diff), Some(PartialRef(g.nextEdge)))
    && AsPosting(g'.lines[|g.lines|]) == FxPair(fx, g.lines[d], diff)[0]
    && AsPosting(g'.lines[|g.lines| + 1]) == FxPair(fx, g.lines[d], diff)[1]
  }

  lemma {:induction false} TrueUpRows(g: Graph, req: PairRequest, fx: nat, d: nat, c: nat, applied: int, diff: int,
                                      g1: Graph, g': Graph)
    requires d < |g.lines| && c < |g.lines| && diff != 0 && UpToStamps(g1, g')
    requires ByTrueUp(Rooted(g, req, d, c, applied), g1, req, fx, d, c, g.nextEdge, diff)
    ensures TrueUpAdded(g, g', fx, d, c, applied, diff)
  {
    var n, g0 := |g.edges|, Rooted(g, req, d, c, applied);
    var all := g0.edges + [SettlingEdge(g0, req, fx, d, c, g.nextEdge, diff)];
    assert SameFlow(all, g'.edges);
    assert all[n] == RootEdge(g, req, d, c, applied) && all[n + 1] == SettlingEdge(g0, req, fx, d, c, g.nextEdge, diff);
    assert all[..n] == g.edges;
    PrefixFlow(all, g'.edges, n);
  }

  lemma {:induction false} TrueUpReaches(cfg: Config, env: Env, g: Graph, req: PairRequest, fx: nat, d: nat, c: nat,
                                         applied: int, diff: int) returns (g': Graph)
    requires Reachable(cfg, g)
    requires Sound(g) && EnvOk(g, env) && Asks(cfg, g, req, d, c, applied) && cfg.fx == Some(fx)
    requires TruesUp(g, d, c, applied, diff) && MaxDate(g, d, c) !in env.closedDates
    requires DeferralsOf(env, g, d) == [] && DeferralsOf(env, g, c) == []
    ensures Reachable(cfg, g') && Sound(g') && TrueUpAdded(g, g', fx, d, c, applied, diff)
  {
    var g1;
    g1, g' := TruedUpLink(cfg, env, g, req, fx, d, c, applied, diff);
    TrueUpRows(g, req, fx, d, c, applied, diff, g1, g');
    StepReaches(cfg, g, LinkStep(env, req));
  }

  lemma {:induction false} TrueUpIs(cfg: Config, env: Env, g: Graph, g': Graph, req: PairRequest, d: nat, c: nat,
                                    partial: nat, applied: int, diff: int, predicted: int)
    requires d < |g.lines| && c < |g.lines| && g.lines[d].rate != g.lines[c].rate
    requires Lo(g.lines[d].rate, g.lines[c].rate) > 0
    requires ExchangeDiff(Residual(g, d), Residual(g, c), predicted) == Some(diff)
    requires var hi, lo := Hi(g.lines[d].rate, g.lines[c].rate), Lo(g.lines[d].rate, g.lines[c].rate);
      lo > 0 && predicted == RoundHalfAway(applied * (hi - lo), lo)
    requires PostTrueUp(cfg, env, g, req, d, c, partial, diff, MaxDate(g, d, c)) == Ok(g')
    ensures TrueUp(cfg, env, g, req, d, c, partial, applied) == Ok((g', diff))
  {
  }
}
