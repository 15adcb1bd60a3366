/**
 * Which lines edges can touch. A link touches its two lines, the lines deferred for them and
 * lines of the machinery; pairing touches a line and its reversal counterpart; nothing else
 * gains an edge.
 */
module ReconcileEnds {
  import opened Wrappers
  import opened ReconcileGraph
  import opened ReconcileInvariants
  import opened ReconcileVerbs
  import opened ReconcileGrowth
  import opened ReconcileSteps

  predicate Machinery(line: Line) {
    line.sourceType == Some(RECONCILIATION)
  }

  /** A line of the set, or one posted after the first `n`. */
  predicate InOrNew(l: nat, s: set<nat>, n: nat) {
    l in s || l >= n
  }

  /** Every edge joins such lines. */
  ghost predicate Within(edges: seq<Edge>, s: set<nat>, n: nat) {
    forall i | 0 <= i < |edges| :: InOrNew(edges[i].debit, s, n) && InOrNew(edges[i].credit, s, n)
  }

  lemma {:induction false} InsertWithin(g: Graph, d: nat, c: nat, amount: int, date: int, origin: string,
                                        source: Option<Ref>, s: set<nat>, n: nat)
    requires Within(g.edges, s, n) && InOrNew(d, s, n) && InOrNew(c, s, n)
    requires InsertPartial(g, d, c, amount, date, origin, source).Ok?
    ensures Within(InsertPartial(g, d, c, amount, date, origin, source).value.edges, s, n)
  {
  }

  lemma {:induction false} SameFlowWithin(a: seq<Edge>, b: seq<Edge>, s: set<nat>, n: nat)
    requires Within(a, s, n) && SameFlow(a, b)
    ensures Within(b, s, n)
  {
    forall i | 0 <= i < |b| ensures InOrNew(b[i].debit, s, n) && InOrNew(b[i].credit, s, n) {
      assert InOrNew(a[i].debit, s, n) && InOrNew(a[i].credit, s, n);
    }
  }

  lemma {:induction false} PostTrueUpWithin(cfg: Config, env: Env, g: Graph, req: PairRequest, d: nat, c: nat,
                                            partial: nat, diff: int, date: int, s: set<nat>, n: nat)
    requires Within(g.edges, s, n) && n <= |g.lines| && d < |g.lines| && c < |g.lines|
    requires InOrNew(d, s, n) && InOrNew(c, s, n)
    requires PostTrueUp(cfg, env, g, req, d, c, partial, diff, date).Ok?
    ensures Within(PostTrueUp(cfg, env, g, req, d, c, partial, diff, date).value.edges, s, n)
  {
    var g1 := PostExchange(g, cfg.fx.value, d, partial, diff, date).value;
    SameFlowWithin(g.edges, g1.edges, s, n);
    var exch := LineOn(g1.lines, g.lines[d].account, |g.lines|, |g1.lines|).value;
    if diff > 0 {
      InsertWithin(g1, d, exch, diff, date, req.origin, Some(PartialRef(partial)), s, n);
    } else {
      InsertWithin(g1, exch, c, -diff, date, req.origin, Some(PartialRef(partial)), s, n);
    }
  }

  lemma {:induction false} TrueUpWithin(cfg: Config, env: Env, g: Graph, req: PairRequest, d: nat, c: nat, partial: nat,
                                        applied: int, s: set<nat>, n: nat)
    requires Within(g.edges, s, n) && n <= |g.lines| && d < |g.lines| && c < |g.lines|
    requires InOrNew(d, s, n) && InOrNew(c, s, n)
    requires TrueUp(cfg, env, g, req, d, c, partial, applied).Ok?
    ensures Within(TrueUp(cfg, env, g, req, d, c, partial, applied).value.0.edges, s, n)
  {
    var (g', total) := TrueUp(cfg, env, g, req, d, c, partial, applied).value;
    if g' != g {
      PostTrueUpWithin(cfg, env, g, req, d, c, partial, total, MaxDate(g, d, c), s, n);
    }
  }

  lemma {:induction false} PairFlipsWithin(g: Graph, flips: seq<Flip>, matched: seq<nat>, first: nat, partial: nat,
                                           origin: string, date: int, s: set<nat>, n: nat)
    requires Within(g.edges, s, n) && n <= first && |matched| == |flips|
    requires forall k | 0 <= k < |flips| :: InOrNew(flips[k].d.sourceLine, s, n)
    requires PairFlips(g, flips, matched, first, partial, origin, date).Ok?
    ensures Within(PairFlips(g, flips, matched, first, partial, origin, date).value.edges, s, n)
  {
    if flips == [] {
    } else {
      var k := |flips| - 1;
      PairFlipsWithin(g, flips[..k], matched[..k], first, partial, origin, date, s, n);
      var g1 := PairFlips(g, flips[..k], matched[..k], first, partial, origin, date).value;
      InsertFlipWithin(g1, flips[k], first + matched[k], partial, origin, date, s, n);
    }
  }

  lemma {:induction false} InsertFlipWithin(g: Graph, f: Flip, leg: nat, partial: nat, origin: string, date: int,
                                            s: set<nat>, n: nat)
    requires Within(g.edges, s, n) && InOrNew(f.d.sourceLine, s, n) && leg >= n
    requires InsertFlip(g, f, leg, partial, origin, date).Ok?
    ensures Within(InsertFlip(g, f, leg, partial, origin, date).value.edges, s, n)
  {
    if f.d.isDebit {
      InsertWithin(g, f.d.sourceLine, leg, f.amount, date, origin, Some(PartialRef(partial)), s, n);
    } else {
      InsertWithin(g, leg, f.d.sourceLine, f.amount, date, origin, Some(PartialRef(partial)), s, n);
    }
  }

  /** The lines deferred for the document of a line. */
  ghost predicate DeferredWithin(env: Env, g: Graph, side: nat, s: set<nat>, n: nat)
    requires side < |g.lines|
  {
    forall e | e in DeferralsOf(env, g, side) :: InOrNew(e.sourceLine, s, n)
  }

  lemma {:induction false} SideFlipsWithin(cfg: Config, env: Env, g: Graph, side: nat, applied: int, resBefore: int,
                                           s: set<nat>, n: nat)
    requires side < |g.lines| && DeferredWithin(env, g, side, s, n)
    ensures var flips := SideFlips(cfg, env, g, side, applied, resBefore);
      forall k | 0 <= k < |flips| :: InOrNew(flips[k].d.sourceLine, s, n)
  {
    var flips, base := SideFlips(cfg, env, g, side, applied, resBefore), g.lines[side].base;
    if base > 0 {
      FlipsMembers(g, DeferralsOf(env, g, side), base - resBefore + applied, base);
    }
    forall k | 0 <= k < |flips| ensures InOrNew(flips[k].d.sourceLine, s, n) {
      assert flips[k] in flips;
    }
  }

  lemma {:induction false} FlipSideWithin(cfg: Config, env: Env, g: Graph, req: PairRequest, side: nat, partial: nat,
                                          applied: int, resBefore: int, date: int, s: set<nat>, n: nat)
    requires Within(g.edges, s, n) && n <= |g.lines| && side < |g.lines| && DeferredWithin(env, g, side, s, n)
    requires FlipSide(cfg, env, g, req, side, partial, applied, resBefore, date).Ok?
    ensures Within(FlipSide(cfg, env, g, req, side, partial, applied, resBefore, date).value.edges, s, n)
  {
    var flips := SideFlips(cfg, env, g, side, applied, resBefore);
    SideFlipsWithin(cfg, env, g, side, applied, resBefore, s, n);
    if flips != [] {
      var g1 := Commit(g, FlipPosting(g, side, partial, flips, date)).value;
      PairFlipsWithin(g1, flips, MatchLegs(FlipLines(flips), flips).value, |g.lines|, partial, req.origin, date, s, n);
    }
  }

  lemma {:induction false} DeferredStays(env: Env, g: Graph, g': Graph, side: nat, s: set<nat>, n: nat)
    requires side < |g.lines| && g.lines <= g'.lines && DeferredWithin(env, g, side, s, n)
    ensures DeferredWithin(env, g', side, s, n)
  {
    assert DeferralsOf(env, g', side) == DeferralsOf(env, g, side);
  }

  /** A link touches its lines, the lines deferred for them, and lines it posts itself. */
  lemma {:induction false} LinkEdgesWithin(cfg: Config, env: Env, g: Graph, req: PairRequest, d: nat, c: nat,
                                           applied: int, s: set<nat>, n: nat)
    requires Within(g.edges, s, n) && n <= |g.lines| && d < |g.lines| && c < |g.lines|
    requires InOrNew(d, s, n) && InOrNew(c, s, n)
    requires DeferredWithin(env, g, d, s, n) && DeferredWithin(env, g, c, s, n)
    requires LinkEdges(cfg, env, g, req, d, c, applied).Ok?
    ensures Within(LinkEdges(cfg, env, g, req, d, c, applied).value.0.edges, s, n)
  {
    var p, date := g.nextEdge, MaxDate(g, d, c);
    InsertWithin(g, d, c, applied, date, req.origin, g.lines[c].sourceId, s, n);
    var g1 := InsertPartial(g, d, c, applied, date, req.origin, g.lines[c].sourceId).value;
    TrueUpWithin(cfg, env, g1, req, d, c, p, applied, s, n);
    var g2 := TrueUp(cfg, env, g1, req, d, c, p, applied).value.0;
    DeferredStays(env, g, g2, d, s, n);
    FlipSideWithin(cfg, env, g2, req, d, p, applied, Residual(g, d), date, s, n);
    var g3 := FlipSide(cfg, env, g2, req, d, p, applied, Residual(g, d), date).value;
    DeferredStays(env, g, g3, c, s, n);
    FlipSideWithin(cfg, env, g3, req, c, p, applied, Residual(g, c), date, s, n);
  }

  // ------------------------------------------------------------------ pairing and removing

  /** The set holds the reversal counterparts of its own lines. */
  ghost predicate PairsWithin(g: Graph, s: set<nat>, n: nat) {
    forall l, k | 0 <= l < |g.lines| && 0 <= k < |g.lines| && InOrNew(l, s, n) && !Machinery(g.lines[l])
      && IsCounterpart(g, l, k) :: InOrNew(k, s, n)
  }

  lemma {:induction false} PairOneWithin(g: Graph, l: nat, s: set<nat>, n: nat)
    requires Inv(g) && Within(g.edges, s, n) && PairsWithin(g, s, n) && l < |g.lines| && InOrNew(l, s, n)
    ensures PairOne(g, l).Ok? && Within(PairOne(g, l).value.edges, s, n)
    ensures PairOne(g, l).value.lines == g.lines && PairOne(g, l).value.journals == g.journals
  {
    PairOneKeepsInv(g, l);
    if PairsNow(g, l) {
      var k := Counterpart(g, l).value;
      var d, c := if g.lines[l].debit > 0 then l else k, if g.lines[l].debit > 0 then k else l;
      CounterpartSound(g, l);
      var amount := Min(g.lines[d].base, g.lines[c].base);
      InsertWithin(g, d, c, amount, MaxDate(g, d, c), MANUAL, g.lines[d].sourceId, s, n);
      var g1 := InsertPartial(g, d, c, amount, MaxDate(g, d, c), MANUAL, g.lines[d].sourceId).value;
      CompleteFlows(g1, {d, c}, 0);
      SameFlowWithin(g1.edges, Complete(g1, {d, c}, 0).0.edges, s, n);
    }
  }

  lemma {:induction false} CompleteFlows(g: Graph, seeds: set<nat>, total: int)
    ensures SameFlows(g, Complete(g, seeds, total).0)
  {
  }

  lemma {:induction false} PairAllWithin(g: Graph, ids: seq<nat>, s: set<nat>, n: nat)
    requires Inv(g) && Within(g.edges, s, n) && PairsWithin(g, s, n)
    requires forall i | 0 <= i < |ids| :: ids[i] < |g.lines| && InOrNew(ids[i], s, n)
    ensures PairAll(g, ids).Ok? && Inv(PairAll(g, ids).value) && Within(PairAll(g, ids).value.edges, s, n)
    ensures PairAll(g, ids).value.lines == g.lines && PairAll(g, ids).value.journals == g.journals
  {
    if ids == [] {
    } else {
      var init, l := ids[..|ids| - 1], ids[|ids| - 1];
      PairAllWithin(g, init, s, n);
      var g1 := PairAll(g, init).value;
      assert PairsWithin(g1, s, n) by {
        PairsSame(g, g1, s, n);
      }
      PairOneKeepsInv(g1, l);
      PairOneWithin(g1, l, s, n);
    }
  }

  lemma {:induction false} PairsSame(g: Graph, g': Graph, s: set<nat>, n: nat)
    requires PairsWithin(g, s, n) && g'.lines == g.lines && g'.journals == g.journals
    ensures PairsWithin(g', s, n)
  {
    forall l, k | 0 <= l < |g'.lines| && 0 <= k < |g'.lines| && InOrNew(l, s, n) && !Machinery(g'.lines[l])
      && IsCounterpart(g', l, k) ensures InOrNew(k, s, n)
    {
      assert IsCounterpart(g, l, k);
    }
  }

  lemma {:induction false} SelectWithin(edges: seq<Edge>, roots: set<nat>, taken: bool, s: set<nat>, n: nat)
    requires Within(edges, s, n)
    ensures Within(Select(edges, roots, taken), s, n)
  {
    SelectMembers(edges, roots, taken);
    var part := Select(edges, roots, taken);
    forall i | 0 <= i < |part| ensures InOrNew(part[i].debit, s, n) && InOrNew(part[i].credit, s, n) {
      assert part[i] in edges;
      var k :| 0 <= k < |edges| && edges[k] == part[i];
    }
  }

  lemma {:induction false} EndsWithin(edges: seq<Edge>, s: set<nat>, n: nat)
    requires Within(edges, s, n)
    ensures forall l | l in Ends(edges) :: InOrNew(l, s, n)
  {
  }
}
