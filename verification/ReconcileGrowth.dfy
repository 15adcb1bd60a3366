/**
 * What a link adds to the graph: only new lines, journals and keys of the reconciliation
 * machinery, and only edges that are the root edge or derived from it. Whatever the graph
 * held stays as it was, up to the exchange mark on the root edge.
 */
module ReconcileGrowth {
  import opened Wrappers
  import opened GlPosting
  import opened ReconcileGraph
  import opened ReconcileInvariants

  /** An edge of the family of root edge `p`. */
  predicate OfFamily(e: Edge, p: nat) {
    e.id == p || e.sourceId == Some(PartialRef(p))
  }

  /** A journal the machinery posted for root edge `p`. */
  predicate GeneratedFor(j: Journal, p: nat) {
    j.sourceType == Some(RECONCILIATION) && j.sourceId == Some(PartialRef(p)) && !j.reversing
  }

  predicate KeyFor(k: Key, p: nat) {
    match k
    case Exch(q) => q == p
    case Caba(q, _) => q == p
    case Unlink(_) => false
  }

  ghost predicate EdgesGrow(a: seq<Edge>, b: seq<Edge>, p: nat) {
    && |a| <= |b|
    && SameFlow(a, b[..|a|])
    && (forall i | 0 <= i < |a| :: b[i].group == a[i].group)
    && (forall i | |a| <= i < |b| :: b[i].group.None? && OfFamily(b[i], p))
  }

  ghost predicate LinesGrow(a: seq<Line>, b: seq<Line>) {
    a <= b && forall l | |a| <= l < |b| :: b[l].sourceType == Some(RECONCILIATION)
  }

  ghost predicate JournalsGrow(a: seq<Journal>, b: seq<Journal>, p: nat) {
    a <= b && forall j | |a| <= j < |b| :: GeneratedFor(b[j], p)
  }

  /** A reference to a partial or a journal names one that exists or existed. */
  predicate Known(r: Option<Ref>, edges: nat, journals: nat) {
    match r
    case Some(PartialRef(n)) => n < edges
    case Some(JournalRef(n)) => n < journals
    case _ => true
  }

  predicate KnownKey(k: Key, edges: nat, journals: nat) {
    match k
    case Exch(p) => p < edges
    case Caba(p, _) => p < edges
    case Unlink(j) => j < journals
  }

  /** The journals cut `n` lines into consecutive non-empty stretches. */
  ghost predicate Tiles(journals: seq<Journal>, n: nat) {
    if journals == [] then n == 0
    else
      var last := journals[|journals| - 1];
      last.count > 0 && last.first + last.count == n && Tiles(journals[..|journals| - 1], last.first)
  }

  lemma {:induction false} TilesAppend(journals: seq<Journal>, n: nat, j: Journal)
    requires Tiles(journals, n) && j.first == n && j.count > 0
    ensures Tiles(journals + [j], n + j.count)
  {
    assert (journals + [j])[..|journals|] == journals;
  }

  lemma {:induction false} TilesAt(journals: seq<Journal>, n: nat, j: nat)
    requires Tiles(journals, n) && j < |journals|
    ensures journals[j].count > 0 && journals[j].first + journals[j].count <= n
    ensures Tiles(journals[..j], journals[j].first)
  {
    var k := |journals| - 1;
    if j < k {
      TilesAt(journals[..k], journals[k].first, j);
      assert journals[..k][..j] == journals[..j];
    }
  }

  ghost predicate JournalsShaped(g: Graph) {
    Tiles(g.journals, |g.lines|)
  }

  /** The ledger has one row per line, in the same order, with the same amounts. */
  ghost predicate LedgerMirrors(g: Graph) {
    |g.ledger| == |g.lines| && forall i | 0 <= i < |g.lines| :: g.ledger[i] == AsPosting(g.lines[i])
  }

  ghost predicate RefsKnown(g: Graph) {
    && (forall l | 0 <= l < |g.lines| :: Known(g.lines[l].sourceId, g.nextEdge, |g.journals|))
    && (forall i | 0 <= i < |g.edges| :: Known(g.edges[i].sourceId, g.nextEdge, |g.journals|))
    && (forall j | 0 <= j < |g.journals| :: Known(g.journals[j].sourceId, g.nextEdge, |g.journals|))
    && (forall k | k in g.keys :: KnownKey(k, g.nextEdge, |g.journals|))
  }

  datatype BookClause = Shaped | Mirrored | Referenced

  ghost predicate BookHolds(c: BookClause, g: Graph) {
    match c
    case Shaped => JournalsShaped(g)
    case Mirrored => LedgerMirrors(g)
    case Referenced => RefsKnown(g)
  }

  /** The books: journals tile the lines, the ledger mirrors them, references point at known rows. */
  ghost predicate Shelf(g: Graph) {
    forall c: BookClause :: BookHolds(c, g)
  }

  lemma {:induction false} Books(g: Graph)
    ensures Shelf(g) <==> JournalsShaped(g) && LedgerMirrors(g) && RefsKnown(g)
  {
    var all := BookHolds(Shaped, g) && BookHolds(Mirrored, g) && BookHolds(Referenced, g);
    forall c: BookClause | all ensures BookHolds(c, g) {
      match c
      case Shaped =>
      case Mirrored =>
      case Referenced =>
    }
  }

  ghost predicate Grows(g: Graph, g': Graph, p: nat) {
    && LinesGrow(g.lines, g'.lines)
    && EdgesGrow(g.edges, g'.edges, p)
    && JournalsGrow(g.journals, g'.journals, p)
    && g.ledger <= g'.ledger
    && g'.stamps == g.stamps && g'.groups == g.groups && g'.nextGroup == g.nextGroup
    && g.keys <= g'.keys && (forall k | k in g'.keys && k !in g.keys :: KeyFor(k, p))
    && g.nextEdge <= g'.nextEdge
    && (p < g.nextEdge && Shelf(g) ==> Shelf(g'))
  }

  lemma {:induction false} EdgesGrowTransitive(a: seq<Edge>, b: seq<Edge>, c: seq<Edge>, p: nat)
    requires EdgesGrow(a, b, p) && EdgesGrow(b, c, p)
    ensures EdgesGrow(a, c, p)
  {
    forall i | 0 <= i < |a|
      ensures a[i].id == c[i].id && a[i].debit == c[i].debit && a[i].credit == c[i].credit
        && a[i].amount == c[i].amount && a[i].sourceId == c[i].sourceId && c[i].group == a[i].group
    {
      assert b[..|a|][i] == b[i] && c[..|b|][i] == c[i];
    }
    forall i | |a| <= i < |c| ensures c[i].group.None? && OfFamily(c[i], p) {
      if i < |b| {
        assert c[..|b|][i] == c[i];
      }
    }
  }

  lemma {:induction false} GrowsTransitive(a: Graph, b: Graph, c: Graph, p: nat)
    requires Grows(a, b, p) && Grows(b, c, p)
    ensures Grows(a, c, p)
  {
    EdgesGrowTransitive(a.edges, b.edges, c.edges, p);
  }

  lemma {:induction false} GrowsSelf(g: Graph, p: nat)
    ensures Grows(g, g, p)
  {
    assert g.edges[..|g.edges|] == g.edges;
  }

  lemma {:induction false} InsertGrows(g: Graph, d: nat, c: nat, amount: int, date: int, origin: string,
                                       source: Option<Ref>, p: nat)
    requires InsertPartial(g, d, c, amount, date, origin, source).Ok?
    requires g.nextEdge == p || source == Some(PartialRef(p))
    ensures Grows(g, InsertPartial(g, d, c, amount, date, origin, source).value, p)
  {
    var g' := InsertPartial(g, d, c, amount, date, origin, source).value;
    assert g'.edges[..|g.edges|] == g.edges;
    if p < g.nextEdge && Shelf(g) {
      InsertShelf(g, d, c, amount, date, origin, source);
    }
  }

  lemma {:induction false} InsertShelf(g: Graph, d: nat, c: nat, amount: int, date: int, origin: string,
                                       source: Option<Ref>)
    requires Shelf(g) && Known(source, g.nextEdge, |g.journals|)
    requires InsertPartial(g, d, c, amount, date, origin, source).Ok?
    ensures Shelf(InsertPartial(g, d, c, amount, date, origin, source).value)
  {
    Books(g);
    Books(InsertPartial(g, d, c, amount, date, origin, source).value);
  }

  /** A journal appended with its lines and ledger rows keeps the books in shape. */
  lemma {:induction false} AppendShelf(g: Graph, g': Graph, j: Journal, lines: seq<Line>, rows: seq<PostingLine>)
    requires Shelf(g) && j.first == |g.lines| && j.count == |lines| == |rows| > 0
    requires g' == g.(lines := g.lines + lines, journals := g.journals + [j], ledger := g.ledger + rows, keys := g'.keys)
    requires forall i | 0 <= i < |lines| ::
      rows[i] == AsPosting(lines[i]) && Known(lines[i].sourceId, g'.nextEdge, |g'.journals|)
    requires Known(j.sourceId, g'.nextEdge, |g'.journals|)
    requires forall k | k in g'.keys :: KnownKey(k, g'.nextEdge, |g'.journals|)
    ensures Shelf(g')
  {
    Books(g);
    Books(g');
    TilesAppend(g.journals, |g.lines|, j);
    var n := |g.lines|;
    forall i | 0 <= i < |g'.lines|
      ensures g'.ledger[i] == AsPosting(g'.lines[i]) && Known(g'.lines[i].sourceId, g'.nextEdge, |g'.journals|)
    {
      if i < n {
        assert g'.lines[i] == g.lines[i] && g'.ledger[i] == g.ledger[i];
        assert Known(g.lines[i].sourceId, g.nextEdge, |g.journals|);
      } else {
        assert g'.lines[i] == lines[i - n] && g'.ledger[i] == rows[i - n];
      }
    }
    assert LedgerMirrors(g');
    forall x | 0 <= x < |g'.journals| ensures Known(g'.journals[x].sourceId, g'.nextEdge, |g'.journals|) {
      assert x < |g.journals| ==> g'.journals[x] == g.journals[x];
    }
  }

  lemma {:induction false} CommitShelf(g: Graph, w: Posting)
    requires Shelf(g) && Commit(g, w).Ok? && w.lines != []
    requires Known(Some(w.sourceId), g.nextEdge, |g.journals|) && KnownKey(w.key, g.nextEdge, |g.journals|)
    ensures Shelf(Commit(g, w).value)
  {
    var g' := Commit(g, w).value;
    var lines := NewLines(w, |g.journals|, w.lines);
    forall i | 0 <= i < |lines| ensures w.lines[i] == AsPosting(lines[i]) {
      assert lines[i] == NewLine(w, |g.journals|, w.lines[i]);
    }
    assert RefsKnown(g) by {
      Books(g);
    }
    AppendShelf(g, g', g'.journals[|g.journals|], lines, w.lines);
  }

  lemma {:induction false} CommitGrows(g: Graph, w: Posting, p: nat)
    requires Commit(g, w).Ok?
    requires w.sourceType == RECONCILIATION && w.sourceId == PartialRef(p) && !w.reversing && KeyFor(w.key, p)
    requires w.lines != []
    ensures Grows(g, Commit(g, w).value, p)
  {
    var g' := Commit(g, w).value;
    if p < g.nextEdge && Shelf(g) {
      CommitShelf(g, w);
    }
    assert g'.edges[..|g.edges|] == g.edges;
    forall l | |g.lines| <= l < |g'.lines| ensures g'.lines[l].sourceType == Some(RECONCILIATION) {
      assert g'.lines[l] == NewLine(w, |g.journals|, w.lines[l - |g.lines|]);
    }
  }

  lemma {:induction false} TrueUpGrows(cfg: Config, env: Env, g: Graph, req: PairRequest, d: nat, c: nat, p: nat,
                                       applied: int)
    requires d < |g.lines| && c < |g.lines|
    requires TrueUp(cfg, env, g, req, d, c, p, applied).Ok?
    ensures Grows(g, TrueUp(cfg, env, g, req, d, c, p, applied).value.0, p)
  {
    var (g', total) := TrueUp(cfg, env, g, req, d, c, p, applied).value;
    if g' == g {
      GrowsSelf(g, p);
    } else {
      PostTrueUpGrows(cfg, env, g, req, d, c, p, total, MaxDate(g, d, c));
    }
  }

  lemma {:induction false} PostTrueUpGrows(cfg: Config, env: Env, g: Graph, req: PairRequest, d: nat, c: nat, p: nat,
                                           diff: int, date: int)
    requires d < |g.lines| && c < |g.lines|
    requires PostTrueUp(cfg, env, g, req, d, c, p, diff, date).Ok?
    ensures Grows(g, PostTrueUp(cfg, env, g, req, d, c, p, diff, date).value, p)
  {
    var fx := cfg.fx.value;
    var g1 := PostExchange(g, fx, d, p, diff, date).value;
    PostExchangeGrows(g, fx, d, p, diff, date);
    var exch := LineOn(g1.lines, g.lines[d].account, |g.lines|, |g1.lines|).value;
    SettleExchangeGrows(g1, req, d, c, exch, p, diff, date);
    GrowsTransitive(g, g1, PostTrueUp(cfg, env, g, req, d, c, p, diff, date).value, p);
  }

  lemma {:induction false} SettleExchangeGrows(g: Graph, req: PairRequest, d: nat, c: nat, exch: nat, p: nat, diff: int,
                                               date: int)
    requires SettleExchange(g, req, d, c, exch, p, diff, date).Ok?
    ensures Grows(g, SettleExchange(g, req, d, c, exch, p, diff, date).value, p)
  {
    if diff > 0 {
      InsertGrows(g, d, exch, diff, date, req.origin, Some(PartialRef(p)), p);
    } else {
      InsertGrows(g, exch, c, -diff, date, req.origin, Some(PartialRef(p)), p);
    }
  }

  lemma {:induction false} PostExchangeGrows(g: Graph, fx: nat, d: nat, p: nat, diff: int, date: int)
    requires d < |g.lines| && PostExchange(g, fx, d, p, diff, date).Ok?
    ensures Grows(g, PostExchange(g, fx, d, p, diff, date).value, p)
  {
    CommitGrows(g, ExchangePosting(g, fx, d, p, diff, date), p);
    var g1 := Commit(g, ExchangePosting(g, fx, d, p, diff, date)).value;
    var g2 := g1.(edges := SetExchangeMove(g1.edges, p, |g.journals|));
    assert Grows(g1, g2, p) by {
      assert g2.edges[..|g1.edges|] == g2.edges;
      Books(g1);
      Books(g2);
    }
    GrowsTransitive(g, g1, g2, p);
  }

  lemma {:induction false} PairFlipsGrows(g: Graph, flips: seq<Flip>, matched: seq<nat>, first: nat, p: nat,
                                          origin: string, date: int)
    requires |matched| == |flips| && PairFlips(g, flips, matched, first, p, origin, date).Ok?
    ensures Grows(g, PairFlips(g, flips, matched, first, p, origin, date).value, p)
  {
    if flips == [] {
      GrowsSelf(g, p);
    } else {
      var k := |flips| - 1;
      PairFlipsGrows(g, flips[..k], matched[..k], first, p, origin, date);
      var g1 := PairFlips(g, flips[..k], matched[..k], first, p, origin, date).value;
      InsertFlipGrows(g1, flips[k], first + matched[k], p, origin, date);
      GrowsTransitive(g, g1, InsertFlip(g1, flips[k], first + matched[k], p, origin, date).value, p);
    }
  }

  lemma {:induction false} InsertFlipGrows(g: Graph, f: Flip, leg: nat, p: nat, origin: string, date: int)
    requires InsertFlip(g, f, leg, p, origin, date).Ok?
    ensures Grows(g, InsertFlip(g, f, leg, p, origin, date).value, p)
  {
    if f.d.isDebit {
      InsertGrows(g, f.d.sourceLine, leg, f.amount, date, origin, Some(PartialRef(p)), p);
    } else {
      InsertGrows(g, leg, f.d.sourceLine, f.amount, date, origin, Some(PartialRef(p)), p);
    }
  }

  lemma {:induction false} FlipSideGrows(cfg: Config, env: Env, g: Graph, req: PairRequest, side: nat, p: nat,
                                         applied: int, resBefore: int, date: int)
    requires side < |g.lines| && FlipSide(cfg, env, g, req, side, p, applied, resBefore, date).Ok?
    ensures Grows(g, FlipSide(cfg, env, g, req, side, p, applied, resBefore, date).value, p)
  {
    PostFlipsGrows(env, g, req, side, p, SideFlips(cfg, env, g, side, applied, resBefore), date);
  }

  lemma {:induction false} PostFlipsGrows(env: Env, g: Graph, req: PairRequest, side: nat, p: nat, flips: seq<Flip>,
                                          date: int)
    requires side < |g.lines| && PostFlips(env, g, req, side, p, flips, date).Ok?
    ensures Grows(g, PostFlips(env, g, req, side, p, flips, date).value, p)
  {
    if flips == [] {
      GrowsSelf(g, p);
    } else {
      CommitGrows(g, FlipPosting(g, side, p, flips, date), p);
      var g1 := Commit(g, FlipPosting(g, side, p, flips, date)).value;
      var matched := MatchLegs(FlipLines(flips), flips).value;
      PairFlipsGrows(g1, flips, matched, |g.lines|, p, req.origin, date);
      GrowsTransitive(g, g1, PostFlips(env, g, req, side, p, flips, date).value, p);
    }
  }

  /** The edge at a position is the root edge asked for. */
  predicate RootAt(edges: seq<Edge>, i: nat, p: nat, d: nat, c: nat, applied: int) {
    i < |edges| && edges[i].id == p && edges[i].debit == d && edges[i].credit == c && edges[i].amount == applied
  }

  lemma {:induction false} LinkEdgesGrows(cfg: Config, env: Env, g: Graph, req: PairRequest, d: nat, c: nat,
                                          applied: int)
    requires d < |g.lines| && c < |g.lines|
    requires LinkEdges(cfg, env, g, req, d, c, applied).Ok?
    ensures Grows(g, LinkEdges(cfg, env, g, req, d, c, applied).value.0, g.nextEdge)
    ensures LinkEdges(cfg, env, g, req, d, c, applied).value.0.nextEdge > g.nextEdge
    ensures Shelf(g) ==> Shelf(LinkEdges(cfg, env, g, req, d, c, applied).value.0)
    ensures RootAt(LinkEdges(cfg, env, g, req, d, c, applied).value.0.edges, |g.edges|, g.nextEdge, d, c, applied)
  {
    var p, date := g.nextEdge, MaxDate(g, d, c);
    InsertGrows(g, d, c, applied, date, req.origin, g.lines[c].sourceId, p);
    var g1 := InsertPartial(g, d, c, applied, date, req.origin, g.lines[c].sourceId).value;
    TrueUpGrows(cfg, env, g1, req, d, c, p, applied);
    var g2 := TrueUp(cfg, env, g1, req, d, c, p, applied).value.0;
    FlipSideGrows(cfg, env, g2, req, d, p, applied, Residual(g, d), date);
    var g3 := FlipSide(cfg, env, g2, req, d, p, applied, Residual(g, d), date).value;
    FlipSideGrows(cfg, env, g3, req, c, p, applied, Residual(g, c), date);
    var g4 := FlipSide(cfg, env, g3, req, c, p, applied, Residual(g, c), date).value;
    GrowsTransitive(g, g1, g2, p);
    GrowsTransitive(g, g2, g3, p);
    GrowsTransitive(g, g3, g4, p);
    GrowsTransitive(g1, g2, g3, p);
    GrowsTransitive(g1, g3, g4, p);
    if Shelf(g) {
      assert RefsKnown(g) by {
        Books(g);
      }
      InsertShelf(g, d, c, applied, date, req.origin, g.lines[c].sourceId);
    }
  }
}
