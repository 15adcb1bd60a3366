/**
 * The link and the unlink as sequences of invariant-keeping steps. Pairing after a link and
 * regrouping after a removal turn out to change nothing.
 */
module ReconcileSteps {
  import opened Wrappers
  import opened GlPosting
  import opened ReconcileGraph
  import opened ReconcileInvariants
  import opened ReconcileVerbs

  // ------------------------------------------------------------------ link

  lemma {:induction false} TakenNonNegative(flips: seq<Flip>, first: nat, l: nat)
    requires PositiveFlips(flips)
    ensures Taken(flips, first, l) >= 0
  {
    if flips == [] {
    } else {
      TakenNonNegative(flips[..|flips| - 1], first, l);
    }
  }

  lemma {:induction false} FlipSideLowers(cfg: Config, env: Env, g: Graph, req: PairRequest, side: nat, partial: nat,
                                          applied: int, resBefore: int, date: int)
    requires Inv(g) && side < |g.lines| && EnvOk(g, env)
    requires 0 <= applied <= resBefore <= g.lines[side].base
    requires FlipSide(cfg, env, g, req, side, partial, applied, resBefore, date).Ok?
    ensures var g' := FlipSide(cfg, env, g, req, side, partial, applied, resBefore, date).value;
      Inv(g') && EnvOk(g', env) && forall l | 0 <= l < |g.lines| :: Residual(g', l) <= Residual(g, l)
  {
    FlipSideKeepsInv(cfg, env, g, req, side, partial, applied, resBefore, date);
    SideFlipsSound(cfg, env, g, side, applied, resBefore);
    forall l: nat ensures Taken(SideFlips(cfg, env, g, side, applied, resBefore), |g.lines|, l) >= 0 {
      TakenNonNegative(SideFlips(cfg, env, g, side, applied, resBefore), |g.lines|, l);
    }
  }

  // ------------------------------------------------------------------ locators

  lemma {:induction false} OnlyOne(n: nat, s: set<nat>, l: nat)
    requires l < n && forall x :: x in s <==> x == l
    ensures Ascending(n, s) == [l]
  {
    if n - 1 == l {
      NoneBelow(n - 1, s);
    } else {
      OnlyOne(n - 1, s, l);
    }
  }

  lemma {:induction false} NoneBelow(n: nat, s: set<nat>)
    requires forall x | x in s :: x >= n
    ensures Ascending(n, s) == []
  {
    FirstIsIn(Ascending(n, s));
  }

  lemma {:induction false} ResolveUnique(g: Graph, loc: LineLocator, l: nat)
    requires l < |g.lines| && forall x | 0 <= x < |g.lines| :: Located(g, x, loc) <==> x == l
    ensures Resolve(g, loc) == Ok(l)
  {
    OnlyOne(|g.lines|, (set x | 0 <= x < |g.lines| && Located(g, x, loc)), l);
  }

  lemma {:induction false} FirstIsIn(s: seq<nat>)
    ensures s == [] || s[0] in s
  {
  }

  lemma {:induction false} AscendingSize(n: nat, s: set<nat>)
    requires forall x | x in s :: x < n
    ensures |Ascending(n, s)| == |s|
  {
    if n == 0 {
      assert s == {};
    } else {
      AscendingSize(n - 1, s - {n - 1});
      AscendingSkips(n - 1, s, n - 1);
    }
  }

  lemma {:induction false} AscendingSkips(n: nat, s: set<nat>, x: nat)
    requires n <= x
    ensures Ascending(n, s - {x}) == Ascending(n, s)
  {
    if n == 0 {
    } else {
      AscendingSkips(n - 1, s, x);
    }
  }

  /** The lines a locator could mean. */
  function Candidates(g: Graph, loc: LineLocator): set<nat> {
    set l | 0 <= l < |g.lines| && Located(g, l, loc)
  }

  lemma {:induction false} SingleIs(s: set<nat>)
    ensures |s| == 1 <==> exists l :: s == {l}
    ensures forall l | s == {l} :: |s| == 1
  {
    if |s| == 1 {
      var l :| l in s;
      assert |s - {l}| == 0;
      assert s == {l};
    }
  }

  /** One candidate is the answer; none and several are told apart, and several are counted. */
  lemma {:induction false} ResolveCounts(g: Graph, loc: LineLocator)
    ensures |Candidates(g, loc)| == 0 <==> Resolve(g, loc) == Err(LineNotFound)
    ensures forall l :: Resolve(g, loc) == Ok(l) <==> Candidates(g, loc) == {l}
    ensures forall n :: Resolve(g, loc) == Err(AmbiguousLocator(n)) <==> |Candidates(g, loc)| == n >= 2
  {
    var s := Candidates(g, loc);
    var found := Ascending(|g.lines|, s);
    AscendingSize(|g.lines|, s);
    FirstIsIn(found);
    SingleIs(s);
  }

  /** What a valid pair gives: two distinct lines of one account, on opposite sides, and an amount within both residuals. */
  lemma {:induction false} ValidPair(cfg: Config, g: Graph, d: nat, c: nat, amount: int)
    requires Inv(g) && d < |g.lines| && c < |g.lines| && ValidatePair(cfg, g, d, c, amount).Ok?
    ensures var applied := ValidatePair(cfg, g, d, c, amount).value;
      && d != c && 0 <= applied && applied == Min(Min(amount, Residual(g, d)), Residual(g, c))
      && applied <= Residual(g, d) <= g.lines[d].base && applied <= Residual(g, c) <= g.lines[c].base
    ensures g.lines[d].account == g.lines[c].account && g.lines[d].debit > 0 && g.lines[c].credit > 0
    ensures g.lines[d].credit == 0 && g.lines[c].debit == 0
  {
    Clauses(g);
    assert LineOk(g.lines[d], |g.journals|) && LineOk(g.lines[c], |g.journals|);
  }

  /** The root edge and its true-up take at least the applied amount from both lines. */
  lemma {:induction false} RootLowers(cfg: Config, env: Env, g: Graph, g1: Graph, g2: Graph, req: PairRequest, d: nat,
                                      c: nat, applied: int, total: int)
    requires Inv(g) && d < |g.lines| && c < |g.lines| && d != c
    requires 0 < applied <= Residual(g, d) && applied <= Residual(g, c)
    requires InsertPartial(g, d, c, applied, MaxDate(g, d, c), req.origin, g.lines[c].sourceId) == Ok(g1)
    requires TrueUp(cfg, env, g1, req, d, c, g.nextEdge, applied) == Ok((g2, total))
    ensures Inv(g2) && g.lines <= g2.lines
    ensures Residual(g2, d) <= Residual(g, d) - applied && Residual(g2, c) <= Residual(g, c) - applied
  {
    InsertKeepsInv(g, d, c, applied, MaxDate(g, d, c), req.origin, g.lines[c].sourceId);
    InsertResiduals(g, d, c, applied, MaxDate(g, d, c), req.origin, g.lines[c].sourceId);
    TrueUpKeepsInv(cfg, env, g1, req, d, c, g.nextEdge, applied);
  }

  lemma {:induction false} BothFlipsLower(cfg: Config, env: Env, g: Graph, g1: Graph, g2: Graph, req: PairRequest,
                                          d: nat,
                                          c: nat, partial: nat, applied: int, resD: int, resC: int, date: int)
    requires Inv(g) && EnvOk(g, env) && d < |g.lines| && c < |g.lines|
    requires 0 <= applied <= resD <= g.lines[d].base && applied <= resC <= g.lines[c].base
    requires FlipSide(cfg, env, g, req, d, partial, applied, resD, date) == Ok(g1)
    requires FlipSide(cfg, env, g1, req, c, partial, applied, resC, date) == Ok(g2)
    ensures Inv(g2) && g.lines <= g2.lines
    ensures Residual(g2, d) <= Residual(g, d) && Residual(g2, c) <= Residual(g, c)
  {
    FlipSideLowers(cfg, env, g, req, d, partial, applied, resD, date);
    FlipSideLowers(cfg, env, g1, req, c, partial, applied, resC, date);
  }

  lemma {:induction false} LinkEdgesKeepsInv(cfg: Config, env: Env, g: Graph, req: PairRequest, d: nat, c: nat,
                                             applied: int)
    requires Inv(g) && EnvOk(g, env) && d < |g.lines| && c < |g.lines| && d != c
    requires 0 < applied <= Residual(g, d) && applied <= Residual(g, c)
    requires LinkEdges(cfg, env, g, req, d, c, applied).Ok?
    ensures var g' := LinkEdges(cfg, env, g, req, d, c, applied).value.0;
      Inv(g') && Residual(g', d) <= Residual(g, d) - applied && Residual(g', c) <= Residual(g, c) - applied
  {
    var partial, date := g.nextEdge, MaxDate(g, d, c);
    assert Residual(g, d) <= g.lines[d].base && Residual(g, c) <= g.lines[c].base by {
      Clauses(g);
    }
    var g1 := InsertPartial(g, d, c, applied, date, req.origin, g.lines[c].sourceId).value;
    var (g2, total) := TrueUp(cfg, env, g1, req, d, c, partial, applied).value;
    RootLowers(cfg, env, g, g1, g2, req, d, c, applied, total);
    var g3 := FlipSide(cfg, env, g2, req, d, partial, applied, Residual(g, d), date).value;
    var g4 := FlipSide(cfg, env, g3, req, c, partial, applied, Residual(g, c), date).value;
    BothFlipsLower(cfg, env, g2, g3, g4, req, d, c, partial, applied, Residual(g, d), Residual(g, c), date);
  }

  /** Pairing after a link changes nothing: both lines have just been applied to. */
  lemma {:induction false} PairingAfterLinkIsIdle(g: Graph, d: nat, c: nat)
    requires d < |g.lines| && c < |g.lines|
    requires Residual(g, d) < g.lines[d].base && Residual(g, c) < g.lines[c].base
    ensures PairAll(g, [d, c]) == Ok(g)
  {
    assert [d, c][..1] == [d] && [d][..0] == [];
    assert PairAll(g, []) == Ok(g);
    assert PairAll(g, [d]) == PairOne(g, d);
  }

  /** After the edges are in, the verb only groups: pairing is idle. */
  lemma {:induction false} LinkEnds(cfg: Config, env: Env, g: Graph, req: PairRequest, d: nat, c: nat, applied: int)
    requires d < |g.lines| && c < |g.lines| && 0 < applied
    requires LinkEdges(cfg, env, g, req, d, c, applied).Ok?
    requires Residual(g, d) <= g.lines[d].base && Residual(g, c) <= g.lines[c].base
    requires var g1 := LinkEdges(cfg, env, g, req, d, c, applied).value.0;
      Inv(g1) && Residual(g1, d) <= Residual(g, d) - applied && Residual(g1, c) <= Residual(g, c) - applied
    ensures var (g1, total) := LinkEdges(cfg, env, g, req, d, c, applied).value;
      var g2 := Complete(g1, {d, c}, total).0;
      Inv(g2) && SameFlows(g1, g2) && PairAll(g2, [d, c]) == Ok(g2)
  {
    var (g1, total) := LinkEdges(cfg, env, g, req, d, c, applied).value;
    CompleteKeepsInv(g1, {d, c}, total);
    var g2 := Complete(g1, {d, c}, total).0;
    SameFlowsResiduals(g1, g2);
    PairingAfterLinkIsIdle(g2, d, c);
  }

  // ------------------------------------------------------------------ unlink

  /** Reversals add journals and lines and touch nothing the graph held. */
  ghost predicate OnlyPosts(g: Graph, g': Graph) {
    && g.lines <= g'.lines && g.journals <= g'.journals && g.ledger <= g'.ledger
    && g'.edges == g.edges && g'.stamps == g.stamps && g'.groups == g.groups
    && g'.nextEdge == g.nextEdge && g'.nextGroup == g.nextGroup && g.keys <= g'.keys
    && forall l | 0 <= l < |g.lines| :: Residual(g', l) == Residual(g, l)
  }

  lemma {:induction false} JournalLinesClean(g: Graph, j: nat)
    requires LinesOk(g) && j < |g.journals|
    ensures AllClean(JournalLines(g, j))
  {
    var first := g.journals[j].first;
    forall i | 0 <= i < |JournalLines(g, j)| ensures Clean(JournalLines(g, j)[i]) {
      assert LineOk(g.lines[first + i], |g.journals|);
    }
  }

  lemma {:induction false} ReverseJournalKeepsInv(env: Env, g: Graph, j: nat)
    requires Inv(g) && ReverseJournal(env, g, j).Ok?
    ensures var g' := ReverseJournal(env, g, j).value; Inv(g') && OnlyPosts(g, g')
  {
    if j < |g.journals| && JournalLines(g, j) != [] {
      assert LinesOk(g) && EdgesOk(g) by {
        Clauses(g);
      }
      JournalLinesClean(g, j);
      ReversalNetsToZero(JournalLines(g, j));
      CommitKeepsInv(g, ReversalPosting(env, g, j));
      CommitResiduals(g, ReversalPosting(env, g, j));
    }
  }

  lemma {:induction false} ReverseAllKeepsInv(env: Env, g: Graph, js: seq<nat>)
    requires Inv(g) && ReverseAll(env, g, js).Ok?
    ensures var g' := ReverseAll(env, g, js).value; Inv(g') && OnlyPosts(g, g')
  {
    if js == [] {
    } else {
      ReverseAllKeepsInv(env, g, js[..|js| - 1]);
      ReverseJournalKeepsInv(env, ReverseAll(env, g, js[..|js| - 1]).value, js[|js| - 1]);
    }
  }

  /** Regrouping after a removal never groups: every endpoint of a deleted edge is open again. */
  lemma {:induction false} RegroupIsIdle(g: Graph, roots: set<nat>)
    requires Inv(g)
    ensures var g' := RemoveEdges(g, roots);
      Complete(g', Ends(Select(g.edges, roots, true)), 0) == (g', None)
  {
    var g' := RemoveEdges(g, roots);
    var ends := Ends(Select(g.edges, roots, true));
    var comp := Component(g'.edges, ends);
    if ends != {} {
      var x :| x in ends;
      assert x < |g.lines| && Residual(g', x) > 0 by {
        Clauses(g);
        TakenEndsInLines(g, roots);
        RemoveResiduals(g, roots);
      }
      ComponentCloses(g'.edges, ends);
      assert !Settled(g', comp);
    } else {
      assert Neighbours(g'.edges, {}) == {};
    }
  }

  lemma {:induction false} TakenEndsInLines(g: Graph, roots: set<nat>)
    requires EdgesOk(g)
    ensures forall x | x in Ends(Select(g.edges, roots, true)) :: x < |g.lines|
  {
    var taken := Select(g.edges, roots, true);
    SelectMembers(g.edges, roots, true);
    forall x | x in Ends(taken) ensures x < |g.lines| {
      var i :| 0 <= i < |taken| && (taken[i].debit == x || taken[i].credit == x);
      assert taken[i] in g.edges;
    }
  }
}
