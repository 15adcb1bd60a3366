/**
 * Every verb of the reconciliation service keeps the graph's invariants: the exchange
 * true-up, the cash-basis flips, reversal pairing, the link and the unlink.
 */
module ReconcileVerbs {
  import opened Wrappers
  import opened Rounding
  import opened GlPosting
  import opened ReconcileGraph
  import opened ReconcileInvariants

  // ------------------------------------------------------------------ exchange true-up

  /** At cent scale the half-cent tolerance is equality. */
  lemma {:induction false} ToleranceIsEquality(resD: int, resC: int, predicted: int)
    ensures ExchangeDiff(resD, resC, predicted) ==
      if resC == 0 && resD > 0 && resD == predicted then Some(resD)
      else if resD == 0 && resC > 0 && resC == predicted then Some(-resC)
      else None
  {
    assert 2 * Abs(resD - predicted) <= 1 <==> resD == predicted;
  }

  /** The exchange journal is balanced and clean, and its control-account line mirrors the FX line. */
  lemma {:induction false} FxPairSound(fx: nat, debit: Line, diff: int)
    requires diff != 0
    ensures var ls := FxPair(fx, debit, diff);
      && |ls| == 2 && AllClean(ls) && Balanced(ls)
      && ls[0].account == fx && ls[1].account == debit.account
      && ls[1].credit - ls[1].debit == diff
  {
    var ls := FxPair(fx, debit, diff);
    PairSums(ls[0], ls[1]);
  }

  /** The lines just committed are the journal's lines. */
  lemma {:induction false} CommittedLines(g: Graph, w: Posting)
    requires Commit(g, w).Ok?
    ensures var g' := Commit(g, w).value;
      && JournalLines(g', |g.journals|) == w.lines
      && g'.journals[|g.journals|].first == |g.lines|
  {
    var g' := Commit(g, w).value;
    var j := |g.journals|;
    assert g'.journals[j].first + g'.journals[j].count == |g'.lines|;
    var ls := JournalLines(g', j);
    assert |ls| == |w.lines|;
    forall i | 0 <= i < |ls| ensures ls[i] == w.lines[i] {
      assert g'.lines[|g.lines| + i] == NewLine(w, j, w.lines[i]);
      assert AsPosting(NewLine(w, j, w.lines[i])) == w.lines[i];
    }
  }

  lemma {:induction false} PostExchangeKeepsInv(g: Graph, fx: nat, d: nat, partial: nat, diff: int, date: int)
    requires Inv(g) && d < |g.lines| && diff != 0
    requires PostExchange(g, fx, d, partial, diff, date).Ok?
    ensures var g' := PostExchange(g, fx, d, partial, diff, date).value;
      && Inv(g') && |g'.lines| == |g.lines| + 2 && SameFlow(g.edges, g'.edges) && g'.nextEdge == g.nextEdge
      && Residual(g', |g.lines|) == Residual(g', |g.lines| + 1) == Abs(diff)
      && (forall l | 0 <= l < |g.lines| :: Residual(g', l) == Residual(g, l))
  {
    Clauses(g);
    var w := ExchangePosting(g, fx, d, partial, diff, date);
    FxPairSound(fx, g.lines[d], diff);
    CommitKeepsInv(g, w);
    CommitResiduals(g, w);
    var g1 := Commit(g, w).value;
    SetExchangeMoveKeepsInv(g1, partial, |g.journals|);
    assert g1.lines[|g.lines|] == NewLine(w, |g.journals|, w.lines[0]);
    assert g1.lines[|g.lines| + 1] == NewLine(w, |g.journals|, w.lines[1]);
  }

  /** The line the true-up edge takes from the exchange journal. */
  lemma {:induction false} PostExchangeLine(g: Graph, fx: nat, d: nat, partial: nat, diff: int, date: int)
    requires d < |g.lines| && diff != 0
    requires PostExchange(g, fx, d, partial, diff, date).Ok?
    ensures var g' := PostExchange(g, fx, d, partial, diff, date).value;
      LineOn(g'.lines, g.lines[d].account, |g.lines|, |g'.lines|)
      == Some(|g.lines| + (if fx == g.lines[d].account then 0 else 1))
  {
    var w := ExchangePosting(g, fx, d, partial, diff, date);
    var g' := PostExchange(g, fx, d, partial, diff, date).value;
    assert g'.lines[|g.lines|] == NewLine(w, |g.journals|, w.lines[0]);
    assert g'.lines[|g.lines| + 1] == NewLine(w, |g.journals|, w.lines[1]);
  }

  /** An edge for all that is open on both its lines. */
  lemma {:induction false} InsertSettles(g: Graph, d: nat, c: nat, amount: int, date: int, origin: string,
                                         source: Option<Ref>)
    requires Inv(g) && InsertPartial(g, d, c, amount, date, origin, source).Ok?
    requires Residual(g, d) == amount && Residual(g, c) == amount
    ensures var g' := InsertPartial(g, d, c, amount, date, origin, source).value;
      && Inv(g') && Residual(g', d) == 0 && Residual(g', c) == 0
      && forall l | 0 <= l < |g.lines| && l != d && l != c :: Residual(g', l) == Residual(g, l)
  {
    InsertKeepsInv(g, d, c, amount, date, origin, source);
    InsertResiduals(g, d, c, amount, date, origin, source);
  }

  lemma {:induction false} SettleExchangeKeepsInv(g: Graph, req: PairRequest, d: nat, c: nat, exch: nat, partial: nat,
                                                  diff: int, date: int)
    requires Inv(g) && SettleExchange(g, req, d, c, exch, partial, diff, date).Ok?
    requires diff != 0
    requires d < |g.lines| && c < |g.lines| && exch < |g.lines| && Residual(g, exch) == Abs(diff)
    requires Residual(g, if diff > 0 then d else c) == Abs(diff)
    ensures var g' := SettleExchange(g, req, d, c, exch, partial, diff, date).value;
      var open := if diff > 0 then d else c;
      && Inv(g') && Residual(g', open) == 0 && Residual(g', exch) == 0
      && forall l | 0 <= l < |g.lines| && l != open && l != exch :: Residual(g', l) == Residual(g, l)
  {
    if diff > 0 {
      InsertSettles(g, d, exch, diff, date, req.origin, Some(PartialRef(partial)));
    } else {
      InsertSettles(g, exch, c, -diff, date, req.origin, Some(PartialRef(partial)));
    }
  }

  /** Posting a true-up settles the side that retained the difference and the exchange line with it. */
  lemma {:induction false} PostTrueUpKeepsInv(cfg: Config, env: Env, g: Graph, req: PairRequest, d: nat, c: nat,
                                              partial: nat, diff: int, date: int)
    requires Inv(g) && d < |g.lines| && c < |g.lines| && diff != 0
    requires Residual(g, if diff > 0 then d else c) == Abs(diff)
    requires PostTrueUp(cfg, env, g, req, d, c, partial, diff, date).Ok?
    ensures var g' := PostTrueUp(cfg, env, g, req, d, c, partial, diff, date).value;
      var open := if diff > 0 then d else c;
      var exch := |g.lines| + (if cfg.fx == Some(g.lines[d].account) then 0 else 1);
      && Inv(g') && |g'.lines| == |g.lines| + 2
      && Residual(g', open) == 0 && Residual(g', exch) == 0
      && forall l | 0 <= l < |g.lines| && l != open :: Residual(g', l) == Residual(g, l)
  {
    var fx := cfg.fx.value;
    PostExchangeKeepsInv(g, fx, d, partial, diff, date);
    PostExchangeLine(g, fx, d, partial, diff, date);
    SettledTrueUp(g, PostExchange(g, fx, d, partial, diff, date).value,
                  PostTrueUp(cfg, env, g, req, d, c, partial, diff, date).value,
                  req, d, c, |g.lines| + (if fx == g.lines[d].account then 0 else 1), partial, diff, date);
  }

  lemma {:induction false} SettledTrueUp(g: Graph, g1: Graph, g': Graph, req: PairRequest, d: nat, c: nat, exch: nat,
                                         partial: nat, diff: int, date: int)
    requires d < |g.lines| && c < |g.lines| && diff != 0 && Residual(g, if diff > 0 then d else c) == Abs(diff)
    requires Inv(g1) && g.lines <= g1.lines && |g.lines| <= exch < |g1.lines| && Residual(g1, exch) == Abs(diff)
    requires forall l | 0 <= l < |g.lines| :: Residual(g1, l) == Residual(g, l)
    requires SettleExchange(g1, req, d, c, exch, partial, diff, date) == Ok(g')
    ensures var open := if diff > 0 then d else c;
      && Inv(g') && g'.lines == g1.lines
      && Residual(g', open) == 0 && Residual(g', exch) == 0
      && forall l | 0 <= l < |g.lines| && l != open :: Residual(g', l) == Residual(g, l)
  {
    SettleExchangeKeepsInv(g1, req, d, c, exch, partial, diff, date);
  }

  /** A true-up either does nothing or leaves both linked lines settled. */
  lemma {:induction false} TrueUpKeepsInv(cfg: Config, env: Env, g: Graph, req: PairRequest, d: nat, c: nat,
                                          partial: nat, applied: int)
    requires Inv(g) && d < |g.lines| && c < |g.lines| && d != c
    requires TrueUp(cfg, env, g, req, d, c, partial, applied).Ok?
    ensures var (g', total) := TrueUp(cfg, env, g, req, d, c, partial, applied).value;
      && Inv(g')
      && (total == 0 ==> g' == g)
      && (total != 0 ==> Residual(g', d) == 0 && Residual(g', c) == 0)
      && (forall l | 0 <= l < |g.lines| && l != d && l != c :: Residual(g', l) == Residual(g, l))
      && Residual(g', d) <= Residual(g, d) && Residual(g', c) <= Residual(g, c)
  {
    var (g', total) := TrueUp(cfg, env, g, req, d, c, partial, applied).value;
    if g.lines[d].rate != g.lines[c].rate && total != 0 {
      PostTrueUpKeepsInv(cfg, env, g, req, d, c, partial, total, MaxDate(g, d, c));
    }
  }

  // ------------------------------------------------------------------ cash-basis flips

  /** The real leg of one deferral could be taken for the transition leg of another. */
  ghost predicate Crosses(a: Deferral, b: Deferral) {
    a.exigible == b.transition && a.isDebit != b.isDebit
  }

  ghost predicate NoCross(flips: seq<Flip>) {
    forall i, k | 0 <= i < k < |flips| :: !Crosses(flips[i].d, flips[k].d)
  }

  ghost predicate DistinctSources(flips: seq<Flip>) {
    forall i, k | 0 <= i < k < |flips| :: flips[i].d.sourceLine != flips[k].d.sourceLine
  }

  ghost predicate PositiveFlips(flips: seq<Flip>) {
    forall i | 0 <= i < |flips| :: flips[i].amount > 0
  }

  /** Flip k paired with its own transition leg. */
  function OwnLegs(n: nat): (r: seq<nat>)
    ensures |r| == n && forall k | 0 <= k < n :: r[k] == 2 * k + 1
  {
    if n == 0 then [] else OwnLegs(n - 1) + [2 * n - 1]
  }

  lemma {:induction false} LegFitsCases(all: seq<Flip>, i: nat, k: nat)
    requires i < |all| && k < |all| && PositiveFlips(all)
    ensures var legs := FlipLines(all);
      && (LegFits(legs[2 * i], all[k]) <==> Crosses(all[i].d, all[k].d))
      && (LegFits(legs[2 * i + 1], all[k]) <==>
          all[i].d.transition == all[k].d.transition && all[i].d.isDebit == all[k].d.isDebit)
  {
  }

  ghost predicate Uncrossed(all: seq<Flip>, k: nat)
    requires k < |all|
  {
    forall i | 0 <= i < k :: !Crosses(all[i].d, all[k].d)
  }

  lemma {:induction false} OwnLegsUsed(n: nat)
    ensures forall x :: x in Used(OwnLegs(n)) <==> 0 <= x < 2 * n && x % 2 == 1
  {
    forall x | 0 <= x < 2 * n && x % 2 == 1 ensures x in Used(OwnLegs(n)) {
      assert OwnLegs(n)[x / 2] == x;
    }
  }

  lemma {:induction false} FindsFirst(legs: seq<PostingLine>, used: set<nat>, f: Flip, at: nat)
    requires at < |legs| && at !in used && LegFits(legs[at], f)
    ensures FindLeg(legs, used, f, 0) == Some(at) <==> forall x | 0 <= x < at :: x in used || !LegFits(legs[x], f)
  {
  }

  lemma {:induction false} FreeLeg(all: seq<Flip>, n: nat, x: nat)
    requires n < |all| && PositiveFlips(all) && Uncrossed(all, n) && x < 2 * n + 1
    ensures x in Used(OwnLegs(n)) || !LegFits(FlipLines(all)[x], all[n])
  {
    OwnLegsUsed(n);
    var i := x / 2;
    if x == 2 * i {
      LegFitsCases(all, i, n);
    } else {
      assert x == 2 * i + 1;
    }
  }

  lemma {:induction false} CrossedLeg(all: seq<Flip>, n: nat, i: nat)
    requires i < n < |all| && PositiveFlips(all) && Crosses(all[i].d, all[n].d)
    ensures 2 * i !in Used(OwnLegs(n)) && LegFits(FlipLines(all)[2 * i], all[n])
  {
    OwnLegsUsed(n);
    LegFitsCases(all, i, n);
  }

  /** With the first n flips on their own legs, flip n takes its own leg unless an earlier real leg crosses it. */
  lemma {:induction false} NextLeg(all: seq<Flip>, n: nat)
    requires n < |all| && PositiveFlips(all)
    ensures FindLeg(FlipLines(all), Used(OwnLegs(n)), all[n], 0) == Some(2 * n + 1) <==> Uncrossed(all, n)
  {
    var legs, used := FlipLines(all), Used(OwnLegs(n));
    OwnLegsUsed(n);
    LegFitsCases(all, n, n);
    FindsFirst(legs, used, all[n], 2 * n + 1);
    if Uncrossed(all, n) {
      forall x | 0 <= x < 2 * n + 1 ensures x in used || !LegFits(legs[x], all[n]) {
        FreeLeg(all, n, x);
      }
    } else {
      var i :| 0 <= i < n && Crosses(all[i].d, all[n].d);
      CrossedLeg(all, n, i);
    }
  }

  ghost predicate TakesOwn(legs: seq<PostingLine>, all: seq<Flip>, k: nat)
    requires k < |all|
  {
    FindLeg(legs, Used(OwnLegs(k)), all[k], 0) == Some(2 * k + 1)
  }

  lemma {:induction false} MatchPrefix(legs: seq<PostingLine>, all: seq<Flip>, n: nat)
    requires n <= |all|
    ensures MatchLegs(legs, all[..n]) == Some(OwnLegs(n)) <==> forall k | 0 <= k < n :: TakesOwn(legs, all, k)
  {
    if n == 0 {
    } else {
      var k := n - 1;
      MatchPrefix(legs, all, k);
      assert MatchLegs(legs, all[..n]) == Some(OwnLegs(n)) <==>
        MatchLegs(legs, all[..k]) == Some(OwnLegs(k)) && TakesOwn(legs, all, k)
      by {
        assert all[..n][..k] == all[..k] && all[..n][k] == all[k];
        MatchStep(legs, all[..n], k);
      }
    }
  }

  lemma {:induction false} MatchStep(legs: seq<PostingLine>, flips: seq<Flip>, k: nat)
    requires |flips| == k + 1
    ensures MatchLegs(legs, flips) == Some(OwnLegs(k + 1)) <==>
      MatchLegs(legs, flips[..k]) == Some(OwnLegs(k))
      && FindLeg(legs, Used(OwnLegs(k)), flips[k], 0) == Some(2 * k + 1)
  {
    var earlier := MatchLegs(legs, flips[..k]);
    if earlier.Some? {
      var leg := FindLeg(legs, Used(earlier.value), flips[k], 0);
      if leg.Some? {
        PushedAlike(earlier.value, leg.value, OwnLegs(k), 2 * k + 1);
      }
    }
  }

  lemma {:induction false} PushedAlike(a: seq<nat>, x: nat, b: seq<nat>, y: nat)
    requires |a| == |b|
    ensures a + [x] == b + [y] <==> a == b && x == y
  {
    if a + [x] == b + [y] {
      assert (a + [x])[..|a|] == a && (b + [y])[..|a|] == b;
      assert (a + [x])[|a|] == x && (b + [y])[|a|] == y;
    }
  }

  /**
   * Legs are matched by account and side only. Every flip gets its own leg exactly when no
   * earlier deferral's real account is a later one's transition account on the opposite side.
   */
  lemma {:induction false} LegsMatchIff(flips: seq<Flip>)
    requires PositiveFlips(flips)
    ensures MatchLegs(FlipLines(flips), flips) == Some(OwnLegs(|flips|)) <==> NoCross(flips)
  {
    var legs := FlipLines(flips);
    MatchPrefix(legs, flips, |flips|);
    assert flips[..|flips|] == flips;
    forall k | 0 <= k < |flips| ensures TakesOwn(legs, flips, k) <==> Uncrossed(flips, k) {
      NextLeg(flips, k);
    }
    if NoCross(flips) {
      assert forall k | 0 <= k < |flips| :: Uncrossed(flips, k);
    }
    if forall k | 0 <= k < |flips| :: TakesOwn(legs, flips, k) {
      forall i, k | 0 <= i < k < |flips| ensures !Crosses(flips[i].d, flips[k].d) {
        assert TakesOwn(legs, flips, k);
      }
    }
  }

  lemma {:induction false} FlipLinesClean(flips: seq<Flip>)
    requires PositiveFlips(flips)
    ensures AllClean(FlipLines(flips))
  {
    forall i | 0 <= i < |FlipLines(flips)| ensures Clean(FlipLines(flips)[i]) {
      var k := i / 2;
      assert i == 2 * k || i == 2 * k + 1;
      assert FlipLines(flips)[2 * k] == RealLeg(flips[k]) && FlipLines(flips)[2 * k + 1] == TransitionLeg(flips[k]);
    }
  }

  /** The flip journal is clean and balanced by construction. */
  lemma {:induction false} FlipLinesSound(flips: seq<Flip>)
    requires PositiveFlips(flips)
    ensures AllClean(FlipLines(flips)) && Balanced(FlipLines(flips))
  {
    if flips == [] {
    } else {
      var k := |flips| - 1;
      FlipLinesSound(flips[..k]);
      PairSums(RealLeg(flips[k]), TransitionLeg(flips[k]));
      Append(FlipLines(flips[..k]), [RealLeg(flips[k]), TransitionLeg(flips[k])]);
    }
    FlipLinesClean(flips);
  }

  /** The contract of the deferral lookup: one row per source line, all in the graph, no crossing accounts. */
  ghost predicate PortOk(ds: seq<Deferral>, lines: nat) {
    && (forall i | 0 <= i < |ds| :: ds[i].sourceLine < lines)
    && (forall i, k | 0 <= i < k < |ds| :: ds[i].sourceLine != ds[k].sourceLine && !Crosses(ds[i], ds[k]))
  }

  ghost predicate EnvOk(g: Graph, env: Env) {
    env.deferred.Some? ==> forall key | key in env.deferred.value :: PortOk(env.deferred.value[key], |g.lines|)
  }

  /** The flips are the deferrals still owed something, in order. */
  lemma {:induction false} FlipsMembers(g: Graph, ds: seq<Deferral>, cum: int, base: nat)
    requires base > 0
    ensures forall f | f in Flips(g, ds, cum, base) ::
      f.d in ds && f.amount == FlipAmount(g, f.d, cum, base) && f.amount > 0
    ensures forall d | d in ds && FlipAmount(g, d, cum, base) > 0 ::
      Flip(d, FlipAmount(g, d, cum, base)) in Flips(g, ds, cum, base)
  {
    if ds == [] {
    } else {
      FlipsMembers(g, ds[..|ds| - 1], cum, base);
      assert ds == ds[..|ds| - 1] + [ds[|ds| - 1]];
    }
  }

  lemma {:induction false} FlipsKeepPort(g: Graph, ds: seq<Deferral>, cum: int, base: nat)
    requires base > 0 && PortOk(ds, |g.lines|)
    ensures var flips := Flips(g, ds, cum, base); PositiveFlips(flips) && DistinctSources(flips) && NoCross(flips)
  {
    if ds == [] {
    } else {
      var k := |ds| - 1;
      FlipsKeepPort(g, ds[..k], cum, base);
      LastIsApart(g, ds, cum, base);
      FlipPushed(Flips(g, ds[..k], cum, base), Flip(ds[k], FlipAmount(g, ds[k], cum, base)));
    }
  }

  lemma {:induction false} FlipPushed(init: seq<Flip>, f: Flip)
    requires PositiveFlips(init) && DistinctSources(init) && NoCross(init)
    requires forall i | 0 <= i < |init| :: init[i].d.sourceLine != f.d.sourceLine && !Crosses(init[i].d, f.d)
    ensures f.amount > 0 ==> PositiveFlips(init + [f]) && DistinctSources(init + [f]) && NoCross(init + [f])
  {
  }

  lemma {:induction false} LastIsApart(g: Graph, ds: seq<Deferral>, cum: int, base: nat)
    requires base > 0 && ds != [] && PortOk(ds, |g.lines|)
    ensures var init, last := Flips(g, ds[..|ds| - 1], cum, base), ds[|ds| - 1];
      forall i | 0 <= i < |init| :: init[i].d.sourceLine != last.sourceLine && !Crosses(init[i].d, last)
  {
    var k := |ds| - 1;
    var init := Flips(g, ds[..k], cum, base);
    FlipsMembers(g, ds[..k], cum, base);
    forall i | 0 <= i < |init| ensures init[i].d.sourceLine != ds[k].sourceLine && !Crosses(init[i].d, ds[k]) {
      assert init[i] in init;
      var m :| 0 <= m < k && ds[..k][m] == init[i].d;
      assert ds[m] == init[i].d;
    }
  }

  /** What the derived edges of a flip journal take from line `l`, when flip k uses line first + 2k + 1. */
  function Taken(flips: seq<Flip>, first: nat, l: nat): int {
    if flips == [] then 0
    else
      var k := |flips| - 1;
      Taken(flips[..k], first, l)
      + if l == flips[k].d.sourceLine || l == first + 2 * k + 1 then flips[k].amount else 0
  }

  lemma {:induction false} TakenNothing(flips: seq<Flip>, first: nat, l: nat)
    requires forall k | 0 <= k < |flips| :: flips[k].d.sourceLine != l && first + 2 * k + 1 != l
    ensures Taken(flips, first, l) == 0
  {
    if flips == [] {
    } else {
      TakenNothing(flips[..|flips| - 1], first, l);
    }
  }

  /** Each flip takes its amount from its own source line and its own leg, and from nothing else. */
  lemma {:induction false} TakenAt(flips: seq<Flip>, first: nat, k: nat)
    requires k < |flips| && DistinctSources(flips)
    requires forall i | 0 <= i < |flips| :: flips[i].d.sourceLine < first
    ensures Taken(flips, first, flips[k].d.sourceLine) == flips[k].amount
    ensures Taken(flips, first, first + 2 * k + 1) == flips[k].amount
  {
    var n := |flips| - 1;
    if k < n {
      TakenAt(flips[..n], first, k);
    } else {
      TakenNothing(flips[..n], first, flips[n].d.sourceLine);
      TakenNothing(flips[..n], first, first + 2 * n + 1);
    }
  }

  /** Room on both ends of every derived edge. */
  ghost predicate Room(g: Graph, flips: seq<Flip>, first: nat) {
    forall k | 0 <= k < |flips| ::
      && flips[k].d.sourceLine < first && first + 2 * k + 1 < |g.lines|
      && 0 < flips[k].amount <= Residual(g, flips[k].d.sourceLine)
      && flips[k].amount <= Residual(g, first + 2 * k + 1)
  }

  lemma {:induction false} InsertFlipKeepsInv(g: Graph, f: Flip, leg: nat, partial: nat, origin: string, date: int)
    requires Inv(g) && f.d.sourceLine < |g.lines| && leg < |g.lines| && leg != f.d.sourceLine
    requires 0 < f.amount <= Residual(g, f.d.sourceLine) && f.amount <= Residual(g, leg)
    ensures var r := InsertFlip(g, f, leg, partial, origin, date);
      && r.Ok? && Inv(r.value)
      && forall l | 0 <= l < |g.lines| ::
        Residual(r.value, l) == Residual(g, l) - (if l == f.d.sourceLine || l == leg then f.amount else 0)
  {
    var d, c := if f.d.isDebit then f.d.sourceLine else leg, if f.d.isDebit then leg else f.d.sourceLine;
    InsertKeepsInv(g, d, c, f.amount, date, origin, Some(PartialRef(partial)));
    InsertResiduals(g, d, c, f.amount, date, origin, Some(PartialRef(partial)));
  }

  lemma {:induction false} PairFlipsUnfolds(g: Graph, g1: Graph, flips: seq<Flip>, first: nat, partial: nat,
                                            origin: string, date: int)
    requires flips != []
    requires PairFlips(g, flips[..|flips| - 1], OwnLegs(|flips| - 1), first, partial, origin, date) == Ok(g1)
    ensures PairFlips(g, flips, OwnLegs(|flips|), first, partial, origin, date)
         == InsertFlip(g1, flips[|flips| - 1], first + 2 * |flips| - 1, partial, origin, date)
  {
    assert OwnLegs(|flips|)[..|flips| - 1] == OwnLegs(|flips| - 1);
  }

  /** The state after the first flips are paired: their amounts taken, the rest untouched. */
  ghost predicate Paired(g: Graph, g': Graph, flips: seq<Flip>, first: nat) {
    && Inv(g') && g'.lines == g.lines
    && forall l | 0 <= l < |g.lines| :: Residual(g', l) == Residual(g, l) - Taken(flips, first, l)
  }

  lemma {:induction false} PairedStep(g: Graph, g1: Graph, flips: seq<Flip>, first: nat, partial: nat,
                                      origin: string, date: int)
    requires flips != [] && Room(g, flips, first) && DistinctSources(flips)
    requires Paired(g, g1, flips[..|flips| - 1], first)
    ensures var r := InsertFlip(g1, flips[|flips| - 1], first + 2 * |flips| - 1, partial, origin, date);
      r.Ok? && Paired(g, r.value, flips, first)
  {
    var k := |flips| - 1;
    var f, leg := flips[k], first + 2 * k + 1;
    assert f.amount <= Residual(g1, f.d.sourceLine) && f.amount <= Residual(g1, leg) by {
      TakenNothing(flips[..k], first, f.d.sourceLine);
      TakenNothing(flips[..k], first, leg);
    }
    InsertFlipKeepsInv(g1, f, leg, partial, origin, date);
    var g2 := InsertFlip(g1, f, leg, partial, origin, date).value;
    forall l | 0 <= l < |g.lines| ensures Residual(g2, l) == Residual(g, l) - Taken(flips, first, l) {
      assert Residual(g1, l) == Residual(g, l) - Taken(flips[..k], first, l);
    }
  }

  lemma {:induction false} PairFlipsKeepsInv(g: Graph, flips: seq<Flip>, first: nat, partial: nat, origin: string,
                                             date: int)
    requires Inv(g) && Room(g, flips, first) && DistinctSources(flips)
    ensures var r := PairFlips(g, flips, OwnLegs(|flips|), first, partial, origin, date);
      r.Ok? && Paired(g, r.value, flips, first)
  {
    if flips == [] {
    } else {
      var k := |flips| - 1;
      PairFlipsKeepsInv(g, flips[..k], first, partial, origin, date);
      var g1 := PairFlips(g, flips[..k], OwnLegs(k), first, partial, origin, date).value;
      PairFlipsUnfolds(g, g1, flips, first, partial, origin, date);
      PairedStep(g, g1, flips, first, partial, origin, date);
    }
  }

  /** The flip journal's transition legs are wholly open when the derived edges are inserted. */
  lemma {:induction false} FlipLegsOpen(g: Graph, side: nat, partial: nat, flips: seq<Flip>, date: int)
    requires Inv(g) && side < |g.lines| && PositiveFlips(flips)
    requires Commit(g, FlipPosting(g, side, partial, flips, date)).Ok?
    ensures var g' := Commit(g, FlipPosting(g, side, partial, flips, date)).value;
      && Inv(g') && |g'.lines| == |g.lines| + 2 * |flips|
      && (forall k | 0 <= k < |flips| :: Residual(g', |g.lines| + 2 * k + 1) == flips[k].amount)
      && forall l | 0 <= l < |g.lines| :: Residual(g', l) == Residual(g, l)
  {
    Clauses(g);
    var w := FlipPosting(g, side, partial, flips, date);
    FlipLinesSound(flips);
    CommitKeepsInv(g, w);
    CommitResiduals(g, w);
    var g' := Commit(g, w).value;
    forall k | 0 <= k < |flips| ensures g'.lines[|g.lines| + 2 * k + 1].base == flips[k].amount {
      assert g'.lines[|g.lines| + (2 * k + 1)] == NewLine(w, |g.journals|, w.lines[2 * k + 1]);
    }
  }

  lemma {:induction false} PostFlipsKeepsInv(env: Env, g: Graph, req: PairRequest, side: nat, partial: nat,
                                             flips: seq<Flip>, date: int)
    requires Inv(g) && side < |g.lines|
    requires PositiveFlips(flips) && DistinctSources(flips) && NoCross(flips)
    requires forall k | 0 <= k < |flips| ::
      flips[k].d.sourceLine < |g.lines| && flips[k].amount <= Residual(g, flips[k].d.sourceLine)
    requires PostFlips(env, g, req, side, partial, flips, date).Ok?
    ensures var g' := PostFlips(env, g, req, side, partial, flips, date).value;
      Inv(g') && Retires(g, g', flips)
  {
    if flips != [] {
      LegsMatchIff(flips);
      FlipLegsOpen(g, side, partial, flips, date);
      var g1 := Commit(g, FlipPosting(g, side, partial, flips, date)).value;
      assert Room(g1, flips, |g.lines|);
      PairFlipsKeepsInv(g1, flips, |g.lines|, partial, req.origin, date);
    }
  }

  /** The cumulative target of a deferral: its rounded share of the settled part of the face. */
  function Target(d: Deferral, cum: int, base: nat): int
    requires base > 0
  {
    RoundHalfAway(d.amount * cum, base)
  }

  lemma {:induction false} FlipWithinResidual(g: Graph, d: Deferral, cum: int, base: nat)
    requires base > 0 && 0 <= cum <= base && d.sourceLine < |g.lines|
    ensures FlipAmount(g, d, cum, base) <= Residual(g, d.sourceLine)
    ensures FlipAmount(g, d, cum, base) == Target(d, cum, base) - d.amount + Residual(g, d.sourceLine)
    ensures 0 <= Target(d, cum, base) <= d.amount
    ensures cum == base ==> Target(d, cum, base) == d.amount
  {
    ShareBounds(d.amount, cum, base);
  }

  lemma {:induction false} FlipsWithinResiduals(g: Graph, ds: seq<Deferral>, cum: int, base: nat)
    requires base > 0 && 0 <= cum <= base && PortOk(ds, |g.lines|)
    ensures var flips := Flips(g, ds, cum, base);
      forall k | 0 <= k < |flips| ::
        flips[k].d.sourceLine < |g.lines| && flips[k].amount <= Residual(g, flips[k].d.sourceLine)
  {
    var flips := Flips(g, ds, cum, base);
    FlipsMembers(g, ds, cum, base);
    forall k | 0 <= k < |flips|
      ensures flips[k].d.sourceLine < |g.lines| && flips[k].amount <= Residual(g, flips[k].d.sourceLine)
    {
      assert flips[k] in flips && flips[k].d in ds;
      FlipWithinResidual(g, flips[k].d, cum, base);
    }
  }

  lemma {:induction false} SideFlipsSound(cfg: Config, env: Env, g: Graph, side: nat, applied: int, resBefore: int)
    requires side < |g.lines| && EnvOk(g, env)
    requires 0 <= applied <= resBefore <= g.lines[side].base
    ensures var flips := SideFlips(cfg, env, g, side, applied, resBefore);
      && PositiveFlips(flips) && DistinctSources(flips) && NoCross(flips)
      && forall k | 0 <= k < |flips| ::
        flips[k].d.sourceLine < |g.lines| && flips[k].amount <= Residual(g, flips[k].d.sourceLine)
  {
    var ds, base := DeferralsOf(env, g, side), g.lines[side].base;
    if base > 0 {
      FlipsKeepPort(g, ds, base - resBefore + applied, base);
      FlipsWithinResiduals(g, ds, base - resBefore + applied, base);
    }
  }

  /** Every line `g` held gives up exactly what the flips take from it. */
  ghost predicate Retires(g: Graph, g': Graph, flips: seq<Flip>) {
    && |g.lines| <= |g'.lines|
    && forall l | 0 <= l < |g.lines| :: Residual(g', l) == Residual(g, l) - Taken(flips, |g.lines|, l)
  }

  lemma {:induction false} FlipSideKeepsInv(cfg: Config, env: Env, g: Graph, req: PairRequest, side: nat, partial: nat,
                                            applied: int, resBefore: int, date: int)
    requires Inv(g) && side < |g.lines| && EnvOk(g, env)
    requires 0 <= applied <= resBefore <= g.lines[side].base
    requires FlipSide(cfg, env, g, req, side, partial, applied, resBefore, date).Ok?
    ensures var g' := FlipSide(cfg, env, g, req, side, partial, applied, resBefore, date).value;
      var flips := SideFlips(cfg, env, g, side, applied, resBefore);
      Inv(g') && Retires(g, g', flips)
  {
    SideFlipsSound(cfg, env, g, side, applied, resBefore);
    PostFlipsKeepsInv(env, g, req, side, partial, SideFlips(cfg, env, g, side, applied, resBefore), date);
  }

  /** The flips take from a deferral's line exactly its own flip amount, when that is positive. */
  lemma {:induction false} TakenFromDeferral(g: Graph, ds: seq<Deferral>, cum: int, base: nat, d: Deferral)
    requires base > 0 && PortOk(ds, |g.lines|) && d in ds
    ensures Taken(Flips(g, ds, cum, base), |g.lines|, d.sourceLine) == Max(0, FlipAmount(g, d, cum, base))
  {
    var flips, amount := Flips(g, ds, cum, base), FlipAmount(g, d, cum, base);
    FlipsKeepPort(g, ds, cum, base);
    FlipsMembers(g, ds, cum, base);
    forall k | 0 <= k < |flips|
      ensures flips[k].d.sourceLine < |g.lines| && (flips[k].d.sourceLine == d.sourceLine ==> flips[k] == Flip(d, amount))
    {
      assert flips[k] in flips;
      DeferralsDistinct(ds, |g.lines|, flips[k].d, d);
    }
    if amount > 0 {
      var k :| 0 <= k < |flips| && flips[k] == Flip(d, amount);
      TakenAt(flips, |g.lines|, k);
    } else {
      assert forall k | 0 <= k < |flips| :: flips[k] in flips;
      TakenNothing(flips, |g.lines|, d.sourceLine);
    }
  }

  lemma {:induction false} RetiredExactly(g: Graph, g': Graph, ds: seq<Deferral>, cum: int, base: nat, d: Deferral)
    requires base > 0 && 0 <= cum <= base && PortOk(ds, |g.lines|) && d in ds
    requires Retires(g, g', Flips(g, ds, cum, base))
    ensures d.sourceLine < |g.lines|
    ensures d.amount - Residual(g', d.sourceLine) == Max(d.amount - Residual(g, d.sourceLine), Target(d, cum, base))
  {
    TakenFromDeferral(g, ds, cum, base, d);
    FlipWithinResidual(g, d, cum, base);
  }

  /**
   * Flips are exact: afterwards the retired part of every deferral on the side is the larger
   * of what was retired before and the rounded share.
   */
  lemma {:induction false} FlipsAreExact(cfg: Config, env: Env, g: Graph, req: PairRequest, side: nat, partial: nat,
                                         applied: int, resBefore: int, date: int, d: Deferral)
    requires Inv(g) && side < |g.lines| && EnvOk(g, env)
    requires 0 <= applied <= resBefore <= g.lines[side].base
    requires FlipSide(cfg, env, g, req, side, partial, applied, resBefore, date).Ok?
    requires PartySubtype(SubtypeOf(cfg, g.lines[side].account)) && g.lines[side].base > 0
    requires d in DeferralsOf(env, g, side)
    ensures d.sourceLine < |g.lines|
    ensures var g' := FlipSide(cfg, env, g, req, side, partial, applied, resBefore, date).value;
      var base := g.lines[side].base;
      d.amount - Residual(g', d.sourceLine)
      == Max(d.amount - Residual(g, d.sourceLine), Target(d, base - resBefore + applied, base))
  {
    var g' := FlipSide(cfg, env, g, req, side, partial, applied, resBefore, date).value;
    var ds, base := DeferralsOf(env, g, side), g.lines[side].base;
    var cum := base - resBefore + applied;
    assert Retires(g, g', Flips(g, ds, cum, base)) by {
      FlipSideKeepsInv(cfg, env, g, req, side, partial, applied, resBefore, date);
    }
    RetiredExactly(g, g', ds, cum, base, d);
  }

  lemma {:induction false} DeferralsDistinct(ds: seq<Deferral>, lines: nat, a: Deferral, b: Deferral)
    requires PortOk(ds, lines) && a in ds && b in ds
    ensures a != b ==> a.sourceLine != b.sourceLine
  {
    var i :| 0 <= i < |ds| && ds[i] == a;
    var k :| 0 <= k < |ds| && ds[k] == b;
  }

  // ------------------------------------------------------------------ reversal pairing

  lemma {:induction false} PairOneKeepsInv(g: Graph, l: nat)
    requires Inv(g) && l < |g.lines|
    ensures PairOne(g, l).Ok? && Inv(PairOne(g, l).value) && PairOne(g, l).value.lines == g.lines
  {
    if PairsNow(g, l) {
      var k := Counterpart(g, l).value;
      var d, c := if g.lines[l].debit > 0 then l else k, if g.lines[l].debit > 0 then k else l;
      CounterpartSound(g, l);
      var amount := Min(g.lines[d].base, g.lines[c].base);
      assert amount > 0 by {
        Clauses(g);
      }
      InsertKeepsInv(g, d, c, amount, MaxDate(g, d, c), MANUAL, g.lines[d].sourceId);
      var g' := InsertPartial(g, d, c, amount, MaxDate(g, d, c), MANUAL, g.lines[d].sourceId).value;
      CompleteKeepsInv(g', {d, c}, 0);
    }
  }

  lemma {:induction false} CounterpartSound(g: Graph, l: nat)
    requires l < |g.lines|
    ensures Counterpart(g, l).Some? ==>
      Counterpart(g, l).value < |g.lines| && IsCounterpart(g, l, Counterpart(g, l).value)
    ensures Counterpart(g, l).None? ==> forall k | 0 <= k < |g.lines| :: !IsCounterpart(g, l, k)
  {
    var found := Ascending(|g.lines|, Counterparts(g, l));
    if found != [] {
      assert found[0] in found;
    }
    forall k | 0 <= k < |g.lines| && IsCounterpart(g, l, k) ensures k in found {
      assert k in Counterparts(g, l);
    }
  }
}
