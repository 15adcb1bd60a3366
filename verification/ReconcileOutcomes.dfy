/**
 * What a link achieves, and how it can fail: an exchange difference leaves nothing open, a
 * full settlement retires every deferred tax line, and on sound books the only refusals are
 * the named ones.
 */
module ReconcileOutcomes {
  import opened Wrappers
  import opened Rounding
  import opened GlPosting
  import opened ReconcileGraph
  import opened ReconcileInvariants
  import opened ReconcileVerbs
  import opened ReconcileGrowth
  import opened ReconcileSteps
  import opened ReconcileReversals

  // ------------------------------------------------------------------ settled means settled

  /** A settled line stays settled while flips only lower residuals. */
  lemma {:induction false} ZeroStays(g: Graph, g': Graph, l: nat)
    requires Inv(g') && g.lines <= g'.lines && l < |g.lines|
    requires Residual(g, l) == 0 && Residual(g', l) <= Residual(g, l)
    ensures Residual(g', l) == 0
  {
    ResidualAt(g', l);
  }

  lemma {:induction false} FlipsKeepZero(cfg: Config, env: Env, g: Graph, g1: Graph, g2: Graph, req: PairRequest,
                                         d: nat,
                                         c: nat, partial: nat, applied: int, resD: int, resC: int, date: int, l: nat)
    requires Inv(g) && EnvOk(g, env) && d < |g.lines| && c < |g.lines| && l < |g.lines| && Residual(g, l) == 0
    requires 0 <= applied <= resD <= g.lines[d].base && applied <= resC <= g.lines[c].base
    requires FlipSide(cfg, env, g, req, d, partial, applied, resD, date) == Ok(g1)
    requires FlipSide(cfg, env, g1, req, c, partial, applied, resC, date) == Ok(g2)
    ensures g.lines <= g2.lines && Residual(g2, l) == 0
  {
    FlipSideLowers(cfg, env, g, req, d, partial, applied, resD, date);
    ZeroStays(g, g1, l);
    FlipSideLowers(cfg, env, g1, req, c, partial, applied, resC, date);
    ZeroStays(g1, g2, l);
  }

  /** The line the exchange journal puts on the account of the linked pair. */
  function ExchangeLine(cfg: Config, g: Graph, d: nat): nat
    requires d < |g.lines|
  {
    |g.lines| + if cfg.fx == Some(g.lines[d].account) then 0 else 1
  }

  lemma {:induction false} TrueUpZeroes(cfg: Config, env: Env, g: Graph, g': Graph, total: int, req: PairRequest,
                                        d: nat,
                                        c: nat, partial: nat, applied: int, l: nat)
    requires Inv(g) && d < |g.lines| && c < |g.lines| && d != c
    requires TrueUp(cfg, env, g, req, d, c, partial, applied) == Ok((g', total)) && total != 0
    requires l == d || l == c || l == ExchangeLine(cfg, g, d)
    ensures Inv(g') && l < |g'.lines| && Residual(g', l) == 0
  {
    TrueUpKeepsInv(cfg, env, g, req, d, c, partial, applied);
    if l != d && l != c {
      PostTrueUpKeepsInv(cfg, env, g, req, d, c, partial, total, MaxDate(g, d, c));
    }
  }

  /** The root edge and a true-up that found a difference. */
  lemma {:induction false} RootZeroes(cfg: Config, env: Env, g: Graph, g1: Graph, g2: Graph, total: int,
                                      req: PairRequest,
                                      d: nat, c: nat, applied: int, l: nat)
    requires Inv(g) && d < |g.lines| && c < |g.lines| && d != c
    requires 0 < applied <= Residual(g, d) && applied <= Residual(g, c)
    requires InsertPartial(g, d, c, applied, MaxDate(g, d, c), req.origin, g.lines[c].sourceId) == Ok(g1)
    requires TrueUp(cfg, env, g1, req, d, c, g.nextEdge, applied) == Ok((g2, total)) && total != 0
    requires l == d || l == c || l == ExchangeLine(cfg, g, d)
    ensures Inv(g2) && g.lines <= g2.lines && l < |g2.lines| && Residual(g2, l) == 0
  {
    assert Inv(g1) && g1.lines == g.lines by {
      InsertKeepsInv(g, d, c, applied, MaxDate(g, d, c), req.origin, g.lines[c].sourceId);
    }
    TrueUpZeroes(cfg, env, g1, g2, total, req, d, c, g.nextEdge, applied, l);
  }

  /** The stages of a link: the root edge, the true-up, then the flips of each side. */
  ghost predicate Stages(cfg: Config, env: Env, g: Graph, req: PairRequest, d: nat, c: nat, applied: int, g1: Graph,
                         g2: Graph, g3: Graph, g4: Graph, total: int)
    requires d < |g.lines| && c < |g.lines|
  {
    var p, date := g.nextEdge, MaxDate(g, d, c);
    && InsertPartial(g, d, c, applied, date, req.origin, g.lines[c].sourceId) == Ok(g1)
    && TrueUp(cfg, env, g1, req, d, c, p, applied) == Ok((g2, total))
    && g.lines <= g2.lines && Inv(g2)
    && FlipSide(cfg, env, g2, req, d, p, applied, Residual(g, d), date) == Ok(g3)
    && g2.lines <= g3.lines
    && FlipSide(cfg, env, g3, req, c, p, applied, Residual(g, c), date) == Ok(g4)
    && g3.lines <= g4.lines
    && 0 <= applied <= Residual(g, d) <= g.lines[d].base && applied <= Residual(g, c) <= g.lines[c].base
  }

  lemma {:induction false} LinkStages(cfg: Config, env: Env, g: Graph, req: PairRequest, d: nat, c: nat, applied: int)
    returns (g1: Graph, g2: Graph, g3: Graph, g4: Graph, total: int)
    requires Inv(g) && d < |g.lines| && c < |g.lines| && d != c
    requires 0 < applied <= Residual(g, d) && applied <= Residual(g, c)
    requires LinkEdges(cfg, env, g, req, d, c, applied).Ok?
    ensures Stages(cfg, env, g, req, d, c, applied, g1, g2, g3, g4, total)
    ensures LinkEdges(cfg, env, g, req, d, c, applied) == Ok((g4, total))
  {
    var p, date := g.nextEdge, MaxDate(g, d, c);
    g1 := InsertPartial(g, d, c, applied, date, req.origin, g.lines[c].sourceId).value;
    var up := TrueUp(cfg, env, g1, req, d, c, p, applied).value;
    g2, total := up.0, up.1;
    g3 := FlipSide(cfg, env, g2, req, d, p, applied, Residual(g, d), date).value;
    g4 := FlipSide(cfg, env, g3, req, c, p, applied, Residual(g, c), date).value;
    RootLowers(cfg, env, g, g1, g2, req, d, c, applied, total);
    ResidualAt(g, d);
    ResidualAt(g, c);
  }

  lemma {:induction false} StagesSettleAll(cfg: Config, env: Env, g: Graph, req: PairRequest, d: nat, c: nat,
                                           applied: int, g1: Graph, g2: Graph, g3: Graph, g4: Graph, total: int, l: nat)
    requires Inv(g) && EnvOk(g, env) && d < |g.lines| && c < |g.lines| && d != c && 0 < applied && total != 0
    requires Stages(cfg, env, g, req, d, c, applied, g1, g2, g3, g4, total)
    requires l == d || l == c || l == ExchangeLine(cfg, g, d)
    ensures g.lines <= g4.lines && l < |g4.lines| && Residual(g4, l) == 0
  {
    RootZeroes(cfg, env, g, g1, g2, total, req, d, c, applied, l);
    FlipsKeepZero(cfg, env, g2, g3, g4, req, d, c, g.nextEdge, applied, Residual(g, d), Residual(g, c),
                  MaxDate(g, d, c), l);
  }

  /** A link that finds an exchange difference leaves both lines and the exchange line at zero. */
  lemma {:induction false} ExchangeSettlesAll(cfg: Config, env: Env, g: Graph, req: PairRequest, d: nat, c: nat,
                                              applied: int, l: nat)
    requires Inv(g) && EnvOk(g, env) && d < |g.lines| && c < |g.lines| && d != c
    requires 0 < applied <= Residual(g, d) && applied <= Residual(g, c)
    requires LinkEdges(cfg, env, g, req, d, c, applied).Ok? && LinkEdges(cfg, env, g, req, d, c, applied).value.1 != 0
    requires l == d || l == c || l == ExchangeLine(cfg, g, d)
    ensures var g' := LinkEdges(cfg, env, g, req, d, c, applied).value.0;
      g.lines <= g'.lines && l < |g'.lines| && Residual(g', l) == 0
  {
    var g1, g2, g3, g4, total := LinkStages(cfg, env, g, req, d, c, applied);
    StagesSettleAll(cfg, env, g, req, d, c, applied, g1, g2, g3, g4, total, l);
  }

  /** When a side is settled in full its flips take all that was left of each of its deferrals. */
  lemma {:induction false} FullFlipRetires(cfg: Config, env: Env, g: Graph, req: PairRequest, side: nat, partial: nat,
                                           applied: int, date: int, d: Deferral)
    requires Inv(g) && side < |g.lines| && EnvOk(g, env) && 0 <= applied <= g.lines[side].base
    requires FlipSide(cfg, env, g, req, side, partial, applied, applied, date).Ok?
    requires PartySubtype(SubtypeOf(cfg, g.lines[side].account)) && g.lines[side].base > 0
    requires d in DeferralsOf(env, g, side)
    ensures d.sourceLine < |g.lines|
    ensures Residual(FlipSide(cfg, env, g, req, side, partial, applied, applied, date).value, d.sourceLine) == 0
  {
    FlipsAreExact(cfg, env, g, req, side, partial, applied, applied, date, d);
    FlipWithinResidual(g, d, g.lines[side].base, g.lines[side].base);
    ResidualAt(g, d.sourceLine);
  }

  lemma {:induction false} FlipsKeepDeferrals(env: Env, g: Graph, g': Graph, side: nat)
    requires g.lines <= g'.lines && side < |g.lines|
    ensures DeferralsOf(env, g', side) == DeferralsOf(env, g, side)
  {
  }

  /** Flips of both sides, the debit side fully settled: its deferred lines end at zero. */
  lemma {:induction false} DebitFlipsRetire(cfg: Config, env: Env, g: Graph, g1: Graph, g2: Graph, req: PairRequest,
                                            d: nat, c: nat, partial: nat, applied: int, resC: int, date: int,
                                            deferral: Deferral)
    requires Inv(g) && EnvOk(g, env) && d < |g.lines| && c < |g.lines|
    requires 0 <= applied <= g.lines[d].base && applied <= resC <= g.lines[c].base
    requires FlipSide(cfg, env, g, req, d, partial, applied, applied, date) == Ok(g1)
    requires FlipSide(cfg, env, g1, req, c, partial, applied, resC, date) == Ok(g2)
    requires PartySubtype(SubtypeOf(cfg, g.lines[d].account)) && g.lines[d].base > 0
    requires deferral in DeferralsOf(env, g, d)
    ensures deferral.sourceLine < |g.lines| && g.lines <= g2.lines && Residual(g2, deferral.sourceLine) == 0
  {
    FullFlipRetires(cfg, env, g, req, d, partial, applied, date, deferral);
    FlipSideLowers(cfg, env, g, req, d, partial, applied, applied, date);
    FlipSideLowers(cfg, env, g1, req, c, partial, applied, resC, date);
    ZeroStays(g1, g2, deferral.sourceLine);
  }

  /**
   * Whatever links and unlinks came before, a link that applies all that was left of a receivable
   * or payable leaves every tax line deferred on its document at zero: the flips add up to what
   * was left of it. What a true-up settles does not count (`RetiredInFullIff`).
   */
  lemma {:induction false} FullSettlementRetires(cfg: Config, env: Env, g: Graph, req: PairRequest, d: nat, c: nat,
                                                 applied: int, onDebit: bool, deferral: Deferral)
    requires Inv(g) && EnvOk(g, env) && d < |g.lines| && c < |g.lines| && d != c
    requires 0 < applied <= Residual(g, d) && applied <= Residual(g, c)
    requires LinkEdges(cfg, env, g, req, d, c, applied).Ok?
    requires var side := if onDebit then d else c;
      applied == Residual(g, side) && PartySubtype(SubtypeOf(cfg, g.lines[side].account))
      && deferral in DeferralsOf(env, g, side)
    ensures var g' := LinkEdges(cfg, env, g, req, d, c, applied).value.0;
      deferral.sourceLine < |g'.lines| && Residual(g', deferral.sourceLine) == 0
  {
    var p, date := g.nextEdge, MaxDate(g, d, c);
    ResidualAt(g, d);
    ResidualAt(g, c);
    var g1 := InsertPartial(g, d, c, applied, date, req.origin, g.lines[c].sourceId).value;
    var (g2, total) := TrueUp(cfg, env, g1, req, d, c, p, applied).value;
    RootLowers(cfg, env, g, g1, g2, req, d, c, applied, total);
    var g3 := FlipSide(cfg, env, g2, req, d, p, applied, Residual(g, d), date).value;
    var g4 := FlipSide(cfg, env, g3, req, c, p, applied, Residual(g, c), date).value;
    if onDebit {
      FlipsKeepDeferrals(env, g, g2, d);
      DebitFlipsRetire(cfg, env, g2, g3, g4, req, d, c, p, applied, Residual(g, c), date, deferral);
    } else {
      FlipSideLowers(cfg, env, g2, req, d, p, applied, Residual(g, d), date);
      FlipsKeepDeferrals(env, g, g3, c);
      FullFlipRetires(cfg, env, g3, req, c, p, applied, date, deferral);
    }
  }

  // ------------------------------------------------------------------ what a link retires of a deferral

  lemma {:induction false} SideFlipsSkip(cfg: Config, env: Env, g: Graph, side: nat, applied: int, resBefore: int, l: nat)
    requires side < |g.lines| && forall e | e in DeferralsOf(env, g, side) :: e.sourceLine != l
    ensures var flips := SideFlips(cfg, env, g, side, applied, resBefore);
      forall k | 0 <= k < |flips| :: flips[k].d.sourceLine != l
  {
    var flips, base := SideFlips(cfg, env, g, side, applied, resBefore), g.lines[side].base;
    if base > 0 {
      FlipsMembers(g, DeferralsOf(env, g, side), base - resBefore + applied, base);
    }
    forall k | 0 <= k < |flips| ensures flips[k].d.sourceLine != l {
      assert flips[k] in flips;
    }
  }

  /** Flips of a side leave a line alone that none of its deferrals names. */
  lemma {:induction false} OtherFlipsLeave(cfg: Config, env: Env, g: Graph, req: PairRequest, side: nat, partial: nat,
                                           applied: int, resBefore: int, date: int, l: nat)
    requires Inv(g) && side < |g.lines| && EnvOk(g, env) && l < |g.lines|
    requires 0 <= applied <= resBefore <= g.lines[side].base
    requires FlipSide(cfg, env, g, req, side, partial, applied, resBefore, date).Ok?
    requires forall e | e in DeferralsOf(env, g, side) :: e.sourceLine != l
    ensures var g' := FlipSide(cfg, env, g, req, side, partial, applied, resBefore, date).value;
      l < |g'.lines| && Residual(g', l) == Residual(g, l)
  {
    FlipSideKeepsInv(cfg, env, g, req, side, partial, applied, resBefore, date);
    SideFlipsSkip(cfg, env, g, side, applied, resBefore, l);
    TakenNothing(SideFlips(cfg, env, g, side, applied, resBefore), |g.lines|, l);
  }

  /** What is retired of a deferral, in cents. */
  function Retired(g: Graph, deferral: Deferral): int
    requires deferral.sourceLine < |g.lines|
  {
    deferral.amount - Residual(g, deferral.sourceLine)
  }

  /** A deferral of one side of a link, on a line of its own: not linked here, nor deferred for the other side. */
  ghost predicate OwnDeferral(cfg: Config, env: Env, g: Graph, d: nat, c: nat, onDebit: bool, deferral: Deferral)
    requires d < |g.lines| && c < |g.lines|
  {
    var side, other := if onDebit then d else c, if onDebit then c else d;
    && PartySubtype(SubtypeOf(cfg, g.lines[side].account))
    && deferral in DeferralsOf(env, g, side)
    && deferral.sourceLine < |g.lines| && deferral.sourceLine != d && deferral.sourceLine != c
    && forall e | e in DeferralsOf(env, g, other) :: e.sourceLine != deferral.sourceLine
  }

  lemma {:induction false} DebitFlipsExact(cfg: Config, env: Env, g: Graph, g1: Graph, g2: Graph, req: PairRequest,
                                           d: nat, c: nat, partial: nat, applied: int, resD: int, resC: int, date: int,
                                           base: nat, cum: int, deferral: Deferral)
    requires Inv(g) && EnvOk(g, env) && d < |g.lines| && c < |g.lines| && g.lines[d].base == base > 0
    requires 0 <= applied <= resD <= g.lines[d].base && applied <= resC <= g.lines[c].base
    requires FlipSide(cfg, env, g, req, d, partial, applied, resD, date) == Ok(g1)
    requires FlipSide(cfg, env, g1, req, c, partial, applied, resC, date) == Ok(g2)
    requires OwnDeferral(cfg, env, g, d, c, true, deferral)
    requires cum == base - resD + applied
    ensures Inv(g2) && g.lines <= g2.lines
    ensures Retired(g2, deferral)
      == Max(Retired(g, deferral), Target(deferral, cum, base))
  {
    FlipSideLowers(cfg, env, g, req, d, partial, applied, resD, date);
    FlipsKeepDeferrals(env, g, g1, c);
    FlipsRetire(cfg, env, g, g1, req, d, partial, applied, resD, date, base, cum, deferral);
    FlipSideLowers(cfg, env, g1, req, c, partial, applied, resC, date);
    OtherFlipsLeave(cfg, env, g1, req, c, partial, applied, resC, date, deferral.sourceLine);
  }

  /** One side's flips, with the settled part and the face of the side by name. */
  lemma {:induction false} FlipsRetire(cfg: Config, env: Env, g: Graph, g': Graph, req: PairRequest, side: nat,
                                       partial: nat, applied: int, resBefore: int, date: int, base: nat, cum: int,
                                       deferral: Deferral)
    requires Inv(g) && side < |g.lines| && EnvOk(g, env) && g.lines[side].base == base > 0
    requires 0 <= applied <= resBefore <= base && cum == base - resBefore + applied
    requires FlipSide(cfg, env, g, req, side, partial, applied, resBefore, date) == Ok(g')
    requires PartySubtype(SubtypeOf(cfg, g.lines[side].account)) && deferral in DeferralsOf(env, g, side)
    ensures deferral.sourceLine < |g.lines| <= |g'.lines|
    ensures Retired(g', deferral) == Max(Retired(g, deferral), Target(deferral, cum, base))
  {
    var ds := DeferralsOf(env, g, side);
    assert Retires(g, g', Flips(g, ds, cum, base)) by {
      FlipSideKeepsInv(cfg, env, g, req, side, partial, applied, resBefore, date);
    }
    RetiredExactly(g, g', ds, cum, base, deferral);
  }

  lemma {:induction false} CreditFlipsExact(cfg: Config, env: Env, g: Graph, g1: Graph, g2: Graph, req: PairRequest,
                                            d: nat, c: nat, partial: nat, applied: int, resD: int, resC: int, date: int,
                                            base: nat, cum: int, deferral: Deferral)
    requires Inv(g) && EnvOk(g, env) && d < |g.lines| && c < |g.lines| && g.lines[c].base == base > 0
    requires 0 <= applied <= resD <= g.lines[d].base && applied <= resC <= g.lines[c].base
    requires FlipSide(cfg, env, g, req, d, partial, applied, resD, date) == Ok(g1)
    requires FlipSide(cfg, env, g1, req, c, partial, applied, resC, date) == Ok(g2)
    requires OwnDeferral(cfg, env, g, d, c, false, deferral)
    requires cum == base - resC + applied
    ensures Inv(g2) && g.lines <= g2.lines
    ensures Retired(g2, deferral)
      == Max(Retired(g, deferral), Target(deferral, cum, base))
  {
    FlipSideLowers(cfg, env, g, req, d, partial, applied, resD, date);
    FlipsKeepDeferrals(env, g, g1, c);
    OtherFlipsLeave(cfg, env, g, req, d, partial, applied, resD, date, deferral.sourceLine);
    FlipSideLowers(cfg, env, g1, req, c, partial, applied, resC, date);
    FlipsRetire(cfg, env, g1, g2, req, c, partial, applied, resC, date, base, cum, deferral);
  }

  /** The root edge and its true-up leave every other line alone. */
  lemma {:induction false} RootLeaves(cfg: Config, env: Env, g: Graph, g1: Graph, g2: Graph, total: int, req: PairRequest,
                                      d: nat, c: nat, applied: int, l: nat)
    requires Inv(g) && d < |g.lines| && c < |g.lines| && d != c && l < |g.lines| && l != d && l != c
    requires 0 < applied <= Residual(g, d) && applied <= Residual(g, c)
    requires InsertPartial(g, d, c, applied, MaxDate(g, d, c), req.origin, g.lines[c].sourceId) == Ok(g1)
    requires TrueUp(cfg, env, g1, req, d, c, g.nextEdge, applied) == Ok((g2, total))
    ensures l < |g2.lines| && Residual(g2, l) == Residual(g, l)
  {
    InsertKeepsInv(g, d, c, applied, MaxDate(g, d, c), req.origin, g.lines[c].sourceId);
    InsertResiduals(g, d, c, applied, MaxDate(g, d, c), req.origin, g.lines[c].sourceId);
    TrueUpKeepsInv(cfg, env, g1, req, d, c, g.nextEdge, applied);
  }

  lemma {:induction false} DebitStagesRetire(cfg: Config, env: Env, g: Graph, req: PairRequest, d: nat, c: nat,
                                             applied: int, g1: Graph, g2: Graph, g3: Graph, g4: Graph, total: int,
                                             base: nat, cum: int, deferral: Deferral)
    requires Inv(g) && EnvOk(g, env) && d < |g.lines| && c < |g.lines| && d != c && 0 < applied
    requires Stages(cfg, env, g, req, d, c, applied, g1, g2, g3, g4, total)
    requires OwnDeferral(cfg, env, g, d, c, true, deferral) && g.lines[d].base == base > 0
    requires cum == base - Residual(g, d) + applied
    ensures Inv(g4) && g.lines <= g4.lines
    ensures Retired(g4, deferral)
      == Max(Retired(g, deferral), Target(deferral, cum, base))
  {
    RootLeaves(cfg, env, g, g1, g2, total, req, d, c, applied, deferral.sourceLine);
    FlipsKeepDeferrals(env, g, g2, d);
    FlipsKeepDeferrals(env, g, g2, c);
    DebitFlipsExact(cfg, env, g2, g3, g4, req, d, c, g.nextEdge, applied, Residual(g, d), Residual(g, c),
                    MaxDate(g, d, c), base, cum, deferral);
  }

  lemma {:induction false} CreditStagesRetire(cfg: Config, env: Env, g: Graph, req: PairRequest, d: nat, c: nat,
                                             applied: int, g1: Graph, g2: Graph, g3: Graph, g4: Graph, total: int,
                                             base: nat, cum: int, deferral: Deferral)
    requires Inv(g) && EnvOk(g, env) && d < |g.lines| && c < |g.lines| && d != c && 0 < applied
    requires Stages(cfg, env, g, req, d, c, applied, g1, g2, g3, g4, total)
    requires OwnDeferral(cfg, env, g, d, c, false, deferral) && g.lines[c].base == base > 0
    requires cum == base - Residual(g, c) + applied
    ensures Inv(g4) && g.lines <= g4.lines
    ensures Retired(g4, deferral)
      == Max(Retired(g, deferral), Target(deferral, cum, base))
  {
    RootLeaves(cfg, env, g, g1, g2, total, req, d, c, applied, deferral.sourceLine);
    FlipsKeepDeferrals(env, g, g2, d);
    FlipsKeepDeferrals(env, g, g2, c);
    CreditFlipsExact(cfg, env, g2, g3, g4, req, d, c, g.nextEdge, applied, Residual(g, d), Residual(g, c),
                     MaxDate(g, d, c), base, cum, deferral);
  }

  lemma {:induction false} StagesRetire(cfg: Config, env: Env, g: Graph, req: PairRequest, d: nat, c: nat, applied: int,
                                        g1: Graph, g2: Graph, g3: Graph, g4: Graph, total: int, side: nat, base: nat,
                                        cum: int, deferral: Deferral)
    requires Inv(g) && EnvOk(g, env) && d < |g.lines| && c < |g.lines| && d != c && 0 < applied
    requires Stages(cfg, env, g, req, d, c, applied, g1, g2, g3, g4, total)
    requires (side == d || side == c) && OwnDeferral(cfg, env, g, d, c, side == d, deferral)
    requires g.lines[side].base == base > 0 && cum == base - Residual(g, side) + applied
    ensures g.lines <= g4.lines && Retired(g4, deferral) <= deferral.amount
    ensures Retired(g4, deferral) == Max(Retired(g, deferral), Target(deferral, cum, base))
  {
    if side == d {
      DebitStagesRetire(cfg, env, g, req, d, c, applied, g1, g2, g3, g4, total, base, cum, deferral);
    } else {
      CreditStagesRetire(cfg, env, g, req, d, c, applied, g1, g2, g3, g4, total, base, cum, deferral);
    }
    ResidualAt(g4, deferral.sourceLine);
  }

  /** `cum` of `base` cents of a side are settled once the link has applied its amount. */
  ghost predicate SettledShare(g: Graph, side: nat, applied: int, base: nat, cum: int) {
    side < |g.lines| && base == g.lines[side].base && cum == base - Residual(g, side) + applied
  }

  /**
   * After a link the retired part of each deferral is the larger of what was retired before the
   * link and the rounded share of what is settled, and never more than its face.
   */
  lemma {:induction false} LinkRetires(cfg: Config, env: Env, g: Graph, req: PairRequest, d: nat, c: nat, applied: int,
                                       side: nat, base: nat, cum: int, deferral: Deferral)
    requires Inv(g) && EnvOk(g, env) && d < |g.lines| && c < |g.lines| && d != c
    requires 0 < applied <= Residual(g, d) && applied <= Residual(g, c)
    requires LinkEdges(cfg, env, g, req, d, c, applied).Ok?
    requires (side == d || side == c) && OwnDeferral(cfg, env, g, d, c, side == d, deferral)
    requires SettledShare(g, side, applied, base, cum)
    ensures base > 0 && g.lines <= LinkEdges(cfg, env, g, req, d, c, applied).value.0.lines
    ensures var g' := LinkEdges(cfg, env, g, req, d, c, applied).value.0;
      && Retired(g', deferral) == Max(Retired(g, deferral), Target(deferral, cum, base))
      && Retired(g', deferral) <= deferral.amount
  {
    ResidualAt(g, side);
    var g1, g2, g3, g4, total := LinkStages(cfg, env, g, req, d, c, applied);
    StagesRetire(cfg, env, g, req, d, c, applied, g1, g2, g3, g4, total, side, base, cum, deferral);
  }

  /**
   * Exactly when a link leaves nothing open of a deferral: nothing was open before, or the
   * settled part, which does not count what an exchange true-up settles, rounds to the face.
   */
  lemma {:induction false} RetiredInFullIff(cfg: Config, env: Env, g: Graph, req: PairRequest, d: nat, c: nat,
                                            applied: int, side: nat, base: nat, cum: int, deferral: Deferral)
    requires Inv(g) && EnvOk(g, env) && d < |g.lines| && c < |g.lines| && d != c
    requires 0 < applied <= Residual(g, d) && applied <= Residual(g, c)
    requires LinkEdges(cfg, env, g, req, d, c, applied).Ok?
    requires (side == d || side == c) && OwnDeferral(cfg, env, g, d, c, side == d, deferral)
    requires SettledShare(g, side, applied, base, cum)
    ensures base > 0 && g.lines <= LinkEdges(cfg, env, g, req, d, c, applied).value.0.lines
    ensures Residual(LinkEdges(cfg, env, g, req, d, c, applied).value.0, deferral.sourceLine) == 0
      <==> Residual(g, deferral.sourceLine) == 0 || Target(deferral, cum, base) == deferral.amount
  {
    LinkRetires(cfg, env, g, req, d, c, applied, side, base, cum, deferral);
    ResidualAt(g, side);
    ResidualAt(g, deferral.sourceLine);
    ShareBounds(deferral.amount, cum, base);
  }

  /** A settled line can be linked no more: a link on it applies nothing and changes nothing. */
  lemma {:induction false} SettledLinksNothing(cfg: Config, env: Env, g: Graph, req: PairRequest)
    requires Inv(g) && Link(cfg, env, g, req).Ok?
    requires var d, c := Resolve(g, req.debit).value, Resolve(g, req.credit).value;
      Residual(g, d) == 0 || Residual(g, c) == 0
    ensures Link(cfg, env, g, req) == Ok((g, EdgeOutcome(None, 0, None)))
  {
    var d, c := Resolve(g, req.debit).value, Resolve(g, req.credit).value;
    ValidPair(cfg, g, d, c, req.amount);
  }

  // ------------------------------------------------------------------ how a link can fail

  /** The refusals the true-up and the flips can raise, each with its cause. */
  predicate Named(cfg: Config, env: Env, date: int, e: ReconcileError) {
    (e.ExchangeAccountUnconfigured? && cfg.fx.None?) || (e.PeriodClosed? && date in env.closedDates)
  }

  lemma {:induction false} ExchangeCommits(g: Graph, fx: nat, d: nat, partial: nat, diff: int, date: int)
    requires d < |g.lines| && diff != 0 && Exch(partial) !in g.keys
    ensures PostExchange(g, fx, d, partial, diff, date).Ok?
    ensures PostExchange(g, fx, d, partial, diff, date).value.keys == g.keys + {Exch(partial)}
    ensures |PostExchange(g, fx, d, partial, diff, date).value.lines| == |g.lines| + 2
  {
  }

  lemma {:induction false} PostTrueUpFails(cfg: Config, env: Env, g: Graph, req: PairRequest, d: nat, c: nat,
                                           partial: nat,
                                           diff: int, date: int)
    requires d < |g.lines| && c < |g.lines| && diff != 0 && Exch(partial) !in g.keys
    ensures var r := PostTrueUp(cfg, env, g, req, d, c, partial, diff, date);
      && (r.Err? ==> Named(cfg, env, date, r.error))
      && (r.Ok? ==> r.value.keys == g.keys + {Exch(partial)})
  {
    if cfg.fx.Some? && date !in env.closedDates {
      ExchangeCommits(g, cfg.fx.value, d, partial, diff, date);
      PostExchangeLine(g, cfg.fx.value, d, partial, diff, date);
    }
  }

  lemma {:induction false} TrueUpFails(cfg: Config, env: Env, g: Graph, req: PairRequest, d: nat, c: nat, partial: nat,
                                       applied: int)
    requires Inv(g) && d < |g.lines| && c < |g.lines| && Exch(partial) !in g.keys
    ensures var r := TrueUp(cfg, env, g, req, d, c, partial, applied);
      && (r.Err? ==> Named(cfg, env, MaxDate(g, d, c), r.error))
      && (r.Ok? ==> r.value.0.keys <= g.keys + {Exch(partial)})
  {
    ResidualAt(g, d);
    ResidualAt(g, c);
    var rd, rc := g.lines[d].rate, g.lines[c].rate;
    if rd != rc {
      var predicted := RoundHalfAway(applied * (Hi(rd, rc) - Lo(rd, rc)), Lo(rd, rc));
      var diff := ExchangeDiff(Residual(g, d), Residual(g, c), predicted);
      if diff.Some? {
        PostTrueUpFails(cfg, env, g, req, d, c, partial, diff.value, MaxDate(g, d, c));
      }
    }
  }

  lemma {:induction false} PairFlipsKeys(g: Graph, flips: seq<Flip>, matched: seq<nat>, first: nat, partial: nat,
                                         origin: string, date: int)
    requires |matched| == |flips| && PairFlips(g, flips, matched, first, partial, origin, date).Ok?
    ensures PairFlips(g, flips, matched, first, partial, origin, date).value.keys == g.keys
  {
    if flips == [] {
    } else {
      PairFlipsKeys(g, flips[..|flips| - 1], matched[..|flips| - 1], first, partial, origin, date);
    }
  }

  lemma {:induction false} PostFlipsFails(env: Env, g: Graph, req: PairRequest, side: nat, partial: nat,
                                          flips: seq<Flip>, date: int)
    requires Inv(g) && side < |g.lines| && Caba(partial, side) !in g.keys
    requires PositiveFlips(flips) && DistinctSources(flips) && NoCross(flips)
    requires forall k | 0 <= k < |flips| ::
      flips[k].d.sourceLine < |g.lines| && flips[k].amount <= Residual(g, flips[k].d.sourceLine)
    ensures var r := PostFlips(env, g, req, side, partial, flips, date);
      && (r.Err? ==> r.error.PeriodClosed? && date in env.closedDates)
      && (r.Ok? ==> r.value.keys <= g.keys + {Caba(partial, side)})
  {
    if flips != [] && date !in env.closedDates {
      FlipLinesSound(flips);
      LegsMatchIff(flips);
      assert Commit(g, FlipPosting(g, side, partial, flips, date)).Ok?;
      var g1 := Commit(g, FlipPosting(g, side, partial, flips, date)).value;
      FlipsHaveRoom(g, g1, side, partial, flips, date);
      PairFlipsKeepsInv(g1, flips, |g.lines|, partial, req.origin, date);
      PairFlipsKeys(g1, flips, OwnLegs(|flips|), |g.lines|, partial, req.origin, date);
    }
  }

  lemma {:induction false} FlipsHaveRoom(g: Graph, g1: Graph, side: nat, partial: nat, flips: seq<Flip>, date: int)
    requires Inv(g) && side < |g.lines| && PositiveFlips(flips)
    requires Commit(g, FlipPosting(g, side, partial, flips, date)) == Ok(g1)
    requires forall k | 0 <= k < |flips| ::
      flips[k].d.sourceLine < |g.lines| && flips[k].amount <= Residual(g, flips[k].d.sourceLine)
    ensures Inv(g1) && Room(g1, flips, |g.lines|)
  {
    FlipLegsOpen(g, side, partial, flips, date);
  }

  lemma {:induction false} FlipSideFails(cfg: Config, env: Env, g: Graph, req: PairRequest, side: nat, partial: nat,
                                         applied: int, resBefore: int, date: int)
    requires Inv(g) && side < |g.lines| && EnvOk(g, env) && Caba(partial, side) !in g.keys
    requires 0 <= applied <= resBefore <= g.lines[side].base
    ensures var r := FlipSide(cfg, env, g, req, side, partial, applied, resBefore, date);
      && (r.Err? ==> Named(cfg, env, date, r.error))
      && (r.Ok? ==> r.value.keys <= g.keys + {Caba(partial, side)})
  {
    SideFlipsSound(cfg, env, g, side, applied, resBefore);
    PostFlipsFails(env, g, req, side, partial, SideFlips(cfg, env, g, side, applied, resBefore), date);
  }

  lemma {:induction false} FlipsFail(cfg: Config, env: Env, g: Graph, req: PairRequest, d: nat, c: nat, partial: nat,
                                     applied: int, resD: int, resC: int, date: int)
    requires Inv(g) && EnvOk(g, env) && d < |g.lines| && c < |g.lines| && d != c
    requires Caba(partial, d) !in g.keys && Caba(partial, c) !in g.keys
    requires 0 <= applied <= resD <= g.lines[d].base && applied <= resC <= g.lines[c].base
    ensures var r := FlipSide(cfg, env, g, req, d, partial, applied, resD, date);
      && (r.Err? ==> Named(cfg, env, date, r.error))
      && (r.Ok? ==> var s := FlipSide(cfg, env, r.value, req, c, partial, applied, resC, date);
                    s.Err? ==> Named(cfg, env, date, s.error))
  {
    FlipSideFails(cfg, env, g, req, d, partial, applied, resD, date);
    var r := FlipSide(cfg, env, g, req, d, partial, applied, resD, date);
    if r.Ok? {
      FlipSideLowers(cfg, env, g, req, d, partial, applied, resD, date);
      FlipSideFails(cfg, env, r.value, req, c, partial, applied, resC, date);
    }
  }

  /** No key of an edge still to come is in use. */
  lemma {:induction false} NextKeysFree(g: Graph, side: nat)
    requires Shelf(g)
    ensures Exch(g.nextEdge) !in g.keys && Caba(g.nextEdge, side) !in g.keys
  {
    Books(g);
    assert !KnownKey(Exch(g.nextEdge), g.nextEdge, |g.journals|);
    assert !KnownKey(Caba(g.nextEdge, side), g.nextEdge, |g.journals|);
  }

  lemma {:induction false} LinkEdgesFails(cfg: Config, env: Env, g: Graph, req: PairRequest, d: nat, c: nat,
                                          applied: int)
    requires Sound(g) && EnvOk(g, env) && d < |g.lines| && c < |g.lines| && d != c
    requires 0 < applied <= Residual(g, d) && applied <= Residual(g, c)
    ensures LinkEdges(cfg, env, g, req, d, c, applied).Err?
      ==> Named(cfg, env, MaxDate(g, d, c), LinkEdges(cfg, env, g, req, d, c, applied).error)
  {
    var p, date := g.nextEdge, MaxDate(g, d, c);
    ResidualAt(g, d);
    ResidualAt(g, c);
    NextKeysFree(g, d);
    NextKeysFree(g, c);
    InsertKeepsInv(g, d, c, applied, date, req.origin, g.lines[c].sourceId);
    var g1 := InsertPartial(g, d, c, applied, date, req.origin, g.lines[c].sourceId).value;
    TrueUpFails(cfg, env, g1, req, d, c, p, applied);
    var up := TrueUp(cfg, env, g1, req, d, c, p, applied);
    if up.Ok? {
      RootLowers(cfg, env, g, g1, up.value.0, req, d, c, applied, up.value.1);
      FlipsFail(cfg, env, up.value.0, req, d, c, p, applied, Residual(g, d), Residual(g, c), date);
    }
  }

  /**
   * On sound books a link never ends in an internal error: it succeeds or names its refusal,
   * and a missing exchange account or a closed period is named only when it is so.
   */
  lemma {:induction false} LinkNamesItsRefusal(cfg: Config, env: Env, g: Graph, req: PairRequest)
    requires Sound(g) && EnvOk(g, env)
    ensures Link(cfg, env, g, req).Err? ==> !Link(cfg, env, g, req).error.Internal?
    ensures Link(cfg, env, g, req) == Err(ExchangeAccountUnconfigured) ==> cfg.fx.None?
    ensures Link(cfg, env, g, req) == Err(ReconcileError.PeriodClosed) ==>
      && Resolve(g, req.debit).Ok? && Resolve(g, req.credit).Ok?
      && MaxDate(g, Resolve(g, req.debit).value, Resolve(g, req.credit).value) in env.closedDates
  {
    var d, c := Resolve(g, req.debit), Resolve(g, req.credit);
    if d.Ok? && c.Ok? {
      var v := ValidatePair(cfg, g, d.value, c.value, req.amount);
      if v.Ok? && v.value != 0 {
        ValidPair(cfg, g, d.value, c.value, req.amount);
        LinkEdgesFails(cfg, env, g, req, d.value, c.value, v.value);
        if LinkEdges(cfg, env, g, req, d.value, c.value, v.value).Ok? {
          LinkEdgesKeepsInv(cfg, env, g, req, d.value, c.value, v.value);
          LinkEnds(cfg, env, g, req, d.value, c.value, v.value);
        }
      }
    }
  }

  /** Unlinking a live edge always succeeds; only an unknown id is refused. */
  lemma {:induction false} UnlinkFailsIff(env: Env, g: Graph, id: nat)
    requires Sound(g)
    ensures UnlinkOne(env, g, id).Err? <==> id !in Ids(g.edges)
    ensures UnlinkOne(env, g, id).Err? ==> UnlinkOne(env, g, id) == Err(LineNotFound)
  {
    UnlinkClosureSucceeds(env, g, {id});
  }
}
