/**
 * The reconciliation graph as a value, and every verb of the reconciliation service as a
 * function on it: the clamped link with its exchange true-up and cash-basis tax flips,
 * full-group completion, reversal pairing, and the side-effecting unlink.
 *
 * Line and journal ids are positions in their tables (rows are never deleted); edge and
 * group ids come from counters. Amounts are whole cents and rates are six-decimal integers.
 */
module ReconcileGraph {
  import opened Wrappers
  import opened GlPosting
  import opened Rounding

  /** A `source_id`: ids of different tables never collide. */
  datatype Ref = Document(n: nat) | PartialRef(n: nat) | JournalRef(n: nat)

  datatype JournalStatus = Posted | Voided

  datatype Line = Line(
    journal: nat,
    account: nat,
    partyType: Option<string>,
    partyId: Option<nat>,
    debit: nat,
    credit: nat,
    base: nat,
    currency: string,
    rate: nat,
    date: int,
    sourceType: Option<string>,
    sourceId: Option<Ref>)

  datatype Edge = Edge(
    id: nat,
    debit: nat,
    credit: nat,
    amount: int,
    maxDate: int,
    origin: string,
    sourceId: Option<Ref>,
    exchangeMove: Option<nat>,
    group: Option<nat>)

  datatype Journal = Journal(
    first: nat,
    count: nat,
    sourceType: Option<string>,
    sourceId: Option<Ref>,
    reversing: bool,
    currency: string,
    status: JournalStatus)

  /** The idempotency keys the reconciliation service posts under. */
  datatype Key = Exch(partial: nat) | Caba(partial: nat, side: nat) | Unlink(journal: nat)

  datatype Graph = Graph(
    lines: seq<Line>,
    edges: seq<Edge>,
    stamps: map<nat, nat>,
    groups: map<nat, int>,
    journals: seq<Journal>,
    ledger: seq<PostingLine>,
    keys: set<Key>,
    nextEdge: nat,
    nextGroup: nat)

  const EMPTY := Graph([], [], map[], map[], [], [], {}, 0, 0)
  const RECONCILIATION := "reconciliation"
  const MANUAL := "manual"
  const RATE_ONE: nat := 1_000_000

  datatype AccountFlags = AccountFlags(reconcilable: bool, subtype: string)

  datatype Config = Config(accounts: map<nat, AccountFlags>, fx: Option<nat>)

  /** One deferred tax amount, as the host's lookup port answers it. */
  datatype Deferral = Deferral(sourceLine: nat, transition: nat, exigible: nat, amount: nat, isDebit: bool)

  datatype DocumentKey = DocumentKey(journal: nat, sourceType: Option<string>, sourceId: Option<Ref>)

  /** What a verb reads from outside the graph. */
  datatype Env = Env(closedDates: set<int>, deferred: Option<map<DocumentKey, seq<Deferral>>>, today: int)

  datatype LineLocator = LineLocator(sourceType: string, sourceId: Ref, account: nat, reversing: bool)

  datatype PairRequest = PairRequest(debit: LineLocator, credit: LineLocator, amount: int, origin: string)

  datatype EdgeOutcome = EdgeOutcome(partial: Option<nat>, applied: int, group: Option<nat>)

  datatype ReconcileError =
    | LineNotFound
    | AmbiguousLocator(n: nat)
    | SameAccountRequired
    | CurrencyMismatch
    | AccountNotReconcilable
    | DirectionMismatch
    | LineNotPosted
    | PartyMismatch
    | ExchangeAccountUnconfigured
    | PeriodClosed
    | Conflict
    | Internal

  // ------------------------------------------------------------------ residuals

  predicate Touches(e: Edge, l: nat) {
    e.debit == l || e.credit == l
  }

  function Share(e: Edge, l: nat): int {
    if Touches(e, l) then e.amount else 0
  }

  /** The partial amounts applied to a line, on either side. */
  function Applied(edges: seq<Edge>, l: nat): int {
    if edges == [] then 0 else Applied(edges[..|edges| - 1], l) + Share(edges[|edges| - 1], l)
  }

  /** The residual is computed, never stored. */
  function Residual(g: Graph, l: nat): int
    requires l < |g.lines|
  {
    g.lines[l].base - Applied(g.edges, l)
  }

  // ------------------------------------------------------------------ ports

  /** The ids below `n` that are in `s`, ascending. */
  function Ascending(n: nat, s: set<nat>): (r: seq<nat>)
    ensures forall x :: x in r <==> x < n && x in s
    ensures forall i, j | 0 <= i < j < |r| :: r[i] < r[j]
  {
    if n == 0 then [] else
      var below := Ascending(n - 1, s);
      assert forall i | 0 <= i < |below| :: below[i] in below;
      below + (if n - 1 in s then [n - 1] else [])
  }

  predicate Located(g: Graph, l: nat, loc: LineLocator)
    requires l < |g.lines|
  {
    var line := g.lines[l];
    && line.sourceType == Some(loc.sourceType)
    && line.sourceId == Some(loc.sourceId)
    && line.account == loc.account
    && line.journal < |g.journals|
    && g.journals[line.journal].reversing == loc.reversing
  }

  /** Resolve a locator to exactly one line, or a typed failure. */
  function Resolve(g: Graph, loc: LineLocator): (r: Result<nat, ReconcileError>)
    ensures r.Ok? ==> r.value < |g.lines| && Located(g, r.value, loc)
    ensures r.Ok? ==> forall l | 0 <= l < |g.lines| && Located(g, l, loc) :: l == r.value
    ensures r == Err(LineNotFound) <==> forall l | 0 <= l < |g.lines| :: !Located(g, l, loc)
  {
    var found := Ascending(|g.lines|, set l | 0 <= l < |g.lines| && Located(g, l, loc));
    assert forall l | 0 <= l < |g.lines| && Located(g, l, loc) :: l in found;
    assert forall i | 0 <= i < |found| :: found[i] in found;
    if |found| == 0 then Err(LineNotFound)
    else if |found| == 1 then Ok(found[0])
    else Err(AmbiguousLocator(|found|))
  }

  /** Insert an edge; the table refuses a dangling side, a loop or a non-positive amount. */
  function InsertPartial(g: Graph, d: nat, c: nat, amount: int, maxDate: int, origin: string, sourceId: Option<Ref>)
    : (r: Result<Graph, ReconcileError>)
    ensures r.Ok? ==> r.value.lines == g.lines
  {
    if d >= |g.lines| || c >= |g.lines| || d == c || amount <= 0 then Err(Internal)
    else Ok(g.(
      edges := g.edges + [Edge(g.nextEdge, d, c, amount, maxDate, origin, sourceId, None, None)],
      nextEdge := g.nextEdge + 1))
  }

  datatype Posting = Posting(
    sourceType: string,
    sourceId: Ref,
    reversing: bool,
    date: int,
    currency: string,
    key: Key,
    lines: seq<PostingLine>)

  predicate NonNegative(lines: seq<PostingLine>) {
    forall i | 0 <= i < |lines| :: lines[i].debit >= 0 && lines[i].credit >= 0
  }

  function NewLine(w: Posting, journal: nat, p: PostingLine): Line
    requires p.debit >= 0 && p.credit >= 0
  {
    Line(journal, p.account, p.partyType, p.partyId, p.debit, p.credit, p.debit + p.credit,
         w.currency, RATE_ONE, w.date, Some(w.sourceType), Some(w.sourceId))
  }

  function NewLines(w: Posting, journal: nat, lines: seq<PostingLine>): (r: seq<Line>)
    requires NonNegative(lines)
    ensures |r| == |lines|
    ensures forall i | 0 <= i < |lines| :: r[i] == NewLine(w, journal, lines[i])
  {
    if lines == [] then []
    else NewLines(w, journal, lines[..|lines| - 1]) + [NewLine(w, journal, lines[|lines| - 1])]
  }

  /** Journal, lines and ledger rows in one step; a reused idempotency key is refused. */
  function Commit(g: Graph, w: Posting): (r: Result<Graph, ReconcileError>)
    ensures r.Ok? ==> g.lines <= r.value.lines && |r.value.journals| == |g.journals| + 1
  {
    if w.key in g.keys || !NonNegative(w.lines) then Err(Internal)
    else
      var j := |g.journals|;
      Ok(g.(
        lines := g.lines + NewLines(w, j, w.lines),
        journals := g.journals
          + [Journal(|g.lines|, |w.lines|, Some(w.sourceType), Some(w.sourceId), w.reversing, w.currency, Posted)],
        ledger := g.ledger + w.lines,
        keys := g.keys + {w.key}))
  }

  function AsPosting(line: Line): PostingLine {
    PostingLine(line.account, line.debit, line.credit, line.partyType, line.partyId)
  }

  function AsPostings(lines: seq<Line>): (r: seq<PostingLine>)
    ensures |r| == |lines|
    ensures forall i | 0 <= i < |lines| :: r[i] == AsPosting(lines[i])
  {
    if lines == [] then [] else AsPostings(lines[..|lines| - 1]) + [AsPosting(lines[|lines| - 1])]
  }

  /** A journal's lines in posting order. */
  function JournalLines(g: Graph, j: nat): seq<PostingLine>
    requires j < |g.journals|
  {
    var journal := g.journals[j];
    if journal.first + journal.count <= |g.lines| then
      AsPostings(g.lines[journal.first..journal.first + journal.count])
    else []
  }

  // ------------------------------------------------------------------ components and groups

  function Neighbours(edges: seq<Edge>, s: set<nat>): set<nat> {
    (set i | 0 <= i < |edges| && edges[i].debit in s :: edges[i].credit)
    + (set i | 0 <= i < |edges| && edges[i].credit in s :: edges[i].debit)
  }

  function Ends(edges: seq<Edge>): set<nat> {
    (set i | 0 <= i < |edges| :: edges[i].debit) + (set i | 0 <= i < |edges| :: edges[i].credit)
  }

  /** The connected component of the seeds: add neighbours until nothing is new. */
  function Component(edges: seq<Edge>, s: set<nat>): set<nat>
    decreases Ends(edges) - s
  {
    if Neighbours(edges, s) <= s then s else
      assert Ends(edges) - (s + Neighbours(edges, s)) < Ends(edges) - s by {
        var x :| x in Neighbours(edges, s) && x !in s;
        assert x in Ends(edges) - s;
      }
      Component(edges, s + Neighbours(edges, s))
  }

  function DistinctStamps(g: Graph, comp: set<nat>): seq<nat> {
    Ascending(g.nextGroup, set l | l in comp && l in g.stamps :: g.stamps[l])
  }

  /** COALESCE: an existing stamp is never overwritten. */
  function StampEdge(e: Edge, group: nat, comp: set<nat>): Edge {
    if e.group.None? && (e.debit in comp || e.credit in comp) then e.(group := Some(group)) else e
  }

  function StampEdges(edges: seq<Edge>, group: nat, comp: set<nat>): (r: seq<Edge>)
    ensures |r| == |edges|
    ensures forall i | 0 <= i < |edges| :: r[i] == StampEdge(edges[i], group, comp)
  {
    if edges == [] then []
    else StampEdges(edges[..|edges| - 1], group, comp) + [StampEdge(edges[|edges| - 1], group, comp)]
  }

  function StampLines(stamps: map<nat, nat>, group: nat, comp: set<nat>): map<nat, nat> {
    map l | l in stamps.Keys + comp :: if l in stamps then stamps[l] else group
  }

  function Attach(g: Graph, group: nat, comp: set<nat>): Graph {
    g.(stamps := StampLines(g.stamps, group, comp), edges := StampEdges(g.edges, group, comp))
  }

  predicate Settled(g: Graph, comp: set<nat>) {
    forall l | l in comp && l < |g.lines| :: Residual(g, l) == 0
  }

  /** Stamp a settled component: with a new group, or with the one its lines already carry. */
  function GroupUp(g: Graph, comp: set<nat>, exchangeTotal: int): (Graph, Option<nat>) {
    var stamps := DistinctStamps(g, comp);
    if |stamps| == 0 then
      var group := g.nextGroup;
      (Attach(g.(groups := g.groups[group := exchangeTotal], nextGroup := group + 1), group, comp), Some(group))
    else if |stamps| == 1 then (Attach(g, stamps[0], comp), Some(stamps[0]))
    else (g, None)
  }

  /** Group the seeds' component when every line in it is settled. */
  function Complete(g: Graph, seeds: set<nat>, exchangeTotal: int): (Graph, Option<nat>) {
    var comp := Component(g.edges, seeds);
    if comp == {} || !Settled(g, comp) then (g, None) else GroupUp(g, comp, exchangeTotal)
  }

  // ------------------------------------------------------------------ link

  function SubtypeOf(cfg: Config, account: nat): string {
    if account in cfg.accounts then cfg.accounts[account].subtype else ""
  }

  predicate IsPosted(g: Graph, l: nat)
    requires l < |g.lines|
  {
    g.lines[l].journal < |g.journals| && g.journals[g.lines[l].journal].status == Posted
  }

  function Min(a: int, b: int): int {
    if a <= b then a else b
  }

  function Max(a: int, b: int): int {
    if a >= b then a else b
  }

  /** The guards, in order, and the clamped amount. */
  function ValidatePair(cfg: Config, g: Graph, d: nat, c: nat, amount: int): Result<int, ReconcileError>
    requires d < |g.lines| && c < |g.lines|
  {
    var debit, credit := g.lines[d], g.lines[c];
    if debit.account !in cfg.accounts then Err(ReconcileError.Conflict)
    else if debit.account != credit.account then Err(SameAccountRequired)
    else if !cfg.accounts[debit.account].reconcilable then Err(AccountNotReconcilable)
    else if debit.debit == 0 || credit.credit == 0 then Err(DirectionMismatch)
    else if !IsPosted(g, d) || !IsPosted(g, c) then Err(LineNotPosted)
    else if debit.currency != credit.currency then Err(CurrencyMismatch)
    else if PartySubtype(cfg.accounts[debit.account].subtype)
      && !(debit.partyId.Some? && debit.partyId == credit.partyId && debit.partyType == credit.partyType)
    then Err(PartyMismatch)
    else
      var applied := Min(Min(amount, Residual(g, d)), Residual(g, c));
      if applied < 0 then Err(ReconcileError.Conflict) else Ok(applied)
  }

  /** The exchange move's two lines: the FX line and the control-account line mirroring it. */
  function FxPair(fx: nat, debit: Line, diff: int): seq<PostingLine> {
    var abs := Abs(diff);
    if diff > 0 then
      [PostingLine(fx, abs, 0, None, None), PostingLine(debit.account, 0, abs, debit.partyType, debit.partyId)]
    else
      [PostingLine(fx, 0, abs, None, None), PostingLine(debit.account, abs, 0, debit.partyType, debit.partyId)]
  }

  /** The first of the lines `from..upTo` on an account. */
  function LineOn(lines: seq<Line>, account: nat, from: nat, upTo: nat): (r: Option<nat>)
    requires from <= upTo <= |lines|
    ensures r.Some? ==> from <= r.value < upTo && lines[r.value].account == account
    ensures r.Some? ==> forall k | from <= k < r.value :: lines[k].account != account
    ensures r.None? ==> forall k | from <= k < upTo :: lines[k].account != account
    decreases upTo - from
  {
    if from == upTo then None
    else if lines[from].account == account then Some(from)
    else LineOn(lines, account, from + 1, upTo)
  }

  /**
   * The signed exchange difference: what the side still open retains, when that is the
   * predicted rate delta to within half a cent; positive when the debit side retains it.
   */
  function ExchangeDiff(resD: int, resC: int, predicted: int): Option<int> {
    if resC == 0 && resD > 0 && 2 * Abs(resD - predicted) <= 1 then Some(resD)
    else if resD == 0 && resC > 0 && 2 * Abs(resC - predicted) <= 1 then Some(-resC)
    else None
  }

  function Hi(a: nat, b: nat): nat {
    if a > b then a else b
  }

  function Lo(a: nat, b: nat): nat {
    if a > b then b else a
  }

  function SetExchangeMove(edges: seq<Edge>, partial: nat, journal: nat): (r: seq<Edge>)
    ensures |r| == |edges|
    ensures forall i | 0 <= i < |edges| ::
      r[i] == if edges[i].id == partial then edges[i].(exchangeMove := Some(journal)) else edges[i]
  {
    if edges == [] then []
    else
      var last := edges[|edges| - 1];
      SetExchangeMove(edges[..|edges| - 1], partial, journal)
      + [if last.id == partial then last.(exchangeMove := Some(journal)) else last]
  }

  function ExchangePosting(g: Graph, fx: nat, d: nat, partial: nat, diff: int, date: int): Posting
    requires d < |g.lines|
  {
    Posting(RECONCILIATION, PartialRef(partial), false, date, g.lines[d].currency, Exch(partial),
            FxPair(fx, g.lines[d], diff))
  }

  /** Commit the exchange journal and record it on the root edge. */
  function PostExchange(g: Graph, fx: nat, d: nat, partial: nat, diff: int, date: int)
    : (r: Result<Graph, ReconcileError>)
    requires d < |g.lines|
    ensures r.Ok? ==> g.lines <= r.value.lines && |r.value.journals| == |g.journals| + 1
  {
    var g' :- Commit(g, ExchangePosting(g, fx, d, partial, diff, date));
    Ok(g'.(edges := SetExchangeMove(g'.edges, partial, |g.journals|)))
  }

  /** The derived edge between the exchange line and the side that retained the difference. */
  function SettleExchange(g: Graph, req: PairRequest, d: nat, c: nat, exch: nat, partial: nat, diff: int, date: int)
    : (r: Result<Graph, ReconcileError>)
    ensures r.Ok? ==> r.value.lines == g.lines
  {
    if diff > 0 then InsertPartial(g, d, exch, diff, date, req.origin, Some(PartialRef(partial)))
    else InsertPartial(g, exch, c, -diff, date, req.origin, Some(PartialRef(partial)))
  }

  /** Post the true-up journal for `diff` and settle it against the side that retained it. */
  function PostTrueUp(cfg: Config, env: Env, g: Graph, req: PairRequest, d: nat, c: nat, partial: nat, diff: int,
                      date: int): (r: Result<Graph, ReconcileError>)
    requires d < |g.lines| && c < |g.lines|
    ensures r.Ok? ==> g.lines <= r.value.lines
  {
    if cfg.fx.None? then Err(ExchangeAccountUnconfigured)
    else if date in env.closedDates then Err(ReconcileError.PeriodClosed)
    else
      var g' :- PostExchange(g, cfg.fx.value, d, partial, diff, date);
      var exch := LineOn(g'.lines, g.lines[d].account, |g.lines|, |g'.lines|);
      if exch.None? then Err(Internal) else SettleExchange(g', req, d, c, exch.value, partial, diff, date)
  }

  /** The exchange-difference branch; the second result is the signed total for the group. */
  function TrueUp(cfg: Config, env: Env, g: Graph, req: PairRequest, d: nat, c: nat, partial: nat, applied: int)
    : (r: Result<(Graph, int), ReconcileError>)
    requires d < |g.lines| && c < |g.lines|
    ensures r.Ok? ==> g.lines <= r.value.0.lines
  {
    var rd, rc := g.lines[d].rate, g.lines[c].rate;
    if rd == rc then Ok((g, 0))
    else if Lo(rd, rc) == 0 then Err(Internal)
    else
      var predicted := RoundHalfAway(applied * (Hi(rd, rc) - Lo(rd, rc)), Lo(rd, rc));
      var diff := ExchangeDiff(Residual(g, d), Residual(g, c), predicted);
      if diff.None? then Ok((g, 0))
      else
        var g' :- PostTrueUp(cfg, env, g, req, d, c, partial, diff.value, MaxDate(g, d, c));
        Ok((g', diff.value))
  }

  function MaxDate(g: Graph, d: nat, c: nat): int
    requires d < |g.lines| && c < |g.lines|
  {
    Max(g.lines[d].date, g.lines[c].date)
  }

  // ------------------------------------------------------------------ cash-basis tax flips

  datatype Flip = Flip(d: Deferral, amount: int)

  /** What is still to retire of a deferral; a line the graph does not hold counts as untouched. */
  function Anchor(g: Graph, d: Deferral): int {
    if d.sourceLine < |g.lines| then Residual(g, d.sourceLine) else d.amount
  }

  /** Cumulative target minus what earlier flips retired. */
  function FlipAmount(g: Graph, d: Deferral, cum: int, base: nat): int
    requires base > 0
  {
    RoundHalfAway(d.amount * cum, base) - (d.amount - Anchor(g, d))
  }

  function Flips(g: Graph, ds: seq<Deferral>, cum: int, base: nat): seq<Flip>
    requires base > 0
  {
    if ds == [] then []
    else
      var d := ds[|ds| - 1];
      var amount := FlipAmount(g, d, cum, base);
      var init := Flips(g, ds[..|ds| - 1], cum, base);
      if amount > 0 then init + [Flip(d, amount)] else init
  }

  function RealLeg(f: Flip): PostingLine {
    if f.d.isDebit then PostingLine(f.d.exigible, f.amount, 0, None, None)
    else PostingLine(f.d.exigible, 0, f.amount, None, None)
  }

  function TransitionLeg(f: Flip): PostingLine {
    if f.d.isDebit then PostingLine(f.d.transition, 0, f.amount, None, None)
    else PostingLine(f.d.transition, f.amount, 0, None, None)
  }

  /** Per flip: the real-account leg at the original orientation, then the mirrored transition leg. */
  function FlipLines(flips: seq<Flip>): (r: seq<PostingLine>)
    ensures |r| == 2 * |flips|
    ensures forall k | 0 <= k < |flips| :: r[2 * k] == RealLeg(flips[k]) && r[2 * k + 1] == TransitionLeg(flips[k])
  {
    if flips == [] then []
    else
      var last := flips[|flips| - 1];
      FlipLines(flips[..|flips| - 1]) + [RealLeg(last), TransitionLeg(last)]
  }

  predicate LegFits(leg: PostingLine, f: Flip) {
    leg.account == f.d.transition && if f.d.isDebit then leg.credit > 0 else leg.debit > 0
  }

  /** The first unused leg on the flip's transition account and mirrored side. */
  function FindLeg(legs: seq<PostingLine>, used: set<nat>, f: Flip, i: nat): (r: Option<nat>)
    requires i <= |legs|
    ensures r.Some? ==> i <= r.value < |legs| && r.value !in used && LegFits(legs[r.value], f)
    ensures r.Some? ==> forall k | i <= k < r.value :: k in used || !LegFits(legs[k], f)
    ensures r.None? ==> forall k | i <= k < |legs| :: k in used || !LegFits(legs[k], f)
    decreases |legs| - i
  {
    if i == |legs| then None
    else if i !in used && LegFits(legs[i], f) then Some(i)
    else FindLeg(legs, used, f, i + 1)
  }

  function Used(legs: seq<nat>): set<nat> {
    set x | x in legs
  }

  /** The leg each flip is paired with, in flip order; None when some flip finds no leg. */
  function MatchLegs(legs: seq<PostingLine>, flips: seq<Flip>): (r: Option<seq<nat>>)
    ensures r.Some? ==> |r.value| == |flips| && forall k | 0 <= k < |flips| :: r.value[k] < |legs|
  {
    if flips == [] then Some([])
    else
      var earlier := MatchLegs(legs, flips[..|flips| - 1]);
      if earlier.None? then None
      else
        var leg := FindLeg(legs, Used(earlier.value), flips[|flips| - 1], 0);
        if leg.None? then None else Some(earlier.value + [leg.value])
  }

  /** The derived edge between a deferred line and its flip's transition leg. */
  function InsertFlip(g: Graph, f: Flip, leg: nat, partial: nat, origin: string, date: int)
    : (r: Result<Graph, ReconcileError>)
    ensures r.Ok? ==> r.value.lines == g.lines
  {
    if f.d.isDebit then
      InsertPartial(g, f.d.sourceLine, leg, f.amount, date, origin, Some(PartialRef(partial)))
    else
      InsertPartial(g, leg, f.d.sourceLine, f.amount, date, origin, Some(PartialRef(partial)))
  }

  /** Insert the derived edges: flip k pairs its source line with line `first + matched[k]`. */
  function PairFlips(g: Graph, flips: seq<Flip>, matched: seq<nat>, first: nat, partial: nat, origin: string,
                     date: int): (r: Result<Graph, ReconcileError>)
    requires |matched| == |flips|
    ensures r.Ok? ==> r.value.lines == g.lines
  {
    if flips == [] then Ok(g)
    else
      var k := |flips| - 1;
      var g' :- PairFlips(g, flips[..k], matched[..k], first, partial, origin, date);
      InsertFlip(g', flips[k], first + matched[k], partial, origin, date)
  }

  function FlipPosting(g: Graph, side: nat, partial: nat, flips: seq<Flip>, date: int): Posting
    requires side < |g.lines|
  {
    Posting(RECONCILIATION, PartialRef(partial), false, date, g.lines[side].currency, Caba(partial, side),
            FlipLines(flips))
  }

  /** Post one side's flips and pair their transition legs with the deferred lines. */
  function PostFlips(env: Env, g: Graph, req: PairRequest, side: nat, partial: nat, flips: seq<Flip>, date: int)
    : (r: Result<Graph, ReconcileError>)
    requires side < |g.lines|
    ensures r.Ok? ==> g.lines <= r.value.lines
  {
    if flips == [] then Ok(g)
    else if date in env.closedDates then Err(ReconcileError.PeriodClosed)
    else
      var g' :- Commit(g, FlipPosting(g, side, partial, flips, date));
      var matched := MatchLegs(FlipLines(flips), flips);
      if matched.None? then Err(Internal)
      else PairFlips(g', flips, matched.value, |g.lines|, partial, req.origin, date)
  }

  function DeferralsOf(env: Env, g: Graph, side: nat): seq<Deferral>
    requires side < |g.lines|
  {
    var line := g.lines[side];
    var key := DocumentKey(line.journal, line.sourceType, line.sourceId);
    if env.deferred.Some? && key in env.deferred.value then env.deferred.value[key] else []
  }

  /** The flips one side of the link owes, from the residual before the root edge. */
  function SideFlips(cfg: Config, env: Env, g: Graph, side: nat, applied: int, resBefore: int): seq<Flip>
    requires side < |g.lines|
  {
    var line := g.lines[side];
    if !PartySubtype(SubtypeOf(cfg, line.account)) || line.base == 0 then []
    else Flips(g, DeferralsOf(env, g, side), line.base - resBefore + applied, line.base)
  }

  function FlipSide(cfg: Config, env: Env, g: Graph, req: PairRequest, side: nat, partial: nat, applied: int,
                    resBefore: int, date: int): (r: Result<Graph, ReconcileError>)
    requires side < |g.lines|
    ensures r.Ok? ==> g.lines <= r.value.lines
  {
    PostFlips(env, g, req, side, partial, SideFlips(cfg, env, g, side, applied, resBefore), date)
  }

  // ------------------------------------------------------------------ reversal pairing

  predicate IsCounterpart(g: Graph, l: nat, k: nat)
    requires l < |g.lines| && k < |g.lines|
  {
    var line, other := g.lines[l], g.lines[k];
    && k != l
    && line.sourceType.Some? && line.sourceId.Some?
    && other.account == line.account
    && other.sourceType == line.sourceType
    && other.sourceId == line.sourceId
    && line.journal < |g.journals| && other.journal < |g.journals|
    && g.journals[other.journal].reversing != g.journals[line.journal].reversing
    && IsPosted(g, k)
  }

  function Counterparts(g: Graph, l: nat): set<nat>
    requires l < |g.lines|
  {
    set k | 0 <= k < |g.lines| && IsCounterpart(g, l, k)
  }

  /** The same source's line on the same account in a posted journal of the opposite kind. */
  function Counterpart(g: Graph, l: nat): Option<nat>
    requires l < |g.lines|
  {
    var found := Ascending(|g.lines|, Counterparts(g, l));
    if found == [] then None else Some(found[0])
  }

  predicate Unapplied(g: Graph, l: nat)
    requires l < |g.lines|
  {
    Residual(g, l) == g.lines[l].base
  }

  predicate PairsNow(g: Graph, l: nat) {
    && l < |g.lines|
    && g.lines[l].sourceType != Some(RECONCILIATION)
    && Unapplied(g, l)
    && Counterpart(g, l).Some?
    && Counterpart(g, l).value < |g.lines|
    && Unapplied(g, Counterpart(g, l).value)
  }

  /** Pair one line with its reversal when both are wholly open. */
  function PairOne(g: Graph, l: nat): Result<Graph, ReconcileError> {
    if !PairsNow(g, l) then Ok(g)
    else
      var k := Counterpart(g, l).value;
      var d, c := if g.lines[l].debit > 0 then l else k, if g.lines[l].debit > 0 then k else l;
      var g' :- InsertPartial(g, d, c, Min(g.lines[d].base, g.lines[c].base), MaxDate(g, d, c), MANUAL,
                              g.lines[d].sourceId);
      Ok(Complete(g', {d, c}, 0).0)
  }

  function PairAll(g: Graph, ids: seq<nat>): Result<Graph, ReconcileError> {
    if ids == [] then Ok(g)
    else
      var g' :- PairAll(g, ids[..|ids| - 1]);
      PairOne(g', ids[|ids| - 1])
  }

  /** The root edge with everything it generates; the second result is the exchange total. */
  function LinkEdges(cfg: Config, env: Env, g: Graph, req: PairRequest, d: nat, c: nat, applied: int)
    : (r: Result<(Graph, int), ReconcileError>)
    requires d < |g.lines| && c < |g.lines|
    ensures r.Ok? ==> g.lines <= r.value.0.lines
  {
    var partial, date := g.nextEdge, MaxDate(g, d, c);
    var g1 :- InsertPartial(g, d, c, applied, date, req.origin, g.lines[c].sourceId);
    var up :- TrueUp(cfg, env, g1, req, d, c, partial, applied);
    var g3 :- FlipSide(cfg, env, up.0, req, d, partial, applied, Residual(g, d), date);
    var g4 :- FlipSide(cfg, env, g3, req, c, partial, applied, Residual(g, c), date);
    Ok((g4, up.1))
  }

  /** The whole link verb. */
  function Link(cfg: Config, env: Env, g: Graph, req: PairRequest): Result<(Graph, EdgeOutcome), ReconcileError> {
    var d :- Resolve(g, req.debit);
    var c :- Resolve(g, req.credit);
    var applied :- ValidatePair(cfg, g, d, c, req.amount);
    if applied == 0 then Ok((g, EdgeOutcome(None, 0, None)))
    else
      var edges :- LinkEdges(cfg, env, g, req, d, c, applied);
      var done := Complete(edges.0, {d, c}, edges.1);
      var g' :- PairAll(done.0, [d, c]);
      Ok((g', EdgeOutcome(Some(g.nextEdge), applied, done.1)))
  }

  // ------------------------------------------------------------------ unlink

  /** An edge goes when it is a root or was derived from one. */
  predicate InClosure(e: Edge, roots: set<nat>) {
    || e.id in roots
    || (e.sourceId.Some? && e.sourceId.value.PartialRef? && e.sourceId.value.n in roots)
  }

  /** The edges inside (`taken`) or outside the closure of the roots, in order. */
  function Select(edges: seq<Edge>, roots: set<nat>, taken: bool): seq<Edge> {
    if edges == [] then []
    else
      var last := edges[|edges| - 1];
      var init := Select(edges[..|edges| - 1], roots, taken);
      if InClosure(last, roots) == taken then init + [last] else init
  }

  function Ids(edges: seq<Edge>): set<nat> {
    set i | 0 <= i < |edges| :: edges[i].id
  }

  predicate GeneratedBy(journal: Journal, partials: set<nat>) {
    && journal.sourceType == Some(RECONCILIATION)
    && journal.sourceId.Some? && journal.sourceId.value.PartialRef?
    && journal.sourceId.value.n in partials
  }

  function GeneratedJournals(g: Graph, partials: set<nat>): seq<nat> {
    Ascending(|g.journals|, set j | 0 <= j < |g.journals| && GeneratedBy(g.journals[j], partials))
  }

  function ReversalPosting(env: Env, g: Graph, j: nat): Posting
    requires j < |g.journals|
  {
    Posting(RECONCILIATION, JournalRef(j), true, env.today, g.journals[j].currency, Unlink(j),
            Swapped(JournalLines(g, j)))
  }

  function ReverseJournal(env: Env, g: Graph, j: nat): Result<Graph, ReconcileError> {
    if j >= |g.journals| || JournalLines(g, j) == [] then Ok(g)
    else Commit(g, ReversalPosting(env, g, j))
  }

  function ReverseAll(env: Env, g: Graph, js: seq<nat>): Result<Graph, ReconcileError> {
    if js == [] then Ok(g)
    else
      var g' :- ReverseAll(env, g, js[..|js| - 1]);
      ReverseJournal(env, g', js[|js| - 1])
  }

  function GroupsOn(edges: seq<Edge>): set<nat> {
    set i | 0 <= i < |edges| && edges[i].group.Some? :: edges[i].group.value
  }

  /** Delete the closure, clear the flags of every touched line, dissolve emptied groups. */
  function RemoveEdges(g: Graph, roots: set<nat>): Graph {
    var taken, kept := Select(g.edges, roots, true), Select(g.edges, roots, false);
    g.(edges := kept,
       stamps := g.stamps - Ends(taken),
       groups := g.groups - (GroupsOn(taken) - GroupsOn(kept)))
  }

  function UnlinkClosure(env: Env, g: Graph, roots: set<nat>): Result<Graph, ReconcileError> {
    var taken := Select(g.edges, roots, true);
    var g1 :- ReverseAll(env, g, GeneratedJournals(g, Ids(taken)));
    var g2 := RemoveEdges(g1, roots);
    var g3 := Complete(g2, Ends(taken), 0).0;
    PairAll(g3, Ascending(|g3.lines|, Ends(taken)))
  }

  /** Unlink one edge by id. */
  function UnlinkOne(env: Env, g: Graph, id: nat): Result<Graph, ReconcileError> {
    if id !in Ids(g.edges) then Err(LineNotFound) else UnlinkClosure(env, g, {id})
  }

  function Between(edges: seq<Edge>, a: nat, b: nat): set<nat> {
    set i | 0 <= i < |edges| && Touches(edges[i], a) && Touches(edges[i], b) && edges[i].debit != edges[i].credit
      :: edges[i].id
  }

  /** Unlink every edge between two located lines; none is a no-op success. */
  function UnlinkPair(env: Env, g: Graph, debit: LineLocator, credit: LineLocator): Result<Graph, ReconcileError> {
    var d :- Resolve(g, debit);
    var c :- Resolve(g, credit);
    var roots := Between(g.edges, d, c);
    if roots == {} then Ok(g) else UnlinkClosure(env, g, roots)
  }
}
