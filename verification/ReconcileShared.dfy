/**
 * Two touched lines that call for one counterpart: the one freed first is paired with it and
 * the other stays open, so what unlinking them leaves depends on the order.
 */
module ReconcileShared {
  import opened Wrappers
  import opened Rounding
  import opened ReconcileGraph
  import opened ReconcileInvariants
  import opened ReconcileVerbs
  import opened ReconcileGrowth
  import opened ReconcileSteps
  import opened ReconcileReversals
  import opened ReconcileEnds
  import opened ReconcileLedger
  import opened ReconcileRuns
  import opened ReconcileOutcomes
  import opened ReconcileUndo
  import opened ReconcileRepair
  import opened ReconcileReversed
  import opened ReconcileExact
  import opened ReconcileExamples

  // ------------------------------------------------------------------ the one freed first

  /** Only `x` and `y` of the set call for `k`, which is untouched and open, and nothing calls for them. */
  ghost predicate Rivals(g: Graph, s: set<nat>, x: nat, y: nat, k: nat) {
    && Calls(g, s, x, k) && Calls(g, s, y, k) && x != y && k !in s && Free(g.edges, k)
    && forall z, m | Calls(g, s, z, m) && (m == k || m == x || m == y) :: z == x || z == y
  }

  lemma {:induction false} FreeAfter(g: Graph, roots: set<nat>, k: nat)
    requires Inv(g) && Free(g.edges, k)
    ensures Free(Kept(g, roots), k)
  {
    Positive(g);
    SelectKeepsFree(g.edges, roots, k);
  }

  /** A pairing edge on one of three lines joins a rival with what both call for. */
  lemma {:induction false} RivalEdge(g: Graph, s: set<nat>, x: nat, y: nat, k: nat, e: Edge)
    requires Rivals(g, s, x, y, k) && Repair(g, e, s) && (Touches(e, x) || Touches(e, y) || Touches(e, k))
    ensures Joins(g, e, x, k) || Joins(g, e, y, k)
  {
    var z: nat, m: nat :| Calls(g, s, z, m) && Joins(g, e, z, m);
    assert z == x || z == y;
  }

  /** While the other one is not free, the one tried has been paired. */
  lemma {:induction false} RivalPaired(g: Graph, h: Graph, kept: seq<Edge>, extra: seq<Edge>, s: set<nat>, x: nat, y: nat,
                                       k: nat) returns (i: nat)
    requires Repaired(g, h, kept, extra, s) && Rivals(g, s, x, y, k) && Tried(g, {x}, h.edges)
    requires Free(kept, x) && Free(kept, k) && !Free(kept, y)
    ensures i < |extra| && Joins(g, extra[i], x, k)
  {
    FreeParts(h, kept, extra, x);
    FreeParts(h, kept, extra, k);
    assert Calls(g, {x}, x, k);
    ExtraPositive(h, kept, extra);
    AppliedBounds(extra, x);
    AppliedBounds(extra, k);
    i :| 0 <= i < |extra| && (Touches(extra[i], x) || Touches(extra[i], k));
    assert Repair(g, extra[i], s) && Free(kept, extra[i].debit) && Free(kept, extra[i].credit);
    RivalEdge(g, s, x, y, k, extra[i]);
  }

  /** Once one is paired, the other has no pairing edge. */
  lemma {:induction false} RivalLeft(g: Graph, h: Graph, kept: seq<Edge>, extra: seq<Edge>, s: set<nat>, x: nat, y: nat,
                                     k: nat, i: nat)
    requires Repaired(g, h, kept, extra, s) && Rivals(g, s, x, y, k) && i < |extra| && Joins(g, extra[i], x, k)
    ensures Applied(h.edges, x) == Applied(kept, x) + Min(g.lines[x].base, g.lines[k].base)
    ensures Applied(h.edges, y) == Applied(kept, y)
  {
    FreeParts(h, kept, extra, x);
    FreeParts(h, kept, extra, y);
    OnlyShare(extra, i, x);
    OnlyShare(extra, i, k);
    forall j | 0 <= j < |extra| ensures !Touches(extra[j], y) {
      assert Repair(g, extra[j], s);
      if Touches(extra[j], y) {
        RivalEdge(g, s, x, y, k, extra[j]);
      }
    }
    AppliedUntouched(extra, y);
  }

  /** Unlinking `a` frees `x` and not `y`; unlinking `b` then frees `y` and does not touch `x`. */
  ghost predicate FreesFirst(g: Graph, a: nat, b: nat, x: nat, y: nat) {
    && x in Touched(g, {}, a) && Free(Kept(g, {a}), x) && !Free(Kept(g, {a}), y)
    && Free(Kept(g, {a, b}), x) && Free(Kept(g, {a, b}), y)
  }

  lemma {:induction false} TwoElements(a: nat, b: nat)
    ensures Elements([a, b]) == {a, b} && Elements([a]) == {a} && Elements([]) == {}
    ensures [a, b][..0] == [] && [a, b][..1] == [a] && [a, b][..2] == [a, b]
  {
    assert [a, b][..1] == [a] && [a][..0] == [];
    assert Elements([a]) == Elements([]) + {a} && Elements([a, b]) == Elements([a]) + {b};
  }

  lemma {:induction false} FirstUnlink(env: Env, g: Graph, a: nat, b: nat, x: nat, y: nat, k: nat)
    returns (h: Graph, extra: seq<Edge>, i: nat)
    requires Sound(g) && Sourced(g) && Separate(g, [a, b]) && Rivals(g, TouchedBy(g, {a, b}), x, y, k)
    requires FreesFirst(g, a, b, x, y)
    ensures UnlinkEach(env, g, [a]) == Ok(h) && Repaired(g, h, Kept(g, {a}), extra, TouchedBy(g, {a, b}))
    ensures i < |extra| && Joins(g, extra[i], x, k)
  {
    var s := TouchedBy(g, {a, b});
    TwoElements(a, b);
    NothingGone(g, s);
    SelectOutside(g.edges, {});
    h, extra := NextUnlink(env, g, g, {}, a, {a, b}, []);
    assert {} + {a} == {a};
    TriedFewer(g, {x}, Touched(g, {}, a), h.edges);
    FreeAfter(g, {a}, k);
    i := RivalPaired(g, h, Kept(g, {a}), extra, s, x, y, k);
    assert UnlinkEach(env, g, []) == Ok(g);
  }

  /** Of two lines that call for one counterpart, the one freed first gets it, and the other stays open. */
  lemma {:induction false} FirstFreedWins(env: Env, g: Graph, a: nat, b: nat, x: nat, y: nat, k: nat)
    requires Sound(g) && Sourced(g) && Separate(g, [a, b]) && Rivals(g, TouchedBy(g, {a, b}), x, y, k)
    requires FreesFirst(g, a, b, x, y)
    ensures UnlinkEach(env, g, [a, b]).Ok? && g.lines <= UnlinkEach(env, g, [a, b]).value.lines
    ensures var h := UnlinkEach(env, g, [a, b]).value;
      && Residual(h, x) == g.lines[x].base - Min(g.lines[x].base, g.lines[k].base)
      && Residual(h, y) == g.lines[y].base
  {
    var s := TouchedBy(g, {a, b});
    TwoElements(a, b);
    var h1, extra1, i := FirstUnlink(env, g, a, b, x, y, k);
    var h, extra := NextUnlink(env, g, h1, {a}, b, {a, b}, extra1);
    assert {a} + {b} == {a, b} && extra[i] == extra1[i];
    RivalLeft(g, h, Kept(g, {a, b}), extra, s, x, y, k, i);
  }

  // ------------------------------------------------------------------ a run in which the order shows

  const CFG := Config(map[1 := AccountFlags(true, "accounts_receivable")], None)
  const INVOICE_KEY := DocumentKey(0, Some("invoice"), Some(Document(0)))

  /** Two tax lines of the invoice on one account, each deferred for one of the payments. */
  const FIRST_TAX := Deferral(1, 3, 5, 10, false)
  const SECOND_TAX := Deferral(2, 3, 5, 6, false)

  function EnvOf(d: Deferral): Env {
    Env({}, Some(map[INVOICE_KEY := [d]]), 0)
  }

  function Invoice(): Doc {
    Doc("invoice", 0, false, 0, "IDR", [Item(1, 200, 0), Item(3, 0, 10), Item(3, 0, 6), Item(4, 0, 184)])
  }

  function Reversal(): Doc {
    Doc("invoice", 0, true, 0, "IDR", [Item(1, 0, 200), Item(3, 10, 0), Item(3, 6, 0), Item(4, 184, 0)])
  }

  function Payment(n: nat): Doc {
    Doc("payment", n, false, 0, "IDR", [Item(1, 0, 100), Item(2, 100, 0)])
  }

  function Ask(n: nat): PairRequest {
    PairRequest(LineLocator("invoice", Document(0), 1, false), LineLocator("payment", Document(n), 1, false), 100, MANUAL)
  }

  function ItemLine(journal: nat, account: nat, debit: nat, credit: nat, kind: string, n: nat): Line {
    Line(journal, account, Some("customer"), Some(7), debit, credit, debit + credit, "IDR", RATE_ONE, 0, Some(kind),
         Some(Document(n)))
  }

  /** The run's first lines: the invoice, then the two payments. */
  function Row(l: nat): Line {
    match l
    case 0 => ItemLine(0, 1, 200, 0, "invoice", 0)
    case 1 => ItemLine(0, 3, 0, 10, "invoice", 0)
    case 2 => ItemLine(0, 3, 0, 6, "invoice", 0)
    case 3 => ItemLine(0, 4, 0, 184, "invoice", 0)
    case 4 => ItemLine(1, 1, 0, 100, "payment", 1)
    case 5 => ItemLine(1, 2, 100, 0, "payment", 1)
    case 6 => ItemLine(2, 1, 0, 100, "payment", 2)
    case _ => ItemLine(2, 2, 100, 0, "payment", 2)
  }

  ghost predicate Rows(g: Graph, n: nat) {
    n <= |g.lines| && forall l | 0 <= l < n :: g.lines[l] == Row(l)
  }

  /** The first `n` journals are posted, and no reversals. */
  ghost predicate Forward(g: Graph, n: nat) {
    n <= |g.journals|
    && forall j | 0 <= j < n :: !g.journals[j].reversing && g.journals[j].status == JournalStatus.Posted
  }

  /** The invoice is lines 0 to 3, the payments lines 4, 5 and 6, 7. */
  ghost predicate Posted(g: Graph) {
    Rows(g, 8) && Forward(g, 3)
  }

  lemma {:induction false} DocsOk()
    ensures DocOk(Invoice()) && DocOk(Reversal()) && forall n :: DocOk(Payment(n))
    ensures |Invoice().lines| == 4 && |Reversal().lines| == 4 && forall n :: |Payment(n).lines| == 2
  {
  }

  lemma {:induction false} RowsAre(g: Graph)
    requires DocAt(g, Invoice(), 0, 0) && DocAt(g, Payment(1), 4, 1) && DocAt(g, Payment(2), 6, 2)
    ensures Posted(g)
  {
    DocsOk();
    DocLineAt(g, Invoice(), 0, 0, 0, 0);
    DocLineAt(g, Invoice(), 0, 0, 1, 1);
    DocLineAt(g, Invoice(), 0, 0, 2, 2);
    DocLineAt(g, Invoice(), 0, 0, 3, 3);
    DocLineAt(g, Payment(1), 4, 1, 0, 4);
    DocLineAt(g, Payment(1), 4, 1, 1, 5);
    DocLineAt(g, Payment(2), 6, 2, 0, 6);
    DocLineAt(g, Payment(2), 6, 2, 1, 7);
  }

  lemma {:induction false} PostAll() returns (g: Graph)
    ensures Reachable(CFG, g) && Sound(g) && Posted(g) && |g.lines| == 8 && |g.journals| == 3
    ensures g.edges == [] && g.nextEdge == 0
  {
    DocsOk();
    var g1 := PostTwo(CFG, Invoice(), Payment(1));
    g := DocPosts(CFG, g1, Payment(2));
    DocStays(g1, g, Invoice(), 0, 0);
    DocStays(g1, g, Payment(1), 4, 1);
    RowsAre(g);
  }

  // ------------------------------------------------------------------ the two links

  ghost predicate MachineryFrom(g: Graph, n: nat) {
    forall l | n <= l < |g.lines| :: Machinery(g.lines[l])
  }

  lemma {:induction false} Found(g: Graph, n: nat)
    requires Posted(g) && MachineryFrom(g, 8) && 1 <= n <= 2
    ensures Resolve(g, Ask(n).debit) == Ok(0) && Resolve(g, Ask(n).credit) == Ok(2 + 2 * n)
  {
    FoundInvoice(g);
    forall x | 0 <= x < |g.lines| ensures Located(g, x, Ask(n).credit) <==> x == 2 + 2 * n {
      assert x < 8 ==> x == 0 || x == 1 || x == 2 || x == 3 || x == 4 || x == 5 || x == 6 || x == 7;
    }
    ResolveUnique(g, Ask(n).credit, 2 + 2 * n);
  }

  lemma {:induction false} FoundInvoice(g: Graph)
    requires Posted(g) && MachineryFrom(g, 8)
    ensures forall n :: Resolve(g, Ask(n).debit) == Ok(0)
  {
    var loc := LineLocator("invoice", Document(0), 1, false);
    forall x | 0 <= x < |g.lines| ensures Located(g, x, loc) <==> x == 0 {
      assert x < 8 ==> x == 0 || x == 1 || x == 2 || x == 3 || x == 4 || x == 5 || x == 6 || x == 7;
    }
    ResolveUnique(g, loc, 0);
  }

  lemma {:induction false} Clamped(g: Graph, n: nat)
    requires Posted(g) && 1 <= n <= 2 && Residual(g, 0) >= 100 && Residual(g, 2 + 2 * n) == 100
    ensures ValidatePair(CFG, g, 0, 2 + 2 * n, 100) == Ok(100)
  {
  }

  lemma {:induction false} EnvFits(g: Graph, d: Deferral, n: nat)
    requires Posted(g) && (d == FIRST_TAX || d == SECOND_TAX) && 1 <= n <= 2
    ensures EnvOk(g, EnvOf(d)) && DeferralsOf(EnvOf(d), g, 0) == [d] && DeferralsOf(EnvOf(d), g, 2 + 2 * n) == []
  {
  }

  /** The first payment is linked and has flipped the first tax line. */
  ghost predicate LinkedOnce(g: Graph) {
    && Reachable(CFG, g) && Sound(g) && Posted(g) && MachineryFrom(g, 8) && |g.lines| == 10 && |g.journals| == 4
    && |g.edges| == 2 && g.nextEdge == 2
    && EdgeAt(g.edges, 0, 0, 0, 4, 100, Some(Document(1))) && EdgeAt(g.edges, 1, 1, 9, 1, 5, Some(PartialRef(0)))
  }

  lemma {:induction false} OwedFirst(g: Graph)
    requires Posted(g) && g.edges == []
    ensures Owes(CFG, EnvOf(FIRST_TAX), g, 0, 100, Residual(g, 0), Flip(FIRST_TAX, 5))
  {
    EnvFits(g, FIRST_TAX, 1);
    assert RoundHalfAway(10 * 100, 200) == 5;
  }

  /** The request of payment `n` asks for a hundred of the invoice, on one date at one rate. */
  lemma {:induction false} AsksFor(g: Graph, n: nat)
    requires Posted(g) && MachineryFrom(g, 8) && 1 <= n <= 2 && Residual(g, 0) >= 100 && Residual(g, 2 + 2 * n) == 100
    ensures Asks(CFG, g, Ask(n), 0, 2 + 2 * n, 100)
    ensures g.lines[0].rate == g.lines[2 + 2 * n].rate && MaxDate(g, 0, 2 + 2 * n) == 0
    ensures g.lines[2 + 2 * n].sourceId == Some(Document(n))
  {
    Found(g, n);
    Clamped(g, n);
    assert g.lines[0] == Row(0) && g.lines[2 + 2 * n] == Row(2 + 2 * n);
  }

  lemma {:induction false} LinkFlips(g: Graph, n: nat, tax: Deferral, amount: int) returns (g': Graph)
    requires Reachable(CFG, g) && Sound(g) && Posted(g) && MachineryFrom(g, 8) && 1 <= n <= 2
    requires (tax == FIRST_TAX || tax == SECOND_TAX) && Residual(g, 0) >= 100 && Residual(g, 2 + 2 * n) == 100
    requires amount > 0 && Owes(CFG, EnvOf(tax), g, 0, 100, Residual(g, 0), Flip(tax, amount))
    ensures Reachable(CFG, g') && Sound(g') && FlipAdded(g, g', 0, 2 + 2 * n, 100, Flip(tax, amount))
    ensures Posted(g') && MachineryFrom(g', 8) && g.lines[2 + 2 * n].sourceId == Some(Document(n))
  {
    AsksFor(g, n);
    EnvFits(g, tax, n);
    g' := FlipsReach(CFG, EnvOf(tax), g, Ask(n), 0, 2 + 2 * n, 100, Flip(tax, amount));
    RunsOn(g, g');
  }

  lemma {:induction false} LinkFirst() returns (g: Graph)
    ensures LinkedOnce(g)
  {
    var g0 := PostAll();
    assert g0.lines[0] == Row(0) && g0.lines[4] == Row(4);
    OwedFirst(g0);
    g := LinkFlips(g0, 1, FIRST_TAX, 5);
  }

  lemma {:induction false} RunsOn(g: Graph, g': Graph)
    requires Posted(g) && MachineryFrom(g, 8) && g.lines <= g'.lines && g.journals <= g'.journals
    requires MachineryAdded(g, g')
    ensures Posted(g') && MachineryFrom(g', 8)
  {
  }

  lemma {:induction false} EdgeStays(a: seq<Edge>, b: seq<Edge>, i: nat, id: nat, d: nat, c: nat, amount: int,
                                     source: Option<Ref>)
    requires |a| <= |b| && SameFlow(a, b[..|a|]) && EdgeAt(a, i, id, d, c, amount, source)
    ensures EdgeAt(b, i, id, d, c, amount, source)
  {
    assert b[..|a|][i] == b[i];
  }

  lemma {:induction false} TwoShares(edges: seq<Edge>, l: nat)
    requires |edges| == 2
    ensures Applied(edges, l) == Share(edges[0], l) + Share(edges[1], l)
  {
    assert edges[..1][..0] == [];
    assert Applied(edges[..1], l) == Share(edges[0], l);
  }

  lemma {:induction false} OwedSecond(g: Graph)
    requires LinkedOnce(g)
    ensures Residual(g, 0) == 100 && Residual(g, 6) == 100
    ensures Owes(CFG, EnvOf(SECOND_TAX), g, 0, 100, Residual(g, 0), Flip(SECOND_TAX, 6))
  {
    assert g.lines[0] == Row(0) && g.lines[2] == Row(2) && g.lines[6] == Row(6);
    TwoShares(g.edges, 0);
    TwoShares(g.edges, 2);
    TwoShares(g.edges, 6);
    EnvFits(g, SECOND_TAX, 2);
    assert RoundHalfAway(6 * 200, 200) == 6;
  }

  /** The edges after both links: each root, and after it its flip. */
  ghost predicate FourEdges(edges: seq<Edge>) {
    && |edges| == 4
    && EdgeAt(edges, 0, 0, 0, 4, 100, Some(Document(1))) && EdgeAt(edges, 1, 1, 9, 1, 5, Some(PartialRef(0)))
    && EdgeAt(edges, 2, 2, 0, 6, 100, Some(Document(2))) && EdgeAt(edges, 3, 3, 11, 2, 6, Some(PartialRef(2)))
  }

  lemma {:induction false} LinkSecond() returns (g: Graph)
    ensures Reachable(CFG, g) && Sound(g) && Posted(g) && MachineryFrom(g, 8)
    ensures |g.lines| == 12 && |g.journals| == 5 && FourEdges(g.edges)
  {
    var g1 := LinkFirst();
    OwedSecond(g1);
    g := LinkFlips(g1, 2, SECOND_TAX, 6);
    EdgeStays(g1.edges, g.edges, 0, 0, 0, 4, 100, Some(Document(1)));
    EdgeStays(g1.edges, g.edges, 1, 1, 9, 1, 5, Some(PartialRef(0)));
  }

  // ------------------------------------------------------------------ the reversal, and the two orders

  /** Lines 12 to 15 reverse the invoice. */
  ghost predicate Reversed(g: Graph) {
    && Posted(g) && |g.lines| == 16 && |g.journals| == 6 && FourEdges(g.edges)
    && (forall l | 8 <= l < 12 :: Machinery(g.lines[l]))
    && g.lines[12] == ItemLine(5, 1, 0, 200, "invoice", 0) && g.lines[13] == ItemLine(5, 3, 10, 0, "invoice", 0)
    && g.lines[14] == ItemLine(5, 3, 6, 0, "invoice", 0) && g.lines[15] == ItemLine(5, 4, 184, 0, "invoice", 0)
    && g.journals[5].reversing && g.journals[5].status == JournalStatus.Posted
  }

  lemma {:induction false} PostReversal() returns (g: Graph)
    ensures Reachable(CFG, g) && Sound(g) && Reversed(g)
  {
    var g1 := LinkSecond();
    DocsOk();
    g := DocPosts(CFG, g1, Reversal());
    ReversalLines(g1, g);
  }

  lemma {:induction false} ReversalLines(g: Graph, g': Graph)
    requires Posted(g) && MachineryFrom(g, 8) && |g.lines| == 12 && |g.journals| == 5 && FourEdges(g.edges)
    requires g.lines <= g'.lines && |g'.lines| == 16 && g.journals <= g'.journals && |g'.journals| == 6
    requires g'.edges == g.edges && DocAt(g', Reversal(), 12, 5)
    ensures Reversed(g')
  {
    DocsOk();
    DocLineAt(g', Reversal(), 12, 5, 0, 12);
    DocLineAt(g', Reversal(), 12, 5, 1, 13);
    DocLineAt(g', Reversal(), 12, 5, 2, 14);
    DocLineAt(g', Reversal(), 12, 5, 3, 15);
    forall l | 0 <= l < 12 ensures g'.lines[l] == g.lines[l] {
    }
    forall j | 0 <= j < 5 ensures g'.journals[j] == g.journals[j] {
    }
  }

  lemma {:induction false} LeastFirst(n: nat, s: set<nat>, k: nat)
    requires k in s && k < n && forall x | x in s :: x >= k
    ensures Ascending(n, s) != [] && Ascending(n, s)[0] == k
  {
    var r := Ascending(n, s);
    assert k in r;
    var i :| 0 <= i < |r| && r[i] == k;
    assert r[0] in r;
  }

  /** Both tax lines call for the reversal's first line on their account. */
  lemma {:induction false} BothCall(g: Graph, x: nat)
    requires Reversed(g) && 1 <= x <= 2
    ensures Counterpart(g, x) == Some(13)
  {
    assert g.lines[x] == Row(x);
    assert forall k | 0 <= k < 8 :: g.lines[k] == Row(k) && Row(k).journal < 3;
    assert IsCounterpart(g, x, 13);
    LeastFirst(|g.lines|, Counterparts(g, x), 13);
  }

  /** A line that is not one of the two calls for none of the three. */
  lemma {:induction false} OthersCall(g: Graph, z: nat)
    requires Reversed(g) && z < 12 && !Machinery(g.lines[z]) && z != 1 && z != 2
    ensures Counterpart(g, z).Some? ==> Counterpart(g, z).value !in {1, 2, 13}
  {
    CounterpartSound(g, z);
    assert z < 8;
    assert g.lines[z] == Row(z) && g.lines[1] == Row(1) && g.lines[2] == Row(2);
  }

  predicate InOrder(a: nat, b: nat, x: nat, y: nat) {
    (a == 0 && b == 2 && x == 1 && y == 2) || (a == 2 && b == 0 && x == 2 && y == 1)
  }

  lemma {:induction false} TouchedHere(g: Graph, s: set<nat>)
    requires FourEdges(g.edges) && s == TouchedBy(g, {0, 2})
    ensures 1 in s && 2 in s && forall z | z in s :: z < 12
  {
    SelectMembers(g.edges, {0, 2}, true);
    var taken := Select(g.edges, {0, 2}, true);
    assert g.edges[1] in taken && g.edges[3] in taken;
    EndsByMember(taken, g.edges[1]);
    EndsByMember(taken, g.edges[3]);
    forall i | 0 <= i < |taken| ensures taken[i].debit < 12 && taken[i].credit < 12 {
      assert taken[i] in g.edges;
    }
  }

  lemma {:induction false} AreRivals(g: Graph, s: set<nat>, x: nat, y: nat)
    requires Reversed(g) && s == TouchedBy(g, {0, 2}) && ((x == 1 && y == 2) || (x == 2 && y == 1))
    ensures Rivals(g, s, x, y, 13)
  {
    TouchedHere(g, s);
    BothCall(g, 1);
    BothCall(g, 2);
    assert g.lines[1] == Row(1) && g.lines[2] == Row(2);
    forall z, m | Calls(g, s, z, m) && (m == 13 || m == x || m == y) ensures z == x || z == y {
      if z != 1 && z != 2 {
        OthersCall(g, z);
      }
    }
    AppliedUntouched(g.edges, 13);
  }

  /** Each root's closure is the root and its flip. */
  lemma {:induction false} ClosuresAre(edges: seq<Edge>, a: nat, b: nat)
    requires FourEdges(edges) && ((a == 0 && b == 2) || (a == 2 && b == 0))
    ensures InClosure(edges[a], {a}) && InClosure(edges[a + 1], {a}) && !InClosure(edges[b], {a})
    ensures !InClosure(edges[b + 1], {a}) && forall i | 0 <= i < 4 :: InClosure(edges[i], {a, b})
    ensures {a, b} - {a} == {b} && {a, b} - {b} == {a}
  {
  }

  lemma {:induction false} SeparateHere(g: Graph, a: nat, b: nat)
    requires FourEdges(g.edges) && ((a == 0 && b == 2) || (a == 2 && b == 0))
    ensures Separate(g, [a, b])
  {
    TwoElements(a, b);
    ClosuresAre(g.edges, a, b);
    ClosuresAre(g.edges, b, a);
    assert Standing(g.edges, a, {a, b}) && Standing(g.edges, b, {a, b});
  }

  lemma {:induction false} FirstTouches(g: Graph, a: nat, b: nat, x: nat, y: nat)
    requires FourEdges(g.edges) && InOrder(a, b, x, y)
    ensures x in Touched(g, {}, a)
  {
    SelectOutside(g.edges, {});
    ClosuresAre(g.edges, a, b);
    SelectMembers(g.edges, {a}, true);
    assert g.edges[a + 1] in Select(g.edges, {a}, true);
    EndsByMember(Select(g.edges, {a}, true), g.edges[a + 1]);
  }

  lemma {:induction false} OtherNotFree(g: Graph, a: nat, b: nat, x: nat, y: nat)
    requires Inv(g) && FourEdges(g.edges) && InOrder(a, b, x, y)
    ensures !Free(Kept(g, {a}), y)
  {
    ClosuresAre(g.edges, a, b);
    SelectMembers(g.edges, {a}, false);
    var kept := Select(g.edges, {a}, false);
    assert g.edges[b + 1] in kept;
    var n :| 0 <= n < |kept| && kept[n] == g.edges[b + 1];
    assert Touches(kept[n], y);
    Positive(g);
    forall i | 0 <= i < |kept| ensures kept[i].amount > 0 {
      assert kept[i] in g.edges;
    }
    AppliedBounds(kept, y);
  }

  lemma {:induction false} OnlyFlipsTouch(edges: seq<Edge>, a: nat, b: nat, x: nat, y: nat)
    requires FourEdges(edges) && InOrder(a, b, x, y)
    ensures forall i | 0 <= i < |edges| && Touches(edges[i], x) :: InClosure(edges[i], {a}) && InClosure(edges[i], {a, b})
    ensures forall i | 0 <= i < |edges| && Touches(edges[i], y) :: InClosure(edges[i], {a, b})
  {
    ClosuresAre(edges, a, b);
    assert forall i | 0 <= i < |edges| && Touches(edges[i], x) :: i == a + 1;
  }

  lemma {:induction false} FreesInOrder(g: Graph, a: nat, b: nat, x: nat, y: nat)
    requires Inv(g) && FourEdges(g.edges) && InOrder(a, b, x, y)
    ensures FreesFirst(g, a, b, x, y)
  {
    FirstTouches(g, a, b, x, y);
    OtherNotFree(g, a, b, x, y);
    OnlyFlipsTouch(g.edges, a, b, x, y);
    NothingApplied(g.edges, {a}, x);
    NothingApplied(g.edges, {a, b}, x);
    NothingApplied(g.edges, {a, b}, y);
  }

  /** Unlinking in one order settles the first tax line, in the other it leaves all of it open. */
  ghost predicate OrderShows(g: Graph) {
    && Separate(g, [0, 2]) && Separate(g, [2, 0]) && 1 < |g.lines|
    && var a, b := UnlinkEach(EnvOf(FIRST_TAX), g, [0, 2]), UnlinkEach(EnvOf(FIRST_TAX), g, [2, 0]);
    && a.Ok? && b.Ok? && 1 < |a.value.lines| && 1 < |b.value.lines|
    && Residual(a.value, 1) == 0 && Residual(b.value, 1) == 10
  }

  /** Without different counterparts the order matters, in a reachable state. */
  lemma {:induction false} OrderMatters()
    ensures exists g | Reachable(CFG, g) :: OrderShows(g)
  {
    var g := PostReversal();
    ReachableIsSourced(CFG, g);
    FreesInOrder(g, 0, 2, 1, 2);
    FreesInOrder(g, 2, 0, 2, 1);
    SeparateHere(g, 0, 2);
    SeparateHere(g, 2, 0);
    assert {2, 0} == {0, 2};
    AreRivals(g, TouchedBy(g, {0, 2}), 1, 2);
    AreRivals(g, TouchedBy(g, {0, 2}), 2, 1);
    FirstFreedWins(EnvOf(FIRST_TAX), g, 0, 2, 1, 2, 13);
    FirstFreedWins(EnvOf(FIRST_TAX), g, 2, 0, 2, 1, 13);
    assert g.lines[1] == Row(1);
    assert OrderShows(g);
  }
}
