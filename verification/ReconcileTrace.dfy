/**
 * What an unlink leaves in the general ledger: nothing. In every reachable state the journals
 * the machinery reversed, together with their reversals, cancel on every account. So the
 * ledger is always worth its documents plus the adjustments of the edges that still exist.
 */
module ReconcileTrace {
  import opened Wrappers
  import opened GlPosting
  import opened ReconcileGraph
  import opened ReconcileInvariants
  import opened ReconcileVerbs
  import opened ReconcileGrowth
  import opened ReconcileSteps
  import opened ReconcileReversals
  import opened ReconcileLedger
  import opened ReconcileRuns

  /** A reversal, or a generated journal whose root edge is gone. */
  predicate Dead(j: Journal, ids: set<nat>) {
    && j.sourceType == Some(RECONCILIATION)
    && j.sourceId.Some?
    && (j.sourceId.value.JournalRef? || (j.sourceId.value.PartialRef? && j.sourceId.value.n !in ids))
  }

  /** What `n` lines from `from` on hold on an account. */
  function LinesNet(lines: seq<Line>, from: nat, n: nat, account: nat): int {
    if n == 0 then 0
    else
      LinesNet(lines, from, n - 1, account)
      + if from + n - 1 < |lines| then NetOf(AsPosting(lines[from + n - 1]), account) else 0
  }

  function JournalNet(g: Graph, j: nat, account: nat): int
    requires j < |g.journals|
  {
    LinesNet(g.lines, g.journals[j].first, g.journals[j].count, account)
  }

  lemma {:induction false} LinesNetIsNet(lines: seq<Line>, from: nat, n: nat, postings: seq<PostingLine>, account: nat)
    requires |postings| == n && from + n <= |lines|
    requires forall i | 0 <= i < n :: postings[i] == AsPosting(lines[from + i])
    ensures LinesNet(lines, from, n, account) == Net(postings, account)
  {
    if n == 0 {
    } else {
      LinesNetIsNet(lines, from, n - 1, postings[..n - 1], account);
      assert postings[n - 1] == AsPosting(lines[from + (n - 1)]);
    }
  }

  /** A journal's net is that of its lines. */
  lemma {:induction false} JournalNetIs(g: Graph, j: nat, account: nat)
    requires j < |g.journals| && g.journals[j].first + g.journals[j].count <= |g.lines|
    ensures JournalNet(g, j, account) == Net(JournalLines(g, j), account)
  {
    var first, count := g.journals[j].first, g.journals[j].count;
    forall i | 0 <= i < count ensures JournalLines(g, j)[i] == AsPosting(g.lines[first + i]) {
      assert g.lines[first..first + count][i] == g.lines[first + i];
    }
    LinesNetIsNet(g.lines, first, count, JournalLines(g, j), account);
  }

  lemma {:induction false} LinesNetStays(a: seq<Line>, b: seq<Line>, from: nat, n: nat, account: nat)
    requires a <= b && from + n <= |a|
    ensures LinesNet(b, from, n, account) == LinesNet(a, from, n, account)
  {
    if n == 0 {
    } else {
      LinesNetStays(a, b, from, n - 1, account);
    }
  }

  /** A journal keeps what it holds as the books grow. */
  lemma {:induction false} JournalNetStays(g: Graph, g': Graph, j: nat, account: nat)
    requires JournalsShaped(g) && g.lines <= g'.lines && j < |g.journals| <= |g'.journals|
    requires g'.journals[j] == g.journals[j].(status := g'.journals[j].status)
    ensures JournalNet(g', j, account) == JournalNet(g, j, account)
  {
    TilesAt(g.journals, |g.lines|, j);
    LinesNetStays(g.lines, g'.lines, g.journals[j].first, g.journals[j].count, account);
  }

  /** What the dead journals among the first `n` hold on an account. */
  function DeadNet(g: Graph, ids: set<nat>, n: nat, account: nat): int
    requires n <= |g.journals|
  {
    if n == 0 then 0
    else DeadNet(g, ids, n - 1, account) + if Dead(g.journals[n - 1], ids) then JournalNet(g, n - 1, account) else 0
  }

  ghost predicate Traceless(g: Graph) {
    forall a: nat :: DeadNet(g, Ids(g.edges), |g.journals|, a) == 0
  }

  // ------------------------------------------------------------------ the ledger is its journals

  /** What all of the first `n` journals hold on an account. */
  function JournalsNet(g: Graph, n: nat, account: nat): int
    requires n <= |g.journals|
  {
    if n == 0 then 0 else JournalsNet(g, n - 1, account) + JournalNet(g, n - 1, account)
  }

  lemma {:induction false} NetPrefix(ledger: seq<PostingLine>, a: nat, b: nat, account: nat)
    requires a <= b <= |ledger|
    ensures Net(ledger[..b], account) == Net(ledger[..a], account) + Net(ledger[a..b], account)
  {
    assert ledger[..b] == ledger[..a] + ledger[a..b];
    Append(ledger[..a], ledger[a..b]);
  }

  lemma {:induction false} JournalsAreLedger(g: Graph, n: nat, upTo: nat, account: nat)
    requires LedgerMirrors(g) && n <= |g.journals| && upTo <= |g.lines| && Tiles(g.journals[..n], upTo)
    ensures JournalsNet(g, n, account) == Net(g.ledger[..upTo], account)
  {
    if n > 0 {
      var j := g.journals[n - 1];
      assert g.journals[..n][..n - 1] == g.journals[..n - 1];
      JournalsAreLedger(g, n - 1, j.first, account);
      NetPrefix(g.ledger, j.first, upTo, account);
      LinesNetIsNet(g.lines, j.first, j.count, g.ledger[j.first..upTo], account);
    } else {
      assert g.ledger[..0] == [];
    }
  }

  /** What the live journals hold: documents, and adjustments whose edge still exists. */
  function LiveNet(g: Graph, ids: set<nat>, n: nat, account: nat): int
    requires n <= |g.journals|
  {
    if n == 0 then 0
    else LiveNet(g, ids, n - 1, account) + if Dead(g.journals[n - 1], ids) then 0 else JournalNet(g, n - 1, account)
  }

  lemma {:induction false} LiveAndDead(g: Graph, ids: set<nat>, n: nat, account: nat)
    requires n <= |g.journals|
    ensures JournalsNet(g, n, account) == LiveNet(g, ids, n, account) + DeadNet(g, ids, n, account)
  {
    if n == 0 {
    } else {
      LiveAndDead(g, ids, n - 1, account);
    }
  }

  /** Without a trace the ledger is worth exactly its live journals. */
  lemma {:induction false} LedgerIsLive(g: Graph, account: nat)
    requires Shelf(g) && Traceless(g)
    ensures Net(g.ledger, account) == LiveNet(g, Ids(g.edges), |g.journals|, account)
  {
    Books(g);
    assert g.journals[..|g.journals|] == g.journals && g.ledger[..|g.lines|] == g.ledger;
    JournalsAreLedger(g, |g.journals|, |g.lines|, account);
    LiveAndDead(g, Ids(g.edges), |g.journals|, account);
  }

  // ------------------------------------------------------------------ steps that bury nothing

  /** The first journals, unchanged up to status and as dead as before, hold what they held. */
  lemma {:induction false} SameDead(g: Graph, g': Graph, ids: set<nat>, ids': set<nat>, n: nat, account: nat)
    requires JournalsShaped(g) && g.lines <= g'.lines && n <= |g.journals| <= |g'.journals|
    requires forall j | 0 <= j < n :: g'.journals[j] == g.journals[j].(status := g'.journals[j].status)
    requires forall j | 0 <= j < n :: Dead(g.journals[j], ids) == Dead(g'.journals[j], ids')
    ensures DeadNet(g', ids', n, account) == DeadNet(g, ids, n, account)
  {
    if n == 0 {
    } else {
      var j := n - 1;
      SameDead(g, g', ids, ids', j, account);
      JournalNetStays(g, g', j, account);
      assert Dead(g.journals[j], ids) == Dead(g'.journals[j], ids');
    }
  }

  lemma {:induction false} NoneDead(g: Graph, ids: set<nat>, from: nat, n: nat, account: nat)
    requires from <= n <= |g.journals| && forall j | from <= j < n :: !Dead(g.journals[j], ids)
    ensures DeadNet(g, ids, n, account) == DeadNet(g, ids, from, account)
  {
    if from < n {
      NoneDead(g, ids, from, n - 1, account);
    }
  }

  /** No old journal dies and no new one is born dead. */
  ghost predicate BuriesNothing(g: Graph, g': Graph) {
    && g.lines <= g'.lines && |g.journals| <= |g'.journals|
    && (forall j | 0 <= j < |g.journals| ::
      && g'.journals[j] == g.journals[j].(status := g'.journals[j].status)
      && Dead(g.journals[j], Ids(g.edges)) == Dead(g'.journals[j], Ids(g'.edges)))
    && forall j | |g.journals| <= j < |g'.journals| :: !Dead(g'.journals[j], Ids(g'.edges))
  }

  lemma {:induction false} StaysTraceless(g: Graph, g': Graph)
    requires Shelf(g) && Traceless(g) && BuriesNothing(g, g')
    ensures Traceless(g')
  {
    Books(g);
    forall a: nat ensures DeadNet(g', Ids(g'.edges), |g'.journals|, a) == 0 {
      SameDead(g, g', Ids(g.edges), Ids(g'.edges), |g.journals|, a);
      NoneDead(g', Ids(g'.edges), |g.journals|, |g'.journals|, a);
    }
  }

  /** New edges take new ids, so no journal's root edge comes back. */
  lemma {:induction false} NewIdsBuryNothing(g: Graph, g': Graph)
    requires Shelf(g) && g.lines <= g'.lines && g.journals <= g'.journals
    requires Ids(g.edges) <= Ids(g'.edges) && forall n | n in Ids(g'.edges) && n !in Ids(g.edges) :: n >= g.nextEdge
    requires forall j | |g.journals| <= j < |g'.journals| :: !Dead(g'.journals[j], Ids(g'.edges))
    ensures BuriesNothing(g, g')
  {
    Books(g);
    forall j | 0 <= j < |g.journals|
      ensures g'.journals[j] == g.journals[j]
      ensures Dead(g.journals[j], Ids(g.edges)) == Dead(g'.journals[j], Ids(g'.edges))
    {
      assert Known(g.journals[j].sourceId, g.nextEdge, |g.journals|);
    }
  }

  lemma {:induction false} GrowthKeepsTraceless(g: Graph, g': Graph, p: nat)
    requires Shelf(g) && Traceless(g) && EdgesOk(g) && Grows(g, g', p) && p == g.nextEdge
    requires p in Ids(g'.edges) && forall n | n in Ids(g'.edges) && n !in Ids(g.edges) :: n >= p
    ensures Traceless(g')
  {
    forall n | n in Ids(g.edges) ensures n in Ids(g'.edges) {
      var i :| 0 <= i < |g.edges| && g.edges[i].id == n;
      assert g'.edges[..|g.edges|][i].id == n;
      assert g'.edges[i].id == n;
    }
    forall j | |g.journals| <= j < |g'.journals| ensures !Dead(g'.journals[j], Ids(g'.edges)) {
      assert GeneratedFor(g'.journals[j], p);
    }
    NewIdsBuryNothing(g, g');
    StaysTraceless(g, g');
  }

  lemma {:induction false} SameFlowsKeepsTraceless(g: Graph, g': Graph)
    requires Shelf(g) && Traceless(g) && SameFlows(g, g')
    ensures Traceless(g')
  {
    IdsSameFlow(g.edges, g'.edges);
    StaysTraceless(g, g');
  }

  lemma {:induction false} LinkKeepsTraceless(cfg: Config, env: Env, g: Graph, req: PairRequest)
    requires Sound(g) && Traceless(g) && EnvOk(g, env) && Link(cfg, env, g, req).Ok?
    ensures Traceless(Link(cfg, env, g, req).value.0)
  {
    var d, c := Resolve(g, req.debit).value, Resolve(g, req.credit).value;
    ValidPair(cfg, g, d, c, req.amount);
    var applied := ValidatePair(cfg, g, d, c, req.amount).value;
    if applied != 0 {
      LinkEdgesKeepsInv(cfg, env, g, req, d, c, applied);
      LinkEdgesGrows(cfg, env, g, req, d, c, applied);
      RootStays(cfg, env, g, req, d, c, applied);
      LinkEnds(cfg, env, g, req, d, c, applied);
      var (g1, total) := LinkEdges(cfg, env, g, req, d, c, applied).value;
      assert EdgesOk(g) && EdgesOk(g1) by {
        Clauses(g);
        Clauses(g1);
      }
      GrownIds(g, g1, g.nextEdge);
      GrowthKeepsTraceless(g, g1, g.nextEdge);
      SameFlowsKeepsTraceless(g1, Complete(g1, {d, c}, total).0);
    }
  }

  lemma {:induction false} PairOneKeepsTraceless(g: Graph, l: nat)
    requires Sound(g) && Traceless(g) && l < |g.lines| && PairOne(g, l).Ok?
    ensures Traceless(PairOne(g, l).value)
  {
    if PairsNow(g, l) {
      var k := Counterpart(g, l).value;
      var d, c := if g.lines[l].debit > 0 then l else k, if g.lines[l].debit > 0 then k else l;
      CounterpartSound(g, l);
      var amount, date := Min(g.lines[d].base, g.lines[c].base), MaxDate(g, d, c);
      var g1 := InsertPartial(g, d, c, amount, date, MANUAL, g.lines[d].sourceId).value;
      assert Inv(g1) && Shelf(g1) by {
        ResidualAt(g, d);
        ResidualAt(g, c);
        InsertKeepsInv(g, d, c, amount, date, MANUAL, g.lines[d].sourceId);
        Books(g);
        InsertShelf(g, d, c, amount, date, MANUAL, g.lines[d].sourceId);
      }
      assert Traceless(g1) by {
        IdsByMember(g.edges);
        IdsByMember(g1.edges);
        NewIdsBuryNothing(g, g1);
        StaysTraceless(g, g1);
      }
      CompleteKeepsInv(g1, {d, c}, 0);
      SameFlowsKeepsTraceless(g1, Complete(g1, {d, c}, 0).0);
    }
  }

  lemma {:induction false} PairAllKeepsTraceless(g: Graph, ids: seq<nat>)
    requires Sound(g) && Traceless(g) && forall i | 0 <= i < |ids| :: ids[i] < |g.lines|
    ensures PairAll(g, ids).Ok? && Traceless(PairAll(g, ids).value)
  {
    PairAllKeepsSound(g, ids);
    if ids == [] {
    } else {
      PairAllKeepsSound(g, ids[..|ids| - 1]);
      PairAllKeepsTraceless(g, ids[..|ids| - 1]);
      PairOneKeepsTraceless(PairAll(g, ids[..|ids| - 1]).value, ids[|ids| - 1]);
    }
  }

  // ------------------------------------------------------------------ unlink buries in balanced pairs

  function Pick(nets: seq<int>, js: seq<nat>): int {
    if js == [] then 0
    else
      var j := js[|js| - 1];
      Pick(nets, js[..|js| - 1]) + if j < |nets| then nets[j] else 0
  }

  function PickSet(nets: seq<int>, s: set<nat>, n: nat): int
    requires n <= |nets|
  {
    if n == 0 then 0 else PickSet(nets, s, n - 1) + if n - 1 in s then nets[n - 1] else 0
  }

  /** The list of the members of `s` below `n`, in order. */
  ghost predicate Lists(js: seq<nat>, n: nat, s: set<nat>) {
    if n == 0 then js == []
    else if n - 1 in s then js != [] && js[|js| - 1] == n - 1 && Lists(js[..|js| - 1], n - 1, s)
    else Lists(js, n - 1, s)
  }

  lemma {:induction false} AscendingLists(n: nat, s: set<nat>)
    ensures Lists(Ascending(n, s), n, s)
  {
    if n == 0 {
    } else {
      AscendingLists(n - 1, s);
      assert Ascending(n - 1, s) + [] == Ascending(n - 1, s);
      assert (Ascending(n - 1, s) + [n - 1])[..|Ascending(n - 1, s)|] == Ascending(n - 1, s);
    }
  }

  lemma {:induction false} PickLists(nets: seq<int>, js: seq<nat>, s: set<nat>, n: nat)
    requires n <= |nets| && Lists(js, n, s)
    ensures Pick(nets, js) == PickSet(nets, s, n)
  {
    if n == 0 {
    } else {
      if n - 1 in s {
        PickLists(nets, js[..|js| - 1], s, n - 1);
      } else {
        PickLists(nets, js, s, n - 1);
      }
    }
  }

  /** What each of the first `n` journals holds on an account. */
  function Nets(g: Graph, n: nat, account: nat): (r: seq<int>)
    requires n <= |g.journals|
    ensures |r| == n && forall j | 0 <= j < n :: r[j] == JournalNet(g, j, account)
  {
    if n == 0 then [] else Nets(g, n - 1, account) + [JournalNet(g, n - 1, account)]
  }

  function ListNet(g: Graph, js: seq<nat>, account: nat): int {
    Pick(Nets(g, |g.journals|, account), js)
  }

  /** Reversals are born dead, each worth the opposite of what it reverses. */
  lemma {:induction false} ReversalsBury(env: Env, g: Graph, ids: set<nat>, js: seq<nat>, account: nat)
    requires Inv(g) && Shelf(g)
    requires forall i | 0 <= i < |js| :: js[i] < |g.journals| && Unlink(js[i]) !in g.keys
    requires forall i, k | 0 <= i < k < |js| :: js[i] < js[k]
    ensures ReverseAll(env, g, js).Ok?
    ensures var g' := ReverseAll(env, g, js).value;
      DeadNet(g', ids, |g'.journals|, account) == DeadNet(g, ids, |g.journals|, account) - ListNet(g, js, account)
  {
    ReverseAllCommits(env, g, js);
    if js == [] {
    } else {
      var k := |js| - 1;
      ReverseAllCommits(env, g, js[..k]);
      var g1 := ReverseAll(env, g, js[..k]).value;
      ReversalsBury(env, g, ids, js[..k], account);
      Books(g);
      JournalNetStays(g, g1, js[k], account);
      assert ListNet(g, js, account) == ListNet(g, js[..k], account) + JournalNet(g, js[k], account);
      NextReversal(env, g, g1, js, k);
      OneReversalBuries(env, g1, ids, js[k], account);
    }
  }

  lemma {:induction false} OneReversalBuries(env: Env, g: Graph, ids: set<nat>, j: nat, account: nat)
    requires Inv(g) && Shelf(g) && j < |g.journals| && ReverseJournal(env, g, j).Ok?
    ensures var g' := ReverseJournal(env, g, j).value;
      DeadNet(g', ids, |g'.journals|, account) == DeadNet(g, ids, |g.journals|, account) - JournalNet(g, j, account)
  {
    ReversalLines(env, g, j);
    BornDead(g, ReverseJournal(env, g, j).value, ids, j, account);
  }

  /** What one reversal adds: a journal of the machinery with the swapped lines. */
  lemma {:induction false} ReversalLines(env: Env, g: Graph, j: nat)
    requires Shelf(g) && j < |g.journals| && ReverseJournal(env, g, j).Ok?
    ensures var g' := ReverseJournal(env, g, j).value;
      && g.lines <= g'.lines && |g'.journals| == |g.journals| + 1 && g.journals <= g'.journals
      && g'.journals[|g.journals|].sourceType == Some(RECONCILIATION)
      && g'.journals[|g.journals|].sourceId == Some(JournalRef(j))
      && g'.journals[|g.journals|].first + g'.journals[|g.journals|].count <= |g'.lines|
      && JournalLines(g', |g.journals|) == Swapped(JournalLines(g, j))
  {
    Books(g);
    TilesAt(g.journals, |g.lines|, j);
    assert JournalLines(g, j) != [];
    CommittedLines(g, ReversalPosting(env, g, j));
  }

  lemma {:induction false} BornDead(g: Graph, g': Graph, ids: set<nat>, j: nat, account: nat)
    requires Shelf(g) && j < |g.journals| && g.lines <= g'.lines
    requires |g'.journals| == |g.journals| + 1 && g.journals <= g'.journals
    requires g'.journals[|g.journals|].sourceType == Some(RECONCILIATION)
    requires g'.journals[|g.journals|].sourceId == Some(JournalRef(j))
    requires g'.journals[|g.journals|].first + g'.journals[|g.journals|].count <= |g'.lines|
    requires JournalLines(g', |g.journals|) == Swapped(JournalLines(g, j))
    ensures DeadNet(g', ids, |g'.journals|, account)
      == DeadNet(g, ids, |g.journals|, account) - JournalNet(g, j, account)
  {
    assert JournalsShaped(g) by {
      Books(g);
    }
    SameDead(g, g', ids, ids, |g.journals|, account);
    TilesAt(g.journals, |g.lines|, j);
    JournalNetIs(g, j, account);
    JournalNetIs(g', |g.journals|, account);
    SwapNegates(JournalLines(g, j));
  }

  /** What the journals generated by some edges hold. */
  function BuriedNet(g: Graph, gone: set<nat>, n: nat, account: nat): int
    requires n <= |g.journals|
  {
    if n == 0 then 0
    else
      BuriedNet(g, gone, n - 1, account)
      + if GeneratedBy(g.journals[n - 1], gone) then JournalNet(g, n - 1, account) else 0
  }

  /** Removing edges buries exactly the journals those edges generated. */
  lemma {:induction false} RemovalBuries(g: Graph, ids: set<nat>, gone: set<nat>, n: nat, account: nat)
    requires n <= |g.journals| && gone <= ids
    ensures DeadNet(g, ids - gone, n, account) == DeadNet(g, ids, n, account) + BuriedNet(g, gone, n, account)
  {
    if n == 0 {
    } else {
      RemovalBuries(g, ids, gone, n - 1, account);
    }
  }

  function Buried(g: Graph, gone: set<nat>): set<nat> {
    set j | 0 <= j < |g.journals| && GeneratedBy(g.journals[j], gone)
  }

  lemma {:induction false} BuriedSet(g: Graph, gone: set<nat>, n: nat, account: nat)
    requires n <= |g.journals|
    ensures BuriedNet(g, gone, n, account) == PickSet(Nets(g, |g.journals|, account), Buried(g, gone), n)
  {
    if n == 0 {
    } else {
      BuriedSet(g, gone, n - 1, account);
      assert n - 1 in Buried(g, gone) <==> GeneratedBy(g.journals[n - 1], gone);
      assert Nets(g, |g.journals|, account)[n - 1] == JournalNet(g, n - 1, account);
    }
  }

  lemma {:induction false} BuriedIsList(g: Graph, gone: set<nat>, account: nat)
    ensures BuriedNet(g, gone, |g.journals|, account) == ListNet(g, Ascending(|g.journals|, Buried(g, gone)), account)
  {
    var n := |g.journals|;
    BuriedSet(g, gone, n, account);
    AscendingLists(n, Buried(g, gone));
    PickLists(Nets(g, n, account), Ascending(n, Buried(g, gone)), Buried(g, gone), n);
  }

  lemma {:induction false} BuriedLater(g: Graph, g': Graph, gone: set<nat>, n: nat, account: nat)
    requires JournalsShaped(g) && g.lines <= g'.lines && g.journals <= g'.journals && n <= |g.journals|
    ensures BuriedNet(g', gone, n, account) == BuriedNet(g, gone, n, account)
  {
    if n == 0 {
    } else {
      BuriedLater(g, g', gone, n - 1, account);
      JournalNetStays(g, g', n - 1, account);
    }
  }

  lemma {:induction false} BuriesNoReversal(g: Graph, gone: set<nat>, from: nat, n: nat, account: nat)
    requires from <= n <= |g.journals| && forall j | from <= j < n :: !Generated(g.journals[j])
    ensures BuriedNet(g, gone, n, account) == BuriedNet(g, gone, from, account)
  {
    if from < n {
      BuriesNoReversal(g, gone, from, n - 1, account);
    }
  }

  /** Reversing what a closure generated and then removing the closure leaves no trace. */
  lemma {:induction false} RemovalKeepsTraceless(env: Env, g: Graph, g1: Graph, roots: set<nat>)
    requires Sound(g) && Traceless(g)
    requires var js := GeneratedJournals(g, Ids(Select(g.edges, roots, true)));
      ReverseAll(env, g, js) == Ok(g1) && ReversedAll(g, g1, js)
    ensures Traceless(RemoveEdges(g1, roots))
  {
    var gone := Ids(Select(g.edges, roots, true));
    var js := GeneratedJournals(g, gone);
    var g2 := RemoveEdges(g1, roots);
    assert EdgesOk(g) by {
      Clauses(g);
    }
    ClosureJournals(g, roots);
    IdsAfterSelect(g.edges, roots);
    forall a: nat ensures DeadNet(g2, Ids(g2.edges), |g2.journals|, a) == 0 {
      RemovalBalances(env, g, g1, g2, gone, a);
    }
  }

  lemma {:induction false} RemovalBalances(env: Env, g: Graph, g1: Graph, g2: Graph, gone: set<nat>, a: nat)
    requires Inv(g) && Shelf(g) && Traceless(g) && gone <= Ids(g.edges)
    requires var js := GeneratedJournals(g, gone);
      && (forall i | 0 <= i < |js| :: js[i] < |g.journals| && Unlink(js[i]) !in g.keys)
      && ReverseAll(env, g, js) == Ok(g1) && ReversedAll(g, g1, js)
    requires g2.journals == g1.journals && g2.lines == g1.lines && Ids(g2.edges) == Ids(g.edges) - gone
    ensures DeadNet(g2, Ids(g2.edges), |g2.journals|, a) == 0
  {
    var ids, js := Ids(g.edges), GeneratedJournals(g, gone);
    ReversalsBury(env, g, ids, js, a);
    Books(g1);
    SameDead(g1, g2, ids - gone, ids - gone, |g1.journals|, a);
    RemovalBuries(g1, ids, gone, |g1.journals|, a);
    BuriesNoReversal(g1, gone, |g.journals|, |g1.journals|, a);
    Books(g);
    BuriedLater(g, g1, gone, |g.journals|, a);
    BuriedIsList(g, gone, a);
  }

  lemma {:induction false} UnlinkKeepsTraceless(env: Env, g: Graph, roots: set<nat>)
    requires Sound(g) && Traceless(g)
    ensures UnlinkClosure(env, g, roots).Ok? && Traceless(UnlinkClosure(env, g, roots).value)
  {
    UnlinkClosureStages(env, g, roots);
    var taken := Select(g.edges, roots, true);
    var g1 := ReverseAll(env, g, GeneratedJournals(g, Ids(taken))).value;
    RemovalKeepsTraceless(env, g, g1, roots);
    var ids := Ascending(|g1.lines|, Ends(taken));
    assert forall i | 0 <= i < |ids| :: ids[i] in ids;
    PairAllKeepsTraceless(RemoveEdges(g1, roots), ids);
  }

  // ------------------------------------------------------------------ every run

  lemma {:induction false} DocumentKeepsTraceless(g: Graph, doc: Doc)
    requires Sound(g) && Traceless(g) && DocOk(doc)
    ensures Traceless(PostDocument(g, doc))
  {
    NewIdsBuryNothing(g, PostDocument(g, doc));
    StaysTraceless(g, PostDocument(g, doc));
  }

  lemma {:induction false} VoidKeepsTraceless(g: Graph, j: nat)
    requires Sound(g) && Traceless(g)
    ensures Traceless(VoidJournal(g, j))
  {
    StaysTraceless(g, VoidJournal(g, j));
  }

  lemma {:induction false} StepKeepsTraceless(cfg: Config, g: Graph, step: Step)
    requires Sound(g) && Traceless(g) && StepOk(g, step)
    ensures Traceless(Perform(cfg, g, step))
  {
    match step
    case PostDoc(doc) => DocumentKeepsTraceless(g, doc);
    case VoidOne(j) => VoidKeepsTraceless(g, j);
    case LinkStep(env, req) =>
      if Link(cfg, env, g, req).Ok? {
        LinkKeepsTraceless(cfg, env, g, req);
      }
    case UnlinkStep(env, id) => UnlinkKeepsTraceless(env, g, {id});
    case UnlinkPairStep(env, d, c) =>
      if Resolve(g, d).Ok? && Resolve(g, c).Ok? {
        UnlinkKeepsTraceless(env, g, Between(g.edges, Resolve(g, d).value, Resolve(g, c).value));
      }
  }

  lemma {:induction false} RunKeepsTraceless(cfg: Config, g: Graph, steps: seq<Step>)
    requires Sound(g) && Traceless(g) && RunOk(cfg, g, steps)
    ensures Sound(Run(cfg, g, steps)) && Traceless(Run(cfg, g, steps))
    decreases |steps|
  {
    if steps == [] {
    } else {
      StepKeepsSound(cfg, g, steps[0]);
      StepKeepsTraceless(cfg, g, steps[0]);
      RunKeepsTraceless(cfg, Perform(cfg, g, steps[0]), steps[1..]);
    }
  }

  /**
   * After any run, on every account, the ledger holds exactly the documents plus the generated
   * journals of the edges that are still there.
   */
  lemma {:induction false} LedgerLeavesNoTrace(cfg: Config, steps: seq<Step>, account: nat)
    requires RunOk(cfg, EMPTY, steps)
    ensures var g := Run(cfg, EMPTY, steps);
      Net(g.ledger, account) == LiveNet(g, Ids(g.edges), |g.journals|, account)
  {
    EmptyIsTidy();
    RunKeepsTraceless(cfg, EMPTY, steps);
    LedgerIsLive(Run(cfg, EMPTY, steps), account);
  }
}
