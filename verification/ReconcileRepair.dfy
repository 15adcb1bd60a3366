/**
 * What a sequence of unlinks leaves. Each unlink removes its closure and then pairs touched
 * lines with their reversal counterparts; so what is left is the edges outside the closures and
 * pairing edges, which are pairwise apart and lie on lines the removed edges had left open.
 */
module ReconcileRepair {
  import opened Wrappers
  import opened ReconcileGraph
  import opened ReconcileInvariants
  import opened ReconcileVerbs
  import opened ReconcileGrowth
  import opened ReconcileSteps
  import opened ReconcileReversals
  import opened ReconcileEnds
  import opened ReconcileLedger
  import opened ReconcileRuns
  import opened ReconcileUndo

  // ------------------------------------------------------------------ where lines come from

  predicate OfSource(id: Option<Ref>) {
    id.Some? && id.value.Document?
  }

  /** A line that is not the machinery's names a document as its source. */
  ghost predicate Sourced(g: Graph) {
    forall l | 0 <= l < |g.lines| && !Machinery(g.lines[l]) :: OfSource(g.lines[l].sourceId)
  }

  lemma {:induction false} MachineryKeepsSourced(g: Graph, g': Graph)
    requires Sourced(g) && MachineryOnly(g, g')
    ensures Sourced(g')
  {
    forall l | 0 <= l < |g'.lines| && !Machinery(g'.lines[l]) ensures OfSource(g'.lines[l].sourceId) {
      assert g'.lines[l] == g.lines[l];
    }
  }

  lemma {:induction false} PostKeepsSourced(g: Graph, doc: Doc)
    requires Sourced(g) && DocOk(doc)
    ensures Sourced(PostDocument(g, doc))
  {
    var g', lines := PostDocument(g, doc), DocLines(doc, |g.journals|, doc.lines);
    forall l | 0 <= l < |g'.lines| && !Machinery(g'.lines[l]) ensures OfSource(g'.lines[l].sourceId) {
      if l >= |g.lines| {
        assert g'.lines[l] == lines[l - |g.lines|] == LineOf(doc, |g.journals|, doc.lines[l - |g.lines|]);
      }
    }
  }

  lemma {:induction false} ClosureKeepsSourced(env: Env, g: Graph, roots: set<nat>)
    requires Sound(g) && Sourced(g) && UnlinkClosure(env, g, roots).Ok?
    ensures Sourced(UnlinkClosure(env, g, roots).value)
  {
    var g2 := UnlinkRemoves(env, g, roots);
    MachineryKeepsSourced(g, g2);
    PairAllLines(g2, Ascending(|g2.lines|, Ends(Select(g.edges, roots, true))));
  }

  lemma {:induction false} PairAllLines(g: Graph, ids: seq<nat>)
    requires PairAll(g, ids).Ok?
    ensures PairAll(g, ids).value.lines == g.lines
  {
    if ids == [] {
    } else {
      PairAllLines(g, ids[..|ids| - 1]);
    }
  }

  lemma {:induction false} StepKeepsSourced(cfg: Config, g: Graph, step: Step)
    requires Sound(g) && Sourced(g) && StepOk(g, step)
    ensures Sourced(Perform(cfg, g, step))
  {
    match step
    case PostDoc(doc) => PostKeepsSourced(g, doc);
    case VoidOne(j) =>
    case LinkStep(env, req) =>
      if Link(cfg, env, g, req).Ok? && Link(cfg, env, g, req).value.1.partial.Some? {
        LinkGives(cfg, env, g, req);
        MachineryKeepsSourced(g, Link(cfg, env, g, req).value.0);
      }
    case UnlinkStep(env, id) =>
      if UnlinkOne(env, g, id).Ok? {
        ClosureKeepsSourced(env, g, {id});
      }
    case UnlinkPairStep(env, d, c) =>
      if UnlinkPair(env, g, d, c).Ok? && Between(g.edges, Resolve(g, d).value, Resolve(g, c).value) != {} {
        ClosureKeepsSourced(env, g, Between(g.edges, Resolve(g, d).value, Resolve(g, c).value));
      }
  }

  lemma {:induction false} RunKeepsSourced(cfg: Config, g: Graph, steps: seq<Step>)
    requires Sound(g) && Sourced(g) && RunOk(cfg, g, steps)
    ensures Sourced(Run(cfg, g, steps))
    decreases |steps|
  {
    if steps == [] {
    } else {
      StepKeepsSound(cfg, g, steps[0]);
      StepKeepsSourced(cfg, g, steps[0]);
      RunKeepsSourced(cfg, Perform(cfg, g, steps[0]), steps[1..]);
    }
  }

  /** What every reachable state has. */
  lemma {:induction false} ReachableIsSourced(cfg: Config, g: Graph)
    requires Reachable(cfg, g)
    ensures Sound(g) && Sourced(g)
  {
    var steps :| RunOk(cfg, EMPTY, steps) && Run(cfg, EMPTY, steps) == g;
    EmptyIsTidy();
    RunKeepsSound(cfg, EMPTY, steps);
    RunKeepsSourced(cfg, EMPTY, steps);
  }

  // ------------------------------------------------------------------ pairing edges

  /** Line `x` of the set is a document's, and `k` is its reversal counterpart. */
  ghost predicate Calls(g: Graph, s: set<nat>, x: nat, k: nat) {
    x in s && x < |g.lines| && k < |g.lines| && !Machinery(g.lines[x]) && Counterpart(g, x) == Some(k)
  }

  /** An edge for the smaller face between two lines. */
  ghost predicate Joins(g: Graph, e: Edge, x: nat, k: nat) {
    && x < |g.lines| && k < |g.lines|
    && ((e.debit == x && e.credit == k) || (e.debit == k && e.credit == x))
    && e.amount == Min(g.lines[x].base, g.lines[k].base)
  }

  /** A new edge between some line of the set and that line's counterpart. */
  ghost predicate Repair(g: Graph, e: Edge, s: set<nat>) {
    && e.id >= g.nextEdge && OfSource(e.sourceId)
    && exists x, k | Calls(g, s, x, k) :: Joins(g, e, x, k)
  }

  predicate Free(edges: seq<Edge>, l: nat) {
    Applied(edges, l) == 0
  }

  predicate Apart(e: Edge, f: Edge) {
    !Touches(e, f.debit) && !Touches(e, f.credit)
  }

  /** Pairing edges for lines of the set, on lines `kept` leaves open, no two on one line. */
  ghost predicate Fit(g: Graph, kept: seq<Edge>, extra: seq<Edge>, s: set<nat>) {
    && (forall i | 0 <= i < |extra| ::
      Repair(g, extra[i], s) && Free(kept, extra[i].debit) && Free(kept, extra[i].credit))
    && forall i, j | 0 <= i < j < |extra| :: Apart(extra[i], extra[j])
  }

  lemma {:induction false} AppliedAppend(a: seq<Edge>, b: seq<Edge>, l: nat)
    ensures Applied(a + b, l) == Applied(a, l) + Applied(b, l)
  {
    if b == [] {
      assert a + b == a;
    } else {
      var k := |b| - 1;
      assert (a + b)[..|a + b| - 1] == a + b[..k];
      AppliedAppend(a, b[..k], l);
    }
  }

  lemma {:induction false} Positive(g: Graph)
    requires Inv(g)
    ensures forall i | 0 <= i < |g.edges| :: g.edges[i].amount > 0
  {
    Clauses(g);
    forall i | 0 <= i < |g.edges| ensures g.edges[i].amount > 0 {
      assert EdgeOk(g.edges[i], |g.lines|, g.nextEdge);
    }
  }

  /** On a line open in the whole, both parts have nothing. */
  lemma {:induction false} FreeParts(g: Graph, kept: seq<Edge>, extra: seq<Edge>, l: nat)
    requires Inv(g) && SameFlow(kept + extra, g.edges)
    ensures Applied(g.edges, l) == Applied(kept, l) + Applied(extra, l)
    ensures Applied(kept, l) >= 0 && Applied(extra, l) >= 0
    ensures Free(extra, l) ==> forall i | 0 <= i < |extra| :: !Touches(extra[i], l)
  {
    var all := kept + extra;
    Positive(g);
    assert forall i | 0 <= i < |kept| :: kept[i] == all[i];
    assert forall i | 0 <= i < |extra| :: extra[i] == all[|kept| + i];
    AppliedAppend(kept, extra, l);
    AppliedSameFlow(all, g.edges, l);
    AppliedBounds(kept, l);
    AppliedBounds(extra, l);
  }

  // ------------------------------------------------------------------ one pairing

  /** `h` is `g` with machinery postings, the edges `kept`, and pairing edges. */
  ghost predicate Repaired(g: Graph, h: Graph, kept: seq<Edge>, extra: seq<Edge>, s: set<nat>) {
    && Sound(h) && MachineryOnly(g, h) && g.nextEdge <= h.nextEdge
    && SameFlow(kept + extra, h.edges) && Fit(g, kept, extra, s)
  }

  /** Not both of a line and its counterpart are still open. */
  ghost predicate Tried(g: Graph, s: set<nat>, edges: seq<Edge>) {
    forall x, k | Calls(g, s, x, k) :: !(Free(edges, x) && Free(edges, k))
  }

  /** A document's line pairs now exactly when it and its counterpart are open. */
  lemma {:induction false} PairsNowIff(g: Graph, h: Graph, x: nat)
    requires LinesOk(g) && MachineryOnly(g, h) && x < |h.lines|
    ensures PairsNow(h, x) ==> x < |g.lines| && Counterpart(g, x).Some? && Counterpart(h, x) == Counterpart(g, x)
    ensures PairsNow(h, x) ==> Calls(g, {x}, x, Counterpart(g, x).value) && Counterpart(g, x).value != x
    ensures forall k | Calls(g, {x}, x, k) && Free(h.edges, x) && Free(h.edges, k) :: PairsNow(h, x)
  {
    if x < |g.lines| && !Machinery(g.lines[x]) {
      CounterpartStays(g, h, x);
      CounterpartSound(g, x);
    }
  }

  /** The edge a pairing adds, up to the stamps. */
  lemma {:induction false} PairedEdge(g: Graph, h: Graph, x: nat) returns (e: Edge)
    requires LinesOk(g) && Sourced(g) && MachineryOnly(g, h) && g.nextEdge <= h.nextEdge
    requires Sound(h) && x < |h.lines| && PairsNow(h, x)
    ensures PairOne(h, x).Ok?
    ensures var h' := PairOne(h, x).value;
      && Sound(h') && h'.lines == h.lines && h'.journals == h.journals && h.nextEdge <= h'.nextEdge
      && SameFlow(h.edges + [e], h'.edges)
    ensures e.id >= g.nextEdge && OfSource(e.sourceId)
    ensures Counterpart(g, x).Some? && Joins(g, e, x, Counterpart(g, x).value)
  {
    PairOneKeepsSound(h, x);
    PairsNowIff(g, h, x);
    var k := Counterpart(g, x).value;
    CounterpartSound(g, x);
    var d, c := if h.lines[x].debit > 0 then x else k, if h.lines[x].debit > 0 then k else x;
    var amount, date := Min(h.lines[d].base, h.lines[c].base), MaxDate(h, d, c);
    assert h.lines[x] == g.lines[x] && h.lines[k] == g.lines[k];
    assert OfSource(h.lines[d].sourceId);
    var h1 := InsertPartial(h, d, c, amount, date, MANUAL, h.lines[d].sourceId).value;
    e := h1.edges[|h.edges|];
    ResidualAt(h, d);
    ResidualAt(h, c);
    InsertKeepsInv(h, d, c, amount, date, MANUAL, h.lines[d].sourceId);
    CompleteKeepsInv(h1, {d, c}, 0);
  }

  lemma {:induction false} PairOneRepairs(g: Graph, h: Graph, kept: seq<Edge>, extra: seq<Edge>, s: set<nat>, x: nat)
    returns (more: seq<Edge>)
    requires LinesOk(g) && Sourced(g) && Repaired(g, h, kept, extra, s) && x in s && x < |h.lines|
    ensures PairOne(h, x).Ok? && PairOne(h, x).value.lines == h.lines
    ensures Repaired(g, PairOne(h, x).value, kept, extra + more, s)
    ensures forall l :: Applied(h.edges, l) <= Applied(PairOne(h, x).value.edges, l)
    ensures Tried(g, {x}, PairOne(h, x).value.edges)
  {
    PairsNowIff(g, h, x);
    if PairsNow(h, x) {
      var e := PairedEdge(g, h, x);
      more := [e];
      AddedFits(g, h, kept, extra, s, x, e);
      FlowPush(kept, extra, h.edges, e, PairOne(h, x).value.edges);
      AddedRaises(h, PairOne(h, x).value, e);
    } else {
      more := [];
      assert extra + more == extra;
    }
  }

  /** An edge on lines open in the whole graph is apart from the pairing edges already there. */
  lemma {:induction false} AddedFits(g: Graph, h: Graph, kept: seq<Edge>, extra: seq<Edge>, s: set<nat>, x: nat, e: Edge)
    requires LinesOk(g) && Repaired(g, h, kept, extra, s) && x in s && x < |h.lines| && PairsNow(h, x)
    requires e.id >= g.nextEdge && OfSource(e.sourceId)
    requires x < |g.lines| && Counterpart(g, x).Some? && Joins(g, e, x, Counterpart(g, x).value)
    ensures Fit(g, kept, extra + [e], s)
  {
    PairsNowIff(g, h, x);
    var k := Counterpart(g, x).value;
    FreeParts(h, kept, extra, x);
    FreeParts(h, kept, extra, k);
    assert Repair(g, e, s) by {
      assert Calls(g, s, x, k);
    }
    assert forall i | 0 <= i < |extra| :: Apart(extra[i], e) by {
      assert forall i | 0 <= i < |extra| :: !Touches(extra[i], x) && !Touches(extra[i], k);
    }
    FitPush(g, kept, extra, s, e);
  }

  lemma {:induction false} FitPush(g: Graph, kept: seq<Edge>, extra: seq<Edge>, s: set<nat>, e: Edge)
    requires Fit(g, kept, extra, s) && Repair(g, e, s) && Free(kept, e.debit) && Free(kept, e.credit)
    requires forall i | 0 <= i < |extra| :: Apart(extra[i], e)
    ensures Fit(g, kept, extra + [e], s)
  {
    var all := extra + [e];
    forall i | 0 <= i < |all| ensures Repair(g, all[i], s) && Free(kept, all[i].debit) && Free(kept, all[i].credit) {
      assert all[i] == if i < |extra| then extra[i] else e;
    }
    forall i, j | 0 <= i < j < |all| ensures Apart(all[i], all[j]) {
      assert i < |extra| && all[i] == extra[i] && all[j] == if j < |extra| then extra[j] else e;
    }
  }

  lemma {:induction false} FlowPush(kept: seq<Edge>, extra: seq<Edge>, edges: seq<Edge>, e: Edge, more: seq<Edge>)
    requires SameFlow(kept + extra, edges) && SameFlow(edges + [e], more)
    ensures SameFlow(kept + (extra + [e]), more)
  {
    assert kept + (extra + [e]) == (kept + extra) + [e];
    SameFlowPush(kept + extra, edges, e, more);
  }

  lemma {:induction false} AddedRaises(h: Graph, h': Graph, e: Edge)
    requires Inv(h') && SameFlow(h.edges + [e], h'.edges)
    ensures forall l :: Applied(h'.edges, l) == Applied(h.edges, l) + Share(e, l) && Share(e, l) >= 0
    ensures !Free(h'.edges, e.debit) || Applied(h.edges, e.debit) < 0
  {
    Positive(h');
    assert e == (h.edges + [e])[|h.edges|] && h'.edges[|h.edges|].amount == e.amount;
    forall l ensures Applied(h'.edges, l) == Applied(h.edges, l) + Share(e, l) && Share(e, l) >= 0 {
      AppliedSameFlow(h.edges + [e], h'.edges, l);
      AppliedPush(h.edges, e, l);
    }
  }

  // ------------------------------------------------------------------ pairing a list of lines

  lemma {:induction false} TriedStays(g: Graph, s: set<nat>, a: seq<Edge>, b: seq<Edge>)
    requires Tried(g, s, a) && forall l :: 0 <= Applied(a, l) <= Applied(b, l)
    ensures Tried(g, s, b)
  {
    forall x, k | Calls(g, s, x, k) ensures !(Free(b, x) && Free(b, k)) {
      assert !(Free(a, x) && Free(a, k));
      assert 0 <= Applied(a, x) <= Applied(b, x) && 0 <= Applied(a, k) <= Applied(b, k);
    }
  }

  lemma {:induction false} TriedBoth(g: Graph, s: set<nat>, t: set<nat>, all: set<nat>, edges: seq<Edge>)
    requires Tried(g, s, edges) && Tried(g, t, edges) && all <= s + t
    ensures Tried(g, all, edges)
  {
    forall x, k | Calls(g, all, x, k) ensures !(Free(edges, x) && Free(edges, k)) {
      assert Calls(g, s, x, k) || Calls(g, t, x, k);
    }
  }

  lemma {:induction false} NonNegativeSums(g: Graph)
    requires Inv(g)
    ensures forall l :: Applied(g.edges, l) >= 0
  {
    Positive(g);
    forall l ensures Applied(g.edges, l) >= 0 {
      AppliedBounds(g.edges, l);
    }
  }

  /** `h` is `h0` with pairing edges added, and every line of `done` has been tried. */
  ghost predicate Mended(g: Graph, h0: Graph, h: Graph, kept: seq<Edge>, extra: seq<Edge>, s: set<nat>, done: set<nat>) {
    && Repaired(g, h, kept, extra, s) && h.lines == h0.lines && Tried(g, done, h.edges)
    && forall l :: Applied(h0.edges, l) <= Applied(h.edges, l)
  }

  /** One more line of a list. */
  lemma {:induction false} PairNext(g: Graph, h0: Graph, h: Graph, kept: seq<Edge>, extra: seq<Edge>, s: set<nat>,
                                    done: set<nat>, x: nat) returns (h': Graph, extra': seq<Edge>)
    requires LinesOk(g) && Sourced(g) && Mended(g, h0, h, kept, extra, s, done) && x in s && x < |h.lines|
    ensures PairOne(h, x) == Ok(h') && extra <= extra'
    ensures Mended(g, h0, h', kept, extra', s, done + {x})
  {
    var more := PairOneRepairs(g, h, kept, extra, s, x);
    h', extra' := PairOne(h, x).value, extra + more;
    NonNegativeSums(h);
    TriedStays(g, done, h.edges, h'.edges);
    TriedBoth(g, done, {x}, done + {x}, h'.edges);
  }

  lemma {:induction false} UsedPush(list: seq<nat>)
    requires list != []
    ensures Used(list) == Used(list[..|list| - 1]) + {list[|list| - 1]}
  {
    assert list == list[..|list| - 1] + [list[|list| - 1]];
  }

  lemma {:induction false} NothingPaired(g: Graph, h: Graph, kept: seq<Edge>, extra: seq<Edge>, s: set<nat>)
    requires Repaired(g, h, kept, extra, s)
    ensures Mended(g, h, h, kept, extra, s, Used([]))
  {
  }

  /** Pairing a list: every line of it has been tried, and nothing is taken off any line. */
  lemma {:induction false} PairAllRepairs(g: Graph, h: Graph, kept: seq<Edge>, extra: seq<Edge>, s: set<nat>,
                                          list: seq<nat>) returns (h': Graph, extra': seq<Edge>)
    requires LinesOk(g) && Sourced(g) && Repaired(g, h, kept, extra, s)
    requires forall i | 0 <= i < |list| :: list[i] in s && list[i] < |h.lines|
    ensures PairAll(h, list) == Ok(h') && extra <= extra'
    ensures Mended(g, h, h', kept, extra', s, Used(list))
  {
    if list == [] {
      h', extra' := h, extra;
      NothingPaired(g, h, kept, extra, s);
    } else {
      var k := |list| - 1;
      var h1, extra1 := PairAllRepairs(g, h, kept, extra, s, list[..k]);
      h', extra' := PairNext(g, h, h1, kept, extra1, s, Used(list[..k]), list[k]);
      UsedPush(list);
    }
  }

  // ------------------------------------------------------------------ one unlink

  lemma {:induction false} SelectAppend(a: seq<Edge>, b: seq<Edge>, roots: set<nat>, taken: bool)
    ensures Select(a + b, roots, taken) == Select(a, roots, taken) + Select(b, roots, taken)
  {
    if b == [] {
      assert a + b == a;
    } else {
      var k := |b| - 1;
      assert (a + b)[..|a + b| - 1] == a + b[..k];
      SelectAppend(a, b[..k], roots, taken);
    }
  }

  lemma {:induction false} SelectOutside(edges: seq<Edge>, roots: set<nat>)
    requires forall i | 0 <= i < |edges| :: !InClosure(edges[i], roots)
    ensures Select(edges, roots, false) == edges && Select(edges, roots, true) == []
  {
    if edges == [] {
    } else {
      SelectOutside(edges[..|edges| - 1], roots);
      assert edges == edges[..|edges| - 1] + [edges[|edges| - 1]];
    }
  }

  /** No unlink of an older edge takes pairing edges with it. */
  lemma {:induction false} SelectRepaired(g: Graph, kept: seq<Edge>, extra: seq<Edge>, s: set<nat>, id: nat, taken: bool)
    requires Fit(g, kept, extra, s) && id < g.nextEdge
    ensures Select(kept + extra, {id}, taken) == Select(kept, {id}, taken) + if taken then [] else extra
  {
    forall i | 0 <= i < |extra| ensures !InClosure(extra[i], {id}) {
      assert Repair(g, extra[i], s);
    }
    SelectAppend(kept, extra, {id}, taken);
    SelectOutside(extra, {id});
  }

  lemma {:induction false} SelectKeepsFree(edges: seq<Edge>, roots: set<nat>, l: nat)
    requires forall i | 0 <= i < |edges| :: edges[i].amount > 0
    ensures Free(edges, l) ==> Free(Select(edges, roots, false), l)
    ensures l !in Ends(Select(edges, roots, true)) ==> Applied(Select(edges, roots, false), l) == Applied(edges, l)
  {
    var out, rest := Select(edges, roots, true), Select(edges, roots, false);
    SelectSplits(edges, roots, l);
    SelectMembers(edges, roots, true);
    SelectMembers(edges, roots, false);
    forall i | 0 <= i < |out| ensures out[i].amount > 0 {
      assert out[i] in edges;
    }
    forall i | 0 <= i < |rest| ensures rest[i].amount > 0 {
      assert rest[i] in edges;
    }
    AppliedBounds(out, l);
    AppliedBounds(rest, l);
    if l !in Ends(out) {
      AppliedUntouched(out, l);
    }
  }

  /** An edge of that id that is not derived from another root of the set. */
  ghost predicate Standing(edges: seq<Edge>, id: nat, roots: set<nat>) {
    exists i | 0 <= i < |edges| :: edges[i].id == id && !InClosure(edges[i], roots - {id})
  }

  lemma {:induction false} StandsYet(g: Graph, h: Graph, extra: seq<Edge>, id: nat, all: set<nat>, gone: set<nat>)
    requires Standing(g.edges, id, all) && gone <= all && id !in gone
    requires SameFlow(Select(g.edges, gone, false) + extra, h.edges)
    ensures id in Ids(h.edges)
  {
    var i :| 0 <= i < |g.edges| && g.edges[i].id == id && !InClosure(g.edges[i], all - {id});
    SelectMembers(g.edges, gone, false);
    var kept := Select(g.edges, gone, false);
    assert g.edges[i] in kept;
    var k :| 0 <= k < |kept| && kept[k] == g.edges[i];
    assert (kept + extra)[k] == kept[k] && h.edges[k].id == id;
  }

  /** What the unlink of `id` touches, after `gone` are gone. */
  function Touched(g: Graph, gone: set<nat>, id: nat): set<nat> {
    Ends(Select(Select(g.edges, gone, false), {id}, true))
  }

  lemma {:induction false} EndsSameFlow(a: seq<Edge>, b: seq<Edge>)
    requires SameFlow(a, b)
    ensures Ends(a) == Ends(b)
  {
    assert forall i | 0 <= i < |a| :: a[i].debit == b[i].debit && a[i].credit == b[i].credit;
  }

  lemma {:induction false} RemovalRepaired(g: Graph, h: Graph, h2: Graph, gone: set<nat>, id: nat, extra: seq<Edge>,
                                           s: set<nat>)
    requires Inv(g) && id < g.nextEdge && Repaired(g, h, Select(g.edges, gone, false), extra, s) && Removed(h, h2, {id})
    ensures Repaired(g, h2, Select(g.edges, gone + {id}, false), extra, s)
    ensures Ends(Select(h.edges, {id}, true)) == Touched(g, gone, id)
    ensures forall l | l !in Touched(g, gone, id) :: Applied(h2.edges, l) == Applied(h.edges, l)
  {
    var kept := Select(g.edges, gone, false);
    SelectTwice(g.edges, gone, {id});
    SelectRepaired(g, kept, extra, s, id, true);
    SelectRepaired(g, kept, extra, s, id, false);
    SelectSameFlow(kept + extra, h.edges, {id}, true);
    SelectSameFlow(kept + extra, h.edges, {id}, false);
    EndsSameFlow(Select(kept, {id}, true), Select(h.edges, {id}, true));
    Positive(h);
    KeptPositive(g, gone);
    forall i | 0 <= i < |extra|
      ensures Free(Select(kept, {id}, false), extra[i].debit) && Free(Select(kept, {id}, false), extra[i].credit)
    {
      SelectKeepsFree(kept, {id}, extra[i].debit);
      SelectKeepsFree(kept, {id}, extra[i].credit);
    }
    forall l | l !in Touched(g, gone, id) ensures Applied(h2.edges, l) == Applied(h.edges, l) {
      SelectKeepsFree(h.edges, {id}, l);
    }
  }

  lemma {:induction false} KeptPositive(g: Graph, gone: set<nat>)
    requires Inv(g)
    ensures var kept := Select(g.edges, gone, false); forall i | 0 <= i < |kept| :: kept[i].amount > 0
  {
    var kept := Select(g.edges, gone, false);
    Positive(g);
    SelectMembers(g.edges, gone, false);
    forall i | 0 <= i < |kept| ensures kept[i].amount > 0 {
      assert kept[i] in g.edges;
    }
  }

  /** Everything one of the unlinks touches is touched by the edges that go with all of them. */
  lemma {:induction false} TouchedInAll(g: Graph, gone: set<nat>, id: nat, all: set<nat>)
    requires id in all
    ensures Touched(g, gone, id) <= Ends(Select(g.edges, all, true))
  {
    var kept := Select(g.edges, gone, false);
    var taken := Select(kept, {id}, true);
    SelectMembers(g.edges, gone, false);
    SelectMembers(kept, {id}, true);
    SelectMembers(g.edges, all, true);
    forall x | x in Ends(taken) ensures x in Ends(Select(g.edges, all, true)) {
      var i :| 0 <= i < |taken| && (taken[i].debit == x || taken[i].credit == x);
      assert taken[i] in kept && taken[i] in g.edges;
      EndsByMember(Select(g.edges, all, true), taken[i]);
    }
  }

  /** Unlinking one more edge of a list. */
  lemma {:induction false} NextUnlink(env: Env, g: Graph, h: Graph, gone: set<nat>, id: nat, all: set<nat>,
                                      extra: seq<Edge>) returns (h': Graph, extra': seq<Edge>)
    requires Sound(g) && Sourced(g) && Standing(g.edges, id, all) && gone <= all && id in all && id !in gone
    requires Repaired(g, h, Select(g.edges, gone, false), extra, Ends(Select(g.edges, all, true)))
    ensures UnlinkOne(env, h, id) == Ok(h') && extra <= extra'
    ensures Repaired(g, h', Select(g.edges, gone + {id}, false), extra', Ends(Select(g.edges, all, true)))
    ensures Tried(g, Touched(g, gone, id), h'.edges)
    ensures forall l | l !in Touched(g, gone, id) :: Applied(h.edges, l) <= Applied(h'.edges, l)
  {
    var s := Ends(Select(g.edges, all, true));
    StandsYet(g, h, extra, id, all, gone);
    assert LinesOk(g) && id < g.nextEdge by {
      Clauses(g);
      var i :| 0 <= i < |g.edges| && g.edges[i].id == id;
      assert EdgeOk(g.edges[i], |g.lines|, g.nextEdge);
    }
    var h2 := UnlinkRemoves(env, h, {id});
    RemovalRepaired(g, h, h2, gone, id, extra, s);
    TouchedInAll(g, gone, id, all);
    var list := Ascending(|h2.lines|, Touched(g, gone, id));
    forall i | 0 <= i < |list| ensures list[i] in s && list[i] < |h2.lines| {
      assert list[i] in list;
    }
    h', extra' := PairAllRepairs(g, h2, Select(g.edges, gone + {id}, false), extra, s, list);
    assert Touched(g, gone, id) <= Used(list) by {
      TouchedAreLines(h, {id});
    }
    TriedBoth(g, Used(list), {}, Touched(g, gone, id), h'.edges);
  }

  lemma {:induction false} TouchedAreLines(g: Graph, roots: set<nat>)
    requires Inv(g)
    ensures forall x | x in Ends(Select(g.edges, roots, true)) :: x < |g.lines|
  {
    EdgeEnds(g);
    var taken := Select(g.edges, roots, true);
    SelectMembers(g.edges, roots, true);
    forall i | 0 <= i < |taken| ensures taken[i].debit < |g.lines| && taken[i].credit < |g.lines| {
      assert taken[i] in g.edges;
    }
  }
}
