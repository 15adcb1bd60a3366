/**
 * Unlinking many edges. When the lines touched call for different counterparts, what is left of
 * every line is the same in whatever order they are unlinked; and a line whose source was
 * reversed ends with one edge of full face between it and its reversal, whatever else pairs.
 */
module ReconcileReversed {
  import opened Wrappers
  import opened ReconcileGraph
  import opened ReconcileInvariants
  import opened ReconcileVerbs
  import opened ReconcileGrowth
  import opened ReconcileSteps
  import opened ReconcileReversals
  import opened ReconcileEnds
  import opened ReconcileLedger
  import opened ReconcileUndo
  import opened ReconcileRepair

  /** Unlink edges one after the other. */
  function UnlinkEach(env: Env, g: Graph, ids: seq<nat>): Result<Graph, ReconcileError> {
    if ids == [] then Ok(g)
    else
      var g' :- UnlinkEach(env, g, ids[..|ids| - 1]);
      UnlinkOne(env, g', ids[|ids| - 1])
  }

  function Elements(ids: seq<nat>): set<nat> {
    if ids == [] then {} else Elements(ids[..|ids| - 1]) + {ids[|ids| - 1]}
  }

  lemma {:induction false} ElementsAre(ids: seq<nat>)
    ensures forall x :: x in Elements(ids) <==> x in ids
  {
    if ids == [] {
    } else {
      ElementsAre(ids[..|ids| - 1]);
      assert ids == ids[..|ids| - 1] + [ids[|ids| - 1]];
    }
  }

  /** Live edges, each once, none derived from another of them. */
  ghost predicate Separate(g: Graph, ids: seq<nat>) {
    && (forall i, k | 0 <= i < k < |ids| :: ids[i] != ids[k])
    && forall i | 0 <= i < |ids| :: Standing(g.edges, ids[i], Elements(ids))
  }

  /** The edges and the lines that unlinking them takes away or touches. */
  function Kept(g: Graph, roots: set<nat>): seq<Edge> {
    Select(g.edges, roots, false)
  }

  function TouchedBy(g: Graph, roots: set<nat>): set<nat> {
    Ends(Select(g.edges, roots, true))
  }

  lemma {:induction false} PrefixElements(ids: seq<nat>, n: nat)
    requires n < |ids| && forall i, k | 0 <= i < k < |ids| :: ids[i] != ids[k]
    ensures Elements(ids[..n + 1]) == Elements(ids[..n]) + {ids[n]}
    ensures Elements(ids[..n + 1]) <= Elements(ids) && ids[n] !in Elements(ids[..n])
  {
    assert ids[..n + 1][..n] == ids[..n];
    ElementsAre(ids[..n]);
    ElementsAre(ids[..n + 1]);
    ElementsAre(ids);
  }

  // ------------------------------------------------------------------ the whole sequence

  /** Lines that are the counterparts of their counterparts, as far as these are touched. */
  ghost predicate Mutual(g: Graph, s: set<nat>, w: set<nat>) {
    w <= s && forall x, k | Calls(g, w, x, k) && k in s :: Calls(g, w, k, x)
  }

  /** What was touched before was tried before; its counterpart is touched now only if it calls back. */
  lemma {:induction false} TriedNext(g: Graph, s: set<nat>, w: set<nat>, before: set<nat>, now: set<nat>, a: seq<Edge>,
                                     b: seq<Edge>)
    requires Mutual(g, s, w) && now <= s
    requires Tried(g, w * before, a) && Tried(g, now, b)
    requires forall l :: Applied(a, l) >= 0
    requires forall l | l !in now :: Applied(a, l) <= Applied(b, l)
    ensures Tried(g, w * (before + now), b)
  {
    forall x, k | Calls(g, w * (before + now), x, k) ensures !(Free(b, x) && Free(b, k)) {
      if x in now {
        assert Calls(g, now, x, k);
      } else if k in now {
        assert Calls(g, w, x, k);
        assert Calls(g, now, k, x);
      } else {
        assert Calls(g, w * before, x, k);
      }
    }
  }

  lemma {:induction false} TouchedSplits(g: Graph, gone: set<nat>, id: nat)
    ensures TouchedBy(g, gone + {id}) <= TouchedBy(g, gone) + Touched(g, gone, id)
  {
    var all, first, second := Select(g.edges, gone + {id}, true), Select(g.edges, gone, true),
      Select(Kept(g, gone), {id}, true);
    SelectMembers(g.edges, gone + {id}, true);
    SelectMembers(g.edges, gone, true);
    SelectMembers(g.edges, gone, false);
    SelectMembers(Kept(g, gone), {id}, true);
    forall x | x in Ends(all) ensures x in Ends(first) + Ends(second) {
      var i :| 0 <= i < |all| && (all[i].debit == x || all[i].credit == x);
      assert all[i] in all && (all[i] in first || all[i] in second);
      EndsByMember(first, all[i]);
      EndsByMember(second, all[i]);
    }
  }

  lemma {:induction false} TriedFewer(g: Graph, s: set<nat>, t: set<nat>, edges: seq<Edge>)
    requires Tried(g, t, edges) && s <= t
    ensures Tried(g, s, edges)
  {
    TriedBoth(g, t, t, s, edges);
  }

  lemma {:induction false} NothingGone(g: Graph, s: set<nat>)
    requires Sound(g)
    ensures Repaired(g, g, Kept(g, {}), [], s) && TouchedBy(g, {}) == {}
  {
    SelectOutside(g.edges, {});
    assert g.edges + [] == g.edges;
  }

  /** After the first `n` unlinks: the other edges and pairing edges, every watched line tried. */
  ghost predicate After(g: Graph, ids: seq<nat>, n: nat, w: set<nat>, h: Graph, extra: seq<Edge>)
    requires n <= |ids|
  {
    && Repaired(g, h, Kept(g, Elements(ids[..n])), extra, TouchedBy(g, Elements(ids)))
    && Tried(g, w * TouchedBy(g, Elements(ids[..n])), h.edges)
  }

  lemma {:induction false} UnlinkOneMore(env: Env, g: Graph, ids: seq<nat>, n: nat, w: set<nat>, h0: Graph,
                                         extra0: seq<Edge>) returns (h: Graph, extra: seq<Edge>)
    requires Sound(g) && Sourced(g) && Separate(g, ids) && n < |ids| && Mutual(g, TouchedBy(g, Elements(ids)), w)
    requires After(g, ids, n, w, h0, extra0)
    ensures UnlinkOne(env, h0, ids[n]) == Ok(h) && After(g, ids, n + 1, w, h, extra)
  {
    var all, gone, id := Elements(ids), Elements(ids[..n]), ids[n];
    PrefixElements(ids, n);
    h, extra := NextUnlink(env, g, h0, gone, id, all, extra0);
    NonNegativeSums(h0);
    TouchedInAll(g, gone, id, all);
    TriedNext(g, TouchedBy(g, all), w, TouchedBy(g, gone), Touched(g, gone, id), h0.edges, h.edges);
    TouchedSplits(g, gone, id);
    TriedFewer(g, w * TouchedBy(g, gone + {id}), w * (TouchedBy(g, gone) + Touched(g, gone, id)), h.edges);
  }

  lemma {:induction false} UnlinkEachRepairs(env: Env, g: Graph, ids: seq<nat>, n: nat, w: set<nat>)
    returns (h: Graph, extra: seq<Edge>)
    requires Sound(g) && Sourced(g) && Separate(g, ids) && n <= |ids| && Mutual(g, TouchedBy(g, Elements(ids)), w)
    ensures UnlinkEach(env, g, ids[..n]) == Ok(h) && After(g, ids, n, w, h, extra)
  {
    if n == 0 {
      h, extra := g, [];
      NothingGone(g, TouchedBy(g, Elements(ids)));
    } else {
      var h0, extra0 := UnlinkEachRepairs(env, g, ids, n - 1, w);
      assert ids[..n][..n - 1] == ids[..n - 1];
      h, extra := UnlinkOneMore(env, g, ids, n - 1, w, h0, extra0);
    }
  }

  // ------------------------------------------------------------------ the order of unlinks

  /** No two lines of the set call for one counterpart, and a counterpart in the set calls back. */
  ghost predicate Independent(g: Graph, s: set<nat>) {
    && (forall x, y, k | Calls(g, s, x, k) && Calls(g, s, y, k) :: x == y)
    && Mutual(g, s, s)
  }

  ghost predicate Mates(g: Graph, s: set<nat>, x: nat, y: nat) {
    Calls(g, s, x, y) || Calls(g, s, y, x)
  }

  lemma {:induction false} OneMate(g: Graph, s: set<nat>, x: nat, y: nat, z: nat)
    requires Independent(g, s) && Mates(g, s, x, y) && Mates(g, s, x, z)
    ensures y == z
  {
  }

  /** Mates that `kept` leaves both open. */
  ghost predicate OpenMates(g: Graph, kept: seq<Edge>, s: set<nat>, x: nat, y: nat) {
    Mates(g, s, x, y) && Free(kept, x) && Free(kept, y)
  }

  /** What is applied to a line in the end: the smaller face when its mate is open too, else what is kept. */
  ghost function Expected(g: Graph, kept: seq<Edge>, s: set<nat>, x: nat): int {
    if exists y: nat :: OpenMates(g, kept, s, x, y) then
      var y: nat :| OpenMates(g, kept, s, x, y);
      Min(g.lines[x].base, g.lines[y].base)
    else Applied(kept, x)
  }

  lemma {:induction false} OnlyShare(edges: seq<Edge>, i: nat, l: nat)
    requires i < |edges| && Touches(edges[i], l) && forall j, k | 0 <= j < k < |edges| :: Apart(edges[j], edges[k])
    ensures Applied(edges, l) == edges[i].amount
    ensures forall j | 0 <= j < |edges| && Touches(edges[j], l) :: j == i
  {
    var k := |edges| - 1;
    forall j | 0 <= j < |edges| && j != i ensures !Touches(edges[j], l) {
      assert if j < i then Apart(edges[j], edges[i]) else Apart(edges[i], edges[j]);
    }
    if i < k {
      OnlyShare(edges[..k], i, l);
    } else {
      AppliedUntouched(edges[..k], l);
    }
  }

  /** A pairing edge on a line is the one with its mate. */
  lemma {:induction false} RepairIsMates(g: Graph, kept: seq<Edge>, extra: seq<Edge>, s: set<nat>, i: nat, x: nat)
    returns (y: nat)
    requires Fit(g, kept, extra, s) && i < |extra| && Touches(extra[i], x)
    ensures OpenMates(g, kept, s, x, y) && Joins(g, extra[i], x, y)
  {
    assert Repair(g, extra[i], s);
    var a: nat, b: nat :| Calls(g, s, a, b) && Joins(g, extra[i], a, b);
    y := if a == x then b else a;
  }

  lemma {:induction false} ExpectedIs(g: Graph, kept: seq<Edge>, s: set<nat>, x: nat, y: nat)
    requires Independent(g, s) && OpenMates(g, kept, s, x, y)
    ensures Expected(g, kept, s, x) == Min(g.lines[x].base, g.lines[y].base)
  {
    var z: nat :| OpenMates(g, kept, s, x, z) && Expected(g, kept, s, x) == Min(g.lines[x].base, g.lines[z].base);
    assert OpenMates(g, kept, s, x, z);
    OneMate(g, s, x, y, z);
  }

  lemma {:induction false} NoOpenMate(g: Graph, kept: seq<Edge>, extra: seq<Edge>, s: set<nat>, x: nat)
    requires Fit(g, kept, extra, s) && forall y: nat :: !OpenMates(g, kept, s, x, y)
    ensures Applied(extra, x) == 0
  {
    forall i | 0 <= i < |extra| ensures !Touches(extra[i], x) {
      if Touches(extra[i], x) {
        var y := RepairIsMates(g, kept, extra, s, i, x);
        assert false;
      }
    }
    AppliedUntouched(extra, x);
  }

  lemma {:induction false} ExpectedApplied(g: Graph, h: Graph, kept: seq<Edge>, extra: seq<Edge>, s: set<nat>, x: nat)
    requires Repaired(g, h, kept, extra, s) && Independent(g, s) && Tried(g, s, h.edges)
    ensures Applied(h.edges, x) == Expected(g, kept, s, x)
  {
    FreeParts(h, kept, extra, x);
    if y: nat :| OpenMates(g, kept, s, x, y) {
      var i := MatesPaired(g, h, kept, extra, s, x, y);
      OnlyShare(extra, i, x);
      ExpectedIs(g, kept, s, x, y);
    } else {
      NoOpenMate(g, kept, extra, s, x);
    }
  }

  lemma {:induction false} ExtraPositive(h: Graph, kept: seq<Edge>, extra: seq<Edge>)
    requires Inv(h) && SameFlow(kept + extra, h.edges)
    ensures forall i | 0 <= i < |extra| :: extra[i].amount > 0
  {
    Positive(h);
    assert forall i | 0 <= i < |extra| :: extra[i] == (kept + extra)[|kept| + i];
  }

  /** Open mates of which one has been tried are joined. */
  lemma {:induction false} MatesPaired(g: Graph, h: Graph, kept: seq<Edge>, extra: seq<Edge>, s: set<nat>, x: nat, y: nat)
    returns (i: nat)
    requires Repaired(g, h, kept, extra, s) && Independent(g, s) && Tried(g, s, h.edges)
    requires OpenMates(g, kept, s, x, y)
    ensures i < |extra| && Touches(extra[i], x) && Joins(g, extra[i], x, y)
  {
    FreeParts(h, kept, extra, x);
    FreeParts(h, kept, extra, y);
    assert !(Free(h.edges, x) && Free(h.edges, y));
    ExtraPositive(h, kept, extra);
    AppliedBounds(extra, x);
    AppliedBounds(extra, y);
    if Applied(extra, x) > 0 {
      i :| 0 <= i < |extra| && Touches(extra[i], x);
      var z := RepairIsMates(g, kept, extra, s, i, x);
      OneMate(g, s, x, y, z);
    } else {
      i :| 0 <= i < |extra| && Touches(extra[i], y);
      var z := RepairIsMates(g, kept, extra, s, i, y);
      OneMate(g, s, y, x, z);
    }
  }

  /**
   * What unlinking a set of edges one by one leaves of every line, whatever the order: lines
   * whose counterpart is left open as they are get paired with it, all others keep what the
   * other edges apply to them.
   */
  lemma {:induction false} UnlinkEachLeaves(env: Env, g: Graph, ids: seq<nat>, x: nat)
    requires Sound(g) && Sourced(g) && Separate(g, ids) && x < |g.lines|
    requires Independent(g, TouchedBy(g, Elements(ids)))
    ensures var roots := Elements(ids);
      && UnlinkEach(env, g, ids).Ok? && g.lines <= UnlinkEach(env, g, ids).value.lines
      && Residual(UnlinkEach(env, g, ids).value, x)
        == g.lines[x].base - Expected(g, Kept(g, roots), TouchedBy(g, roots), x)
  {
    var s := TouchedBy(g, Elements(ids));
    var h, extra := UnlinkEachRepairs(env, g, ids, |ids|, s);
    assert ids[..|ids|] == ids && s * s == s;
    ExpectedApplied(g, h, Kept(g, Elements(ids)), extra, s, x);
  }

  /** Two orders of the same unlinks end with the same residual on every line. */
  lemma {:induction false} OrderDoesNotMatter(env: Env, later: Env, g: Graph, a: seq<nat>, b: seq<nat>, x: nat)
    requires Sound(g) && Sourced(g) && Separate(g, a) && Separate(g, b) && x < |g.lines|
    requires Elements(a) == Elements(b) && Independent(g, TouchedBy(g, Elements(a)))
    ensures UnlinkEach(env, g, a).Ok? && g.lines <= UnlinkEach(env, g, a).value.lines
    ensures UnlinkEach(later, g, b).Ok? && g.lines <= UnlinkEach(later, g, b).value.lines
    ensures Residual(UnlinkEach(env, g, a).value, x) == Residual(UnlinkEach(later, g, b).value, x)
  {
    UnlinkEachLeaves(env, g, a, x);
    UnlinkEachLeaves(later, g, b, x);
  }

  // ------------------------------------------------------------------ a line and its reversal

  /** No other document line of the set is of `l`'s source on `l`'s account. */
  ghost predicate SoleItem(g: Graph, s: set<nat>, l: nat)
    requires l < |g.lines|
  {
    forall x | x in s && x != l && x < |g.lines| && !Machinery(g.lines[x]) :: !SameItem(g, x, l)
  }

  /**
   * Line `l` is a document's and has edges, all of them among the unlinked ones; its reversal
   * counterpart `r` is wholly open with the same face; and the unlinked edges touch no other line
   * of that source on that account.
   */
  ghost predicate Reversible(g: Graph, l: nat, r: nat, ids: seq<nat>) {
    && l < |g.lines| && r < |g.lines| && !Machinery(g.lines[l]) && !Unapplied(g, l)
    && Counterpart(g, l) == Some(r) && Unapplied(g, r) && g.lines[r].base == g.lines[l].base
    && Separate(g, ids) && (forall i | 0 <= i < |g.edges| && Touches(g.edges[i], l) :: InClosure(g.edges[i], Elements(ids)))
    && SoleItem(g, TouchedBy(g, Elements(ids)), l)
  }

  /** One edge of the full face between a line and its reversal. */
  ghost predicate ReversalEdge(e: Edge, l: nat, r: nat, face: int) {
    ((e.debit == l && e.credit == r) || (e.debit == r && e.credit == l)) && e.amount == face
  }

  lemma {:induction false} NothingApplied(edges: seq<Edge>, roots: set<nat>, l: nat)
    requires forall i | 0 <= i < |edges| && Touches(edges[i], l) :: InClosure(edges[i], roots)
    ensures Applied(Select(edges, roots, false), l) == 0
    ensures var kept := Select(edges, roots, false); forall i | 0 <= i < |kept| :: !Touches(kept[i], l)
  {
    var kept := Select(edges, roots, false);
    SelectMembers(edges, roots, false);
    forall i | 0 <= i < |kept| ensures !Touches(kept[i], l) {
      assert kept[i] in edges;
      var k :| 0 <= k < |edges| && edges[k] == kept[i];
    }
    AppliedUntouched(kept, l);
  }

  /** A wholly open line has no edge. */
  lemma {:induction false} OpenUntouched(g: Graph, r: nat)
    requires Inv(g) && r < |g.lines| && Unapplied(g, r)
    ensures forall i | 0 <= i < |g.edges| :: !Touches(g.edges[i], r)
  {
    Positive(g);
    AppliedBounds(g.edges, r);
  }

  /** The line is touched, its reversal is not, and the edges that stay are on neither. */
  lemma {:induction false} ReversibleEnds(g: Graph, l: nat, r: nat, ids: seq<nat>)
    requires Sound(g) && Reversible(g, l, r, ids)
    ensures var kept, s := Kept(g, Elements(ids)), TouchedBy(g, Elements(ids));
      && l in s && r !in s && l != r && SameItem(g, l, r)
      && Free(kept, l) && Free(kept, r)
      && forall i | 0 <= i < |kept| :: !Touches(kept[i], l) && !Touches(kept[i], r)
  {
    var roots := Elements(ids);
    CounterpartSound(g, l);
    OpenUntouched(g, r);
    NothingApplied(g.edges, roots, l);
    NothingApplied(g.edges, roots, r);
    SelectMembers(g.edges, roots, true);
    var taken := Select(g.edges, roots, true);
    assert exists i | 0 <= i < |g.edges| :: Touches(g.edges[i], l) by {
      Positive(g);
      AppliedBounds(g.edges, l);
    }
    var i :| 0 <= i < |g.edges| && Touches(g.edges[i], l);
    EndsByMember(taken, g.edges[i]);
    forall j | 0 <= j < |taken| ensures !Touches(taken[j], r) {
      assert taken[j] in g.edges;
    }
  }

  /** A pairing edge on the line or its reversal joins the two. */
  lemma {:induction false} RepairOnLine(g: Graph, e: Edge, s: set<nat>, l: nat, r: nat)
    requires l < |g.lines| && r < |g.lines| && SameItem(g, l, r) && r !in s && SoleItem(g, s, l)
    requires Counterpart(g, l) == Some(r) && Repair(g, e, s)
    ensures Touches(e, l) || Touches(e, r) ==> Joins(g, e, l, r)
    ensures !Touches(e, l) && !Touches(e, r) ==> Repair(g, e, s - {l})
  {
    var x, k :| Calls(g, s, x, k) && Joins(g, e, x, k);
    CounterpartSound(g, x);
    if x != l {
      assert Calls(g, s - {l}, x, k);
    }
  }

  /** What is left on the line and its reversal once the line has been tried. */
  lemma {:induction false} PairedAtLast(g: Graph, h: Graph, l: nat, r: nat, ids: seq<nat>, extra: seq<Edge>)
    returns (i: nat)
    requires Sound(g) && Reversible(g, l, r, ids)
    requires Repaired(g, h, Kept(g, Elements(ids)), extra, TouchedBy(g, Elements(ids))) && Tried(g, {l}, h.edges)
    ensures i < |extra| && ReversalEdge(extra[i], l, r, g.lines[l].base)
    ensures forall j | 0 <= j < |extra| && j != i ::
      !Touches(extra[j], l) && !Touches(extra[j], r) && Repair(g, extra[j], TouchedBy(g, Elements(ids)) - {l})
  {
    var kept, s := Kept(g, Elements(ids)), TouchedBy(g, Elements(ids));
    ReversibleEnds(g, l, r, ids);
    FreeParts(h, kept, extra, l);
    FreeParts(h, kept, extra, r);
    assert Calls(g, {l}, l, r);
    ExtraPositive(h, kept, extra);
    AppliedBounds(extra, l);
    AppliedBounds(extra, r);
    i :| 0 <= i < |extra| && (Touches(extra[i], l) || Touches(extra[i], r));
    assert Repair(g, extra[i], s);
    RepairOnLine(g, extra[i], s, l, r);
    OnlyShare(extra, i, l);
    OnlyShare(extra, i, r);
    forall j | 0 <= j < |extra| && j != i
      ensures !Touches(extra[j], l) && !Touches(extra[j], r) && Repair(g, extra[j], s - {l})
    {
      assert Repair(g, extra[j], s);
      RepairOnLine(g, extra[j], s, l, r);
    }
  }

  /**
   * Unlinking, in any order, edges that take all there is on a line whose source has one posted,
   * wholly open reversal line of the same face: the edges outside the closures stay; one new edge
   * of the full face joins the line and its reversal; and every other new edge joins another
   * touched line to that line's own counterpart, for the smaller face.
   */
  lemma {:induction false} UnlinkAllPairsReversal(env: Env, g: Graph, l: nat, r: nat, ids: seq<nat>)
    returns (h: Graph, extra: seq<Edge>, i: nat)
    requires Sound(g) && Sourced(g) && Reversible(g, l, r, ids)
    ensures UnlinkEach(env, g, ids) == Ok(h) && Sound(h) && g.lines <= h.lines
    ensures SameFlow(Kept(g, Elements(ids)) + extra, h.edges)
    ensures i < |extra| && ReversalEdge(extra[i], l, r, g.lines[l].base)
    ensures forall j | 0 <= j < |extra| && j != i ::
      !Touches(extra[j], l) && !Touches(extra[j], r) && Repair(g, extra[j], TouchedBy(g, Elements(ids)) - {l})
  {
    ReversibleEnds(g, l, r, ids);
    h, extra := UnlinkEachRepairs(env, g, ids, |ids|, {l});
    assert ids[..|ids|] == ids && {l} * TouchedBy(g, Elements(ids)) == {l};
    i := PairedAtLast(g, h, l, r, ids, extra);
  }

  /** So exactly one edge is left on each of the two, the same one, and both are settled. */
  lemma {:induction false} OneEdgeIsLeft(env: Env, g: Graph, l: nat, r: nat, ids: seq<nat>) returns (h: Graph, n: nat)
    requires Sound(g) && Sourced(g) && Reversible(g, l, r, ids)
    ensures UnlinkEach(env, g, ids) == Ok(h) && g.lines <= h.lines
    ensures OnlyEdge(h.edges, n, l) && OnlyEdge(h.edges, n, r) && h.edges[n].amount == g.lines[l].base
    ensures Residual(h, l) == 0 && Residual(h, r) == 0
  {
    var extra, i;
    h, extra, i := UnlinkAllPairsReversal(env, g, l, r, ids);
    n := |Kept(g, Elements(ids))| + i;
    ReversibleEnds(g, l, r, ids);
    OnlyAt(Kept(g, Elements(ids)), extra, h.edges, i, l);
    OnlyAt(Kept(g, Elements(ids)), extra, h.edges, i, r);
  }

  /** The n-th edge is on the line, and no other is. */
  ghost predicate OnlyEdge(edges: seq<Edge>, n: nat, l: nat) {
    n < |edges| && Touches(edges[n], l) && forall j | 0 <= j < |edges| && Touches(edges[j], l) :: j == n
  }

  /** The one edge on a line is what is applied to it. */
  lemma {:induction false} OnlyAt(kept: seq<Edge>, extra: seq<Edge>, edges: seq<Edge>, i: nat, l: nat)
    requires SameFlow(kept + extra, edges) && i < |extra| && forall j | 0 <= j < |kept| :: !Touches(kept[j], l)
    requires Touches(extra[i], l) && forall j | 0 <= j < |extra| && j != i :: !Touches(extra[j], l)
    ensures OnlyEdge(edges, |kept| + i, l) && edges[|kept| + i].amount == extra[i].amount
    ensures Applied(edges, l) == extra[i].amount
  {
    var all := kept + extra;
    forall j | 0 <= j < |edges| && j != |kept| + i ensures !Touches(edges[j], l) {
      assert all[j] == if j < |kept| then kept[j] else extra[j - |kept|];
    }
    assert all[|kept| + i] == extra[i];
    OneShare(edges, |kept| + i, l);
  }

  lemma {:induction false} OneShare(edges: seq<Edge>, n: nat, l: nat)
    requires OnlyEdge(edges, n, l)
    ensures Applied(edges, l) == edges[n].amount
  {
    var k := |edges| - 1;
    if n < k {
      OneShare(edges[..k], n, l);
    } else {
      AppliedUntouched(edges[..k], l);
    }
  }

  /** When nothing else that is touched has a counterpart, that edge is the only new one. */
  lemma {:induction false} UnlinkAllPairsNothingElse(env: Env, g: Graph, l: nat, r: nat, ids: seq<nat>)
    returns (e: Edge)
    requires Sound(g) && Sourced(g) && Reversible(g, l, r, ids)
    requires forall x | x in TouchedBy(g, Elements(ids)) && x != l :: Alone(g, x)
    ensures UnlinkEach(env, g, ids).Ok? && ReversalEdge(e, l, r, g.lines[l].base)
    ensures SameFlow(Kept(g, Elements(ids)) + [e], UnlinkEach(env, g, ids).value.edges)
  {
    var h, extra, i := UnlinkAllPairsReversal(env, g, l, r, ids);
    e := extra[i];
    OnlyRepair(g, extra, i, 0, TouchedBy(g, Elements(ids)) - {l});
    OnlyRepair(g, extra, i, |extra| - 1, TouchedBy(g, Elements(ids)) - {l});
    assert extra == [e];
  }

  lemma {:induction false} OnlyRepair(g: Graph, extra: seq<Edge>, i: nat, j: nat, s: set<nat>)
    requires i < |extra| && j < |extra| && forall x | x in s :: Alone(g, x)
    requires forall k | 0 <= k < |extra| && k != i :: Repair(g, extra[k], s)
    ensures j == i
  {
    NoRepair(g, s);
    var e := extra[j];
    assert !Repair(g, e, s);
  }

  lemma {:induction false} NoRepair(g: Graph, s: set<nat>)
    requires forall x | x in s :: Alone(g, x)
    ensures forall e :: !Repair(g, e, s)
  {
    forall x, k ensures !Calls(g, s, x, k) {
      assert x in s ==> Alone(g, x);
    }
  }
}
