/**
 * The invariants of the reconciliation graph, and the primitive steps that keep them:
 * inserting an edge within both residuals, committing a clean journal, completing a group,
 * and removing a closure of edges.
 */
module ReconcileInvariants {
  import opened Wrappers
  import opened GlPosting
  import opened ReconcileGraph

  ghost predicate LineOk(line: Line, journals: nat) {
    && line.base > 0 && line.rate > 0
    && ((line.debit > 0) != (line.credit > 0))
    && line.journal < journals
  }

  ghost predicate LinesOk(g: Graph) {
    forall l | 0 <= l < |g.lines| :: LineOk(g.lines[l], |g.journals|)
  }

  ghost predicate EdgeOk(e: Edge, lines: nat, next: nat) {
    e.id < next && e.amount > 0 && e.debit < lines && e.credit < lines && e.debit != e.credit
  }

  ghost predicate IdsAscend(edges: seq<Edge>) {
    forall i, j | 0 <= i < j < |edges| :: edges[i].id < edges[j].id
  }

  ghost predicate EdgesOk(g: Graph) {
    && (forall i | 0 <= i < |g.edges| :: EdgeOk(g.edges[i], |g.lines|, g.nextEdge))
    && IdsAscend(g.edges)
  }

  /** No line is ever over-applied. */
  ghost predicate ResidualsOk(g: Graph) {
    forall l | 0 <= l < |g.lines| :: 0 <= Residual(g, l) <= g.lines[l].base
  }

  ghost predicate HasEdge(edges: seq<Edge>, l: nat, group: Option<nat>) {
    exists i | 0 <= i < |edges| :: Touches(edges[i], l) && edges[i].group == group
  }

  /** A stamped line is settled, and a live edge on it carries the same stamp. */
  ghost predicate StampsOk(g: Graph) {
    forall l | l in g.stamps ::
      l < |g.lines| && Residual(g, l) == 0 && HasEdge(g.edges, l, Some(g.stamps[l]))
  }

  /** A settled line without a stamp still has an edge without a stamp. */
  ghost predicate UnstampedOk(g: Graph) {
    forall l | 0 <= l < |g.lines| && l !in g.stamps && Residual(g, l) == 0 :: HasEdge(g.edges, l, None)
  }

  /** The stored groups are exactly those some live edge carries. */
  ghost predicate GroupsOk(g: Graph) {
    && g.groups.Keys == GroupsOn(g.edges)
    && forall k | k in g.groups :: k < g.nextGroup
  }

  /** The clauses of the invariant, by name, so that a proof can pick the ones it needs. */
  datatype Clause = Lines | Edges | Residuals | Stamped | Unstamped | Groups

  ghost predicate Holds(c: Clause, g: Graph) {
    match c
    case Lines => LinesOk(g)
    case Edges => EdgesOk(g)
    case Residuals => ResidualsOk(g)
    case Stamped => StampsOk(g)
    case Unstamped => UnstampedOk(g)
    case Groups => GroupsOk(g)
  }

  ghost predicate Inv(g: Graph) {
    forall c: Clause :: Holds(c, g)
  }

  lemma {:induction false} Clauses(g: Graph)
    ensures Inv(g) <==>
      LinesOk(g) && EdgesOk(g) && ResidualsOk(g) && StampsOk(g) && UnstampedOk(g) && GroupsOk(g)
  {
    var all := Holds(Lines, g) && Holds(Edges, g) && Holds(Residuals, g) && Holds(Stamped, g) && Holds(Unstamped, g)
      && Holds(Groups, g);
    forall c: Clause | all ensures Holds(c, g) {
      match c
      case Lines =>
      case Edges =>
      case Residuals =>
      case Stamped =>
      case Unstamped =>
      case Groups =>
    }
  }

  // ------------------------------------------------------------------ sums of edge amounts

  /** The same edges up to group stamp and exchange-move mark. */
  ghost predicate SameFlow(a: seq<Edge>, b: seq<Edge>) {
    && |a| == |b|
    && forall i | 0 <= i < |a| ::
      && a[i].id == b[i].id && a[i].debit == b[i].debit && a[i].credit == b[i].credit
      && a[i].amount == b[i].amount && a[i].sourceId == b[i].sourceId
  }

  lemma {:induction false} AppliedSameFlow(a: seq<Edge>, b: seq<Edge>, l: nat)
    requires SameFlow(a, b)
    ensures Applied(a, l) == Applied(b, l)
  {
    if a == [] {
    } else {
      AppliedSameFlow(a[..|a| - 1], b[..|b| - 1], l);
    }
  }

  lemma {:induction false} AppliedPush(edges: seq<Edge>, e: Edge, l: nat)
    ensures Applied(edges + [e], l) == Applied(edges, l) + Share(e, l)
  {
    assert (edges + [e])[..|edges|] == edges;
  }

  /** Positive edges: the sum is non-negative, at least each edge's share, and zero only without an edge. */
  lemma {:induction false} AppliedBounds(edges: seq<Edge>, l: nat)
    requires forall i | 0 <= i < |edges| :: edges[i].amount > 0
    ensures Applied(edges, l) >= 0
    ensures forall i | 0 <= i < |edges| && Touches(edges[i], l) :: Applied(edges, l) >= edges[i].amount
    ensures Applied(edges, l) > 0 ==> exists i | 0 <= i < |edges| :: Touches(edges[i], l)
  {
    if edges == [] {
    } else {
      var k := |edges| - 1;
      var init := edges[..k];
      assert forall i | 0 <= i < k :: init[i] == edges[i];
      AppliedBounds(init, l);
      if Applied(edges, l) > 0 {
        if Touches(edges[k], l) {
        } else {
          var i :| 0 <= i < |init| && Touches(init[i], l);
          assert Touches(edges[i], l);
        }
      }
    }
  }

  lemma {:induction false} AppliedUntouched(edges: seq<Edge>, l: nat)
    requires forall i | 0 <= i < |edges| :: !Touches(edges[i], l)
    ensures Applied(edges, l) == 0
  {
    if edges == [] {
    } else {
      AppliedUntouched(edges[..|edges| - 1], l);
    }
  }

  lemma {:induction false} SelectSplits(edges: seq<Edge>, roots: set<nat>, l: nat)
    ensures Applied(edges, l) == Applied(Select(edges, roots, true), l) + Applied(Select(edges, roots, false), l)
  {
    if edges == [] {
    } else {
      var k := |edges| - 1;
      SelectSplits(edges[..k], roots, l);
      AppliedPush(Select(edges[..k], roots, true), edges[k], l);
      AppliedPush(Select(edges[..k], roots, false), edges[k], l);
    }
  }

  /** Selecting keeps exactly the edges on the asked side, in order. */
  lemma {:induction false} SelectMembers(edges: seq<Edge>, roots: set<nat>, taken: bool)
    ensures forall e :: e in Select(edges, roots, taken) <==> e in edges && InClosure(e, roots) == taken
  {
    if edges == [] {
    } else {
      SelectMembers(edges[..|edges| - 1], roots, taken);
      assert edges == edges[..|edges| - 1] + [edges[|edges| - 1]];
    }
  }

  lemma {:induction false} SelectAscends(edges: seq<Edge>, roots: set<nat>, taken: bool)
    requires IdsAscend(edges)
    ensures IdsAscend(Select(edges, roots, taken))
  {
    if edges == [] {
    } else {
      var k := |edges| - 1;
      var init := edges[..k];
      SelectAscends(init, roots, taken);
      SelectMembers(init, roots, taken);
      var s := Select(init, roots, taken);
      forall i | 0 <= i < |s| ensures s[i].id < edges[k].id {
        assert s[i] in init;
        var m :| 0 <= m < k && init[m] == s[i];
        assert edges[m].id < edges[k].id;
      }
    }
  }

  // ------------------------------------------------------------------ inserting an edge

  lemma {:induction false} InsertResiduals(g: Graph, d: nat, c: nat, amount: int, date: int, origin: string,
                                           source: Option<Ref>)
    requires InsertPartial(g, d, c, amount, date, origin, source).Ok?
    ensures var g' := InsertPartial(g, d, c, amount, date, origin, source).value;
      forall l | 0 <= l < |g.lines| ::
        Residual(g', l) == Residual(g, l) - (if l == d || l == c then amount else 0)
  {
    var g' := InsertPartial(g, d, c, amount, date, origin, source).value;
    var e := g'.edges[|g.edges|];
    forall l | 0 <= l < |g.lines|
      ensures Residual(g', l) == Residual(g, l) - (if l == d || l == c then amount else 0)
    {
      AppliedPush(g.edges, e, l);
    }
  }

  /** An edge within both residuals keeps every invariant. */
  lemma {:induction false} InsertKeepsInv(g: Graph, d: nat, c: nat, amount: int, date: int, origin: string,
                                          source: Option<Ref>)
    requires Inv(g)
    requires InsertPartial(g, d, c, amount, date, origin, source).Ok?
    requires amount <= Residual(g, d) && amount <= Residual(g, c)
    ensures Inv(InsertPartial(g, d, c, amount, date, origin, source).value)
  {
    Clauses(g);
    Clauses(InsertPartial(g, d, c, amount, date, origin, source).value);
    var g' := InsertPartial(g, d, c, amount, date, origin, source).value;
    InsertResiduals(g, d, c, amount, date, origin, source);
    var n := |g.edges|;
    assert g'.edges[..n] == g.edges;
    forall l, group | HasEdge(g.edges, l, group) ensures HasEdge(g'.edges, l, group) {
      var i :| 0 <= i < n && Touches(g.edges[i], l) && g.edges[i].group == group;
      assert Touches(g'.edges[i], l) && g'.edges[i].group == group;
    }
    assert Touches(g'.edges[n], d) && Touches(g'.edges[n], c) && g'.edges[n].group == None;
    assert HasEdge(g'.edges, d, None) && HasEdge(g'.edges, c, None);
    GroupsPush(g.edges, g'.edges[n]);
    assert EdgesOk(g');
    assert StampsOk(g');
    assert UnstampedOk(g');
  }

  lemma {:induction false} GroupsPush(edges: seq<Edge>, e: Edge)
    requires e.group.None?
    ensures GroupsOn(edges + [e]) == GroupsOn(edges)
  {
    var all := edges + [e];
    forall k | k in GroupsOn(edges) ensures k in GroupsOn(all) {
      var i :| 0 <= i < |edges| && edges[i].group.Some? && edges[i].group.value == k;
      assert all[i] == edges[i];
    }
    forall k | k in GroupsOn(all) ensures k in GroupsOn(edges) {
      var i :| 0 <= i < |all| && all[i].group.Some? && all[i].group.value == k;
      assert all[i] == edges[i];
    }
  }

  // ------------------------------------------------------------------ committing a journal

  lemma {:induction false} CommitResiduals(g: Graph, w: Posting)
    requires EdgesOk(g) && Commit(g, w).Ok?
    ensures var g' := Commit(g, w).value;
      && (forall l | 0 <= l < |g.lines| :: Residual(g', l) == Residual(g, l))
      && (forall l | |g.lines| <= l < |g'.lines| :: Residual(g', l) == g'.lines[l].base)
  {
    var g' := Commit(g, w).value;
    forall l | |g.lines| <= l < |g'.lines| ensures Residual(g', l) == g'.lines[l].base {
      AppliedUntouched(g.edges, l);
    }
  }

  lemma {:induction false} CommitKeepsInv(g: Graph, w: Posting)
    requires Inv(g) && Commit(g, w).Ok? && AllClean(w.lines)
    ensures Inv(Commit(g, w).value)
  {
    Clauses(g);
    Clauses(Commit(g, w).value);
    var g' := Commit(g, w).value;
    CommitResiduals(g, w);
    forall l | 0 <= l < |g'.lines| ensures LineOk(g'.lines[l], |g'.journals|) {
      if l >= |g.lines| {
        assert Clean(w.lines[l - |g.lines|]);
      }
    }
  }

  // ------------------------------------------------------------------ marking and stamping

  lemma {:induction false} SetExchangeMoveKeepsInv(g: Graph, partial: nat, journal: nat)
    requires Inv(g)
    ensures var g' := g.(edges := SetExchangeMove(g.edges, partial, journal));
      Inv(g') && SameFlow(g.edges, g'.edges) && forall l | 0 <= l < |g.lines| :: Residual(g', l) == Residual(g, l)
  {
    var g' := g.(edges := SetExchangeMove(g.edges, partial, journal));
    MarksKeepInv(g, g');
  }

  /** Changing only exchange-move marks changes no invariant. */
  lemma {:induction false} MarksKeepInv(g: Graph, g': Graph)
    requires Inv(g) && g' == g.(edges := g'.edges)
    requires SameFlow(g.edges, g'.edges)
    requires forall i | 0 <= i < |g.edges| :: g.edges[i].group == g'.edges[i].group
    ensures Inv(g') && forall l | 0 <= l < |g.lines| :: Residual(g', l) == Residual(g, l)
  {
    Clauses(g);
    Clauses(g');
    forall l: nat ensures Applied(g'.edges, l) == Applied(g.edges, l) {
      AppliedSameFlow(g.edges, g'.edges, l);
    }
    forall l, group | HasEdge(g.edges, l, group) ensures HasEdge(g'.edges, l, group) {
      var i :| 0 <= i < |g.edges| && Touches(g.edges[i], l) && g.edges[i].group == group;
      assert Touches(g'.edges[i], l) && g'.edges[i].group == group;
    }
    assert GroupsOn(g'.edges) == GroupsOn(g.edges);
    assert forall i | 0 <= i < |g'.edges| :: EdgeOk(g.edges[i], |g.lines|, g.nextEdge) ==>
      EdgeOk(g'.edges[i], |g.lines|, g.nextEdge);
  }

  // ------------------------------------------------------------------ components

  ghost predicate Closed(edges: seq<Edge>, s: set<nat>) {
    forall i | 0 <= i < |edges| :: edges[i].debit in s <==> edges[i].credit in s
  }

  /** The component contains its seeds and no edge leaves it. */
  lemma {:induction false} ComponentCloses(edges: seq<Edge>, s: set<nat>)
    ensures s <= Component(edges, s)
    ensures Closed(edges, Component(edges, s))
    decreases Ends(edges) - s
  {
    if Neighbours(edges, s) <= s {
      forall i | 0 <= i < |edges| ensures edges[i].debit in s <==> edges[i].credit in s {
        assert edges[i].debit in s ==> edges[i].credit in Neighbours(edges, s);
        assert edges[i].credit in s ==> edges[i].debit in Neighbours(edges, s);
      }
    } else {
      var x :| x in Neighbours(edges, s) && x !in s;
      assert x in Ends(edges) - s;
      ComponentCloses(edges, s + Neighbours(edges, s));
    }
  }

  /** The component is the least closed set around its seeds. */
  lemma {:induction false} ComponentLeast(edges: seq<Edge>, s: set<nat>, t: set<nat>)
    requires s <= t && Closed(edges, t)
    ensures Component(edges, s) <= t
    decreases Ends(edges) - s
  {
    if !(Neighbours(edges, s) <= s) {
      var x :| x in Neighbours(edges, s) && x !in s;
      assert x in Ends(edges) - s;
      ComponentLeast(edges, s + Neighbours(edges, s), t);
    }
  }

  lemma {:induction false} ComponentInLines(g: Graph, seeds: set<nat>)
    requires EdgesOk(g) && forall l | l in seeds :: l < |g.lines|
    ensures forall l | l in Component(g.edges, seeds) :: l < |g.lines|
  {
    var t := seeds + Ends(g.edges);
    forall i | 0 <= i < |g.edges| ensures g.edges[i].debit in t && g.edges[i].credit in t {
      assert g.edges[i].debit in Ends(g.edges) && g.edges[i].credit in Ends(g.edges);
    }
    ComponentLeast(g.edges, seeds, t);
    forall l | l in t ensures l < |g.lines| {
      if l in Ends(g.edges) {
        assert forall i | 0 <= i < |g.edges| :: EdgeOk(g.edges[i], |g.lines|, g.nextEdge);
      }
    }
  }

  // ------------------------------------------------------------------ completing a group

  /** What the invariant says of one stamped line. */
  lemma {:induction false} StampAt(g: Graph, l: nat)
    requires Inv(g) && l in g.stamps
    ensures l < |g.lines| && Residual(g, l) == 0 && HasEdge(g.edges, l, Some(g.stamps[l]))
  {
    Clauses(g);
  }

  lemma {:induction false} ResidualAt(g: Graph, l: nat)
    requires Inv(g) && l < |g.lines|
    ensures 0 <= Residual(g, l) <= g.lines[l].base && g.lines[l].base > 0 && g.lines[l].rate > 0
  {
    Clauses(g);
    assert LineOk(g.lines[l], |g.journals|);
  }

  lemma {:induction false} UnstampedAt(g: Graph, l: nat)
    requires Inv(g) && l < |g.lines| && l !in g.stamps && Residual(g, l) == 0
    ensures HasEdge(g.edges, l, None)
  {
    Clauses(g);
  }

  lemma {:induction false} GroupsAre(g: Graph)
    requires Inv(g)
    ensures g.groups.Keys == GroupsOn(g.edges) && forall k | k in g.groups :: k < g.nextGroup
  {
    Clauses(g);
  }

  lemma {:induction false} StampIsGroup(g: Graph, l: nat)
    requires Inv(g) && l in g.stamps
    ensures g.stamps[l] in g.groups && g.stamps[l] < g.nextGroup
  {
    StampAt(g, l);
    GroupsAre(g);
    var i :| 0 <= i < |g.edges| && Touches(g.edges[i], l) && g.edges[i].group == Some(g.stamps[l]);
    assert g.stamps[l] in GroupsOn(g.edges);
  }

  /** The same lines, journals, ledger and keys, and the same edges up to stamps and marks. */
  ghost predicate SameFlows(g: Graph, g': Graph) {
    && g' == g.(stamps := g'.stamps, edges := g'.edges, groups := g'.groups, nextGroup := g'.nextGroup)
    && SameFlow(g.edges, g'.edges)
  }

  lemma {:induction false} SameFlowsResiduals(g: Graph, g': Graph)
    requires SameFlows(g, g')
    ensures forall l | 0 <= l < |g.lines| :: Residual(g', l) == Residual(g, l)
    ensures EdgesOk(g) ==> EdgesOk(g')
    ensures LinesOk(g) ==> LinesOk(g')
    ensures ResidualsOk(g) ==> ResidualsOk(g')
  {
    forall l | 0 <= l < |g.lines| ensures Residual(g', l) == Residual(g, l) {
      AppliedSameFlow(g.edges, g'.edges, l);
    }
    if EdgesOk(g) {
      assert forall i | 0 <= i < |g'.edges| :: EdgeOk(g.edges[i], |g.lines|, g.nextEdge) ==>
        EdgeOk(g'.edges[i], |g.lines|, g.nextEdge);
    }
  }

  /** A settled closed component whose stamps, if any, are all `group`. */
  ghost predicate Stampable(g: Graph, group: nat, comp: set<nat>) {
    && Closed(g.edges, comp)
    && (forall l | l in comp :: l < |g.lines| && Residual(g, l) == 0)
    && (forall l | l in comp && l in g.stamps :: g.stamps[l] == group)
  }

  /** Stamping changes the stamp of an edge on a closed component only from none to the group. */
  lemma {:induction false} AttachEdge(edges: seq<Edge>, group: nat, comp: set<nat>, l: nat, seen: Option<nat>)
    requires Closed(edges, comp) && HasEdge(edges, l, seen)
    ensures HasEdge(StampEdges(edges, group, comp), l, if seen.None? && l in comp then Some(group) else seen)
  {
    var i :| 0 <= i < |edges| && Touches(edges[i], l) && edges[i].group == seen;
    assert edges[i].debit in comp <==> edges[i].credit in comp;
    var after := StampEdges(edges, group, comp);
    assert after[i] == StampEdge(edges[i], group, comp);
    assert Touches(after[i], l);
  }

  lemma {:induction false} AttachStamped(g: Graph, group: nat, comp: set<nat>, l: nat)
    requires Inv(g) && Stampable(g, group, comp) && l in Attach(g, group, comp).stamps
    ensures var g' := Attach(g, group, comp);
      l < |g.lines| && Residual(g, l) == 0 && HasEdge(g'.edges, l, Some(g'.stamps[l]))
  {
    if l in g.stamps {
      StampAt(g, l);
      AttachEdge(g.edges, group, comp, l, Some(g.stamps[l]));
    } else {
      UnstampedAt(g, l);
      AttachEdge(g.edges, group, comp, l, None);
    }
  }

  lemma {:induction false} AttachUnstamped(g: Graph, group: nat, comp: set<nat>, l: nat)
    requires Inv(g) && Stampable(g, group, comp) && l !in Attach(g, group, comp).stamps
    requires l < |g.lines| && Residual(g, l) == 0
    ensures HasEdge(Attach(g, group, comp).edges, l, None)
  {
    UnstampedAt(g, l);
    AttachEdge(g.edges, group, comp, l, None);
  }

  /** Stamping a component with one group keeps every invariant; the group may be new. */
  lemma {:induction false} AttachKeepsInv(g: Graph, group: nat, comp: set<nat>, groups: map<nat, int>, next: nat)
    requires Inv(g) && comp != {} && Stampable(g, group, comp)
    requires groups.Keys == g.groups.Keys + {group} && forall k | k in groups :: k < next
    ensures var g' := Attach(g.(groups := groups, nextGroup := next), group, comp);
      Inv(g') && SameFlows(g, g')
  {
    var g0 := Attach(g, group, comp);
    var g' := Attach(g.(groups := groups, nextGroup := next), group, comp);
    assert g' == g0.(groups := groups, nextGroup := next);
    assert SameFlows(g, g');
    assert EdgesOk(g') && LinesOk(g') && ResidualsOk(g') by {
      Clauses(g);
      SameFlowsResiduals(g, g');
    }
    assert forall l | 0 <= l < |g.lines| :: Residual(g', l) == Residual(g, l) by {
      SameFlowsResiduals(g, g');
    }
    forall l | l in g'.stamps
      ensures l < |g'.lines| && Residual(g', l) == 0 && HasEdge(g'.edges, l, Some(g'.stamps[l]))
    {
      AttachStamped(g, group, comp, l);
    }
    forall l | 0 <= l < |g'.lines| && l !in g'.stamps && Residual(g', l) == 0 ensures HasEdge(g'.edges, l, None) {
      AttachUnstamped(g, group, comp, l);
    }
    AttachGroupsOn(g, group, comp);
    GroupsAre(g);
    Clauses(g');
  }

  lemma {:induction false} AttachGroupsOn(g: Graph, group: nat, comp: set<nat>)
    requires Inv(g) && comp != {} && Stampable(g, group, comp)
    ensures GroupsOn(Attach(g, group, comp).edges) == GroupsOn(g.edges) + {group}
  {
    var l :| l in comp;
    AttachStamped(g, group, comp, l);
    AttachGroups(g.edges, group, comp, l);
  }

  lemma {:induction false} AttachGroups(edges: seq<Edge>, group: nat, comp: set<nat>, l: nat)
    requires HasEdge(StampEdges(edges, group, comp), l, Some(group))
    ensures GroupsOn(StampEdges(edges, group, comp)) == GroupsOn(edges) + {group}
  {
    var after := StampEdges(edges, group, comp);
    var k :| 0 <= k < |after| && Touches(after[k], l) && after[k].group == Some(group);
    assert group in GroupsOn(after);
    forall x | x in GroupsOn(edges) ensures x in GroupsOn(after) {
      var i :| 0 <= i < |edges| && edges[i].group.Some? && edges[i].group.value == x;
      assert after[i].group == Some(x);
    }
    forall x | x in GroupsOn(after) ensures x in GroupsOn(edges) + {group} {
      var i :| 0 <= i < |after| && after[i].group.Some? && after[i].group.value == x;
      assert edges[i].group.Some? ==> edges[i].group.value == x;
    }
  }

  /** What the stamps of a component can be. */
  lemma {:induction false} StampCases(g: Graph, comp: set<nat>)
    requires Inv(g)
    ensures forall l | l in comp && l in g.stamps :: g.stamps[l] in DistinctStamps(g, comp)
    ensures forall k | k in DistinctStamps(g, comp) :: k in g.groups && exists l | l in comp && l in g.stamps :: g.stamps[l] == k
    ensures |DistinctStamps(g, comp)| == 1 ==>
      forall l | l in comp && l in g.stamps :: g.stamps[l] == DistinctStamps(g, comp)[0]
  {
    forall l | l in comp && l in g.stamps ensures g.stamps[l] in DistinctStamps(g, comp) {
      StampIsGroup(g, l);
    }
    forall k | k in DistinctStamps(g, comp)
      ensures k in g.groups && exists l | l in comp && l in g.stamps :: g.stamps[l] == k
    {
      var l :| l in comp && l in g.stamps && g.stamps[l] == k;
      StampIsGroup(g, l);
    }
  }

  lemma {:induction false} GroupUpKeepsInv(g: Graph, comp: set<nat>, total: int)
    requires Inv(g) && comp != {} && Closed(g.edges, comp)
    requires forall l | l in comp :: l < |g.lines| && Residual(g, l) == 0
    ensures Inv(GroupUp(g, comp, total).0) && SameFlows(g, GroupUp(g, comp, total).0)
  {
    GroupsAre(g);
    var stamps := DistinctStamps(g, comp);
    if |stamps| == 0 {
      assert Stampable(g, g.nextGroup, comp) by {
        StampCases(g, comp);
      }
      AttachKeepsInv(g, g.nextGroup, comp, g.groups[g.nextGroup := total], g.nextGroup + 1);
    } else if |stamps| == 1 {
      assert Stampable(g, stamps[0], comp) && stamps[0] in g.groups by {
        StampCases(g, comp);
        assert stamps[0] in stamps;
      }
      AttachKeepsInv(g, stamps[0], comp, g.groups, g.nextGroup);
    }
  }

  lemma {:induction false} CompleteKeepsInv(g: Graph, seeds: set<nat>, total: int)
    requires Inv(g) && forall l | l in seeds :: l < |g.lines|
    ensures Inv(Complete(g, seeds, total).0) && SameFlows(g, Complete(g, seeds, total).0)
  {
    var comp := Component(g.edges, seeds);
    if comp != {} && Settled(g, comp) {
      ComponentCloses(g.edges, seeds);
      assert forall l | l in comp :: l < |g.lines| by {
        Clauses(g);
        ComponentInLines(g, seeds);
      }
      GroupUpKeepsInv(g, comp, total);
    }
  }

  // ------------------------------------------------------------------ removing edges

  lemma {:induction false} EndsByMember(edges: seq<Edge>, e: Edge)
    ensures e in edges ==> e.debit in Ends(edges) && e.credit in Ends(edges)
  {
    if e in edges {
      var k :| 0 <= k < |edges| && edges[k] == e;
      assert edges[k].debit in Ends(edges) && edges[k].credit in Ends(edges);
    }
  }

  lemma {:induction false} SelectKeepsEdge(g: Graph, roots: set<nat>, l: nat, group: Option<nat>)
    requires HasEdge(g.edges, l, group) && l !in Ends(Select(g.edges, roots, true))
    ensures HasEdge(Select(g.edges, roots, false), l, group)
  {
    var taken, kept := Select(g.edges, roots, true), Select(g.edges, roots, false);
    var i :| 0 <= i < |g.edges| && Touches(g.edges[i], l) && g.edges[i].group == group;
    SelectMembers(g.edges, roots, true);
    SelectMembers(g.edges, roots, false);
    EndsByMember(taken, g.edges[i]);
    assert g.edges[i] in kept;
    var k :| 0 <= k < |kept| && kept[k] == g.edges[i];
    assert Touches(kept[k], l);
  }

  lemma {:induction false} SelectGroups(edges: seq<Edge>, roots: set<nat>)
    ensures GroupsOn(edges) == GroupsOn(Select(edges, roots, true)) + GroupsOn(Select(edges, roots, false))
  {
    var taken, kept := Select(edges, roots, true), Select(edges, roots, false);
    SelectMembers(edges, roots, true);
    SelectMembers(edges, roots, false);
    GroupsByMember(edges);
    GroupsByMember(taken);
    GroupsByMember(kept);
  }

  lemma {:induction false} GroupsByMember(edges: seq<Edge>)
    ensures forall k :: k in GroupsOn(edges) <==> exists e | e in edges :: e.group == Some(k)
  {
    forall k | exists e | e in edges :: e.group == Some(k) ensures k in GroupsOn(edges) {
      var e :| e in edges && e.group == Some(k);
      var i :| 0 <= i < |edges| && edges[i] == e;
    }
    forall k | k in GroupsOn(edges) ensures exists e | e in edges :: e.group == Some(k) {
      var i :| 0 <= i < |edges| && edges[i].group.Some? && edges[i].group.value == k;
      assert edges[i] in edges;
    }
  }

  /** Removal gives every touched line something open again, and leaves the others as they were. */
  lemma {:induction false} RemoveResiduals(g: Graph, roots: set<nat>)
    requires EdgesOk(g)
    ensures var g' := RemoveEdges(g, roots);
      var taken := Select(g.edges, roots, true);
      forall l | 0 <= l < |g.lines| ::
        && Residual(g', l) == Residual(g, l) + Applied(taken, l)
        && Applied(taken, l) >= 0
        && (l in Ends(taken) <==> Applied(taken, l) > 0)
  {
    var taken := Select(g.edges, roots, true);
    SelectMembers(g.edges, roots, true);
    forall i | 0 <= i < |taken| ensures taken[i].amount > 0 {
      assert taken[i] in g.edges;
    }
    forall l | 0 <= l < |g.lines|
      ensures Residual(RemoveEdges(g, roots), l) == Residual(g, l) + Applied(taken, l)
      ensures Applied(taken, l) >= 0 && (l in Ends(taken) <==> Applied(taken, l) > 0)
    {
      SelectSplits(g.edges, roots, l);
      AppliedBounds(taken, l);
      if l in Ends(taken) {
        var i :| 0 <= i < |taken| && (taken[i].debit == l || taken[i].credit == l);
        assert Touches(taken[i], l);
      } else {
        forall i | 0 <= i < |taken| ensures !Touches(taken[i], l) {
          assert taken[i].debit in Ends(taken) && taken[i].credit in Ends(taken);
        }
        AppliedUntouched(taken, l);
      }
    }
  }

  lemma {:induction false} RemoveKeepsInv(g: Graph, roots: set<nat>)
    requires Inv(g)
    ensures Inv(RemoveEdges(g, roots))
  {
    Clauses(g);
    Clauses(RemoveEdges(g, roots));
    var g' := RemoveEdges(g, roots);
    var taken, kept := Select(g.edges, roots, true), Select(g.edges, roots, false);
    RemoveResiduals(g, roots);
    SelectMembers(g.edges, roots, false);
    SelectAscends(g.edges, roots, false);
    SelectGroups(g.edges, roots);
    forall i | 0 <= i < |kept| ensures EdgeOk(kept[i], |g.lines|, g.nextEdge) {
      assert kept[i] in g.edges;
    }
    forall l | 0 <= l < |g.lines| ensures 0 <= Residual(g', l) <= g.lines[l].base {
      AppliedBounds(kept, l);
    }
    forall l | l in g'.stamps
      ensures l < |g.lines| && Residual(g', l) == 0 && HasEdge(kept, l, Some(g'.stamps[l]))
    {
      SelectKeepsEdge(g, roots, l, Some(g.stamps[l]));
    }
    forall l | 0 <= l < |g.lines| && l !in g'.stamps && Residual(g', l) == 0 ensures HasEdge(kept, l, None) {
      assert l !in Ends(taken);
      SelectKeepsEdge(g, roots, l, None);
    }
  }
}
