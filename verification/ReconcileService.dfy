/**
 * The reconciliation service as it works: one object whose tables the verbs change step by
 * step. Every verb is proved to do what its function on the graph says, loops included; a verb
 * that fails puts the tables back.
 */
module ReconcileService {
  import opened Wrappers
  import opened GlPosting
  import opened ReconcileGraph
  import opened ReconcileInvariants
  import opened ReconcileGrowth
  import opened ReconcileVerbs
  import opened ReconcileReversals
  import opened ReconcileRuns
  import opened ReconcileUndo
  import opened Rounding

  // ------------------------------------------------------------------ prefixes of the recursive specifications

  lemma {:induction false} FlipsNext(g: Graph, ds: seq<Deferral>, i: nat, cum: int, base: nat)
    requires base > 0 && i < |ds|
    ensures var amount := FlipAmount(g, ds[i], cum, base);
      Flips(g, ds[..i + 1], cum, base)
      == if amount > 0 then Flips(g, ds[..i], cum, base) + [Flip(ds[i], amount)] else Flips(g, ds[..i], cum, base)
  {
    assert ds[..i + 1][..i] == ds[..i];
  }

  lemma {:induction false} FlipLinesNext(flips: seq<Flip>, i: nat)
    requires i < |flips|
    ensures FlipLines(flips[..i + 1]) == FlipLines(flips[..i]) + [RealLeg(flips[i]), TransitionLeg(flips[i])]
  {
    assert flips[..i + 1][..i] == flips[..i];
  }

  lemma {:induction false} MatchNext(legs: seq<PostingLine>, flips: seq<Flip>, i: nat, matched: seq<nat>)
    requires i < |flips| && MatchLegs(legs, flips[..i]) == Some(matched)
    ensures var leg := FindLeg(legs, Used(matched), flips[i], 0);
      MatchLegs(legs, flips[..i + 1]) == if leg.None? then None else Some(matched + [leg.value])
  {
    assert flips[..i + 1][..i] == flips[..i];
  }

  /** A flip without a leg fails the whole list. */
  lemma {:induction false} MatchFails(legs: seq<PostingLine>, flips: seq<Flip>, i: nat)
    requires i <= |flips| && MatchLegs(legs, flips[..i]).None?
    ensures MatchLegs(legs, flips).None?
    decreases |flips| - i
  {
    if i < |flips| {
      assert flips[..i + 1][..i] == flips[..i];
      MatchFails(legs, flips, i + 1);
    } else {
      assert flips[..i] == flips;
    }
  }

  lemma {:induction false} PairNext(g: Graph, g1: Graph, flips: seq<Flip>, matched: seq<nat>, leg: nat, i: nat,
                                    first: nat, partial: nat, origin: string, date: int)
    requires |matched| == i < |flips|
    requires PairFlips(g, flips[..i], matched, first, partial, origin, date) == Ok(g1)
    ensures PairFlips(g, flips[..i + 1], matched + [leg], first, partial, origin, date)
      == InsertFlip(g1, flips[i], first + leg, partial, origin, date)
  {
    assert flips[..i + 1][..i] == flips[..i] && (matched + [leg])[..i] == matched;
  }

  /** A derived edge that cannot be inserted fails the whole list. */
  lemma {:induction false} PairFails(g: Graph, flips: seq<Flip>, matched: seq<nat>, i: nat, first: nat, partial: nat,
                                     origin: string, date: int)
    requires |matched| == |flips| && i <= |flips|
    requires PairFlips(g, flips[..i], matched[..i], first, partial, origin, date) == Err(Internal)
    ensures PairFlips(g, flips, matched, first, partial, origin, date) == Err(Internal)
    decreases |flips| - i
  {
    if i < |flips| {
      assert flips[..i + 1][..i] == flips[..i] && matched[..i + 1][..i] == matched[..i];
      PairFails(g, flips, matched, i + 1, first, partial, origin, date);
    } else {
      assert flips[..i] == flips && matched[..i] == matched;
    }
  }

  lemma {:induction false} MatchPrefixOf(legs: seq<PostingLine>, flips: seq<Flip>, i: nat)
    requires i <= |flips| && MatchLegs(legs, flips).Some?
    ensures MatchLegs(legs, flips[..i]) == Some(MatchLegs(legs, flips).value[..i])
    decreases |flips| - i
  {
    if i < |flips| {
      MatchPrefixOf(legs, flips, i + 1);
      assert flips[..i + 1][..i] == flips[..i];
      var all := MatchLegs(legs, flips).value;
      assert all[..i + 1][..i] == all[..i];
      var earlier := MatchLegs(legs, flips[..i]).value;
      assert (earlier + [all[i]])[..i] == earlier;
    } else {
      assert flips[..i] == flips && MatchLegs(legs, flips).value[..i] == MatchLegs(legs, flips).value;
    }
  }

  lemma {:induction false} ReverseNext(env: Env, g: Graph, g1: Graph, js: seq<nat>, i: nat)
    requires i < |js| && ReverseAll(env, g, js[..i]) == Ok(g1)
    ensures ReverseAll(env, g, js[..i + 1]) == ReverseJournal(env, g1, js[i])
  {
    assert js[..i + 1][..i] == js[..i];
  }

  lemma {:induction false} ReverseFails(env: Env, g: Graph, js: seq<nat>, i: nat)
    requires i <= |js| && ReverseAll(env, g, js[..i]) == Err(Internal)
    ensures ReverseAll(env, g, js) == Err(Internal)
    decreases |js| - i
  {
    if i < |js| {
      assert js[..i + 1][..i] == js[..i];
      ReverseFails(env, g, js, i + 1);
    } else {
      assert js[..i] == js;
    }
  }

  lemma {:induction false} PairAllNext(g: Graph, g1: Graph, ids: seq<nat>, i: nat)
    requires i < |ids| && PairAll(g, ids[..i]) == Ok(g1)
    ensures PairAll(g, ids[..i + 1]) == PairOne(g1, ids[i])
  {
    assert ids[..i + 1][..i] == ids[..i];
  }

  lemma {:induction false} PairAllFails(g: Graph, ids: seq<nat>, i: nat)
    requires i <= |ids| && PairAll(g, ids[..i]) == Err(Internal)
    ensures PairAll(g, ids) == Err(Internal)
    decreases |ids| - i
  {
    if i < |ids| {
      assert ids[..i + 1][..i] == ids[..i];
      PairAllFails(g, ids, i + 1);
    } else {
      assert ids[..i] == ids;
    }
  }

  // ------------------------------------------------------------------ closures as the service builds them

  /** The edges whose id is not listed, in order. */
  function Without(edges: seq<Edge>, ids: set<nat>): seq<Edge> {
    if edges == [] then []
    else
      var last := edges[|edges| - 1];
      var init := Without(edges[..|edges| - 1], ids);
      if last.id in ids then init else init + [last]
  }

  /** Deleting by id deletes the closure. */
  lemma {:induction false} WithoutIsSelect(edges: seq<Edge>, ids: set<nat>, roots: set<nat>)
    requires forall i | 0 <= i < |edges| :: edges[i].id in ids <==> InClosure(edges[i], roots)
    ensures Without(edges, ids) == Select(edges, roots, false)
  {
    if edges == [] {
    } else {
      WithoutIsSelect(edges[..|edges| - 1], ids, roots);
    }
  }

  /** `closure` lists the edges of the closure of `roots`, in whatever order. */
  ghost predicate IsClosure(edges: seq<Edge>, roots: set<nat>, closure: seq<Edge>) {
    forall e :: e in closure <==> e in edges && InClosure(e, roots)
  }

  lemma {:induction false} ClosureIds(edges: seq<Edge>, roots: set<nat>, closure: seq<Edge>)
    requires IdsAscend(edges) && IsClosure(edges, roots, closure)
    ensures Ids(closure) == Ids(Select(edges, roots, true))
    ensures Ends(closure) == Ends(Select(edges, roots, true))
    ensures GroupsOn(closure) == GroupsOn(Select(edges, roots, true))
    ensures forall i | 0 <= i < |edges| :: edges[i].id in Ids(closure) <==> InClosure(edges[i], roots)
  {
    var taken := Select(edges, roots, true);
    SelectMembers(edges, roots, true);
    SameMembers(closure, taken);
    IdsByMember(taken);
    forall i | 0 <= i < |edges| ensures edges[i].id in Ids(taken) <==> InClosure(edges[i], roots) {
      assert edges[i] in edges;
      assert InClosure(edges[i], roots) ==> edges[i] in taken;
      forall e | e in taken ensures e.id == edges[i].id ==> e == edges[i] {
        SameIdSameEdge(edges, e, edges[i]);
      }
    }
  }

  lemma {:induction false} SameMembers(a: seq<Edge>, b: seq<Edge>)
    requires forall e :: e in a <==> e in b
    ensures Ids(a) == Ids(b) && Ends(a) == Ends(b) && GroupsOn(a) == GroupsOn(b)
  {
    IdsByMember(a);
    IdsByMember(b);
    GroupsByMember(a);
    GroupsByMember(b);
    forall x | x in Ends(a) ensures x in Ends(b) {
      var i :| 0 <= i < |a| && (a[i].debit == x || a[i].credit == x);
      EndsByMember(b, a[i]);
    }
    forall x | x in Ends(b) ensures x in Ends(a) {
      var i :| 0 <= i < |b| && (b[i].debit == x || b[i].credit == x);
      EndsByMember(a, b[i]);
    }
  }

  // ------------------------------------------------------------------ rows the unlink verbs read

  predicate DerivedFrom(e: Edge, ids: set<nat>) {
    e.sourceId.Some? && e.sourceId.value.PartialRef? && e.sourceId.value.n in ids
  }

  function DerivedPartials(edges: seq<Edge>, id: nat): (r: seq<Edge>)
    ensures forall e :: e in r <==> e in edges && DerivedFrom(e, {id})
  {
    if edges == [] then []
    else
      var last := edges[|edges| - 1];
      var init := DerivedPartials(edges[..|edges| - 1], id);
      assert forall e :: e in edges <==> e in edges[..|edges| - 1] || e == last;
      if DerivedFrom(last, {id}) then init + [last] else init
  }

  predicate Joins(e: Edge, a: nat, b: nat) {
    Touches(e, a) && Touches(e, b) && e.debit != e.credit
  }

  function PartialsBetween(edges: seq<Edge>, a: nat, b: nat): (r: seq<Edge>)
    ensures forall e :: e in r <==> e in edges && Joins(e, a, b)
  {
    if edges == [] then []
    else
      var last := edges[|edges| - 1];
      var init := PartialsBetween(edges[..|edges| - 1], a, b);
      assert forall e :: e in edges <==> e in edges[..|edges| - 1] || e == last;
      if Joins(last, a, b) then init + [last] else init
  }

  lemma {:induction false} BetweenIds(edges: seq<Edge>, a: nat, b: nat)
    ensures Ids(PartialsBetween(edges, a, b)) == Between(edges, a, b)
  {
    var rows := PartialsBetween(edges, a, b);
    forall n | n in Ids(rows) ensures n in Between(edges, a, b) {
      var i :| 0 <= i < |rows| && rows[i].id == n;
      assert rows[i] in rows;
      var k :| 0 <= k < |edges| && edges[k] == rows[i];
    }
    forall n | n in Between(edges, a, b) ensures n in Ids(rows) {
      var k :| 0 <= k < |edges| && Joins(edges[k], a, b) && edges[k].id == n;
      assert edges[k] in rows;
      var i :| 0 <= i < |rows| && rows[i] == edges[k];
    }
  }

  lemma {:induction false} IdsPush(edges: seq<Edge>, e: Edge)
    ensures Ids(edges + [e]) == Ids(edges) + {e.id}
  {
    forall n | n in Ids(edges) + {e.id} ensures n in Ids(edges + [e]) {
      if n == e.id {
        assert (edges + [e])[|edges|].id == n;
      } else {
        var i :| 0 <= i < |edges| && edges[i].id == n;
        assert (edges + [e])[i].id == n;
      }
    }
  }

  lemma {:induction false} OneId(e: Edge)
    ensures Ids([e]) == {e.id}
  {
    IdsPush([], e);
    assert [] + [e] == [e];
  }

  /** A row whose id is listed is itself listed. */
  lemma {:induction false} SeenIsListed(edges: seq<Edge>, listed: seq<Edge>, e: Edge)
    requires IdsAscend(edges) && e in edges && forall x | x in listed :: x in edges
    ensures e.id in Ids(listed) <==> e in listed
  {
    IdsByMember(listed);
    forall x | x in listed ensures x.id == e.id ==> x == e {
      SameIdSameEdge(edges, x, e);
    }
  }

  function ErrorOf<T>(r: Result<T, ReconcileError>): Option<ReconcileError> {
    if r.Err? then Some(r.error) else None
  }

  lemma {:induction false} UsedPush(matched: seq<nat>, leg: nat)
    ensures Used(matched + [leg]) == Used(matched) + {leg}
  {
  }

  lemma {:induction false} SoundIds(g: Graph)
    requires Sound(g)
    ensures IdsAscend(g.edges)
  {
    Clauses(g);
  }

  /** A flip whose derived edge cannot be inserted fails the side, whatever comes after it. */
  lemma {:induction false} FlipNotPaired(g: Graph, legs: seq<PostingLine>, flips: seq<Flip>, matched: seq<nat>,
                                         first: nat,
                                         partial: nat, origin: string, date: int)
    requires |matched| <= |flips| && MatchLegs(legs, flips[..|matched|]) == Some(matched)
    requires PairFlips(g, flips[..|matched|], matched, first, partial, origin, date) == Err(Internal)
    ensures var all := MatchLegs(legs, flips);
      all.Some? ==> PairFlips(g, flips, all.value, first, partial, origin, date) == Err(Internal)
  {
    var all := MatchLegs(legs, flips);
    if all.Some? {
      MatchPrefixOf(legs, flips, |matched|);
      PairFails(g, flips, all.value, |matched|, first, partial, origin, date);
    }
  }

  /** Match every flip, then insert the derived edges. */
  function MatchAndPair(g: Graph, legs: seq<PostingLine>, flips: seq<Flip>, first: nat, partial: nat, origin: string,
                        date: int): Result<Graph, ReconcileError>
  {
    var matched := MatchLegs(legs, flips);
    if matched.None? then Err(Internal) else PairFlips(g, flips, matched.value, first, partial, origin, date)
  }

  /** The first |matched| flips are matched and paired, which has turned `g` into `now`. */
  ghost predicate PairedUpTo(g: Graph, now: Graph, legs: seq<PostingLine>, flips: seq<Flip>, matched: seq<nat>,
                             first: nat, partial: nat, origin: string, date: int)
  {
    && |matched| <= |flips|
    && MatchLegs(legs, flips[..|matched|]) == Some(matched)
    && PairFlips(g, flips[..|matched|], matched, first, partial, origin, date) == Ok(now)
  }

  lemma {:induction false} NoLegFails(g: Graph, legs: seq<PostingLine>, flips: seq<Flip>, matched: seq<nat>,
                                      first: nat, partial: nat, origin: string, date: int)
    requires |matched| < |flips| && MatchLegs(legs, flips[..|matched|]) == Some(matched)
    requires FindLeg(legs, Used(matched), flips[|matched|], 0).None?
    ensures MatchAndPair(g, legs, flips, first, partial, origin, date) == Err(Internal)
  {
    MatchNext(legs, flips, |matched|, matched);
    MatchFails(legs, flips, |matched| + 1);
  }

  /** Matching and inserting one flip at a time does what matching them all first does. */
  lemma {:induction false} PairedNext(g: Graph, now: Graph, legs: seq<PostingLine>, flips: seq<Flip>, matched: seq<nat>,
                                      leg: nat, next: Result<Graph, ReconcileError>, first: nat, partial: nat,
                                      origin: string, date: int)
    requires PairedUpTo(g, now, legs, flips, matched, first, partial, origin, date) && |matched| < |flips|
    requires FindLeg(legs, Used(matched), flips[|matched|], 0) == Some(leg)
    requires InsertFlip(now, flips[|matched|], first + leg, partial, origin, date) == next
    ensures next.Ok? ==> PairedUpTo(g, next.value, legs, flips, matched + [leg], first, partial, origin, date)
    ensures next == Err(Internal) ==> MatchAndPair(g, legs, flips, first, partial, origin, date) == Err(Internal)
  {
    var all := matched + [leg];
    MatchedNext(g, now, legs, flips, matched, leg, all, next, first, partial, origin, date);
    if next == Err(Internal) {
      FlipNotPaired(g, legs, flips, all, first, partial, origin, date);
    }
  }

  lemma {:induction false} MatchedNext(g: Graph, now: Graph, legs: seq<PostingLine>, flips: seq<Flip>, matched: seq<nat>,
                                       leg: nat, all: seq<nat>, next: Result<Graph, ReconcileError>, first: nat,
                                       partial: nat, origin: string, date: int)
    requires PairedUpTo(g, now, legs, flips, matched, first, partial, origin, date) && |matched| < |flips|
    requires FindLeg(legs, Used(matched), flips[|matched|], 0) == Some(leg) && all == matched + [leg]
    requires InsertFlip(now, flips[|matched|], first + leg, partial, origin, date) == next
    ensures |all| <= |flips| && MatchLegs(legs, flips[..|all|]) == Some(all)
    ensures PairFlips(g, flips[..|all|], all, first, partial, origin, date) == next
  {
    assert |all| == |matched| + 1;
    MatchNext(legs, flips, |matched|, matched);
    PairNext(g, now, flips, matched, leg, |matched|, first, partial, origin, date);
  }

  // ------------------------------------------------------------------ the service

  /** The edge at a position is new, derived from the root, and takes the amount from a line. */
  predicate Settles(edges: seq<Edge>, i: nat, id: nat, l: nat, amount: int, partial: nat) {
    && i < |edges| && edges[i].id == id && Touches(edges[i], l) && edges[i].amount == amount
    && edges[i].sourceId == Some(PartialRef(partial))
  }

  /** A true-up adds a journal of two lines and the edge that settles it. */
  lemma {:induction false} PostTrueUpAdds(cfg: Config, env: Env, g: Graph, req: PairRequest, d: nat, c: nat,
                                          partial: nat, diff: int, date: int)
    requires d < |g.lines| && c < |g.lines|
    ensures var r := PostTrueUp(cfg, env, g, req, d, c, partial, diff, date);
      r.Ok? ==>
        && |r.value.lines| == |g.lines| + 2 && |r.value.journals| == |g.journals| + 1 && g.lines <= r.value.lines
        && Settles(r.value.edges, |g.edges|, g.nextEdge, if diff > 0 then d else c, Abs(diff), partial)
  {
  }

  lemma {:induction false} PairFlipsAdds(g: Graph, flips: seq<Flip>, matched: seq<nat>, first: nat, partial: nat,
                                         origin: string, date: int)
    requires |matched| == |flips| && PairFlips(g, flips, matched, first, partial, origin, date).Ok?
    ensures PairFlips(g, flips, matched, first, partial, origin, date).value.nextEdge == g.nextEdge + |flips|
  {
    if flips == [] {
    } else {
      var k := |flips| - 1;
      PairFlipsAdds(g, flips[..k], matched[..k], first, partial, origin, date);
    }
  }

  /** A side's flips add two lines and one edge each. */
  lemma {:induction false} FlipSideAdds(cfg: Config, env: Env, g: Graph, req: PairRequest, side: nat, partial: nat,
                                        applied: int, resBefore: int, date: int)
    requires side < |g.lines|
    ensures var r := FlipSide(cfg, env, g, req, side, partial, applied, resBefore, date);
      var flips := SideFlips(cfg, env, g, side, applied, resBefore);
      && (flips == [] ==> r == Ok(g))
      && (flips != [] && date in env.closedDates ==> r == Err(ReconcileError.PeriodClosed))
      && (r.Ok? ==> Grows(g, r.value, partial) && |r.value.lines| == |g.lines| + 2 * |flips|
                    && r.value.nextEdge == g.nextEdge + |flips|)
  {
    var r, flips := FlipSide(cfg, env, g, req, side, partial, applied, resBefore, date),
      SideFlips(cfg, env, g, side, applied, resBefore);
    if r.Ok? {
      FlipSideGrows(cfg, env, g, req, side, partial, applied, resBefore, date);
      if flips != [] {
        var g1 := Commit(g, FlipPosting(g, side, partial, flips, date)).value;
        PairFlipsAdds(g1, flips, MatchLegs(FlipLines(flips), flips).value, |g.lines|, partial, req.origin, date);
      }
    }
  }

  class Tables {
    const cfg: Config
    var lines: seq<Line>
    var edges: seq<Edge>
    var stamps: map<nat, nat>
    var groups: map<nat, int>
    var journals: seq<Journal>
    var ledger: seq<PostingLine>
    var keys: set<Key>
    var nextEdge: nat
    var nextGroup: nat

    constructor (config: Config)
      ensures cfg == config && Contents() == EMPTY && Valid()
    {
      cfg := config;
      lines, edges, stamps, groups, journals, ledger, keys := [], [], map[], map[], [], [], {};
      nextEdge, nextGroup := 0, 0;
      new;
      EmptyIsTidy();
    }

    function Contents(): Graph
      reads this
    {
      Graph(lines, edges, stamps, groups, journals, ledger, keys, nextEdge, nextGroup)
    }

    ghost predicate Valid()
      reads this
    {
      Sound(Contents())
    }

    /** Put the tables back: what a rolled-back transaction leaves. */
    method Restore(g: Graph)
      modifies this
      ensures Contents() == g
    {
      lines, edges, stamps, groups, journals := g.lines, g.edges, g.stamps, g.groups, g.journals;
      ledger, keys, nextEdge, nextGroup := g.ledger, g.keys, g.nextEdge, g.nextGroup;
    }

    method InsertPartialOn(d: nat, c: nat, amount: int, maxDate: int, origin: string, sourceId: Option<Ref>)
      returns (ok: bool)
      modifies this`edges, this`nextEdge
      ensures var r := InsertPartial(old(Contents()), d, c, amount, maxDate, origin, sourceId);
        ok == r.Ok? && Contents() == if ok then r.value else old(Contents())
    {
      if d >= |lines| || c >= |lines| || d == c || amount <= 0 {
        return false;
      }
      edges := edges + [Edge(nextEdge, d, c, amount, maxDate, origin, sourceId, None, None)];
      nextEdge := nextEdge + 1;
      ok := true;
    }

    method CommitPostingOn(w: Posting) returns (journal: Option<nat>)
      modifies this`lines, this`journals, this`ledger, this`keys
      ensures var r := Commit(old(Contents()), w);
        journal == (if r.Ok? then Some(old(|journals|)) else None)
        && Contents() == if r.Ok? then r.value else old(Contents())
    {
      if w.key in keys || !NonNegative(w.lines) {
        return None;
      }
      var j := |journals|;
      journals := journals
        + [Journal(|lines|, |w.lines|, Some(w.sourceType), Some(w.sourceId), w.reversing, w.currency, Posted)];
      lines := lines + NewLines(w, j, w.lines);
      ledger := ledger + w.lines;
      keys := keys + {w.key};
      journal := Some(j);
    }

    /** Stamp a settled component, with a new group or with the one its lines already carry. */
    method CompleteGroupFor(seeds: set<nat>, exchangeTotal: int) returns (group: Option<nat>)
      modifies this`stamps, this`edges, this`groups, this`nextGroup
      ensures (Contents(), group) == Complete(old(Contents()), seeds, exchangeTotal)
    {
      var comp := Component(edges, seeds);
      if comp == {} || !Settled(Contents(), comp) {
        return None;
      }
      var seen := DistinctStamps(Contents(), comp);
      var k: nat;
      if |seen| == 0 {
        k := nextGroup;
        groups := groups[k := exchangeTotal];
        nextGroup := k + 1;
      } else if |seen| == 1 {
        k := seen[0];
      } else {
        return None;
      }
      stamps := StampLines(stamps, k, comp);
      edges := StampEdges(edges, k, comp);
      group := Some(k);
    }

    /** Reverse-then-reconcile for each of the lines in turn. */
    method PairReversalCounterparts(ids: seq<nat>) returns (ok: bool)
      modifies this`edges, this`nextEdge, this`stamps, this`groups, this`nextGroup
      ensures var r := PairAll(old(Contents()), ids);
        (ok <==> r.Ok?) && (ok ==> Contents() == r.value) && (r.Err? ==> r.error == Internal)
    {
      ghost var before := Contents();
      var i := 0;
      assert ids[..0] == [];
      while i < |ids|
        invariant 0 <= i <= |ids|
        invariant PairAll(before, ids[..i]) == Ok(Contents())
      {
        PairAllNext(before, Contents(), ids, i);
        var done := PairCounterpart(ids[i]);
        if !done {
          PairAllFails(before, ids, i + 1);
          return false;
        }
        i := i + 1;
      }
      assert ids[..i] == ids;
      ok := true;
    }

    /** Skip machinery lines, lines not wholly open, and lines without a wholly open counterpart. */
    method OpenCounterpart(l: nat) returns (k: Option<nat>)
      ensures k.Some? <==> PairsNow(Contents(), l)
      ensures k.Some? ==> l < |lines| && k == Counterpart(Contents(), l) && k.value < |lines|
    {
      if l >= |lines| || lines[l].sourceType == Some(RECONCILIATION) {
        return None;
      }
      if !Unapplied(Contents(), l) {
        return None;
      }
      k := Counterpart(Contents(), l);
      CounterpartSound(Contents(), l);
      if k.Some? && !Unapplied(Contents(), k.value) {
        k := None;
      }
    }

    /** Pair one line with its reversal when both are wholly open. */
    method PairCounterpart(l: nat) returns (ok: bool)
      modifies this`edges, this`nextEdge, this`stamps, this`groups, this`nextGroup
      ensures var r := PairOne(old(Contents()), l);
        (ok <==> r.Ok?) && (ok ==> Contents() == r.value) && (r.Err? ==> r.error == Internal)
    {
      ok := true;
      var counterpart := OpenCounterpart(l);
      if counterpart.Some? {
        var k := counterpart.value;
        var d, c := if lines[l].debit > 0 then l else k, if lines[l].debit > 0 then k else l;
        ok := InsertPartialOn(d, c, Min(lines[d].base, lines[c].base), MaxDate(Contents(), d, c), MANUAL,
                              lines[d].sourceId);
        if ok {
          var group := CompleteGroupFor({d, c}, 0);
        }
      }
    }

    // ---------------------------------------------------------------- exchange true-up

    /** The first line from `first` on that is on the account. */
    method FindLineOn(account: nat, first: nat) returns (line: Option<nat>)
      requires first <= |lines|
      ensures line == LineOn(lines, account, first, |lines|)
    {
      var at := first;
      while at < |lines| && lines[at].account != account
        invariant first <= at <= |lines|
        invariant LineOn(lines, account, first, |lines|) == LineOn(lines, account, at, |lines|)
      {
        at := at + 1;
      }
      line := if at < |lines| then Some(at) else None;
    }

    /** The exchange journal, and its mark on the root edge. */
    method CommitExchangeOn(fx: nat, d: nat, partial: nat, diff: int, date: int) returns (ok: bool)
      requires d < |lines|
      modifies this
      ensures var r := PostExchange(old(Contents()), fx, d, partial, diff, date);
        ok == r.Ok? && Contents() == if ok then r.value else old(Contents())
    {
      var journal := CommitPostingOn(ExchangePosting(Contents(), fx, d, partial, diff, date));
      if journal.None? {
        return false;
      }
      edges := SetExchangeMove(edges, partial, journal.value);
      ok := true;
    }

    /** The derived edge between the exchange line and the side that kept the difference. */
    method SettleExchangeOn(req: PairRequest, d: nat, c: nat, exch: nat, partial: nat, diff: int, date: int)
      returns (ok: bool)
      modifies this`edges, this`nextEdge
      ensures var r := SettleExchange(old(Contents()), req, d, c, exch, partial, diff, date);
        ok == r.Ok? && Contents() == if ok then r.value else old(Contents())
    {
      var low, high := if diff > 0 then d else exch, if diff > 0 then exch else c;
      ok := InsertPartialOn(low, high, Abs(diff), date, req.origin, Some(PartialRef(partial)));
    }

    /** Post the exchange journal, record it on the root edge, and settle it against the open side. */
    method PostExchangeMove(env: Env, req: PairRequest, d: nat, c: nat, partial: nat, diff: int, date: int)
      returns (error: Option<ReconcileError>)
      requires d < |lines| && c < |lines|
      modifies this
      ensures var r := PostTrueUp(cfg, env, old(Contents()), req, d, c, partial, diff, date);
        error == ErrorOf(r) && (r.Ok? ==> Contents() == r.value)
      ensures cfg.fx.None? ==> error == Some(ExchangeAccountUnconfigured) && Contents() == old(Contents())
      ensures cfg.fx.Some? && date in env.closedDates ==>
        error == Some(ReconcileError.PeriodClosed) && Contents() == old(Contents())
      ensures error.None? ==> |lines| == old(|lines|) + 2 && |journals| == old(|journals|) + 1 && old(lines) <= lines
      ensures error.None? ==> Settles(edges, old(|edges|), old(nextEdge), if diff > 0 then d else c, Abs(diff), partial)
    {
      PostTrueUpAdds(cfg, env, Contents(), req, d, c, partial, diff, date);
      if cfg.fx.None? {
        return Some(ExchangeAccountUnconfigured);
      }
      if date in env.closedDates {
        return Some(ReconcileError.PeriodClosed);
      }
      var first, account := |lines|, lines[d].account;
      var posted := CommitExchangeOn(cfg.fx.value, d, partial, diff, date);
      if !posted {
        return Some(Internal);
      }
      var exch := FindLineOn(account, first);
      if exch.None? {
        return Some(Internal);
      }
      var ok := SettleExchangeOn(req, d, c, exch.value, partial, diff, date);
      error := if ok then None else Some(Internal);
    }

    /** The exchange branch of a link; `total` is what the group records. */
    method TrueUpOn(env: Env, req: PairRequest, d: nat, c: nat, partial: nat, applied: int)
      returns (error: Option<ReconcileError>, total: int)
      requires d < |lines| && c < |lines|
      modifies this
      ensures var r := TrueUp(cfg, env, old(Contents()), req, d, c, partial, applied);
        error == ErrorOf(r) && (r.Ok? ==> (Contents(), total) == r.value)
      ensures old(lines[d].rate == lines[c].rate) ==> error.None? && total == 0
      ensures error.None? && total == 0 ==> Contents() == old(Contents())
      ensures error.None? && total > 0 ==>
        old(Residual(Contents(), d)) == total && old(Residual(Contents(), c)) == 0
      ensures error.None? && total < 0 ==>
        old(Residual(Contents(), c)) == -total && old(Residual(Contents(), d)) == 0
      ensures error.None? && total != 0 ==> |journals| == old(|journals|) + 1 && nextEdge == old(nextEdge) + 1
    {
      var rd, rc := lines[d].rate, lines[c].rate;
      if rd == rc {
        return None, 0;
      }
      var hi, lo := if rd > rc then rd else rc, if rd > rc then rc else rd;
      if lo == 0 {
        return Some(Internal), 0;
      }
      var predicted := RoundHalfAway(applied * (hi - lo), lo);
      var diff := ExchangeDiff(Residual(Contents(), d), Residual(Contents(), c), predicted);
      if diff.None? {
        return None, 0;
      }
      error := PostExchangeMove(env, req, d, c, partial, diff.value, MaxDate(Contents(), d, c));
      total := diff.value;
    }

    // ---------------------------------------------------------------- cash-basis flips

    /** The flips owed: the cumulative target less what earlier flips retired, when positive. */
    method CollectFlips(ds: seq<Deferral>, cum: int, base: nat) returns (flips: seq<Flip>)
      requires base > 0
      ensures flips == Flips(Contents(), ds, cum, base)
    {
      flips := [];
      var i := 0;
      while i < |ds|
        invariant 0 <= i <= |ds|
        invariant flips == Flips(Contents(), ds[..i], cum, base)
      {
        FlipsNext(Contents(), ds, i, cum, base);
        var d := ds[i];
        var target := RoundHalfAway(d.amount * cum, base);
        var already := d.amount - Anchor(Contents(), d);
        if target - already > 0 {
          flips := flips + [Flip(d, target - already)];
        }
        i := i + 1;
      }
      assert ds[..i] == ds;
    }

    /** The flip journal's legs, a real one and a transition one per flip. */
    method FlipLegs(flips: seq<Flip>) returns (legs: seq<PostingLine>)
      ensures legs == FlipLines(flips)
    {
      legs := [];
      var i := 0;
      while i < |flips|
        invariant 0 <= i <= |flips|
        invariant legs == FlipLines(flips[..i])
      {
        FlipLinesNext(flips, i);
        legs := legs + [RealLeg(flips[i])];
        legs := legs + [TransitionLeg(flips[i])];
        i := i + 1;
      }
      assert flips[..i] == flips;
    }

    /** Match each flip to the first unused leg that fits it, and insert the derived edge. */
    method PairFlipLegs(legs: seq<PostingLine>, flips: seq<Flip>, first: nat, partial: nat, origin: string, date: int)
      returns (error: Option<ReconcileError>)
      modifies this`edges, this`nextEdge
      ensures var r := MatchAndPair(old(Contents()), legs, flips, first, partial, origin, date);
        error == ErrorOf(r) && (r.Ok? ==> Contents() == r.value)
    {
      ghost var before := Contents();
      ghost var matched: seq<nat> := [];
      var used: set<nat> := {};
      var i := 0;
      while i < |flips|
        invariant 0 <= i <= |flips| && |matched| == i && used == Used(matched)
        invariant PairedUpTo(before, Contents(), legs, flips, matched, first, partial, origin, date)
      {
        var leg := PairFlipLeg(legs, used, flips, i, first, partial, origin, date, before, matched);
        if leg.None? {
          return Some(Internal);
        }
        UsedPush(matched, leg.value);
        matched := matched + [leg.value];
        used := used + {leg.value};
        i := i + 1;
      }
      assert flips[..i] == flips;
      error := None;
    }

    /** One flip: its leg, and the derived edge to it. */
    method PairFlipLeg(legs: seq<PostingLine>, used: set<nat>, flips: seq<Flip>, i: nat, first: nat, partial: nat,
                       origin: string, date: int, ghost before: Graph, ghost matched: seq<nat>)
      returns (leg: Option<nat>)
      requires PairedUpTo(before, Contents(), legs, flips, matched, first, partial, origin, date)
      requires |matched| == i < |flips| && used == Used(matched)
      modifies this`edges, this`nextEdge
      ensures leg.Some? ==>
        PairedUpTo(before, Contents(), legs, flips, matched + [leg.value], first, partial, origin, date)
      ensures leg.None? ==> MatchAndPair(before, legs, flips, first, partial, origin, date) == Err(Internal)
    {
      var f := flips[i];
      var fit := FirstFit(legs, used, f);
      if fit == |legs| {
        NoLegFails(before, legs, flips, matched, first, partial, origin, date);
        return None;
      }
      PairedNext(before, Contents(), legs, flips, matched, fit,
                 InsertFlip(Contents(), f, first + fit, partial, origin, date), first, partial, origin, date);
      var low, high := if f.d.isDebit then f.d.sourceLine else first + fit,
                       if f.d.isDebit then first + fit else f.d.sourceLine;
      var ok := InsertPartialOn(low, high, f.amount, date, origin, Some(PartialRef(partial)));
      leg := if ok then Some(fit) else None;
    }

    /** The first unused leg that fits, or the number of legs. */
    static method FirstFit(legs: seq<PostingLine>, used: set<nat>, f: Flip) returns (leg: nat)
      ensures var r := FindLeg(legs, used, f, 0);
        leg == if r.Some? then r.value else |legs|
    {
      leg := 0;
      while leg < |legs| && (leg in used || !LegFits(legs[leg], f))
        invariant 0 <= leg <= |legs|
        invariant FindLeg(legs, used, f, 0) == FindLeg(legs, used, f, leg)
      {
        leg := leg + 1;
      }
    }

    /** Post the flips' journal and pair its transition legs. */
    method PostFlipsOn(env: Env, req: PairRequest, side: nat, partial: nat, flips: seq<Flip>, date: int)
      returns (error: Option<ReconcileError>)
      requires side < |lines|
      modifies this
      ensures var r := PostFlips(env, old(Contents()), req, side, partial, flips, date);
        error == ErrorOf(r) && (r.Ok? ==> Contents() == r.value)
    {
      if flips == [] {
        return None;
      }
      if date in env.closedDates {
        return Some(ReconcileError.PeriodClosed);
      }
      var legs := FlipLegs(flips);
      var first := |lines|;
      var journal := CommitPostingOn(
        Posting(RECONCILIATION, PartialRef(partial), false, date, lines[side].currency, Caba(partial, side), legs));
      if journal.None? {
        return Some(Internal);
      }
      error := PairFlipLegs(legs, flips, first, partial, req.origin, date);
    }

    /** The flips a side owes: none off the receivable and payable accounts. */
    method OwedFlips(env: Env, side: nat, applied: int, resBefore: int) returns (flips: seq<Flip>)
      requires side < |lines|
      ensures flips == SideFlips(cfg, env, Contents(), side, applied, resBefore)
    {
      var base := lines[side].base;
      if !PartySubtype(SubtypeOf(cfg, lines[side].account)) || base == 0 {
        return [];
      }
      flips := CollectFlips(DeferralsOf(env, Contents(), side), base - resBefore + applied, base);
    }

    /** One side's cash-basis tax flips. */
    method PostCashBasisMove(env: Env, req: PairRequest, side: nat, partial: nat, applied: int, resBefore: int, date: int)
      returns (error: Option<ReconcileError>)
      requires side < |lines|
      modifies this
      ensures var r := FlipSide(cfg, env, old(Contents()), req, side, partial, applied, resBefore, date);
        error == ErrorOf(r) && (r.Ok? ==> Contents() == r.value)
      ensures error.None? ==> Grows(old(Contents()), Contents(), partial)
      ensures var flips := SideFlips(cfg, env, old(Contents()), side, applied, resBefore);
        && (flips == [] ==> error.None? && Contents() == old(Contents()))
        && (flips != [] && date in env.closedDates ==> error == Some(ReconcileError.PeriodClosed))
        && (error.None? ==> |lines| == old(|lines|) + 2 * |flips| && nextEdge == old(nextEdge) + |flips|)
    {
      FlipSideAdds(cfg, env, Contents(), req, side, partial, applied, resBefore, date);
      var flips := OwedFlips(env, side, applied, resBefore);
      error := PostFlipsOn(env, req, side, partial, flips, date);
    }

    // ---------------------------------------------------------------- link

    /** The root edge with everything it generates. */
    method InsertRoot(env: Env, req: PairRequest, d: nat, c: nat, applied: int)
      returns (error: Option<ReconcileError>, total: int)
      requires d < |lines| && c < |lines|
      modifies this
      ensures var r := LinkEdges(cfg, env, old(Contents()), req, d, c, applied);
        error == ErrorOf(r) && (r.Ok? ==> (Contents(), total) == r.value)
      ensures error.None? ==> Grows(old(Contents()), Contents(), old(nextEdge))
      ensures error.None? ==> RootAt(edges, old(|edges|), old(nextEdge), d, c, applied)
    {
      if LinkEdges(cfg, env, Contents(), req, d, c, applied).Ok? {
        LinkEdgesGrows(cfg, env, Contents(), req, d, c, applied);
      }
      var partial, date := nextEdge, MaxDate(Contents(), d, c);
      var resD, resC := Residual(Contents(), d), Residual(Contents(), c);
      var ok := InsertPartialOn(d, c, applied, date, req.origin, lines[c].sourceId);
      if !ok {
        return Some(Internal), 0;
      }
      error, total := TrueUpOn(env, req, d, c, partial, applied);
      if error.Some? {
        return;
      }
      error := PostCashBasisMove(env, req, d, partial, applied, resD, date);
      if error.Some? {
        return;
      }
      error := PostCashBasisMove(env, req, c, partial, applied, resC, date);
    }

    /** Link two located lines; a refusal leaves the tables as they were. */
    method ReconcilePairOn(env: Env, req: PairRequest) returns (outcome: Result<EdgeOutcome, ReconcileError>)
      requires Valid()
      modifies this
      ensures var r := Link(cfg, env, old(Contents()), req);
        && outcome == (if r.Ok? then Ok(r.value.1) else Err(r.error))
        && Contents() == if r.Ok? then r.value.0 else old(Contents())
      ensures EnvOk(old(Contents()), env) ==> Valid()
    {
      var before := Contents();
      if EnvOk(before, env) && Link(cfg, env, before, req).Ok? {
        LinkKeepsSound(cfg, env, before, req);
      }
      var debit, credit := Resolve(before, req.debit), Resolve(before, req.credit);
      if debit.Err? {
        return Err(debit.error);
      }
      if credit.Err? {
        return Err(credit.error);
      }
      var d, c := debit.value, credit.value;
      var clamped := ValidatePair(cfg, before, d, c, req.amount);
      if clamped.Err? {
        return Err(clamped.error);
      }
      if clamped.value == 0 {
        return Ok(EdgeOutcome(None, 0, None));
      }
      var error, total := InsertRoot(env, req, d, c, clamped.value);
      if error.Some? {
        Restore(before);
        return Err(error.value);
      }
      var group := CompleteGroupFor({d, c}, total);
      var ok := PairReversalCounterparts([d, c]);
      if !ok {
        Restore(before);
        return Err(Internal);
      }
      outcome := Ok(EdgeOutcome(Some(before.nextEdge), clamped.value, group));
    }

    // ---------------------------------------------------------------- unlink

    /** Post the mirror image of a generated journal, once. */
    method ReverseGeneratedJournal(env: Env, j: nat) returns (error: Option<ReconcileError>)
      modifies this`lines, this`journals, this`ledger, this`keys
      ensures var r := ReverseJournal(env, old(Contents()), j);
        && error == ErrorOf(r) && (r.Err? ==> r.error == Internal)
        && Contents() == if r.Ok? then r.value else old(Contents())
    {
      if j >= |journals| {
        return None;
      }
      var posted := JournalLines(Contents(), j);
      if posted == [] {
        return None;
      }
      var journal := CommitPostingOn(
        Posting(RECONCILIATION, JournalRef(j), true, env.today, journals[j].currency, Unlink(j), Swapped(posted)));
      error := if journal.None? then Some(Internal) else None;
    }

    method ReverseJournals(env: Env, js: seq<nat>) returns (error: Option<ReconcileError>)
      modifies this`lines, this`journals, this`ledger, this`keys
      ensures var r := ReverseAll(env, old(Contents()), js);
        error == ErrorOf(r) && (r.Ok? ==> Contents() == r.value)
    {
      ghost var before := Contents();
      var i := 0;
      while i < |js|
        invariant 0 <= i <= |js|
        invariant ReverseAll(env, before, js[..i]) == Ok(Contents())
        invariant (edges, stamps, groups, nextEdge, nextGroup)
               == (before.edges, before.stamps, before.groups, before.nextEdge, before.nextGroup)
      {
        ReverseNext(env, before, Contents(), js, i);
        error := ReverseGeneratedJournal(env, js[i]);
        if error.Some? {
          ReverseFails(env, before, js, i + 1);
          return;
        }
        i := i + 1;
      }
      assert js[..i] == js;
      error := None;
    }

    /** Delete the rows, clear the flags of every line they touched, dissolve the emptied groups. */
    method DeletePartials(closure: seq<Edge>, ghost roots: set<nat>)
      requires IdsAscend(edges) && IsClosure(edges, roots, closure)
      modifies this`edges, this`stamps, this`groups
      ensures Contents() == RemoveEdges(old(Contents()), roots)
    {
      ClosureIds(edges, roots, closure);
      WithoutIsSelect(edges, Ids(closure), roots);
      edges := Without(edges, Ids(closure));
      stamps := stamps - Ends(closure);
      DissolveEmptied(GroupsOn(closure));
    }

    /** Dissolve those of the groups no edge carries any more. */
    method DissolveEmptied(affected: set<nat>)
      modifies this`groups
      ensures groups == old(groups) - (affected - GroupsOn(edges))
    {
      var todo := affected;
      while todo != {}
        invariant todo <= affected
        invariant groups == old(groups) - (affected - todo - GroupsOn(edges))
        decreases |todo|
      {
        var k :| k in todo;
        if k !in GroupsOn(edges) {
          groups := groups - {k};
        }
        todo := todo - {k};
      }
      assert affected - todo - GroupsOn(edges) == affected - GroupsOn(edges);
    }

    /** The unlink core: reverse generated journals, delete the edges, regroup, pair reversals. */
    method UnlinkPartials(env: Env, closure: seq<Edge>, ghost roots: set<nat>) returns (error: Option<ReconcileError>)
      requires IdsAscend(edges) && IsClosure(edges, roots, closure)
      modifies this
      ensures var r := UnlinkClosure(env, old(Contents()), roots);
        error == ErrorOf(r) && (r.Ok? ==> Contents() == r.value)
    {
      ClosureIds(edges, roots, closure);
      error := ReverseJournals(env, GeneratedJournals(Contents(), Ids(closure)));
      if error.Some? {
        return;
      }
      var affected := Ends(closure);
      DeletePartials(closure, roots);
      var group := CompleteGroupFor(affected, 0);
      var ok := PairReversalCounterparts(Ascending(|lines|, affected));
      error := if ok then None else Some(Internal);
    }

    /** Add the rows not yet listed. */
    static method Gather(ghost edges: seq<Edge>, closure: seq<Edge>, more: seq<Edge>) returns (all: seq<Edge>)
      requires IdsAscend(edges)
      requires forall e | e in closure || e in more :: e in edges
      ensures forall e :: e in all <==> e in closure || e in more
    {
      all := closure;
      var seen := Ids(closure);
      var i := 0;
      while i < |more|
        invariant 0 <= i <= |more| && seen == Ids(all)
        invariant forall e :: e in all <==> e in closure || e in more[..i]
      {
        assert more[i] in more && more[..i + 1] == more[..i] + [more[i]];
        SeenIsListed(edges, all, more[i]);
        if more[i].id !in seen {
          IdsPush(all, more[i]);
          all := all + [more[i]];
          seen := seen + {more[i].id};
        }
        i := i + 1;
      }
      assert more[..i] == more;
    }

    /** The rows with everything derived from them. */
    method ClosureOf(roots: seq<Edge>) returns (closure: seq<Edge>)
      requires IdsAscend(edges) && forall e | e in roots :: e in edges
      ensures IsClosure(edges, Ids(roots), closure)
    {
      closure := roots;
      var i := 0;
      while i < |roots|
        invariant 0 <= i <= |roots|
        invariant forall e :: e in closure <==> e in roots || (e in edges && DerivedFrom(e, Ids(roots[..i])))
      {
        closure := Gather(edges, closure, DerivedPartials(edges, roots[i].id));
        IdsPush(roots[..i], roots[i]);
        assert roots[..i + 1] == roots[..i] + [roots[i]];
        i := i + 1;
      }
      assert roots[..i] == roots;
      forall e | e in edges ensures e in roots <==> e.id in Ids(roots) {
        SeenIsListed(edges, roots, e);
      }
    }

    method LoadPartial(id: nat) returns (row: Option<Edge>)
      ensures row.Some? <==> id in Ids(edges)
      ensures row.Some? ==> row.value in edges && row.value.id == id
    {
      var at := 0;
      while at < |edges| && edges[at].id != id
        invariant 0 <= at <= |edges|
        invariant forall i | 0 <= i < at :: edges[i].id != id
      {
        at := at + 1;
      }
      row := if at < |edges| then Some(edges[at]) else None;
    }

    /** Unlink one edge by id. */
    method UnreconcileOn(env: Env, id: nat) returns (error: Option<ReconcileError>)
      requires Valid()
      modifies this
      ensures var r := UnlinkOne(env, old(Contents()), id);
        && error == ErrorOf(r)
        && Contents() == if r.Ok? then r.value else old(Contents())
      ensures Valid()
      ensures error == if id in old(Ids(edges)) then None else Some(LineNotFound)
    {
      UnlinkClosureSucceeds(env, Contents(), {id});
      SoundIds(Contents());
      var root := LoadPartial(id);
      if root.None? {
        return Some(LineNotFound);
      }
      OneId(root.value);
      var closure := ClosureOf([root.value]);
      error := UnlinkPartials(env, closure, {id});
    }

    /** Unlink every edge between two located lines, with what each of them derived. */
    method UnreconcilePairOn(env: Env, debit: LineLocator, credit: LineLocator) returns (error: Option<ReconcileError>)
      requires Valid()
      modifies this
      ensures var r := UnlinkPair(env, old(Contents()), debit, credit);
        && error == ErrorOf(r)
        && Contents() == if r.Ok? then r.value else old(Contents())
      ensures Valid()
    {
      var d, c := Resolve(Contents(), debit), Resolve(Contents(), credit);
      if d.Err? {
        return Some(d.error);
      }
      if c.Err? {
        return Some(c.error);
      }
      var matched := PartialsBetween(edges, d.value, c.value);
      BetweenIds(edges, d.value, c.value);
      if matched == [] {
        return None;
      }
      assert matched[0].id in Ids(matched);
      ghost var roots := Ids(matched);
      UnlinkClosureSucceeds(env, Contents(), roots);
      SoundIds(Contents());
      var closure := ClosureOf(matched);
      error := UnlinkPartials(env, closure, roots);
    }

    // ---------------------------------------------------------------- what the rest of the ledger does

    method PostDocumentOn(doc: Doc)
      requires Valid() && DocOk(doc)
      modifies this`lines, this`journals, this`ledger
      ensures Contents() == PostDocument(old(Contents()), doc) && Valid()
    {
      PostDocumentKeepsSound(Contents(), doc);
      var j := |journals|;
      journals := journals + [Journal(|lines|, |doc.lines|, Some(doc.sourceType), Some(Document(doc.sourceId)),
                                      doc.reversing, doc.currency, Posted)];
      lines := lines + DocLines(doc, j, doc.lines);
      ledger := ledger + Postings(doc.lines);
    }

    method VoidJournalOn(j: nat)
      requires Valid()
      modifies this`journals
      ensures Contents() == VoidJournal(old(Contents()), j) && Valid()
    {
      VoidKeepsSound(Contents(), j);
      if j < |journals| {
        journals := journals[j := journals[j].(status := Voided)];
      }
    }
  }
}
