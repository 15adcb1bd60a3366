/**
 * Why the exchange account must not be a reconciled one: a true-up takes the first line of its
 * journal on the pair's account, and when that is the exchange account it takes the wrong line.
 */
module ReconcileFxShared {
  import opened Wrappers
  import opened ReconcileGraph
  import opened ReconcileInvariants
  import opened ReconcileVerbs
  import opened ReconcileGrowth
  import opened ReconcileReversals
  import opened ReconcileLedger
  import opened ReconcileRuns
  import opened ReconcileOutcomes
  import opened ReconcileExact
  import Leftover = ReconcileLeftover

  lemma {:induction false} DriftMoreLines(lines: seq<Line>, more: seq<Line>, edges: seq<Edge>, account: nat)
    requires lines <= more && EdgesInRange(lines, edges)
    ensures Drift(more, edges, account) == Drift(lines, edges, account)
  {
    if edges == [] {
    } else {
      DriftMoreLines(lines, more, edges[..|edges| - 1], account);
    }
  }

  lemma {:induction false} DriftSameFlow(lines: seq<Line>, a: seq<Edge>, b: seq<Edge>, account: nat)
    requires SameFlow(a, b)
    ensures Drift(lines, a, account) == Drift(lines, b, account)
  {
    if a == [] {
    } else {
      DriftSameFlow(lines, a[..|a| - 1], b[..|b| - 1], account);
    }
  }

  /** Open items agree with the books exactly when the edges take nothing out of any account. */
  ghost predicate NoDrift(g: Graph) {
    forall a: nat :: Drift(g.lines, g.edges, a) == 0
  }

  lemma {:induction false} AgreesIffNoDrift(g: Graph)
    requires EdgesInRange(g.lines, g.edges)
    ensures Agrees(g) <==> NoDrift(g)
  {
    if Agrees(g) {
      forall a: nat ensures Drift(g.lines, g.edges, a) == 0 {
        OpenItemsAre(g, a);
        assert OpenItems(g, |g.lines|, a) == Booked(g.lines, a);
      }
    }
    if NoDrift(g) {
      forall a: nat ensures OpenItems(g, |g.lines|, a) == Booked(g.lines, a) {
        OpenItemsAre(g, a);
      }
    }
  }

  /** What one edge takes out of an account. */
  function EdgeDrift(lines: seq<Line>, e: Edge, account: nat): int {
    e.amount * (SignAt(lines, e.debit, account) + SignAt(lines, e.credit, account))
  }

  lemma {:induction false} TwoMoreDrift(g: Graph, g': Graph, account: nat)
    requires EdgesInRange(g.lines, g.edges) && TwoMore(g, g')
    ensures Drift(g'.lines, g'.edges, account) == Drift(g.lines, g.edges, account)
      + EdgeDrift(g'.lines, g'.edges[|g.edges|], account) + EdgeDrift(g'.lines, g'.edges[|g.edges| + 1], account)
  {
    var n := |g.edges|;
    assert g'.edges[..n + 2] == g'.edges && g'.edges[..n + 1][..n] == g'.edges[..n];
    DriftSameFlow(g'.lines, g.edges, g'.edges[..n], account);
    DriftMoreLines(g.lines, g'.lines, g.edges, account);
    assert Drift(g'.lines, g'.edges[..n + 1], account)
      == Drift(g'.lines, g'.edges[..n], account) + EdgeDrift(g'.lines, g'.edges[n], account);
  }

  /** A valid pair's own edge takes nothing out. */
  lemma {:induction false} PairDriftsNothing(lines: seq<Line>, e: Edge, account: nat)
    requires e.debit < |lines| && e.credit < |lines| && lines[e.debit].account == lines[e.credit].account
    requires lines[e.debit].debit > 0 && lines[e.credit].debit == 0
    ensures EdgeDrift(lines, e, account) == 0
  {
  }

  lemma {:induction false} DoubleIsNotZero(amount: int, sign: int)
    requires amount > 0 && sign != 0
    ensures amount * (sign + sign) != 0
  {
  }

  /** The edge that settles a true-up takes nothing out exactly when the exchange account is another one. */
  lemma {:induction false} SettlingDrift(g: Graph, g': Graph, fx: nat, d: nat, c: nat, applied: int, diff: int, a: nat)
    requires d < |g.lines| && c < |g.lines| && diff != 0 && TrueUpAdded(g, g', fx, d, c, applied, diff)
    requires g.lines[d].account == g.lines[c].account && g.lines[d].debit > 0 && g.lines[c].debit == 0
    ensures fx != g.lines[d].account ==> EdgeDrift(g'.lines, g'.edges[|g.edges| + 1], a) == 0
    ensures fx == g.lines[d].account ==> EdgeDrift(g'.lines, g'.edges[|g.edges| + 1], fx) != 0
  {
    var e, x := g'.edges[|g.edges| + 1], ExchangeAt(g, fx, d);
    assert g'.lines[d] == g.lines[d] && g'.lines[c] == g.lines[c];
    if fx == g.lines[d].account {
      assert SignAt(g'.lines, e.debit, fx) == SignAt(g'.lines, e.credit, fx) != 0;
      DoubleIsNotZero(e.amount, SignAt(g'.lines, e.debit, fx));
    } else {
      assert SignAt(g'.lines, e.debit, a) + SignAt(g'.lines, e.credit, a) == 0;
    }
  }

  /** A true-up keeps open items and books in agreement exactly when the exchange account is not the pair's own. */
  lemma {:induction false} TrueUpKeepsAgreementIff(g: Graph, g': Graph, fx: nat, d: nat, c: nat, applied: int, diff: int)
    requires Sound(g) && Sound(g') && Agrees(g) && d < |g.lines| && c < |g.lines| && diff != 0
    requires g.lines[d].account == g.lines[c].account && g.lines[d].debit > 0 && g.lines[c].debit == 0
    requires TrueUpAdded(g, g', fx, d, c, applied, diff)
    ensures Agrees(g') <==> fx != g.lines[d].account
  {
    assert EdgesInRange(g.lines, g.edges) && EdgesInRange(g'.lines, g'.edges) by {
      Clauses(g);
      Clauses(g');
      InRange(g);
      InRange(g');
    }
    AgreesIffNoDrift(g);
    AgreesIffNoDrift(g');
    assert g'.lines[d] == g.lines[d] && g'.lines[c] == g.lines[c];
    forall a: nat ensures Drift(g'.lines, g'.edges, a) == EdgeDrift(g'.lines, g'.edges[|g.edges| + 1], a) {
      TwoMoreDrift(g, g', a);
      PairDriftsNothing(g'.lines, g'.edges[|g.edges|], a);
    }
    if fx == g.lines[d].account {
      SettlingDrift(g, g', fx, d, c, applied, diff, fx);
      assert Drift(g'.lines, g'.edges, fx) != 0;
    }
    forall a: nat | fx != g.lines[d].account ensures Drift(g'.lines, g'.edges, a) == 0 {
      SettlingDrift(g, g', fx, d, c, applied, diff, a);
    }
  }

  // ------------------------------------------------------------------ a run

  const CFG := Config(map[1 := AccountFlags(true, "accounts_receivable")], Some(1))
  const ENV := Env({}, None, 0)

  lemma {:induction false} AsksForAll(g: Graph)
    requires Leftover.Ready(g)
    ensures Asks(CFG, g, Leftover.Ask(), 0, 3, 10000) && TruesUp(g, 0, 3, 10000, 1000)
    ensures DeferralsOf(ENV, g, 0) == [] && DeferralsOf(ENV, g, 3) == [] && EnvOk(g, ENV)
    ensures g.lines[0].account == 1 && g.lines[3].account == 1 && g.lines[0].debit > 0 && g.lines[3].debit == 0
  {
    Leftover.BothFound(g);
    Leftover.PredictedDelta();
  }

  /** With the receivable itself as the exchange account, open items stop agreeing in a reachable state. */
  lemma {:induction false} AgreementFails()
    ensures exists g | Reachable(CFG, g) :: !Agrees(g)
  {
    var g := Leftover.BothPosted(CFG);
    AsksForAll(g);
    var g' := TrueUpReaches(CFG, ENV, g, Leftover.Ask(), 1, 0, 3, 10000, 1000);
    assert Agrees(g) by {
      Clauses(g);
      AlignedAgrees(g);
    }
    TrueUpKeepsAgreementIff(g, g', 1, 0, 3, 10000, 1000);
  }
}
