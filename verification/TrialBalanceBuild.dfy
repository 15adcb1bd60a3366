/**
 * On a directory without parent cycles, the sums pushed up the chains are exactly the
 * recursive subtree sums; the built and pruned tree loses no amount; and the roots together
 * carry the flat totals when every chain ends at a listed root.
 */
module TrialBalanceBuild {
  import opened Wrappers
  import opened TrialBalanceTree

  /** No parent cycles, witnessed by heights: a parent stands strictly higher than its child. */
  ghost predicate Ranked(dir: seq<Node>, rank: map<nat, nat>) {
    && DistinctIds(dir)
    && (forall i | 0 <= i < |dir| :: dir[i].id in rank)
    && forall i | 0 <= i < |dir| ::
      dir[i].parent.Some? && dir[i].parent.value in rank ==> rank[dir[i].id] < rank[dir[i].parent.value]
  }

  ghost predicate Listed(dir: seq<Node>, id: nat) {
    Find(dir, id).Some?
  }

  lemma {:induction false} FindAt(dir: seq<Node>, i: nat)
    requires DistinctIds(dir) && i < |dir|
    ensures Find(dir, dir[i].id) == Some(dir[i])
  {
    var last := |dir| - 1;
    if i < last {
      FindAt(dir[..last], i);
    }
  }

  /** A listed account and its listed ancestors, nearest first. */
  ghost function Chain(dir: seq<Node>, rank: map<nat, nat>, id: nat): seq<nat>
    requires Ranked(dir, rank) && Listed(dir, id)
    decreases Room(rank, id)
  {
    var parent := Find(dir, id).value.parent;
    if parent.None? || !Listed(dir, parent.value) then [id]
    else
      Climbs(dir, rank, id);
      [id] + Chain(dir, rank, parent.value)
  }

  /** The accounts standing strictly higher. */
  ghost function Above(rank: map<nat, nat>, id: nat): set<nat> {
    set x | x in rank && id in rank && rank[x] > rank[id]
  }

  ghost function Room(rank: map<nat, nat>, id: nat): nat {
    |Above(rank, id)|
  }

  lemma {:induction false} SmallerSet(a: set<nat>, b: set<nat>)
    requires a < b
    ensures |a| < |b|
  {
    var x :| x in b && x !in a;
    assert a <= b - {x};
    SubsetSize(a, b - {x});
  }

  lemma {:induction false} SubsetSize(a: set<nat>, b: set<nat>)
    requires a <= b
    ensures |a| <= |b|
  {
    assert b == a + (b - a);
  }

  /** A listed parent leaves less room above it. */
  lemma {:induction false} Climbs(dir: seq<Node>, rank: map<nat, nat>, id: nat)
    requires Ranked(dir, rank) && Listed(dir, id)
    requires Find(dir, id).value.parent.Some? && Listed(dir, Find(dir, id).value.parent.value)
    ensures var parent := Find(dir, id).value.parent.value;
      id in rank && parent in rank && rank[id] < rank[parent] && Room(rank, parent) < Room(rank, id)
  {
    var n := Find(dir, id).value;
    var p := Find(dir, n.parent.value).value;
    var i :| 0 <= i < |dir| && dir[i] == n;
    var j :| 0 <= j < |dir| && dir[j] == p;
    assert p.id in Above(rank, id) && p.id !in Above(rank, p.id);
    SmallerSet(Above(rank, p.id), Above(rank, id));
  }

  // ------------------------------------------------------------------ the walk is the chain

  lemma {:induction false} ChainFits(dir: seq<Node>, rank: map<nat, nat>, id: nat)
    requires Ranked(dir, rank) && Listed(dir, id)
    ensures forall k | 0 <= k < |Chain(dir, rank, id)| :: Listed(dir, Chain(dir, rank, id)[k])
    ensures forall k | 0 < k < |Chain(dir, rank, id)| ::
      Chain(dir, rank, id)[k] in rank && id in rank && rank[id] < rank[Chain(dir, rank, id)[k]]
    decreases Room(rank, id)
  {
    var parent := Find(dir, id).value.parent;
    if parent.Some? && Listed(dir, parent.value) {
      Climbs(dir, rank, id);
      ChainFits(dir, rank, parent.value);
      var rest := Chain(dir, rank, parent.value);
      assert Chain(dir, rank, id) == [id] + rest;
      assert rest[0] == parent.value;
    }
  }

  function Ids(dir: seq<Node>): set<nat> {
    if dir == [] then {} else Ids(dir[..|dir| - 1]) + {dir[|dir| - 1].id}
  }

  lemma {:induction false} IdsFound(dir: seq<Node>)
    ensures |Ids(dir)| <= |dir|
    ensures forall id :: id in Ids(dir) <==> Find(dir, id).Some?
  {
    if dir == [] {
    } else {
      IdsFound(dir[..|dir| - 1]);
    }
  }

  /** The chain never repeats an account, so the step budget never cuts it short. */
  lemma {:induction false} ChainShort(dir: seq<Node>, rank: map<nat, nat>, id: nat, free: set<nat>)
    requires Ranked(dir, rank) && Listed(dir, id)
    requires forall k | 0 <= k < |Chain(dir, rank, id)| :: Chain(dir, rank, id)[k] in free
    ensures |Chain(dir, rank, id)| <= |free|
    decreases Room(rank, id)
  {
    var parent := Find(dir, id).value.parent;
    var chain := Chain(dir, rank, id);
    assert chain[0] == id;
    if parent.Some? && Listed(dir, parent.value) {
      Climbs(dir, rank, id);
      ChainFits(dir, rank, id);
      var rest := Chain(dir, rank, parent.value);
      forall k | 0 <= k < |rest| ensures rest[k] in free - {id} {
        assert chain[k + 1] == rest[k];
      }
      ChainShort(dir, rank, parent.value, free - {id});
    } else {
      assert id in free;
    }
  }

  lemma {:induction false} WalkIsChain(dir: seq<Node>, rank: map<nat, nat>, id: nat, steps: nat)
    requires Ranked(dir, rank) && Listed(dir, id) && steps >= |Chain(dir, rank, id)|
    ensures Walk(dir, Some(id), steps) == Chain(dir, rank, id)
    decreases steps
  {
    var parent := Find(dir, id).value.parent;
    if parent.Some? && Listed(dir, parent.value) {
      WalkIsChain(dir, rank, parent.value, steps - 1);
    } else {
      assert Walk(dir, parent, steps - 1) == [];
    }
  }

  /** Without cycles an account's amount reaches exactly its chain. */
  lemma {:induction false} ReachIsChain(dir: seq<Node>, rank: map<nat, nat>, id: nat)
    requires Ranked(dir, rank) && Listed(dir, id)
    ensures Reach(dir, id) == Chain(dir, rank, id)
  {
    var parent := ParentOf(dir, id);
    if parent.Some? && Listed(dir, parent.value) {
      IdsFound(dir);
      ChainFits(dir, rank, parent.value);
      ChainShort(dir, rank, parent.value, Ids(dir));
      WalkIsChain(dir, rank, parent.value, |dir| + 1);
    } else {
      assert Walk(dir, parent, |dir| + 1) == [];
    }
  }

  // ------------------------------------------------------------------ each chain passes through one child

  /** How many of the first `n` accounts under `parent` lie on the path. */
  function Hits(dir: seq<Node>, parent: Option<nat>, path: seq<nat>, n: nat): nat
    requires n <= |dir|
  {
    if n == 0 then 0
    else Hits(dir, parent, path, n - 1) + if dir[n - 1].parent == parent then Occurs(path, dir[n - 1].id) else 0
  }

  lemma {:induction false} HitsFirst(dir: seq<Node>, parent: Option<nat>, path: seq<nat>, n: nat)
    requires n <= |dir| && path != [] && DistinctIds(dir)
    ensures Hits(dir, parent, path, n) == Hits(dir, parent, path[1..], n)
      + if (exists i | 0 <= i < n :: dir[i].id == path[0] && dir[i].parent == parent) then 1 else 0
  {
    if n == 0 {
    } else {
      HitsFirst(dir, parent, path, n - 1);
      var last := dir[n - 1];
      assert Occurs(path, last.id) == (if path[0] == last.id then 1 else 0) + Occurs(path[1..], last.id);
      if last.id == path[0] && last.parent == parent {
        assert forall i | 0 <= i < n - 1 :: dir[i].id != path[0];
      }
    }
  }

  lemma {:induction false} HitsNone(dir: seq<Node>, parent: Option<nat>, n: nat)
    requires n <= |dir|
    ensures Hits(dir, parent, [], n) == 0
  {
    if n == 0 {
    } else {
      HitsNone(dir, parent, n - 1);
    }
  }

  /** One more account on the path adds a hit exactly when it stands under `parent`. */
  lemma {:induction false} HitsStep(dir: seq<Node>, rank: map<nat, nat>, id: nat, rest: seq<nat>, parent: Option<nat>)
    requires Ranked(dir, rank) && Listed(dir, id)
    ensures Hits(dir, parent, [id] + rest, |dir|)
      == Hits(dir, parent, rest, |dir|) + if Find(dir, id).value.parent == parent then 1 else 0
  {
    var path := [id] + rest;
    HitsFirst(dir, parent, path, |dir|);
    assert path[1..] == rest;
    var i :| 0 <= i < |dir| && dir[i] == Find(dir, id).value;
    forall k | 0 <= k < |dir| && dir[k].id == id ensures k == i {
    }
  }

  /** A chain that passes through x below its top passes through exactly one child of x. */
  lemma {:induction false} OneChild(dir: seq<Node>, rank: map<nat, nat>, id: nat, x: nat)
    requires Ranked(dir, rank) && Listed(dir, id) && Listed(dir, x)
    ensures Occurs(Chain(dir, rank, id), x)
      == (if id == x then 1 else 0) + Hits(dir, Some(x), Chain(dir, rank, id), |dir|)
    decreases Room(rank, id)
  {
    var parent := Find(dir, id).value.parent;
    if parent.Some? && Listed(dir, parent.value) {
      Climbs(dir, rank, id);
      OneChild(dir, rank, parent.value, x);
      var rest := Chain(dir, rank, parent.value);
      HitsStep(dir, rank, id, rest, Some(x));
      assert ([id] + rest)[1..] == rest;
    } else {
      HitsStep(dir, rank, id, [], Some(x));
      HitsNone(dir, Some(x), |dir|);
      assert [id] + [] == [id] && [id][1..] == [];
    }
  }

  /** The chain of an account ends at a root, not at a parent that is not listed. */
  ghost predicate EndsAtRoot(dir: seq<Node>, rank: map<nat, nat>, id: nat)
    requires Ranked(dir, rank) && Listed(dir, id)
    decreases Room(rank, id)
  {
    var parent := Find(dir, id).value.parent;
    parent.None? || (Listed(dir, parent.value) && (Climbs(dir, rank, id); EndsAtRoot(dir, rank, parent.value)))
  }

  /** A chain passes through one root when it ends at one, and through none otherwise. */
  lemma {:induction false} RootsOnChain(dir: seq<Node>, rank: map<nat, nat>, id: nat)
    requires Ranked(dir, rank) && Listed(dir, id)
    ensures Hits(dir, None, Chain(dir, rank, id), |dir|) == if EndsAtRoot(dir, rank, id) then 1 else 0
    decreases Room(rank, id)
  {
    var parent := Find(dir, id).value.parent;
    if parent.Some? && Listed(dir, parent.value) {
      Climbs(dir, rank, id);
      RootsOnChain(dir, rank, parent.value);
      HitsStep(dir, rank, id, Chain(dir, rank, parent.value), None);
    } else {
      HitsStep(dir, rank, id, [], None);
      HitsNone(dir, None, |dir|);
      assert [id] + [] == [id];
    }
  }

  // ------------------------------------------------------------------ weighted sums are subtree sums

  /** The weighted sums of the first `n` accounts under `parent`. */
  function Under(dir: seq<Node>, lines: seq<DetailLine>, parent: Option<nat>, n: nat, side: Side): int
    requires n <= |dir|
  {
    if n == 0 then 0
    else
      Under(dir, lines, parent, n - 1, side)
      + if dir[n - 1].parent == parent then Weighted(dir, lines, dir[n - 1].id, side) else 0
  }

  lemma {:induction false} UnderNone(dir: seq<Node>, parent: Option<nat>, n: nat, side: Side)
    requires n <= |dir|
    ensures Under(dir, [], parent, n, side) == 0
  {
    if n == 0 {
    } else {
      UnderNone(dir, parent, n - 1, side);
    }
  }

  lemma {:induction false} UnderPush(dir: seq<Node>, lines: seq<DetailLine>, parent: Option<nat>, n: nat, side: Side)
    requires n <= |dir| && lines != []
    ensures var l := lines[|lines| - 1];
      Under(dir, lines, parent, n, side) == Under(dir, lines[..|lines| - 1], parent, n, side)
        + Part(l.amount, side) * Hits(dir, parent, Reach(dir, l.id), n)
  {
    var l := lines[|lines| - 1];
    if n == 0 {
    } else {
      UnderPush(dir, lines, parent, n - 1, side);
      if dir[n - 1].parent == parent {
        Factor(Part(l.amount, side), Hits(dir, parent, Reach(dir, l.id), n - 1),
               Occurs(Reach(dir, l.id), dir[n - 1].id));
      }
    }
  }

  lemma {:induction false} Factor(w: int, a: int, b: int)
    ensures w * (a + b) == w * a + w * b
  {
  }

  ghost predicate AllListed(dir: seq<Node>, lines: seq<DetailLine>) {
    forall i | 0 <= i < |lines| :: Listed(dir, lines[i].id)
  }

  /** An account holds its own amounts plus what its children hold. */
  lemma {:induction false} HoldsOwnAndChildren(dir: seq<Node>, rank: map<nat, nat>, lines: seq<DetailLine>, x: nat,
                                               side: Side)
    requires Ranked(dir, rank) && AllListed(dir, lines) && Listed(dir, x)
    ensures Weighted(dir, lines, x, side) == Own(lines, x, side) + Under(dir, lines, Some(x), |dir|, side)
  {
    if lines == [] {
      UnderNone(dir, Some(x), |dir|, side);
    } else {
      var l := lines[|lines| - 1];
      HoldsOwnAndChildren(dir, rank, lines[..|lines| - 1], x, side);
      UnderPush(dir, lines, Some(x), |dir|, side);
      ReachIsChain(dir, rank, l.id);
      OneChild(dir, rank, l.id, x);
      Factor(Part(l.amount, side), if l.id == x then 1 else 0, Hits(dir, Some(x), Reach(dir, l.id), |dir|));
    }
  }

  function Total(lines: seq<DetailLine>, side: Side): int {
    if lines == [] then 0 else Total(lines[..|lines| - 1], side) + Part(lines[|lines| - 1].amount, side)
  }

  /** The amounts of the accounts whose chain ends at a root. */
  ghost function RootedTotal(dir: seq<Node>, rank: map<nat, nat>, lines: seq<DetailLine>, side: Side): int
    requires Ranked(dir, rank) && AllListed(dir, lines)
  {
    if lines == [] then 0
    else
      var l := lines[|lines| - 1];
      RootedTotal(dir, rank, lines[..|lines| - 1], side)
      + if EndsAtRoot(dir, rank, l.id) then Part(l.amount, side) else 0
  }

  /** The roots hold the amounts of the accounts whose chain ends at a root, and no others. */
  lemma {:induction false} RootsHoldTotals(dir: seq<Node>, rank: map<nat, nat>, lines: seq<DetailLine>, side: Side)
    requires Ranked(dir, rank) && AllListed(dir, lines)
    ensures Under(dir, lines, None, |dir|, side) == RootedTotal(dir, rank, lines, side)
  {
    if lines == [] {
      UnderNone(dir, None, |dir|, side);
    } else {
      var l := lines[|lines| - 1];
      RootsHoldTotals(dir, rank, lines[..|lines| - 1], side);
      UnderPush(dir, lines, None, |dir|, side);
      assert Hits(dir, None, Reach(dir, l.id), |dir|) == (if EndsAtRoot(dir, rank, l.id) then 1 else 0) by {
        ReachIsChain(dir, rank, l.id);
        RootsOnChain(dir, rank, l.id);
      }
    }
  }

  /** Those are the flat totals when every chain ends at a root. */
  lemma {:induction false} AllRooted(dir: seq<Node>, rank: map<nat, nat>, lines: seq<DetailLine>, side: Side)
    requires Ranked(dir, rank) && AllListed(dir, lines)
    requires forall i | 0 <= i < |lines| :: EndsAtRoot(dir, rank, lines[i].id)
    ensures RootedTotal(dir, rank, lines, side) == Total(lines, side)
  {
    if lines == [] {
    } else {
      AllRooted(dir, rank, lines[..|lines| - 1], side);
    }
  }

  /** The recursive definition the pushed sums are a fast form of. */
  ghost function SubtreeSum(dir: seq<Node>, rank: map<nat, nat>, lines: seq<DetailLine>, x: nat, side: Side): int
    requires Ranked(dir, rank) && x in rank && Listed(dir, x)
    decreases rank[x], |dir| + 1
  {
    Own(lines, x, side) + ChildSums(dir, rank, lines, x, |dir|, side)
  }

  ghost function ChildSums(dir: seq<Node>, rank: map<nat, nat>, lines: seq<DetailLine>, x: nat, n: nat, side: Side): int
    requires Ranked(dir, rank) && x in rank && Listed(dir, x) && n <= |dir|
    decreases rank[x], n
  {
    if n == 0 then 0
    else
      ChildSums(dir, rank, lines, x, n - 1, side)
      + if dir[n - 1].parent == Some(x) then
          FindAt(dir, n - 1);
          SubtreeSum(dir, rank, lines, dir[n - 1].id, side)
        else 0
  }

  /** Pushing sums up the ancestor chains computes the recursive subtree sum of every listed account. */
  lemma {:induction false} PushedIsSubtreeSum(dir: seq<Node>, rank: map<nat, nat>, lines: seq<DetailLine>, x: nat,
                                              side: Side)
    requires Ranked(dir, rank) && AllListed(dir, lines) && x in rank && Listed(dir, x)
    ensures Weighted(dir, lines, x, side) == SubtreeSum(dir, rank, lines, x, side)
    decreases rank[x], |dir| + 1
  {
    HoldsOwnAndChildren(dir, rank, lines, x, side);
    ChildrenArePushed(dir, rank, lines, x, |dir|, side);
  }

  lemma {:induction false} ChildrenArePushed(dir: seq<Node>, rank: map<nat, nat>, lines: seq<DetailLine>, x: nat,
                                             n: nat, side: Side)
    requires Ranked(dir, rank) && AllListed(dir, lines) && x in rank && Listed(dir, x) && n <= |dir|
    ensures Under(dir, lines, Some(x), n, side) == ChildSums(dir, rank, lines, x, n, side)
    decreases rank[x], n
  {
    if n == 0 {
    } else {
      ChildrenArePushed(dir, rank, lines, x, n - 1, side);
      if dir[n - 1].parent == Some(x) {
        FindAt(dir, n - 1);
        PushedIsSubtreeSum(dir, rank, lines, dir[n - 1].id, side);
      }
    }
  }

  // ------------------------------------------------------------------ parent cycles

  /** A way down the tree: from a root, each step to a child. */
  ghost predicate WayDown(dir: seq<Node>, path: seq<Node>) {
    && path != [] && (forall i | 0 <= i < |path| :: path[i] in dir)
    && path[0].parent.None?
    && forall i | 0 < i < |path| :: path[i].parent == Some(path[i - 1].id)
  }

  ghost predicate HasId(nodes: set<Node>, id: nat) {
    exists p | p in nodes :: p.id == id
  }

  /** Accounts each of whose parents is again among them: what a parent cycle leads through. */
  ghost predicate Cyclic(dir: seq<Node>, cycle: set<Node>) {
    forall n | n in cycle :: n in dir && n.parent.Some? && HasId(cycle, n.parent.value)
  }

  lemma {:induction false} SameNode(dir: seq<Node>, p: Node, q: Node)
    requires DistinctIds(dir) && p in dir && q in dir
    ensures p.id == q.id ==> p == q
  {
    var i :| 0 <= i < |dir| && dir[i] == p;
    var j :| 0 <= j < |dir| && dir[j] == q;
  }

  lemma {:induction false} NoSuchId(dir: seq<Node>, cycle: set<Node>, q: Node)
    requires DistinctIds(dir) && Cyclic(dir, cycle) && q in dir && q !in cycle
    ensures !HasId(cycle, q.id)
  {
    forall p | p in cycle ensures p.id != q.id {
      SameNode(dir, p, q);
    }
  }

  /** The tree is built downwards from the roots, so it never visits an account on a parent cycle. */
  lemma {:induction false} CyclesNotReached(dir: seq<Node>, path: seq<Node>, cycle: set<Node>)
    requires DistinctIds(dir) && WayDown(dir, path) && Cyclic(dir, cycle)
    ensures path[|path| - 1] !in cycle
    decreases |path|
  {
    var k := |path| - 1;
    if k == 0 {
    } else {
      CyclesNotReached(dir, path[..k], cycle);
      assert path[..k][k - 1] == path[k - 1] && path[k].parent == Some(path[k - 1].id);
      NoSuchId(dir, cycle, path[k - 1]);
    }
  }
}
