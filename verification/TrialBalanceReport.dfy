/**
 * Materializing the trial-balance tree: children in account-number order, empty nodes pruned.
 * Each node still carries its own amounts plus its kept children's; an account with activity
 * is never pruned, nor is anything above it; and the kept roots carry the flat totals.
 */
module TrialBalanceReport {
  import opened Wrappers
  import opened TrialBalanceTree
  import opened TrialBalanceBuild

  datatype Tree = Tree(node: Node, sum: Sums, children: seq<Tree>)

  // ------------------------------------------------------------------ order by account number

  /** Lexicographic order of account numbers. */
  predicate AtMost(a: string, b: string) {
    a == "" || (b != "" && (a[0] < b[0] || (a[0] == b[0] && AtMost(a[1..], b[1..]))))
  }

  lemma {:induction false} AtMostTotal(a: string, b: string)
    ensures AtMost(a, b) || AtMost(b, a)
  {
    if a != "" && b != "" && a[0] == b[0] {
      AtMostTotal(a[1..], b[1..]);
    }
  }

  lemma {:induction false} AtMostTransitive(a: string, b: string, c: string)
    requires AtMost(a, b) && AtMost(b, c)
    ensures AtMost(a, c)
  {
    if a != "" && a[0] == b[0] && b[0] == c[0] {
      AtMostTransitive(a[1..], b[1..], c[1..]);
    }
  }

  /** Put a node after those whose number is at most its own: the sort is stable. */
  function Insert(nodes: seq<Node>, n: Node): seq<Node> {
    if nodes == [] || AtMost(nodes[|nodes| - 1].number, n.number) then nodes + [n]
    else Insert(nodes[..|nodes| - 1], n) + [nodes[|nodes| - 1]]
  }

  function Sort(nodes: seq<Node>): seq<Node> {
    if nodes == [] then [] else Insert(Sort(nodes[..|nodes| - 1]), nodes[|nodes| - 1])
  }

  ghost predicate Ordered(nodes: seq<Node>) {
    forall i, j | 0 <= i < j < |nodes| :: AtMost(nodes[i].number, nodes[j].number)
  }

  lemma {:induction false} InsertMembers(nodes: seq<Node>, n: Node)
    ensures multiset(Insert(nodes, n)) == multiset(nodes) + multiset{n}
    ensures forall m | m in Insert(nodes, n) :: m in nodes || m == n
  {
    if nodes == [] {
    } else {
      var k := |nodes| - 1;
      assert nodes == nodes[..k] + [nodes[k]];
      if !AtMost(nodes[k].number, n.number) {
        InsertMembers(nodes[..k], n);
      }
    }
  }

  lemma {:induction false} LastIsBefore(nodes: seq<Node>, n: Node)
    requires nodes != [] && Ordered(nodes) && AtMost(nodes[|nodes| - 1].number, n.number)
    ensures Ordered(nodes + [n])
  {
    var k := |nodes| - 1;
    forall i | 0 <= i < k ensures AtMost(nodes[i].number, n.number) {
      AtMostTransitive(nodes[i].number, nodes[k].number, n.number);
    }
  }

  lemma {:induction false} InsertOrdered(nodes: seq<Node>, n: Node)
    requires Ordered(nodes)
    ensures Ordered(Insert(nodes, n))
  {
    if nodes == [] {
    } else {
      var k := |nodes| - 1;
      var last := nodes[k];
      if AtMost(last.number, n.number) {
        LastIsBefore(nodes, n);
      } else {
        InsertOrdered(nodes[..k], n);
        InsertMembers(nodes[..k], n);
        AtMostTotal(last.number, n.number);
        var before := Insert(nodes[..k], n);
        forall i | 0 <= i < |before| ensures AtMost(before[i].number, last.number) {
          assert before[i] in before;
        }
      }
    }
  }

  /** The sort keeps the accounts and orders them by number. */
  lemma {:induction false} SortOrders(nodes: seq<Node>)
    ensures multiset(Sort(nodes)) == multiset(nodes) && Ordered(Sort(nodes))
  {
    if nodes == [] {
    } else {
      var k := |nodes| - 1;
      SortOrders(nodes[..k]);
      InsertMembers(Sort(nodes[..k]), nodes[k]);
      InsertOrdered(Sort(nodes[..k]), nodes[k]);
      assert nodes == nodes[..k] + [nodes[k]];
    }
  }

  // ------------------------------------------------------------------ building and pruning

  function ChildrenOf(dir: seq<Node>, parent: Option<nat>): seq<Node> {
    if dir == [] then []
    else
      var last := dir[|dir| - 1];
      var init := ChildrenOf(dir[..|dir| - 1], parent);
      if last.parent == parent then init + [last] else init
  }

  lemma {:induction false} ChildrenAre(dir: seq<Node>, parent: Option<nat>)
    ensures forall n :: n in ChildrenOf(dir, parent) <==> n in dir && n.parent == parent
  {
    if dir == [] {
    } else {
      ChildrenAre(dir[..|dir| - 1], parent);
      assert dir == dir[..|dir| - 1] + [dir[|dir| - 1]];
    }
  }

  /** A node's children, in number order. */
  function Kids(dir: seq<Node>, parent: Option<nat>): (r: seq<Node>)
    ensures forall n :: n in r <==> n in dir && n.parent == parent
  {
    var listed := ChildrenOf(dir, parent);
    ChildrenAre(dir, parent);
    SortOrders(listed);
    assert forall n :: n in listed <==> n in multiset(listed);
    assert forall n :: n in Sort(listed) <==> n in multiset(Sort(listed));
    Sort(listed)
  }

  /** Zero amounts and no kept children: such a node collapses away. */
  predicate Keep(t: Tree) {
    t.sum.debit != 0 || t.sum.credit != 0 || t.children != []
  }

  ghost function Build(dir: seq<Node>, rank: map<nat, nat>, sums: map<nat, Sums>, n: Node): Tree
    requires Ranked(dir, rank) && n in dir
    decreases RankOf(rank, n.id), |dir| + 1
  {
    Tree(n, At(sums, n.id), BuildKept(dir, rank, sums, n, Kids(dir, Some(n.id))))
  }

  ghost function RankOf(rank: map<nat, nat>, id: nat): nat {
    if id in rank then rank[id] else 0
  }

  ghost function BuildKept(dir: seq<Node>, rank: map<nat, nat>, sums: map<nat, Sums>, parent: Node, nodes: seq<Node>)
    : seq<Tree>
    requires Ranked(dir, rank) && parent in dir
    requires forall n | n in nodes :: n in dir && n.parent == Some(parent.id)
    decreases RankOf(rank, parent.id), 0, |nodes|
  {
    if nodes == [] then []
    else
      var last := nodes[|nodes| - 1];
      LowerRank(dir, rank, last, parent);
      var t := Build(dir, rank, sums, last);
      var init := BuildKept(dir, rank, sums, parent, nodes[..|nodes| - 1]);
      if Keep(t) then init + [t] else init
  }

  lemma {:induction false} LowerRank(dir: seq<Node>, rank: map<nat, nat>, n: Node, parent: Node)
    requires Ranked(dir, rank) && n in dir && parent in dir && n.parent == Some(parent.id)
    ensures RankOf(rank, n.id) < RankOf(rank, parent.id)
  {
    var i :| 0 <= i < |dir| && dir[i] == n;
    var j :| 0 <= j < |dir| && dir[j] == parent;
  }

  /** The kept roots. */
  ghost function Forest(dir: seq<Node>, rank: map<nat, nat>, sums: map<nat, Sums>, roots: seq<Node>): seq<Tree>
    requires Ranked(dir, rank) && forall n | n in roots :: n in dir
  {
    if roots == [] then []
    else
      var t := Build(dir, rank, sums, roots[|roots| - 1]);
      var init := Forest(dir, rank, sums, roots[..|roots| - 1]);
      if Keep(t) then init + [t] else init
  }

  /** Kept trees: none is empty, each is for one of the nodes, and they are in number order. */
  ghost predicate InOrder(kept: seq<Tree>, nodes: seq<Node>) {
    && (forall i | 0 <= i < |kept| :: Keep(kept[i]) && kept[i].node in nodes)
    && forall i, j | 0 <= i < j < |kept| :: AtMost(kept[i].node.number, kept[j].node.number)
  }

  lemma {:induction false} InOrderPush(kept: seq<Tree>, nodes: seq<Node>, t: Tree)
    requires nodes != [] && Ordered(nodes) && InOrder(kept, nodes[..|nodes| - 1])
    requires Keep(t) ==> t.node == nodes[|nodes| - 1]
    ensures InOrder(if Keep(t) then kept + [t] else kept, nodes)
  {
    forall i | 0 <= i < |kept| ensures kept[i].node in nodes && AtMost(kept[i].node.number, nodes[|nodes| - 1].number) {
      AmongEarlier(nodes, kept[i].node);
    }
    if Keep(t) {
      PushedInOrder(kept, nodes, t);
    }
  }

  lemma {:induction false} PushedInOrder(kept: seq<Tree>, nodes: seq<Node>, t: Tree)
    requires InOrder(kept, nodes) && Keep(t) && t.node in nodes
    requires forall i | 0 <= i < |kept| :: AtMost(kept[i].node.number, t.node.number)
    ensures InOrder(kept + [t], nodes)
  {
  }

  /** A node among all but the last comes no later than the last. */
  lemma {:induction false} AmongEarlier(nodes: seq<Node>, n: Node)
    requires nodes != [] && Ordered(nodes) && n in nodes[..|nodes| - 1]
    ensures n in nodes && AtMost(n.number, nodes[|nodes| - 1].number)
  {
    var k := |nodes| - 1;
    var m :| 0 <= m < k && nodes[..k][m] == n;
    assert nodes[m] == n;
  }

  lemma {:induction false} KeptInOrder(dir: seq<Node>, rank: map<nat, nat>, sums: map<nat, Sums>, parent: Node,
                                    nodes: seq<Node>)
    requires Ranked(dir, rank) && parent in dir && Ordered(nodes)
    requires forall n | n in nodes :: n in dir && n.parent == Some(parent.id)
    ensures InOrder(BuildKept(dir, rank, sums, parent, nodes), nodes)
  {
    if nodes == [] {
    } else {
      var k := |nodes| - 1;
      KeptInOrder(dir, rank, sums, parent, nodes[..k]);
      var t := Build(dir, rank, sums, nodes[k]);
      assert t.node == nodes[k];
      InOrderPush(BuildKept(dir, rank, sums, parent, nodes[..k]), nodes, t);
    }
  }

  /** In the report every node's children are its own, ordered by number, and not empty. */
  lemma {:induction false} ChildrenInOrder(dir: seq<Node>, rank: map<nat, nat>, sums: map<nat, Sums>, n: Node)
    requires Ranked(dir, rank) && n in dir
    ensures InOrder(Build(dir, rank, sums, n).children, Kids(dir, Some(n.id)))
  {
    SortOrders(ChildrenOf(dir, Some(n.id)));
    KeptInOrder(dir, rank, sums, n, Kids(dir, Some(n.id)));
  }

  // ------------------------------------------------------------------ pruning loses no amount

  ghost function TreeTotal(trees: seq<Tree>, side: Side): int {
    if trees == [] then 0 else TreeTotal(trees[..|trees| - 1], side) + Part(trees[|trees| - 1].sum, side)
  }

  function NodeTotal(sums: map<nat, Sums>, nodes: seq<Node>, side: Side): int {
    if nodes == [] then 0
    else NodeTotal(sums, nodes[..|nodes| - 1], side) + Part(At(sums, nodes[|nodes| - 1].id), side)
  }

  lemma {:induction false} TreePush(trees: seq<Tree>, t: Tree, side: Side)
    ensures TreeTotal(trees + [t], side) == TreeTotal(trees, side) + Part(t.sum, side)
  {
    assert (trees + [t])[..|trees|] == trees;
  }

  lemma {:induction false} KeptTotal(dir: seq<Node>, rank: map<nat, nat>, sums: map<nat, Sums>, parent: Node,
                                     nodes: seq<Node>, side: Side)
    requires Ranked(dir, rank) && parent in dir
    requires forall n | n in nodes :: n in dir && n.parent == Some(parent.id)
    ensures TreeTotal(BuildKept(dir, rank, sums, parent, nodes), side) == NodeTotal(sums, nodes, side)
  {
    if nodes == [] {
    } else {
      var k := |nodes| - 1;
      KeptTotal(dir, rank, sums, parent, nodes[..k], side);
      TreePush(BuildKept(dir, rank, sums, parent, nodes[..k]), Build(dir, rank, sums, nodes[k]), side);
    }
  }

  lemma {:induction false} ForestTotal(dir: seq<Node>, rank: map<nat, nat>, sums: map<nat, Sums>, roots: seq<Node>,
                                       side: Side)
    requires Ranked(dir, rank) && forall n | n in roots :: n in dir
    ensures TreeTotal(Forest(dir, rank, sums, roots), side) == NodeTotal(sums, roots, side)
  {
    if roots == [] {
    } else {
      var k := |roots| - 1;
      ForestTotal(dir, rank, sums, roots[..k], side);
      TreePush(Forest(dir, rank, sums, roots[..k]), Build(dir, rank, sums, roots[k]), side);
    }
  }

  lemma {:induction false} InsertTotal(sums: map<nat, Sums>, nodes: seq<Node>, n: Node, side: Side)
    ensures NodeTotal(sums, Insert(nodes, n), side) == NodeTotal(sums, nodes, side) + Part(At(sums, n.id), side)
  {
    var r := Insert(nodes, n);
    if nodes == [] || AtMost(nodes[|nodes| - 1].number, n.number) {
      assert r[..|r| - 1] == nodes;
    } else {
      InsertTotal(sums, nodes[..|nodes| - 1], n, side);
      assert r[..|r| - 1] == Insert(nodes[..|nodes| - 1], n);
    }
  }

  lemma {:induction false} SortTotal(sums: map<nat, Sums>, nodes: seq<Node>, side: Side)
    ensures NodeTotal(sums, Sort(nodes), side) == NodeTotal(sums, nodes, side)
  {
    if nodes == [] {
    } else {
      var k := |nodes| - 1;
      SortTotal(sums, nodes[..k], side);
      InsertTotal(sums, Sort(nodes[..k]), nodes[k], side);
    }
  }

  lemma {:induction false} ChildrenTotal(dir: seq<Node>, lines: seq<DetailLine>, sums: map<nat, Sums>,
                                         parent: Option<nat>, n: nat, side: Side)
    requires n <= |dir| && RolledUp(dir, lines, sums)
    ensures NodeTotal(sums, ChildrenOf(dir[..n], parent), side) == Under(dir, lines, parent, n, side)
  {
    if n == 0 {
    } else {
      ChildrenTotal(dir, lines, sums, parent, n - 1, side);
      assert dir[..n][..n - 1] == dir[..n - 1];
      var init := ChildrenOf(dir[..n - 1], parent);
      assert (init + [dir[n - 1]])[..|init|] == init;
    }
  }

  lemma {:induction false} KidsTotal(dir: seq<Node>, lines: seq<DetailLine>, sums: map<nat, Sums>,
                                     parent: Option<nat>, side: Side)
    requires RolledUp(dir, lines, sums)
    ensures NodeTotal(sums, Kids(dir, parent), side) == Under(dir, lines, parent, |dir|, side)
  {
    ChildrenTotal(dir, lines, sums, parent, |dir|, side);
    assert dir[..|dir|] == dir;
    SortTotal(sums, ChildrenOf(dir, parent), side);
  }

  /** Every node of the pruned tree holds its own amounts plus those of its kept children. */
  lemma {:induction false} NodeBalances(dir: seq<Node>, rank: map<nat, nat>, lines: seq<DetailLine>,
                                        sums: map<nat, Sums>, n: Node, side: Side)
    requires Ranked(dir, rank) && AllListed(dir, lines) && n in dir && RolledUp(dir, lines, sums)
    ensures var t := Build(dir, rank, sums, n);
      Part(t.sum, side) == Own(lines, n.id, side) + TreeTotal(t.children, side)
  {
    var i :| 0 <= i < |dir| && dir[i] == n;
    FindAt(dir, i);
    HoldsOwnAndChildren(dir, rank, lines, n.id, side);
    KeptTotal(dir, rank, sums, n, Kids(dir, Some(n.id)), side);
    KidsTotal(dir, lines, sums, Some(n.id), side);
  }

  /** The kept roots together hold the amounts of the accounts whose chain ends at a root: the flat totals when all do. */
  lemma {:induction false} ForestHoldsTotals(dir: seq<Node>, rank: map<nat, nat>, lines: seq<DetailLine>,
                                             sums: map<nat, Sums>, side: Side)
    requires Ranked(dir, rank) && AllListed(dir, lines) && RolledUp(dir, lines, sums)
    ensures TreeTotal(Forest(dir, rank, sums, Kids(dir, None)), side) == RootedTotal(dir, rank, lines, side)
    ensures (forall i | 0 <= i < |lines| :: EndsAtRoot(dir, rank, lines[i].id)) ==>
      TreeTotal(Forest(dir, rank, sums, Kids(dir, None)), side) == Total(lines, side)
  {
    ForestTotal(dir, rank, sums, Kids(dir, None), side);
    KidsTotal(dir, lines, sums, None, side);
    RootsHoldTotals(dir, rank, lines, side);
    if forall i | 0 <= i < |lines| :: EndsAtRoot(dir, rank, lines[i].id) {
      AllRooted(dir, rank, lines, side);
    }
  }

  // ------------------------------------------------------------------ what is shown

  ghost predicate Contains(t: Tree, s: Tree) {
    t == s || exists i | 0 <= i < |t.children| :: Contains(t.children[i], s)
  }

  lemma {:induction false} ContainsChild(t: Tree, u: Tree, s: Tree)
    requires Contains(t, u) && s in u.children
    ensures Contains(t, s)
  {
    if t == u {
      var i :| 0 <= i < |t.children| && t.children[i] == s;
      assert Contains(t.children[i], s);
    } else {
      var i :| 0 <= i < |t.children| && Contains(t.children[i], u);
      ContainsChild(t.children[i], u, s);
    }
  }

  lemma {:induction false} KeptIsThere(dir: seq<Node>, rank: map<nat, nat>, sums: map<nat, Sums>, parent: Node,
                                       nodes: seq<Node>, n: Node)
    requires Ranked(dir, rank) && parent in dir && n in nodes
    requires forall m | m in nodes :: m in dir && m.parent == Some(parent.id)
    requires Keep(Build(dir, rank, sums, n))
    ensures Build(dir, rank, sums, n) in BuildKept(dir, rank, sums, parent, nodes)
  {
    var k := |nodes| - 1;
    if n in nodes[..k] {
      KeptIsThere(dir, rank, sums, parent, nodes[..k], n);
    } else {
      assert nodes == nodes[..k] + [nodes[k]];
    }
  }

  /** A kept node keeps every node above it, and is found below each of them. */
  lemma {:induction false} KeptUpwards(dir: seq<Node>, rank: map<nat, nat>, sums: map<nat, Sums>, n: Node, m: Node)
    requires Ranked(dir, rank) && n in dir && m in dir && Listed(dir, m.id)
    requires n.id in Chain(dir, rank, m.id) && Keep(Build(dir, rank, sums, m))
    ensures Keep(Build(dir, rank, sums, n)) && Contains(Build(dir, rank, sums, n), Build(dir, rank, sums, m))
    decreases Room(rank, m.id)
  {
    var i :| 0 <= i < |dir| && dir[i] == m;
    FindAt(dir, i);
    if n.id == m.id {
      var j :| 0 <= j < |dir| && dir[j] == n;
      assert i == j;
    } else {
      assert m.parent.Some? && Listed(dir, m.parent.value);
      Climbs(dir, rank, m.id);
      var p := Find(dir, m.parent.value).value;
      KeptIsThere(dir, rank, sums, p, Kids(dir, Some(p.id)), m);
      KeptUpwards(dir, rank, sums, n, p);
      ContainsChild(Build(dir, rank, sums, n), Build(dir, rank, sums, p), Build(dir, rank, sums, m));
    }
  }

  lemma {:induction false} ForestHas(dir: seq<Node>, rank: map<nat, nat>, sums: map<nat, Sums>, roots: seq<Node>,
                                     r: Node)
    requires Ranked(dir, rank) && (forall n | n in roots :: n in dir) && r in roots
    requires Keep(Build(dir, rank, sums, r))
    ensures Build(dir, rank, sums, r) in Forest(dir, rank, sums, roots)
  {
    var k := |roots| - 1;
    if r in roots[..k] {
      ForestHas(dir, rank, sums, roots[..k], r);
    } else {
      assert roots == roots[..k] + [roots[k]];
    }
  }

  lemma {:induction false} NodeListed(dir: seq<Node>, n: Node)
    requires DistinctIds(dir) && n in dir
    ensures Find(dir, n.id) == Some(n)
  {
    var i :| 0 <= i < |dir| && dir[i] == n;
    FindAt(dir, i);
  }

  lemma {:induction false} RootAbove(dir: seq<Node>, rank: map<nat, nat>, id: nat) returns (r: Node)
    requires Ranked(dir, rank) && Listed(dir, id) && EndsAtRoot(dir, rank, id)
    ensures r in dir && r.parent.None? && r.id in Chain(dir, rank, id)
    decreases Room(rank, id)
  {
    var n := Find(dir, id).value;
    if n.parent.None? {
      r := n;
    } else {
      Climbs(dir, rank, id);
      r := RootAbove(dir, rank, n.parent.value);
    }
  }

  /** A chain that passes through an account passes through its parent. */
  lemma {:induction false} ChainPasses(dir: seq<Node>, rank: map<nat, nat>, id: nat, c: Node, n: Node)
    requires Ranked(dir, rank) && Listed(dir, id) && c in dir && n in dir && c.parent == Some(n.id)
    requires c.id in Chain(dir, rank, id)
    ensures n.id in Chain(dir, rank, id)
    ensures EndsAtRoot(dir, rank, n.id) ==> EndsAtRoot(dir, rank, id)
    decreases Room(rank, id)
  {
    NodeListed(dir, c);
    NodeListed(dir, n);
    if id == c.id {
      Climbs(dir, rank, id);
      assert Chain(dir, rank, id) == [id] + Chain(dir, rank, n.id);
      assert Chain(dir, rank, n.id)[0] == n.id;
    } else {
      var parent := Find(dir, id).value.parent;
      assert parent.Some? && Listed(dir, parent.value);
      Climbs(dir, rank, id);
      ChainPasses(dir, rank, parent.value, c, n);
    }
  }

  /** The children of a built tree are the built trees of kept nodes. */
  lemma {:induction false} KeptAreBuilt(dir: seq<Node>, rank: map<nat, nat>, sums: map<nat, Sums>, parent: Node,
                                        nodes: seq<Node>, t: Tree)
    requires Ranked(dir, rank) && parent in dir
    requires forall n | n in nodes :: n in dir && n.parent == Some(parent.id)
    requires t in BuildKept(dir, rank, sums, parent, nodes)
    ensures t.node in nodes && Keep(t) && t == Build(dir, rank, sums, t.node)
  {
    var k := |nodes| - 1;
    if t in BuildKept(dir, rank, sums, parent, nodes[..k]) {
      KeptAreBuilt(dir, rank, sums, parent, nodes[..k], t);
    }
  }

  /** Some account with an amount stands on the node or below it. */
  ghost predicate Active(dir: seq<Node>, rank: map<nat, nat>, sums: map<nat, Sums>, n: Node)
    requires Ranked(dir, rank)
  {
    exists m | m in dir && Listed(dir, m.id) :: n.id in Chain(dir, rank, m.id) && At(sums, m.id) != NOTHING
  }

  lemma {:induction false} KeptIsActive(dir: seq<Node>, rank: map<nat, nat>, sums: map<nat, Sums>, n: Node)
    requires Ranked(dir, rank) && n in dir && Keep(Build(dir, rank, sums, n))
    ensures Active(dir, rank, sums, n)
    decreases RankOf(rank, n.id)
  {
    NodeListed(dir, n);
    var t := Build(dir, rank, sums, n);
    if At(sums, n.id) != NOTHING {
      assert Chain(dir, rank, n.id)[0] == n.id;
    } else {
      var kids := Kids(dir, Some(n.id));
      var u := t.children[0];
      KeptAreBuilt(dir, rank, sums, n, kids, u);
      LowerRank(dir, rank, u.node, n);
      KeptIsActive(dir, rank, sums, u.node);
      var m :| m in dir && Listed(dir, m.id) && u.node.id in Chain(dir, rank, m.id) && At(sums, m.id) != NOTHING;
      ChainPasses(dir, rank, m.id, u.node, n);
    }
  }

  /** A node is kept exactly when an account with an amount stands on it or below it. */
  lemma {:induction false} KeptIff(dir: seq<Node>, rank: map<nat, nat>, sums: map<nat, Sums>, n: Node)
    requires Ranked(dir, rank) && n in dir
    ensures Keep(Build(dir, rank, sums, n)) <==> Active(dir, rank, sums, n)
  {
    if Keep(Build(dir, rank, sums, n)) {
      KeptIsActive(dir, rank, sums, n);
    }
    if Active(dir, rank, sums, n) {
      var m :| m in dir && Listed(dir, m.id) && n.id in Chain(dir, rank, m.id) && At(sums, m.id) != NOTHING;
      KeptUpwards(dir, rank, sums, n, m);
    }
  }

  /** The node appears somewhere in the report. */
  ghost predicate Shown(dir: seq<Node>, rank: map<nat, nat>, sums: map<nat, Sums>, n: Node)
    requires Ranked(dir, rank) && n in dir
  {
    exists t | t in Forest(dir, rank, sums, Kids(dir, None)) :: Contains(t, Build(dir, rank, sums, n))
  }

  lemma {:induction false} ForestIsBuilt(dir: seq<Node>, rank: map<nat, nat>, sums: map<nat, Sums>, roots: seq<Node>,
                                         t: Tree)
    requires Ranked(dir, rank) && (forall n | n in roots :: n in dir) && t in Forest(dir, rank, sums, roots)
    ensures t.node in roots && Keep(t) && t == Build(dir, rank, sums, t.node)
  {
    var k := |roots| - 1;
    if t in Forest(dir, rank, sums, roots[..k]) {
      ForestIsBuilt(dir, rank, sums, roots[..k], t);
    }
  }

  /** What a kept tree contains is kept, and its chain passes through the tree's node. */
  lemma {:induction false} ContainedIsBelow(dir: seq<Node>, rank: map<nat, nat>, sums: map<nat, Sums>, r: Node, n: Node)
    requires Ranked(dir, rank) && r in dir && n in dir && Listed(dir, n.id) && Listed(dir, r.id)
    requires Keep(Build(dir, rank, sums, r)) && Contains(Build(dir, rank, sums, r), Build(dir, rank, sums, n))
    ensures Keep(Build(dir, rank, sums, n)) && r.id in Chain(dir, rank, n.id)
    ensures EndsAtRoot(dir, rank, r.id) ==> EndsAtRoot(dir, rank, n.id)
    decreases RankOf(rank, r.id)
  {
    var t, s := Build(dir, rank, sums, r), Build(dir, rank, sums, n);
    if t == s {
      assert r == n && Chain(dir, rank, n.id)[0] == n.id;
    } else {
      var i :| 0 <= i < |t.children| && Contains(t.children[i], s);
      var u := t.children[i];
      KeptAreBuilt(dir, rank, sums, r, Kids(dir, Some(r.id)), u);
      LowerRank(dir, rank, u.node, r);
      NodeListed(dir, u.node);
      ContainedIsBelow(dir, rank, sums, u.node, n);
      ChainPasses(dir, rank, n.id, u.node, r);
    }
  }

  /**
   * A node appears in the report exactly when its chain ends at a root and an account with an
   * amount stands on it or below it.
   */
  lemma {:induction false} ShownIff(dir: seq<Node>, rank: map<nat, nat>, sums: map<nat, Sums>, n: Node)
    requires Ranked(dir, rank) && n in dir
    ensures Listed(dir, n.id)
    ensures Shown(dir, rank, sums, n) <==> EndsAtRoot(dir, rank, n.id) && Active(dir, rank, sums, n)
  {
    NodeListed(dir, n);
    KeptIff(dir, rank, sums, n);
    var roots := Kids(dir, None);
    if Shown(dir, rank, sums, n) {
      var t :| t in Forest(dir, rank, sums, roots) && Contains(t, Build(dir, rank, sums, n));
      ForestIsBuilt(dir, rank, sums, roots, t);
      NodeListed(dir, t.node);
      ContainedIsBelow(dir, rank, sums, t.node, n);
    }
    if EndsAtRoot(dir, rank, n.id) && Active(dir, rank, sums, n) {
      var r := RootAbove(dir, rank, n.id);
      KeptUpwards(dir, rank, sums, r, n);
      ForestHas(dir, rank, sums, roots, r);
    }
  }

  /** Every account with an amount whose chain ends at a root appears in the report. */
  lemma {:induction false} ActivityIsShown(dir: seq<Node>, rank: map<nat, nat>, sums: map<nat, Sums>, m: Node)
    requires Ranked(dir, rank) && m in dir && Listed(dir, m.id) && EndsAtRoot(dir, rank, m.id)
    requires At(sums, m.id) != NOTHING
    ensures Shown(dir, rank, sums, m)
  {
    assert Chain(dir, rank, m.id)[0] == m.id;
    ShownIff(dir, rank, sums, m);
  }

  const IDLE := Node(1, None, "1")
  const BUSY := Node(2, None, "2")

  /** A header without activity does not appear, although it is a root and another root is shown. */
  lemma {:induction false} IdleHeaderIsPruned()
    ensures var dir, rank, sums := [IDLE, BUSY], map[1 := 0, 2 := 0], map[2 := Sums(5, 0)];
      && Ranked(dir, rank) && Listed(dir, 1) && EndsAtRoot(dir, rank, 1)
      && IDLE in dir && BUSY in dir
      && !Shown(dir, rank, sums, IDLE) && Shown(dir, rank, sums, BUSY)
  {
    var dir, rank, sums := [IDLE, BUSY], map[1 := 0, 2 := 0], map[2 := Sums(5, 0)];
    assert dir[0] == IDLE && dir[1] == BUSY;
    NodeListed(dir, IDLE);
    NodeListed(dir, BUSY);
    ShownIff(dir, rank, sums, IDLE);
    ActivityIsShown(dir, rank, sums, BUSY);
    forall m | m in dir && Listed(dir, m.id) ensures IDLE.id !in Chain(dir, rank, m.id) || At(sums, m.id) == NOTHING {
      assert m == IDLE || m == BUSY;
    }
  }

  // ------------------------------------------------------------------ by the lines themselves

  predicate NonNegativeLines(lines: seq<DetailLine>) {
    forall i | 0 <= i < |lines| :: lines[i].amount.debit >= 0 && lines[i].amount.credit >= 0
  }

  lemma {:induction false} OccursIff(path: seq<nat>, x: nat)
    ensures Occurs(path, x) > 0 <==> x in path
  {
    if path == [] {
    } else {
      OccursIff(path[1..], x);
    }
  }

  /** A line with an amount whose walk reaches the account. */
  ghost predicate Reached(dir: seq<Node>, lines: seq<DetailLine>, x: nat) {
    exists i | 0 <= i < |lines| && lines[i].amount != NOTHING :: x in Reach(dir, lines[i].id)
  }

  lemma {:induction false} ReachedPush(dir: seq<Node>, lines: seq<DetailLine>, x: nat)
    requires lines != []
    ensures var l := lines[|lines| - 1];
      Reached(dir, lines, x) <==> Reached(dir, lines[..|lines| - 1], x) || (l.amount != NOTHING && x in Reach(dir, l.id))
  {
    var k := |lines| - 1;
    if Reached(dir, lines[..k], x) {
      var i :| 0 <= i < k && lines[..k][i].amount != NOTHING && x in Reach(dir, lines[..k][i].id);
      assert lines[i].amount != NOTHING && x in Reach(dir, lines[i].id);
    }
    if Reached(dir, lines, x) {
      var i :| 0 <= i < |lines| && lines[i].amount != NOTHING && x in Reach(dir, lines[i].id);
      if i < k {
        assert lines[..k][i] == lines[i];
      }
    }
  }

  lemma {:induction false} TimesSign(amount: int, times: nat)
    requires amount >= 0
    ensures amount * times >= 0 && (amount * times > 0 <==> amount > 0 && times > 0)
  {
  }

  /** Amounts never cancel, so an account has one exactly when a line with an amount reaches it. */
  lemma {:induction false} WeightedIffReached(dir: seq<Node>, lines: seq<DetailLine>, x: nat)
    requires NonNegativeLines(lines)
    ensures Weighted(dir, lines, x, Debit) >= 0 && Weighted(dir, lines, x, Credit) >= 0
    ensures Weighted(dir, lines, x, Debit) > 0 || Weighted(dir, lines, x, Credit) > 0 <==> Reached(dir, lines, x)
  {
    if lines == [] {
    } else {
      var l := lines[|lines| - 1];
      WeightedIffReached(dir, lines[..|lines| - 1], x);
      ReachedPush(dir, lines, x);
      OccursIff(Reach(dir, l.id), x);
      TimesSign(l.amount.debit, Occurs(Reach(dir, l.id), x));
      TimesSign(l.amount.credit, Occurs(Reach(dir, l.id), x));
    }
  }

  /** A detail line with an amount is on the node or below it. */
  ghost predicate Moved(dir: seq<Node>, rank: map<nat, nat>, lines: seq<DetailLine>, n: Node)
    requires Ranked(dir, rank) && AllListed(dir, lines)
  {
    exists i | 0 <= i < |lines| && lines[i].amount != NOTHING :: n.id in Chain(dir, rank, lines[i].id)
  }

  lemma {:induction false} ChainOfChain(dir: seq<Node>, rank: map<nat, nat>, id: nat, m: nat, n: nat)
    requires Ranked(dir, rank) && Listed(dir, id) && Listed(dir, m)
    requires m in Chain(dir, rank, id) && n in Chain(dir, rank, m)
    ensures n in Chain(dir, rank, id)
    decreases Room(rank, id)
  {
    if id != m {
      var parent := Find(dir, id).value.parent;
      assert parent.Some? && Listed(dir, parent.value);
      Climbs(dir, rank, id);
      ChainOfChain(dir, rank, parent.value, m, n);
    }
  }

  lemma {:induction false} AmountIff(dir: seq<Node>, rank: map<nat, nat>, lines: seq<DetailLine>, sums: map<nat, Sums>,
                                     m: Node)
    requires Ranked(dir, rank) && AllListed(dir, lines) && RolledUp(dir, lines, sums) && NonNegativeLines(lines)
    ensures At(sums, m.id) != NOTHING <==> Moved(dir, rank, lines, m)
  {
    WeightedIffReached(dir, lines, m.id);
    assert Part(At(sums, m.id), Debit) == Weighted(dir, lines, m.id, Debit);
    assert Part(At(sums, m.id), Credit) == Weighted(dir, lines, m.id, Credit);
    forall i | 0 <= i < |lines| ensures Reach(dir, lines[i].id) == Chain(dir, rank, lines[i].id) {
      ReachIsChain(dir, rank, lines[i].id);
    }
  }

  /** What moves a node moves every account it stands under. */
  lemma {:induction false} MovedAbove(dir: seq<Node>, rank: map<nat, nat>, lines: seq<DetailLine>, m: Node, n: Node)
    requires Ranked(dir, rank) && AllListed(dir, lines) && Moved(dir, rank, lines, m)
    requires Listed(dir, m.id) && n.id in Chain(dir, rank, m.id)
    ensures Moved(dir, rank, lines, n)
  {
    var i :| 0 <= i < |lines| && lines[i].amount != NOTHING && m.id in Chain(dir, rank, lines[i].id);
    ChainOfChain(dir, rank, lines[i].id, m.id, n.id);
  }

  lemma {:induction false} ActiveIffMoved(dir: seq<Node>, rank: map<nat, nat>, lines: seq<DetailLine>,
                                          sums: map<nat, Sums>, n: Node)
    requires Ranked(dir, rank) && n in dir
    requires AllListed(dir, lines) && RolledUp(dir, lines, sums) && NonNegativeLines(lines)
    ensures Active(dir, rank, sums, n) <==> Moved(dir, rank, lines, n)
  {
    NodeListed(dir, n);
    if Active(dir, rank, sums, n) {
      var m :| m in dir && Listed(dir, m.id) && n.id in Chain(dir, rank, m.id) && At(sums, m.id) != NOTHING;
      AmountIff(dir, rank, lines, sums, m);
      MovedAbove(dir, rank, lines, m, n);
    }
    if Moved(dir, rank, lines, n) {
      AmountIff(dir, rank, lines, sums, n);
      assert Chain(dir, rank, n.id)[0] == n.id;
    }
  }

  /** After the roll-up a node is kept exactly when a detail line with an amount is on it or below it. */
  lemma {:induction false} KeptIffMoved(dir: seq<Node>, rank: map<nat, nat>, lines: seq<DetailLine>,
                                        sums: map<nat, Sums>, n: Node)
    requires Ranked(dir, rank) && n in dir
    requires AllListed(dir, lines) && RolledUp(dir, lines, sums) && NonNegativeLines(lines)
    ensures Keep(Build(dir, rank, sums, n)) <==> Moved(dir, rank, lines, n)
  {
    KeptIff(dir, rank, sums, n);
    ActiveIffMoved(dir, rank, lines, sums, n);
  }

  /** And it is in the report exactly when moreover its chain ends at a root. */
  lemma {:induction false} ShownIffMoved(dir: seq<Node>, rank: map<nat, nat>, lines: seq<DetailLine>,
                                         sums: map<nat, Sums>, n: Node)
    requires Ranked(dir, rank) && n in dir
    requires AllListed(dir, lines) && RolledUp(dir, lines, sums) && NonNegativeLines(lines)
    ensures Listed(dir, n.id)
    ensures Shown(dir, rank, sums, n) <==> EndsAtRoot(dir, rank, n.id) && Moved(dir, rank, lines, n)
  {
    ShownIff(dir, rank, sums, n);
    ActiveIffMoved(dir, rank, lines, sums, n);
  }
}
