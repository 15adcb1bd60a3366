/**
 * The trial-balance tree. The service pushes each account's sums up its chain of ancestors,
 * with a step budget against parent cycles, then builds the tree and prunes what is empty.
 * The pushed sums equal the recursive subtree sums, and pruning loses no amount.
 */
module TrialBalanceTree {
  import opened Wrappers

  datatype Node = Node(id: nat, parent: Option<nat>, number: string)

  datatype Sums = Sums(debit: int, credit: int)

  /** Which of the two amounts a statement is about. */
  datatype Side = Debit | Credit

  datatype DetailLine = DetailLine(id: nat, amount: Sums)

  const NOTHING := Sums(0, 0)

  function Part(s: Sums, side: Side): int {
    if side == Debit then s.debit else s.credit
  }

  function Add(s: Sums, t: Sums): Sums {
    Sums(s.debit + t.debit, s.credit + t.credit)
  }

  predicate DistinctIds(dir: seq<Node>) {
    forall i, j | 0 <= i < j < |dir| :: dir[i].id != dir[j].id
  }

  function Find(dir: seq<Node>, id: nat): (r: Option<Node>)
    ensures r.Some? ==> r.value in dir && r.value.id == id
    ensures r.None? ==> forall i | 0 <= i < |dir| :: dir[i].id != id
  {
    if dir == [] then None
    else if dir[|dir| - 1].id == id then Some(dir[|dir| - 1])
    else Find(dir[..|dir| - 1], id)
  }

  function ParentOf(dir: seq<Node>, id: nat): Option<nat> {
    var n := Find(dir, id);
    if n.Some? then n.value.parent else None
  }

  // ------------------------------------------------------------------ the walk and its weight

  /** The ancestors one walk visits: it stops at a root, at a dangling parent, or out of budget. */
  function Walk(dir: seq<Node>, cur: Option<nat>, steps: nat): seq<nat>
    decreases steps
  {
    if cur.None? || steps == 0 || Find(dir, cur.value).None? then []
    else [cur.value] + Walk(dir, Find(dir, cur.value).value.parent, steps - 1)
  }

  function Occurs(path: seq<nat>, x: nat): nat {
    if path == [] then 0 else (if path[0] == x then 1 else 0) + Occurs(path[1..], x)
  }

  /** What one account's amount is added to: the account, then whatever its walk visits. */
  function Reach(dir: seq<Node>, id: nat): seq<nat> {
    [id] + Walk(dir, ParentOf(dir, id), |dir| + 1)
  }

  /** One side of what account x ends up with. */
  function Weighted(dir: seq<Node>, lines: seq<DetailLine>, x: nat, side: Side): int {
    if lines == [] then 0
    else
      var l := lines[|lines| - 1];
      Weighted(dir, lines[..|lines| - 1], x, side) + Part(l.amount, side) * Occurs(Reach(dir, l.id), x)
  }

  function Own(lines: seq<DetailLine>, x: nat, side: Side): int {
    if lines == [] then 0
    else
      var l := lines[|lines| - 1];
      Own(lines[..|lines| - 1], x, side) + if l.id == x then Part(l.amount, side) else 0
  }

  /** What the walks of the accounts in `done` added to x. */
  function Pushed(dir: seq<Node>, lines: seq<DetailLine>, done: set<nat>, x: nat, side: Side): int {
    if lines == [] then 0
    else
      var l := lines[|lines| - 1];
      Pushed(dir, lines[..|lines| - 1], done, x, side)
      + if l.id in done then Part(l.amount, side) * Occurs(Walk(dir, ParentOf(dir, l.id), |dir| + 1), x) else 0
  }

  lemma {:induction false} PushOne(dir: seq<Node>, lines: seq<DetailLine>, done: set<nat>, id: nat, x: nat, side: Side)
    requires id !in done
    ensures Pushed(dir, lines, done + {id}, x, side) == Pushed(dir, lines, done, x, side)
      + Own(lines, id, side) * Occurs(Walk(dir, ParentOf(dir, id), |dir| + 1), x)
  {
    if lines == [] {
    } else {
      var l := lines[|lines| - 1];
      PushOne(dir, lines[..|lines| - 1], done, id, x, side);
      if l.id == id {
        Spread(Own(lines[..|lines| - 1], id, side), Part(l.amount, side),
               Occurs(Walk(dir, ParentOf(dir, id), |dir| + 1), x));
      }
    }
  }

  lemma {:induction false} Spread(a: int, b: int, k: int)
    ensures (a + b) * k == a * k + b * k
  {
  }

  lemma {:induction false} PushNone(dir: seq<Node>, lines: seq<DetailLine>, x: nat, side: Side)
    ensures Pushed(dir, lines, {}, x, side) == 0
  {
    if lines == [] {
    } else {
      PushNone(dir, lines[..|lines| - 1], x, side);
    }
  }

  function Accounts(lines: seq<DetailLine>): set<nat> {
    if lines == [] then {} else Accounts(lines[..|lines| - 1]) + {lines[|lines| - 1].id}
  }

  /** Own amounts and everything pushed make up the weighted sum. */
  lemma {:induction false} PushAll(dir: seq<Node>, lines: seq<DetailLine>, done: set<nat>, x: nat, side: Side)
    requires Accounts(lines) <= done
    ensures Own(lines, x, side) + Pushed(dir, lines, done, x, side) == Weighted(dir, lines, x, side)
  {
    if lines == [] {
    } else {
      var l := lines[|lines| - 1];
      PushAll(dir, lines[..|lines| - 1], done, x, side);
      var path := Walk(dir, ParentOf(dir, l.id), |dir| + 1);
      assert Reach(dir, l.id)[1..] == path;
      OccursFirst(Part(l.amount, side), Reach(dir, l.id), x);
    }
  }

  lemma {:induction false} OccursFirst(weight: int, path: seq<nat>, x: nat)
    requires path != []
    ensures weight * Occurs(path, x) == (if path[0] == x then weight else 0) + weight * Occurs(path[1..], x)
  {
    if path[0] == x {
      Spread(1, Occurs(path[1..], x), weight);
    }
  }

  // ------------------------------------------------------------------ pushing sums up the chains

  function At(sums: map<nat, Sums>, x: nat): Sums {
    if x in sums then sums[x] else NOTHING
  }

  ghost predicate HasOwn(sums: map<nat, Sums>, lines: seq<DetailLine>) {
    forall x, side :: Part(At(sums, x), side) == Own(lines, x, side)
  }

  method DetailSums(lines: seq<DetailLine>) returns (sums: map<nat, Sums>)
    ensures HasOwn(sums, lines) && sums.Keys == Accounts(lines)
  {
    sums := map[];
    var i := 0;
    while i < |lines|
      invariant 0 <= i <= |lines|
      invariant HasOwn(sums, lines[..i]) && sums.Keys == Accounts(lines[..i])
    {
      var l := lines[i];
      assert lines[..i + 1][..i] == lines[..i];
      sums := sums[l.id := Add(At(sums, l.id), l.amount)];
      i := i + 1;
    }
    assert lines[..i] == lines;
  }

  /** Every account holds what it held plus `amount` once per visit still to come. */
  ghost predicate StillToAdd(sums: map<nat, Sums>, amount: Sums, path: seq<nat>, goal: map<nat, Sums>, all: seq<nat>) {
    forall x, side ::
      Part(At(sums, x), side) + Part(amount, side) * Occurs(path, x)
      == Part(At(goal, x), side) + Part(amount, side) * Occurs(all, x)
  }

  lemma {:induction false} AddStep(sums: map<nat, Sums>, amount: Sums, path: seq<nat>, before: map<nat, Sums>,
                                   all: seq<nat>)
    requires path != [] && StillToAdd(sums, amount, path, before, all)
    ensures StillToAdd(sums[path[0] := Add(At(sums, path[0]), amount)], amount, path[1..], before, all)
  {
    var after := sums[path[0] := Add(At(sums, path[0]), amount)];
    forall x, side
      ensures Part(At(after, x), side) + Part(amount, side) * Occurs(path[1..], x)
        == Part(At(before, x), side) + Part(amount, side) * Occurs(all, x)
    {
      OccursFirst(Part(amount, side), path, x);
      assert Part(At(sums, x), side) + Part(amount, side) * Occurs(path, x)
        == Part(At(before, x), side) + Part(amount, side) * Occurs(all, x);
    }
  }

  ghost predicate Added(before: map<nat, Sums>, after: map<nat, Sums>, amount: Sums, path: seq<nat>) {
    forall x, side :: Part(At(after, x), side) == Part(At(before, x), side) + Part(amount, side) * Occurs(path, x)
  }

  /** One account's sums, added to each ancestor its walk visits. */
  method PushUp(dir: seq<Node>, before: map<nat, Sums>, id: nat, amount: Sums) returns (sums: map<nat, Sums>)
    ensures Added(before, sums, amount, Walk(dir, ParentOf(dir, id), |dir| + 1))
  {
    sums := before;
    var cur, steps := ParentOf(dir, id), |dir| + 1;
    ghost var all := Walk(dir, cur, steps);
    while cur.Some?
      invariant steps >= 0
      invariant StillToAdd(sums, amount, Walk(dir, cur, steps), before, all)
      decreases steps, cur.Some?
    {
      if steps == 0 {
        break;
      }
      var node := Find(dir, cur.value);
      if node.None? {
        break;
      }
      ghost var path := Walk(dir, cur, steps);
      AddStep(sums, amount, path, before, all);
      assert path[1..] == Walk(dir, node.value.parent, steps - 1);
      sums := sums[cur.value := Add(At(sums, cur.value), amount)];
      steps := steps - 1;
      cur := node.value.parent;
    }
    assert Walk(dir, cur, steps) == [];
    assert forall x :: Occurs([], x) == 0;
    forall x, side
      ensures Part(At(sums, x), side) == Part(At(before, x), side) + Part(amount, side) * Occurs(all, x)
    {
      assert Part(At(sums, x), side) + Part(amount, side) * Occurs([], x)
        == Part(At(before, x), side) + Part(amount, side) * Occurs(all, x);
    }
  }

  ghost predicate RolledUp(dir: seq<Node>, lines: seq<DetailLine>, sums: map<nat, Sums>) {
    forall x, side :: Part(At(sums, x), side) == Weighted(dir, lines, x, side)
  }

  /** The state after the accounts in `done` were pushed. */
  ghost predicate PartlyUp(dir: seq<Node>, lines: seq<DetailLine>, sums: map<nat, Sums>, done: set<nat>) {
    forall x, side :: Part(At(sums, x), side) == Own(lines, x, side) + Pushed(dir, lines, done, x, side)
  }

  lemma {:induction false} PushStep(dir: seq<Node>, lines: seq<DetailLine>, before: map<nat, Sums>,
                                    after: map<nat, Sums>, details: map<nat, Sums>, done: set<nat>, id: nat)
    requires PartlyUp(dir, lines, before, done) && HasOwn(details, lines) && id !in done
    requires Added(before, after, At(details, id), Walk(dir, ParentOf(dir, id), |dir| + 1))
    ensures PartlyUp(dir, lines, after, done + {id})
  {
    forall x, side ensures
      Part(At(after, x), side) == Own(lines, x, side) + Pushed(dir, lines, done + {id}, x, side)
    {
      PushOne(dir, lines, done, id, x, side);
      assert Part(At(before, x), side) == Own(lines, x, side) + Pushed(dir, lines, done, x, side);
      assert Part(At(details, id), side) == Own(lines, id, side);
    }
  }

  /**
   * Detail sums first; then, in any order, each detail account's sums are pushed up its chain.
   * The order makes no difference, and a cycle only bounds how often an account is visited.
   */
  method RollUp(dir: seq<Node>, lines: seq<DetailLine>) returns (sums: map<nat, Sums>)
    ensures RolledUp(dir, lines, sums)
  {
    var details := DetailSums(lines);
    sums := details;
    var pending := details.Keys;
    ghost var done: set<nat> := {};
    forall x, side ensures Pushed(dir, lines, {}, x, side) == 0 {
      PushNone(dir, lines, x, side);
    }
    while pending != {}
      invariant done + pending == Accounts(lines) && done !! pending && pending <= details.Keys
      invariant PartlyUp(dir, lines, sums, done)
      decreases |pending|
    {
      var id :| id in pending;
      var after := PushUp(dir, sums, id, details[id]);
      PushStep(dir, lines, sums, after, details, done, id);
      sums, done, pending := after, done + {id}, pending - {id};
    }
    forall x, side ensures Part(At(sums, x), side) == Weighted(dir, lines, x, side) {
      PushAll(dir, lines, done, x, side);
    }
  }
}
