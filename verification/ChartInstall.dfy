/**
 * Turning a validated dataset into account rows: level, path, parent id and the header flag
 * are derived from a parents-first list in one pass.
 */
module ChartInstall {
  import opened Wrappers
  import opened Text
  import opened ChartDataset

  /** The deterministic row id: the same for the same chart and account code, and for no other. */
  datatype RowId = RowId(chart: string, code: string)

  datatype Row = Row(def: AccountDef, id: RowId, parentId: Option<RowId>, level: nat, path: string,
                     isHeader: bool, isDetail: bool)

  // ------------------------------------------------------------------ the tree behind the list

  predicate SelfParent(a: AccountDef) {
    a.parent == Some(a.code)
  }

  /** The first of the first `n` accounts with a code. */
  function FindCode(accounts: seq<AccountDef>, code: string, n: nat): (r: Option<nat>)
    requires n <= |accounts|
    ensures r.Some? ==> r.value < n && accounts[r.value].code == code
    ensures r.None? ==> forall j | 0 <= j < n :: accounts[j].code != code
  {
    if n == 0 then None
    else
      var earlier := FindCode(accounts, code, n - 1);
      if earlier.Some? then earlier else if accounts[n - 1].code == code then Some(n - 1) else None
  }

  function ParentOf(accounts: seq<AccountDef>, i: nat): (r: Option<nat>)
    requires i < |accounts|
    ensures r.Some? ==> r.value < i && accounts[i].parent == Some(accounts[r.value].code)
  {
    if accounts[i].parent.None? then None else FindCode(accounts, accounts[i].parent.value, i)
  }

  /** The accounts from the root down to account i. */
  function RootPath(accounts: seq<AccountDef>, i: nat): (r: seq<nat>)
    requires i < |accounts|
    ensures |r| > 0 && r[|r| - 1] == i && forall k | 0 <= k < |r| :: r[k] <= i
  {
    var parent := ParentOf(accounts, i);
    if parent.None? then [i] else RootPath(accounts, parent.value) + [i]
  }

  /** A path starts at a root, ends at account i, and each step goes from a parent to its child. */
  ghost predicate IsRootPath(accounts: seq<AccountDef>, path: seq<nat>, i: nat) {
    && path != [] && path[|path| - 1] == i
    && (forall k | 0 <= k < |path| :: path[k] < |accounts|)
    && accounts[path[0]].parent.None?
    && forall k | 0 < k < |path| :: accounts[path[k]].parent == Some(accounts[path[k - 1]].code)
  }

  lemma {:induction false} ParentComesFirst(accounts: seq<AccountDef>, i: nat)
    requires Accepted(accounts) && i < |accounts| && !SelfParent(accounts[i])
    ensures accounts[i].parent.Some? ==> ParentOf(accounts, i).Some?
  {
    assert ParentKnown(accounts, i);
  }

  /** Without self-parents every account has exactly one root path. */
  lemma {:induction false} RootPathIs(accounts: seq<AccountDef>, i: nat)
    requires Accepted(accounts) && i < |accounts|
    requires forall k | 0 <= k < |accounts| :: !SelfParent(accounts[k])
    ensures IsRootPath(accounts, RootPath(accounts, i), i)
    decreases i
  {
    ParentComesFirst(accounts, i);
    if ParentOf(accounts, i).Some? {
      RootPathIs(accounts, ParentOf(accounts, i).value);
    }
  }

  lemma {:induction false} RootPathUnique(accounts: seq<AccountDef>, path: seq<nat>, i: nat)
    requires Accepted(accounts) && IsRootPath(accounts, path, i)
    requires forall k | 0 <= k < |accounts| :: !SelfParent(accounts[k])
    ensures path == RootPath(accounts, i)
    decreases |path|
  {
    var k := |path| - 1;
    if k == 0 {
      assert path == [i];
    } else {
      assert ParentOf(accounts, i) == Some(path[k - 1]) by {
        ParentComesFirst(accounts, i);
      }
      assert path == path[..k] + [i];
      RootPathUnique(accounts, path[..k], path[k - 1]);
    }
  }

  function Numbers(accounts: seq<AccountDef>, path: seq<nat>): (r: seq<string>)
    requires forall k | 0 <= k < |path| :: path[k] < |accounts|
    ensures |r| == |path| && forall k | 0 <= k < |path| :: r[k] == accounts[path[k]].number
  {
    if path == [] then []
    else Numbers(accounts, path[..|path| - 1]) + [accounts[path[|path| - 1]].number]
  }

  predicate HasChildren(accounts: seq<AccountDef>, i: nat)
    requires i < |accounts|
  {
    exists k | 0 <= k < |accounts| :: accounts[k].parent == Some(accounts[i].code)
  }

  /** What the row of account i must say. */
  predicate Describes(chart: string, accounts: seq<AccountDef>, i: nat, row: Row)
    requires i < |accounts|
  {
    var path := RootPath(accounts, i);
    && row.def == accounts[i]
    && row.id == RowId(chart, accounts[i].code)
    && row.parentId == (if accounts[i].parent.Some? then Some(RowId(chart, accounts[i].parent.value)) else None)
    && row.level == |path| - 1
    && row.path == Join(Numbers(accounts, path), "/")
    && row.isHeader == HasChildren(accounts, i)
    && row.isDetail == !row.isHeader
  }

  // ------------------------------------------------------------------ derivation

  function ParentCodes(accounts: seq<AccountDef>): set<string> {
    set i | 0 <= i < |accounts| && accounts[i].parent.Some? :: accounts[i].parent.value
  }

  /** Level and path of account i, as its children will read them. */
  function Facts(accounts: seq<AccountDef>, i: nat): (nat, string)
    requires i < |accounts|
  {
    (|RootPath(accounts, i)| - 1, Join(Numbers(accounts, RootPath(accounts, i)), "/"))
  }

  lemma {:induction false} FactsStep(accounts: seq<AccountDef>, i: nat)
    requires i < |accounts|
    ensures ParentOf(accounts, i).None? ==> Facts(accounts, i) == (0, accounts[i].number)
    ensures ParentOf(accounts, i).Some? ==>
      var above := Facts(accounts, ParentOf(accounts, i).value);
      Facts(accounts, i) == (above.0 + 1, above.1 + "/" + accounts[i].number)
  {
    if ParentOf(accounts, i).Some? {
      var path := RootPath(accounts, ParentOf(accounts, i).value);
      assert (path + [i])[..|path|] == path;
      assert Numbers(accounts, path + [i]) == Numbers(accounts, path) + [accounts[i].number];
      var numbers := Numbers(accounts, path + [i]);
      assert numbers[..|numbers| - 1] == Numbers(accounts, path);
    }
  }

  /** The map of what is derived so far: the first `i` accounts, each under its code. */
  ghost predicate Derived(accounts: seq<AccountDef>, derived: map<string, (nat, string)>, i: nat)
    requires i <= |accounts|
  {
    && (forall x :: x in derived <==> FindCode(accounts, x, i).Some?)
    && forall x | x in derived :: derived[x] == Facts(accounts, FindCode(accounts, x, i).value)
  }

  lemma {:induction false} DerivedStep(accounts: seq<AccountDef>, derived: map<string, (nat, string)>, i: nat,
                                       level: nat, path: string)
    requires i < |accounts| && Distinct(accounts) && Derived(accounts, derived, i)
    requires Facts(accounts, i) == (level, path)
    ensures Derived(accounts, derived[accounts[i].code := (level, path)], i + 1)
  {
    var code := accounts[i].code;
    var after := derived[code := Facts(accounts, i)];
    assert FindCode(accounts, code, i).None?;
    forall x ensures x in after <==> FindCode(accounts, x, i + 1).Some?
      ensures x in after ==> after[x] == Facts(accounts, FindCode(accounts, x, i + 1).value)
    {
      assert FindCode(accounts, x, i + 1) == if FindCode(accounts, x, i).Some? then FindCode(accounts, x, i)
        else if code == x then Some(i) else None;
    }
  }

  /**
   * What one pass computes are the account's facts; the lookup of its parent fails exactly when
   * it is its own parent.
   */
  lemma {:induction false} FactsFound(accounts: seq<AccountDef>, derived: map<string, (nat, string)>, i: nat)
    requires Accepted(accounts) && i < |accounts| && Derived(accounts, derived, i)
    ensures accounts[i].parent.None? ==> !SelfParent(accounts[i]) && Facts(accounts, i) == (0, accounts[i].number)
    ensures accounts[i].parent.Some? ==> (accounts[i].parent.value in derived <==> !SelfParent(accounts[i]))
    ensures accounts[i].parent.Some? && accounts[i].parent.value in derived ==>
      var above := derived[accounts[i].parent.value];
      Facts(accounts, i) == (above.0 + 1, above.1 + "/" + accounts[i].number)
  {
    FactsStep(accounts, i);
    if accounts[i].parent.Some? {
      assert ParentOf(accounts, i) == FindCode(accounts, accounts[i].parent.value, i);
      if !SelfParent(accounts[i]) {
        ParentComesFirst(accounts, i);
      }
    }
  }

  ghost predicate AllDescribed(chart: string, accounts: seq<AccountDef>, rows: seq<Row>) {
    |rows| <= |accounts| && forall j | 0 <= j < |rows| :: Describes(chart, accounts, j, rows[j])
  }

  lemma {:induction false} DescribedStep(chart: string, accounts: seq<AccountDef>, rows: seq<Row>, level: nat,
                                         path: string)
    requires AllDescribed(chart, accounts, rows) && |rows| < |accounts|
    requires Facts(accounts, |rows|) == (level, path)
    ensures var def := accounts[|rows|];
      var parentId := if def.parent.Some? then Some(RowId(chart, def.parent.value)) else None;
      var isHeader := def.code in ParentCodes(accounts);
      AllDescribed(chart, accounts, rows + [Row(def, RowId(chart, def.code), parentId, level, path, isHeader, !isHeader)])
  {
    assert accounts[|rows|].code in ParentCodes(accounts) <==> HasChildren(accounts, |rows|);
  }

  /**
   * The one-pass derivation. A missing parent is the `expect` that fails: on a validated
   * dataset that happens exactly when some account names itself as its parent.
   */
  method DeriveRows(chart: string, accounts: seq<AccountDef>) returns (r: Option<seq<Row>>)
    requires Accepted(accounts)
    ensures r.None? <==> exists i | 0 <= i < |accounts| :: SelfParent(accounts[i])
    ensures r.Some? ==> |r.value| == |accounts| && AllDescribed(chart, accounts, r.value)
  {
    var parents := ParentCodes(accounts);
    var derived: map<string, (nat, string)> := map[];
    var rows: seq<Row> := [];
    var i := 0;
    while i < |accounts|
      invariant 0 <= i <= |accounts| && |rows| == i
      invariant Derived(accounts, derived, i)
      invariant forall j | 0 <= j < i :: !SelfParent(accounts[j])
      invariant AllDescribed(chart, accounts, rows)
    {
      var def := accounts[i];
      var level, path, parentId := 0, def.number, None;
      FactsFound(accounts, derived, i);
      if def.parent.Some? {
        var p := def.parent.value;
        if p !in derived {
          return None;
        }
        level, path := derived[p].0 + 1, derived[p].1 + "/" + def.number;
        parentId := Some(RowId(chart, p));
      }
      var isHeader := def.code in parents;
      DerivedStep(accounts, derived, i, level, path);
      DescribedStep(chart, accounts, rows, level, path);
      derived := derived[def.code := (level, path)];
      rows := rows + [Row(def, RowId(chart, def.code), parentId, level, path, isHeader, !isHeader)];
      i := i + 1;
    }
    r := Some(rows);
  }

  // ------------------------------------------------------------------ what the derived rows are good for

  /** Rows can be inserted in order: a row's parent row comes before it, is a header, and is one level up. */
  lemma {:induction false} ParentRowFirst(chart: string, accounts: seq<AccountDef>, rows: seq<Row>, i: nat)
    requires Accepted(accounts) && |rows| == |accounts| && i < |rows| && AllDescribed(chart, accounts, rows)
    requires !SelfParent(accounts[i])
    ensures rows[i].parentId.Some? ==> exists j | 0 <= j < i ::
      && rows[j].id == rows[i].parentId.value && rows[j].isHeader
      && rows[i].level == rows[j].level + 1 && rows[i].path == rows[j].path + "/" + accounts[i].number
    ensures rows[i].parentId.None? ==> rows[i].level == 0 && rows[i].path == accounts[i].number
  {
    ParentComesFirst(accounts, i);
    FactsStep(accounts, i);
    if accounts[i].parent.Some? {
      var j := ParentOf(accounts, i).value;
      assert Describes(chart, accounts, j, rows[j]) && Describes(chart, accounts, i, rows[i]);
      assert HasChildren(accounts, j);
    }
  }

  /**
   * Validation cannot tell: turn any account of an accepted dataset into its own parent and
   * the dataset is still accepted, so derivation then fails on it.
   */
  lemma {:induction false} SelfParentIsAccepted(accounts: seq<AccountDef>, i: nat)
    requires Accepted(accounts) && i < |accounts|
    ensures var bad := accounts[i := accounts[i].(parent := Some(accounts[i].code))];
      Accepted(bad) && SelfParent(bad[i])
  {
    var bad := accounts[i := accounts[i].(parent := Some(accounts[i].code))];
    forall k | 0 <= k < |bad| ensures RowOk(bad[k]) && ParentKnown(bad, k) {
      assert RowOk(accounts[k]) && ParentKnown(accounts, k);
      if k != i && accounts[k].parent.Some? {
        var j :| 0 <= j <= k && accounts[j].code == accounts[k].parent.value;
        assert bad[j].code == bad[k].parent.value;
      }
    }
    forall s | s in REQUIRED ensures HasSubtype(bad, s) {
      var k :| 0 <= k < |accounts| && accounts[k].subtype == s;
      assert bad[k].subtype == s;
    }
  }
}
