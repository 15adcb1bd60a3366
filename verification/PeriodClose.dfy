/**
 * The closing entry: every profit-and-loss balance of the period is turned back to zero and
 * the difference goes to retained earnings. What the entry does to the ledger, when the
 * posting rules refuse it, and how it agrees with the statements.
 */
module PeriodClose {
  import opened Wrappers
  import opened GlPosting
  import opened Statements

  function CloseLine(account: nat, debit: int, credit: int): PostingLine {
    PostingLine(account, debit, credit, None, None)
  }

  /** The balance of a profit-and-loss account on its normal side. */
  function RowBalance(row: AccountSum): int {
    NormalBalance(row.kind, row.debit, row.credit)
  }

  predicate Income(k: Kind) {
    k.Revenue? || k.OtherIncome?
  }

  /** One line per account with a balance: debit an income balance, credit a cost balance. */
  function PlLines(rows: seq<AccountSum>): seq<PostingLine> {
    if rows == [] then []
    else
      var r := rows[|rows| - 1];
      var init := PlLines(rows[..|rows| - 1]);
      var balance := if Income(r.kind) then r.credit - r.debit else r.debit - r.credit;
      if balance == 0 then init
      else if Income(r.kind) then init + [CloseLine(r.account, balance, 0)]
      else init + [CloseLine(r.account, 0, balance)]
  }

  /** Profit is credited to retained earnings, a loss debited. */
  function RetainedLine(retained: nat, netIncome: int): seq<PostingLine> {
    if netIncome > 0 then [CloseLine(retained, 0, netIncome)]
    else if netIncome < 0 then [CloseLine(retained, -netIncome, 0)]
    else []
  }

  function ClosingLines(rows: seq<AccountSum>, retained: nat): seq<PostingLine> {
    if PlLines(rows) == [] then [] else PlLines(rows) + RetainedLine(retained, -PlNet(rows))
  }

  ghost predicate AllPl(rows: seq<AccountSum>) {
    forall i | 0 <= i < |rows| :: ProfitAndLoss(rows[i].kind)
  }

  method PostClosingEntry(rows: seq<AccountSum>, retained: nat) returns (lines: seq<PostingLine>, netIncome: int)
    requires AllPl(rows)
    ensures lines == ClosingLines(rows, retained)
    ensures netIncome == -PlNet(rows)
  {
    lines := [];
    var revenue, expense := 0, 0;
    var i := 0;
    while i < |rows|
      invariant 0 <= i <= |rows|
      invariant lines == PlLines(rows[..i]) && revenue - expense == -PlNet(rows[..i])
    {
      var r := rows[i];
      assert rows[..i + 1][..i] == rows[..i];
      match r.kind {
        case Revenue =>
          var balance := r.credit - r.debit;
          if balance != 0 {
            revenue := revenue + balance;
            lines := lines + [CloseLine(r.account, balance, 0)];
          }
        case OtherIncome =>
          var balance := r.credit - r.debit;
          if balance != 0 {
            revenue := revenue + balance;
            lines := lines + [CloseLine(r.account, balance, 0)];
          }
        case _ =>
          var balance := r.debit - r.credit;
          if balance != 0 {
            expense := expense + balance;
            lines := lines + [CloseLine(r.account, 0, balance)];
          }
      }
      i := i + 1;
    }
    assert rows[..i] == rows;
    netIncome := revenue - expense;
    if |lines| == 0 {
      return;
    }
    if netIncome > 0 {
      lines := lines + [CloseLine(retained, 0, netIncome)];
    } else if netIncome < 0 {
      lines := lines + [CloseLine(retained, -netIncome, 0)];
    }
  }

  // ------------------------------------------------------------------ what the lines are

  /** What the rows hold on one account. */
  function RowNet(rows: seq<AccountSum>, account: nat): int {
    if rows == [] then 0
    else
      var r := rows[|rows| - 1];
      RowNet(rows[..|rows| - 1], account) + if r.account == account then r.debit - r.credit else 0
  }

  lemma {:induction false} PushLine(lines: seq<PostingLine>, l: PostingLine)
    ensures forall a :: Net(lines + [l], a) == Net(lines, a) + NetOf(l, a)
    ensures SumDebit(lines + [l]) == SumDebit(lines) + l.debit
    ensures SumCredit(lines + [l]) == SumCredit(lines) + l.credit
  {
    assert (lines + [l])[..|lines|] == lines;
  }

  /** The lines take every balance back to zero and together are worth the net income. */
  lemma {:induction false} PlLinesUndo(rows: seq<AccountSum>)
    requires AllPl(rows)
    ensures forall a :: Net(PlLines(rows), a) == -RowNet(rows, a)
    ensures SumDebit(PlLines(rows)) - SumCredit(PlLines(rows)) == -PlNet(rows)
  {
    if rows == [] {
    } else {
      var k := |rows| - 1;
      PlLinesUndo(rows[..k]);
      var r := rows[k];
      PushLine(PlLines(rows[..k]), if Income(r.kind) then CloseLine(r.account, r.credit - r.debit, 0)
                                   else CloseLine(r.account, 0, r.debit - r.credit));
    }
  }

  lemma {:induction false} RetainedOne(retained: nat, netIncome: int)
    ensures var l := RetainedLine(retained, netIncome);
      && (netIncome == 0 ==> l == [])
      && (netIncome != 0 ==> |l| == 1)
      && AllClean(l)
      && SumDebit(l) - SumCredit(l) == -netIncome
      && forall a :: Net(l, a) == if a == retained then -netIncome else 0
  {
    if netIncome != 0 {
      PushLine([], RetainedLine(retained, netIncome)[0]);
      assert [] + RetainedLine(retained, netIncome) == RetainedLine(retained, netIncome);
    }
  }

  lemma {:induction false} PlLinesSize(rows: seq<AccountSum>)
    requires AllPl(rows)
    ensures PlLines(rows) == [] ==> PlNet(rows) == 0
    ensures |PlLines(rows)| == 1 ==> PlNet(rows) != 0
  {
    if rows == [] {
    } else {
      PlLinesSize(rows[..|rows| - 1]);
    }
  }

  /** The entry balances, and has no lines or at least two. */
  lemma {:induction false} EntryBalances(rows: seq<AccountSum>, retained: nat)
    requires AllPl(rows)
    ensures Balanced(ClosingLines(rows, retained))
    ensures ClosingLines(rows, retained) == [] || |ClosingLines(rows, retained)| >= 2
    ensures forall a ::
      Net(ClosingLines(rows, retained), a) == -RowNet(rows, a) + (if a == retained then PlNet(rows) else 0)
  {
    PlLinesUndo(rows);
    PlLinesSize(rows);
    RetainedOne(retained, -PlNet(rows));
    Append(PlLines(rows), RetainedLine(retained, -PlNet(rows)));
    if PlLines(rows) == [] {
      assert forall a :: Net(PlLines(rows), a) == 0;
    } else {
      forall a ensures Net(ClosingLines(rows, retained), a)
        == -RowNet(rows, a) + (if a == retained then PlNet(rows) else 0)
      {
        assert Net(ClosingLines(rows, retained), a)
          == Net(PlLines(rows), a) + Net(RetainedLine(retained, -PlNet(rows)), a);
      }
    }
  }

  // ------------------------------------------------------------------ when it is refused

  /** A balance on the wrong side of its account. */
  ghost predicate Abnormal(rows: seq<AccountSum>) {
    exists i | 0 <= i < |rows| :: RowBalance(rows[i]) < 0
  }

  lemma {:induction false} PlLinesClean(rows: seq<AccountSum>)
    requires AllPl(rows)
    ensures AllClean(PlLines(rows)) <==> !Abnormal(rows)
  {
    if rows == [] {
    } else {
      var k := |rows| - 1;
      PlLinesClean(rows[..k]);
      assert Abnormal(rows) <==> Abnormal(rows[..k]) || RowBalance(rows[k]) < 0 by {
        if Abnormal(rows[..k]) {
          var i :| 0 <= i < k && RowBalance(rows[..k][i]) < 0;
          assert RowBalance(rows[i]) < 0;
        }
        if Abnormal(rows) {
          var i :| 0 <= i < |rows| && RowBalance(rows[i]) < 0;
          assert i < k ==> RowBalance(rows[..k][i]) < 0;
        }
      }
      CleanPush(PlLines(rows[..k]), if Income(rows[k].kind) then CloseLine(rows[k].account, RowBalance(rows[k]), 0)
                                    else CloseLine(rows[k].account, 0, RowBalance(rows[k])));
    }
  }

  lemma {:induction false} CleanPush(lines: seq<PostingLine>, l: PostingLine)
    ensures AllClean(lines + [l]) <==> AllClean(lines) && Clean(l)
  {
    var all := lines + [l];
    if AllClean(all) {
      assert Clean(all[|lines|]);
      assert forall i | 0 <= i < |lines| :: Clean(all[i]) && all[i] == lines[i];
    }
  }

  lemma {:induction false} CleanAppend(a: seq<PostingLine>, b: seq<PostingLine>)
    requires AllClean(b)
    ensures AllClean(a + b) <==> AllClean(a)
  {
    if AllClean(a + b) {
      assert forall i | 0 <= i < |a| :: Clean((a + b)[i]) && (a + b)[i] == a[i];
    }
  }

  /**
   * The posting rules never refuse the entry for its size or its balance; they refuse its
   * amounts exactly when some account stands on its wrong side.
   */
  lemma {:induction false} RefusedAmountsIff(rows: seq<AccountSum>, retained: nat,
                                             accounts: map<nat, PostableAccount>, periodClosed: bool)
    requires AllPl(rows) && ClosingLines(rows, retained) != []
    ensures var refusal := Validate(ClosingLines(rows, retained), accounts, periodClosed);
      && (refusal == Some(InvalidLineAmount) <==> Abnormal(rows))
      && refusal != Some(TooFewLines) && refusal != Some(Unbalanced)
  {
    EntryBalances(rows, retained);
    PlLinesClean(rows);
    RetainedOne(retained, -PlNet(rows));
    CleanAppend(PlLines(rows), RetainedLine(retained, -PlNet(rows)));
    AccountErrors(ClosingLines(rows, retained), accounts);
  }

  lemma {:induction false} AccountErrors(lines: seq<PostingLine>, accounts: map<nat, PostableAccount>)
    ensures var e := CheckAccounts(lines, accounts);
      e.None? || e.value.AccountNotFound? || e.value.NonPostableAccount? || e.value.PartyRequired?
      || e.value.PartyNotAllowed?
  {
    if lines == [] {
    } else {
      AccountErrors(lines[..|lines| - 1], accounts);
    }
  }

  // ------------------------------------------------------------------ what it does to the ledger

  type Chart = map<nat, Kind>

  predicate OnPl(chart: Chart, account: nat) {
    account in chart && ProfitAndLoss(chart[account])
  }

  /** The rows are the period's profit-and-loss accounts with activity, each once, with their sums. */
  ghost predicate PlSummary(rows: seq<AccountSum>, ledger: seq<PostingLine>, chart: Chart) {
    && DistinctAccounts(rows)
    && (forall i | 0 <= i < |rows| ::
      && OnPl(chart, rows[i].account) && chart[rows[i].account] == rows[i].kind
      && rows[i].debit - rows[i].credit == Net(ledger, rows[i].account))
    && forall r | 0 <= r < |ledger| && OnPl(chart, ledger[r].account) :: HasAccount(rows, ledger[r].account)
  }

  lemma {:induction false} NoRowNoNet(ledger: seq<PostingLine>, account: nat)
    requires forall r | 0 <= r < |ledger| :: ledger[r].account != account
    ensures Net(ledger, account) == 0
  {
    if ledger == [] {
    } else {
      NoRowNoNet(ledger[..|ledger| - 1], account);
    }
  }

  lemma {:induction false} RowNetAt(rows: seq<AccountSum>, i: nat)
    requires DistinctAccounts(rows) && i < |rows|
    ensures RowNet(rows, rows[i].account) == rows[i].debit - rows[i].credit
  {
    var k := |rows| - 1;
    if i < k {
      RowNetAt(rows[..k], i);
    } else {
      RowNetNone(rows[..k], rows[k].account);
    }
  }

  lemma {:induction false} RowNetNone(rows: seq<AccountSum>, account: nat)
    requires forall i | 0 <= i < |rows| :: rows[i].account != account
    ensures RowNet(rows, account) == 0
  {
    if rows == [] {
    } else {
      RowNetNone(rows[..|rows| - 1], account);
    }
  }

  lemma {:induction false} RowNetIsNet(rows: seq<AccountSum>, ledger: seq<PostingLine>, chart: Chart, account: nat)
    requires PlSummary(rows, ledger, chart)
    ensures OnPl(chart, account) ==> RowNet(rows, account) == Net(ledger, account)
    ensures !OnPl(chart, account) ==> RowNet(rows, account) == 0
  {
    if HasAccount(rows, account) {
      var i :| 0 <= i < |rows| && rows[i].account == account;
      RowNetAt(rows, i);
    } else {
      RowNetNone(rows, account);
      if OnPl(chart, account) {
        forall r | 0 <= r < |ledger| ensures ledger[r].account != account {
        }
        NoRowNoNet(ledger, account);
      }
    }
  }

  /** After the entry each account holds what it held, less the profit and loss that was closed. */
  lemma {:induction false} AfterClose(rows: seq<AccountSum>, ledger: seq<PostingLine>, chart: Chart, retained: nat,
                                      account: nat)
    requires PlSummary(rows, ledger, chart)
    ensures Net(ledger + ClosingLines(rows, retained), account)
      == (if OnPl(chart, account) then 0 else Net(ledger, account))
         + (if account == retained then PlNet(rows) else 0)
  {
    EntryBalances(rows, retained);
    Append(ledger, ClosingLines(rows, retained));
    RowNetIsNet(rows, ledger, chart, account);
  }

  /**
   * The close leaves every profit-and-loss account of the period at zero exactly when
   * retained earnings is not itself one of them, or there is no net income to move.
   */
  lemma {:induction false} CloseZeroesIff(rows: seq<AccountSum>, ledger: seq<PostingLine>, chart: Chart, retained: nat)
    requires PlSummary(rows, ledger, chart)
    ensures (forall a | OnPl(chart, a) :: Net(ledger + ClosingLines(rows, retained), a) == 0)
      <==> !OnPl(chart, retained) || PlNet(rows) == 0
  {
    forall a ensures Net(ledger + ClosingLines(rows, retained), a)
      == (if OnPl(chart, a) then 0 else Net(ledger, a)) + (if a == retained then PlNet(rows) else 0)
    {
      AfterClose(rows, ledger, chart, retained, a);
    }
    if OnPl(chart, retained) && PlNet(rows) != 0 {
      assert Net(ledger + ClosingLines(rows, retained), retained) != 0;
    }
  }

  /** Retained earnings takes exactly the net income as a credit. */
  lemma {:induction false} RetainedTakesNetIncome(rows: seq<AccountSum>, ledger: seq<PostingLine>, chart: Chart,
                                                  retained: nat)
    requires PlSummary(rows, ledger, chart) && !OnPl(chart, retained)
    ensures Net(ledger + ClosingLines(rows, retained), retained) == Net(ledger, retained) - (-PlNet(rows))
  {
    AfterClose(rows, ledger, chart, retained, retained);
  }

  // ------------------------------------------------------------------ the two failures, shown

  const CHART: Chart := map[1 := Revenue, 2 := Asset, 3 := Equity]

  const DETAIL := PostableAccount(true, false, true, "")

  const POSTABLE := map[1 := DETAIL, 2 := DETAIL, 3 := DETAIL]

  /** A sale, or a return of one, against an asset account. */
  function Sale(amount: int): seq<PostingLine> {
    if amount > 0 then [CloseLine(2, amount, 0), CloseLine(1, 0, amount)]
    else [CloseLine(2, 0, -amount), CloseLine(1, -amount, 0)]
  }

  /** What the close reads of a period with that one journal. */
  function SaleRows(amount: int): seq<AccountSum> {
    [AccountSum(1, Revenue, if amount > 0 then 0 else -amount, if amount > 0 then amount else 0)]
  }

  lemma {:induction false} SaleSummary(amount: int)
    requires amount != 0
    ensures PlSummary(SaleRows(amount), Sale(amount), CHART)
    ensures Net(Sale(amount), 1) == -amount && PlNet(SaleRows(amount)) == -amount
    ensures Validate(Sale(amount), POSTABLE, false).None?
  {
    var s, rows := Sale(amount), SaleRows(amount);
    SaleNet(amount);
    SaleAccepted(amount);
    assert HasAccount(rows, 1) by {
      assert rows[0].account == 1;
    }
    assert rows[..0] == [] && PlNet(rows[..0]) == 0;
  }

  lemma {:induction false} SaleNet(amount: int)
    requires amount != 0
    ensures Net(Sale(amount), 1) == -amount && Balanced(Sale(amount))
  {
    var s := Sale(amount);
    assert s == [s[0]] + [s[1]];
    PushLine([s[0]], s[1]);
    PushLine([], s[0]);
    assert [] + [s[0]] == [s[0]];
  }

  lemma {:induction false} SaleAccepted(amount: int)
    requires amount != 0
    ensures Validate(Sale(amount), POSTABLE, false).None?
  {
    var s := Sale(amount);
    SaleNet(amount);
    AccountsAccepted(s, POSTABLE);
    assert forall i | 0 <= i < |s| :: Clean(s[i]);
  }

  /** A period whose only sale is a return cannot be closed, though its journal was accepted. */
  lemma {:induction false} ReturnsAreRefused(amount: int)
    requires amount < 0
    ensures PlSummary(SaleRows(amount), Sale(amount), CHART) && Validate(Sale(amount), POSTABLE, false).None?
    ensures Validate(ClosingLines(SaleRows(amount), 3), POSTABLE, false) == Some(InvalidLineAmount)
  {
    var rows := SaleRows(amount);
    SaleSummary(amount);
    assert PlLines(rows) == PlLines(rows[..0]) + [CloseLine(1, amount, 0)];
    assert Abnormal(rows) by {
      assert RowBalance(rows[0]) < 0;
    }
    RefusedAmountsIff(rows, 3, POSTABLE, false);
  }

  /** With retained earnings set to a revenue account, an accepted close leaves that account as it was. */
  lemma {:induction false} CloseIntoRevenueKeepsIt(amount: int)
    requires amount > 0
    ensures PlSummary(SaleRows(amount), Sale(amount), CHART)
    ensures var entry := ClosingLines(SaleRows(amount), 1);
      Validate(entry, POSTABLE, false).None? && Net(Sale(amount) + entry, 1) == -amount
  {
    var rows := SaleRows(amount);
    SaleSummary(amount);
    AfterClose(rows, Sale(amount), CHART, 1, 1);
    assert PlLines(rows) == PlLines(rows[..0]) + [CloseLine(1, amount, 0)];
    var entry := ClosingLines(rows, 1);
    assert entry == [CloseLine(1, amount, 0), CloseLine(1, 0, amount)];
    EntryBalances(rows, 1);
    AccountsAccepted(entry, POSTABLE);
  }

  // ------------------------------------------------------------------ agreement with the statements

  function PlAccounts(chart: Chart): set<nat> {
    set a | a in chart && ProfitAndLoss(chart[a])
  }

  /** The ledger rows on some of the accounts. */
  function On(ledger: seq<PostingLine>, accounts: set<nat>): seq<PostingLine> {
    if ledger == [] then []
    else
      var init := On(ledger[..|ledger| - 1], accounts);
      if ledger[|ledger| - 1].account in accounts then init + [ledger[|ledger| - 1]] else init
  }

  lemma {:induction false} OnNets(ledger: seq<PostingLine>, accounts: set<nat>, account: nat)
    ensures Net(On(ledger, accounts), account) == if account in accounts then Net(ledger, account) else 0
    ensures forall r | r in On(ledger, accounts) :: r in ledger && r.account in accounts
  {
    if ledger == [] {
    } else {
      var k := |ledger| - 1;
      OnNets(ledger[..k], accounts, account);
      PushLine(On(ledger[..k], accounts), ledger[k]);
    }
  }

  /** Sums over listed accounts of the chart, with what the ledger has on them. */
  ghost predicate ChartSums(sums: seq<AccountSum>, ledger: seq<PostingLine>, chart: Chart) {
    && Summarizes(sums, ledger)
    && forall i | 0 <= i < |sums| :: sums[i].account in chart && chart[sums[i].account] == sums[i].kind
  }

  lemma {:induction false} PlNetOver(sums: seq<AccountSum>, ledger: seq<PostingLine>, chart: Chart, accounts: set<nat>)
    requires accounts <= PlAccounts(chart)
    requires forall i | 0 <= i < |sums| ::
      && sums[i].account in chart && chart[sums[i].account] == sums[i].kind
      && sums[i].debit - sums[i].credit == Net(ledger, sums[i].account)
    requires forall i | 0 <= i < |sums| && OnPl(chart, sums[i].account) && sums[i].account !in accounts ::
      Net(ledger, sums[i].account) == 0
    ensures PlNet(sums) == NetOver(sums, On(ledger, accounts))
  {
    if sums == [] {
    } else {
      var k := |sums| - 1;
      PlNetOver(sums[..k], ledger, chart, accounts);
      OnNets(ledger, accounts, sums[k].account);
    }
  }

  /** The profit and loss of any grouping is the ledger's on those accounts, less what it does not list. */
  lemma {:induction false} PlNetIsLedgers(sums: seq<AccountSum>, ledger: seq<PostingLine>, chart: Chart,
                                          accounts: set<nat>)
    requires ChartSums(sums, ledger, chart) && accounts <= PlAccounts(chart)
    requires forall a | OnPl(chart, a) && a !in accounts :: Net(ledger, a) == 0
    ensures PlNet(sums) + UnlistedNet(sums, On(ledger, accounts))
      == SumDebit(On(ledger, accounts)) - SumCredit(On(ledger, accounts))
  {
    PlNetOver(sums, ledger, chart, accounts);
    GroupingKeepsTotal(sums, On(ledger, accounts));
  }

  lemma {:induction false} OnListed(sums: seq<AccountSum>, ledger: seq<PostingLine>, accounts: set<nat>)
    requires forall r | 0 <= r < |ledger| && ledger[r].account in accounts :: HasAccount(sums, ledger[r].account)
    ensures UnlistedNet(sums, On(ledger, accounts)) == 0
  {
    var part := On(ledger, accounts);
    forall r | 0 <= r < |part| ensures HasAccount(sums, part[r].account) {
      OnNets(ledger, accounts, 0);
      assert part[r] in part;
      var i :| 0 <= i < |ledger| && ledger[i] == part[r];
    }
    AllListedNothingLeft(sums, part);
  }

  lemma {:induction false} PlSummaryIsChartSums(rows: seq<AccountSum>, ledger: seq<PostingLine>, chart: Chart)
    requires PlSummary(rows, ledger, chart)
    ensures ChartSums(rows, ledger, chart)
  {
  }

  /**
   * What the close moves and what the income statement reports: they agree exactly when the
   * period's profit-and-loss rows on accounts the statement does not list net to zero.
   */
  lemma {:induction false} CloseMovesReportedIncomeIff(rows: seq<AccountSum>, sums: seq<AccountSum>,
                                                       period: seq<PostingLine>, chart: Chart)
    requires PlSummary(rows, period, chart) && ChartSums(sums, period, chart)
    ensures -PlNet(rows) == -PlNet(sums) <==> UnlistedNet(sums, On(period, PlAccounts(chart))) == 0
  {
    PlSummaryIsChartSums(rows, period, chart);
    PlNetIsLedgers(rows, period, chart, PlAccounts(chart));
    PlNetIsLedgers(sums, period, chart, PlAccounts(chart));
    OnListed(rows, period, PlAccounts(chart));
  }

  /** The profit-and-loss accounts the period moved. */
  function Moved(period: seq<PostingLine>, chart: Chart): set<nat> {
    set a | a in chart && ProfitAndLoss(chart[a]) && Net(period, a) != 0
  }

  /** The statements list every account a posting can name. */
  ghost predicate ListsPostable(sums: seq<AccountSum>, accounts: map<nat, PostableAccount>) {
    forall a | a in accounts && accounts[a].isDetail :: HasAccount(sums, a)
  }

  lemma {:induction false} ClosedAccountHasLine(rows: seq<AccountSum>, i: nat)
    requires AllPl(rows) && i < |rows| && rows[i].debit != rows[i].credit
    ensures exists k | 0 <= k < |PlLines(rows)| :: PlLines(rows)[k].account == rows[i].account
  {
    var n := |rows| - 1;
    if i < n {
      ClosedAccountHasLine(rows[..n], i);
      var k :| 0 <= k < |PlLines(rows[..n])| && PlLines(rows[..n])[k].account == rows[i].account;
      assert PlLines(rows)[k] == PlLines(rows[..n])[k];
    } else {
      assert PlLines(rows)[|PlLines(rows)| - 1].account == rows[i].account;
    }
  }

  /** The accounts of an accepted entry are postable. */
  lemma {:induction false} AcceptedIsPostable(lines: seq<PostingLine>, accounts: map<nat, PostableAccount>, k: nat)
    requires Validate(lines, accounts, false).None? && k < |lines|
    ensures lines[k].account in accounts && accounts[lines[k].account].isDetail
  {
    AccountsAccepted(lines, accounts);
    assert CheckAccount(lines[k], accounts).None?;
  }

  /** Every account the period moved is listed, once its closing entry is accepted. */
  lemma {:induction false} MovedIsListed(rows: seq<AccountSum>, sums: seq<AccountSum>, period: seq<PostingLine>,
                                         chart: Chart, retained: nat, accounts: map<nat, PostableAccount>, a: nat)
    requires PlSummary(rows, period, chart) && a in Moved(period, chart) && ListsPostable(sums, accounts)
    requires Validate(ClosingLines(rows, retained), accounts, false).None?
    ensures HasAccount(sums, a)
  {
    if !HasAccount(rows, a) {
      NoRowNoNet(period, a);
    }
    assert HasAccount(rows, a);
    var i :| 0 <= i < |rows| && rows[i].account == a;
    ClosedAccountHasLine(rows, i);
    var k :| 0 <= k < |PlLines(rows)| && PlLines(rows)[k].account == a;
    assert ClosingLines(rows, retained)[k] == PlLines(rows)[k];
    AcceptedIsPostable(ClosingLines(rows, retained), accounts, k);
  }

  /**
   * A close whose entry the posting rules accept moves exactly the net income the income
   * statement reports: whatever it could not report, they would not have let it post to.
   */
  lemma {:induction false} AcceptedCloseMovesReportedIncome(rows: seq<AccountSum>, sums: seq<AccountSum>,
                                                            period: seq<PostingLine>, chart: Chart, retained: nat,
                                                            accounts: map<nat, PostableAccount>)
    requires PlSummary(rows, period, chart) && ChartSums(sums, period, chart) && ListsPostable(sums, accounts)
    requires Validate(ClosingLines(rows, retained), accounts, false).None?
    ensures -PlNet(rows) == -PlNet(sums)
  {
    var moved := Moved(period, chart);
    PlSummaryIsChartSums(rows, period, chart);
    PlNetIsLedgers(rows, period, chart, moved);
    PlNetIsLedgers(sums, period, chart, moved);
    forall r | 0 <= r < |period| && period[r].account in moved
      ensures HasAccount(rows, period[r].account) && HasAccount(sums, period[r].account)
    {
      MovedIsListed(rows, sums, period, chart, retained, accounts, period[r].account);
    }
    OnListed(rows, period, moved);
    OnListed(sums, period, moved);
  }

  lemma {:induction false} PlNetZero(sums: seq<AccountSum>)
    requires forall i | 0 <= i < |sums| && ProfitAndLoss(sums[i].kind) :: sums[i].debit == sums[i].credit
    ensures PlNet(sums) == 0
  {
    if sums == [] {
    } else {
      PlNetZero(sums[..|sums| - 1]);
    }
  }

  /** The profit and loss a ledger has on the accounts listed. */
  function PlOver(sums: seq<AccountSum>, ledger: seq<PostingLine>): int {
    if sums == [] then 0
    else
      var s := sums[|sums| - 1];
      PlOver(sums[..|sums| - 1], ledger) + if ProfitAndLoss(s.kind) then Net(ledger, s.account) else 0
  }

  lemma {:induction false} PlNetIsOver(sums: seq<AccountSum>, ledger: seq<PostingLine>)
    requires forall i | 0 <= i < |sums| && ProfitAndLoss(sums[i].kind) ::
      sums[i].debit - sums[i].credit == Net(ledger, sums[i].account)
    ensures PlNet(sums) == PlOver(sums, ledger)
  {
    if sums == [] {
    } else {
      PlNetIsOver(sums[..|sums| - 1], ledger);
    }
  }

  /**
   * After the close the period's income statement is empty; what the balance sheet still shows as
   * current earnings is what earlier periods left unclosed.
   */
  lemma {:induction false} StatementsAfterClose(rows: seq<AccountSum>, earlier: seq<PostingLine>,
                                                period: seq<PostingLine>, chart: Chart, retained: nat,
                                                income: seq<AccountSum>, sheet: seq<AccountSum>)
    requires PlSummary(rows, period, chart) && !OnPl(chart, retained)
    requires ChartSums(income, period + ClosingLines(rows, retained), chart)
    requires ChartSums(sheet, earlier + (period + ClosingLines(rows, retained)), chart)
    ensures PlNet(income) == 0
    ensures PlNet(sheet) == PlOver(sheet, earlier)
  {
    var closed := period + ClosingLines(rows, retained);
    CloseZeroesIff(rows, period, chart, retained);
    forall i | 0 <= i < |income| && ProfitAndLoss(income[i].kind) ensures income[i].debit == income[i].credit {
      assert OnPl(chart, income[i].account);
    }
    PlNetZero(income);
    Append(earlier, closed);
    forall i | 0 <= i < |sheet| && ProfitAndLoss(sheet[i].kind)
      ensures sheet[i].debit - sheet[i].credit == Net(earlier, sheet[i].account)
    {
      assert OnPl(chart, sheet[i].account);
    }
    PlNetIsOver(sheet, earlier);
  }

  lemma {:induction false} NetOverAppend(sums: seq<AccountSum>, a: seq<PostingLine>, b: seq<PostingLine>)
    ensures NetOver(sums, a + b) == NetOver(sums, a) + NetOver(sums, b)
  {
    if sums == [] {
    } else {
      NetOverAppend(sums[..|sums| - 1], a, b);
      Append(a, b);
    }
  }

  lemma {:induction false} SameAccountsSameNet(a: seq<AccountSum>, b: seq<AccountSum>, ledger: seq<PostingLine>)
    requires |a| == |b| && forall i | 0 <= i < |a| :: a[i].account == b[i].account
    ensures NetOver(a, ledger) == NetOver(b, ledger)
  {
    if a == [] {
    } else {
      SameAccountsSameNet(a[..|a| - 1], b[..|b| - 1], ledger);
    }
  }

  /**
   * An accepted closing entry moves nothing across the balance sheet: over all rows to the date,
   * earlier periods included, the two sides differ after the close by what they differed before.
   */
  lemma {:induction false} CloseKeepsSheetBalance(rows: seq<AccountSum>, earlier: seq<PostingLine>,
                                                  period: seq<PostingLine>, chart: Chart, retained: nat,
                                                  before: seq<AccountSum>, after: seq<AccountSum>,
                                                  accounts: map<nat, PostableAccount>)
    requires PlSummary(rows, period, chart) && Validate(ClosingLines(rows, retained), accounts, false).None?
    requires Summarizes(before, earlier + period) && ListsPostable(before, accounts)
    requires Summarizes(after, earlier + period + ClosingLines(rows, retained))
    requires |before| == |after| && forall i | 0 <= i < |before| :: before[i].account == after[i].account
    ensures AllNet(after) == AllNet(before)
  {
    var entry := ClosingLines(rows, retained);
    NetsAreSums(before, earlier + period);
    NetsAreSums(after, earlier + period + entry);
    NetOverAppend(after, earlier + period, entry);
    SameAccountsSameNet(before, after, earlier + period);
    SameAccountsSameNet(before, after, entry);
    forall k | 0 <= k < |entry| ensures HasAccount(before, entry[k].account) {
      AcceptedIsPostable(entry, accounts, k);
    }
    AllListedNothingLeft(before, entry);
    GroupingKeepsTotal(before, entry);
    EntryBalances(rows, retained);
  }
}
