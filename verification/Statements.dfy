/**
 * The financial statements over one ledger: the flat trial balance, the balance sheet and the
 * income statement, each a pass over per-account sums. Over a balanced ledger the balance sheet
 * balances exactly when the rows on accounts it does not list net to zero.
 */
module Statements {
  import opened GlPosting

  datatype Kind = Asset | Liability | Equity | Revenue | OtherIncome | Expense | Cogs | OtherExpense

  /** One account's debits and credits over a range, as the ledger query groups them. */
  datatype AccountSum = AccountSum(account: nat, kind: Kind, debit: int, credit: int)

  predicate ProfitAndLoss(k: Kind) {
    k.Revenue? || k.OtherIncome? || k.Expense? || k.Cogs? || k.OtherExpense?
  }

  predicate DebitNormal(k: Kind) {
    k.Asset? || k.Expense? || k.Cogs? || k.OtherExpense?
  }

  /** The balance on the account's normal side. */
  function NormalBalance(k: Kind, debit: int, credit: int): int {
    if DebitNormal(k) then debit - credit else credit - debit
  }

  // ------------------------------------------------------------------ sums over kinds

  /** Debits less credits of the accounts of one kind. */
  function KindNet(sums: seq<AccountSum>, k: Kind): int {
    if sums == [] then 0
    else
      var s := sums[|sums| - 1];
      KindNet(sums[..|sums| - 1], k) + if s.kind == k then s.debit - s.credit else 0
  }

  /** Debits less credits of all profit-and-loss accounts. */
  function PlNet(sums: seq<AccountSum>): int {
    if sums == [] then 0
    else
      var s := sums[|sums| - 1];
      PlNet(sums[..|sums| - 1]) + if ProfitAndLoss(s.kind) then s.debit - s.credit else 0
  }

  function AllNet(sums: seq<AccountSum>): int {
    if sums == [] then 0 else AllNet(sums[..|sums| - 1]) + sums[|sums| - 1].debit - sums[|sums| - 1].credit
  }

  lemma {:induction false} KindsMakeAll(sums: seq<AccountSum>)
    ensures PlNet(sums) == KindNet(sums, Revenue) + KindNet(sums, OtherIncome) + KindNet(sums, Expense)
      + KindNet(sums, Cogs) + KindNet(sums, OtherExpense)
    ensures AllNet(sums) == KindNet(sums, Asset) + KindNet(sums, Liability) + KindNet(sums, Equity) + PlNet(sums)
  {
    if sums == [] {
    } else {
      KindsMakeAll(sums[..|sums| - 1]);
    }
  }

  // ------------------------------------------------------------------ the sums and the ledger

  ghost predicate HasAccount(sums: seq<AccountSum>, account: nat) {
    exists i | 0 <= i < |sums| :: sums[i].account == account
  }

  ghost predicate DistinctAccounts(sums: seq<AccountSum>) {
    forall i, j | 0 <= i < j < |sums| :: sums[i].account != sums[j].account
  }

  /** The sums list accounts once each, with what the ledger has on them; other accounts may have rows too. */
  ghost predicate Summarizes(sums: seq<AccountSum>, ledger: seq<PostingLine>) {
    && DistinctAccounts(sums)
    && forall i | 0 <= i < |sums| :: sums[i].debit - sums[i].credit == Net(ledger, sums[i].account)
  }

  /** Debits less credits of the rows on accounts the sums do not list: deleted ones, and headers. */
  ghost function UnlistedNet(sums: seq<AccountSum>, ledger: seq<PostingLine>): int {
    if ledger == [] then 0
    else
      var row := ledger[|ledger| - 1];
      UnlistedNet(sums, ledger[..|ledger| - 1]) + if HasAccount(sums, row.account) then 0 else row.debit - row.credit
  }

  function NetOver(sums: seq<AccountSum>, ledger: seq<PostingLine>): int {
    if sums == [] then 0 else NetOver(sums[..|sums| - 1], ledger) + Net(ledger, sums[|sums| - 1].account)
  }

  function Hits(sums: seq<AccountSum>, row: PostingLine): int {
    if sums == [] then 0 else Hits(sums[..|sums| - 1], row) + NetOf(row, sums[|sums| - 1].account)
  }

  lemma {:induction false} NetOverPush(sums: seq<AccountSum>, ledger: seq<PostingLine>)
    requires ledger != []
    ensures NetOver(sums, ledger)
      == NetOver(sums, ledger[..|ledger| - 1]) + Hits(sums, ledger[|ledger| - 1])
  {
    if sums == [] {
    } else {
      NetOverPush(sums[..|sums| - 1], ledger);
    }
  }

  lemma {:induction false} NetOverNone(sums: seq<AccountSum>)
    ensures NetOver(sums, []) == 0
  {
    if sums == [] {
    } else {
      NetOverNone(sums[..|sums| - 1]);
    }
  }

  lemma {:induction false} HitsNothing(sums: seq<AccountSum>, row: PostingLine)
    requires forall i | 0 <= i < |sums| :: sums[i].account != row.account
    ensures Hits(sums, row) == 0
  {
    if sums == [] {
    } else {
      HitsNothing(sums[..|sums| - 1], row);
    }
  }

  lemma {:induction false} HitsOnce(sums: seq<AccountSum>, row: PostingLine, i: nat)
    requires DistinctAccounts(sums) && i < |sums| && sums[i].account == row.account
    ensures Hits(sums, row) == row.debit - row.credit
  {
    var k := |sums| - 1;
    if i < k {
      HitsOnce(sums[..k], row, i);
    } else {
      HitsNothing(sums[..k], row);
    }
  }

  /** Grouping by account loses nothing but the rows on unlisted accounts. */
  lemma {:induction false} GroupingKeepsTotal(sums: seq<AccountSum>, ledger: seq<PostingLine>)
    requires DistinctAccounts(sums)
    ensures NetOver(sums, ledger) + UnlistedNet(sums, ledger) == SumDebit(ledger) - SumCredit(ledger)
  {
    if ledger == [] {
      NetOverNone(sums);
    } else {
      var k := |ledger| - 1;
      GroupingKeepsTotal(sums, ledger[..k]);
      NetOverPush(sums, ledger);
      if HasAccount(sums, ledger[k].account) {
        var i :| 0 <= i < |sums| && sums[i].account == ledger[k].account;
        HitsOnce(sums, ledger[k], i);
      } else {
        HitsNothing(sums, ledger[k]);
      }
    }
  }

  lemma {:induction false} NetsAreSums(sums: seq<AccountSum>, ledger: seq<PostingLine>)
    requires forall i | 0 <= i < |sums| :: sums[i].debit - sums[i].credit == Net(ledger, sums[i].account)
    ensures AllNet(sums) == NetOver(sums, ledger)
  {
    if sums == [] {
    } else {
      NetsAreSums(sums[..|sums| - 1], ledger);
    }
  }

  /** The sums are worth the ledger less its unlisted rows; a balanced ledger's sums balance when those net to zero. */
  lemma {:induction false} SumsBalanceIff(sums: seq<AccountSum>, ledger: seq<PostingLine>)
    requires Summarizes(sums, ledger)
    ensures AllNet(sums) == SumDebit(ledger) - SumCredit(ledger) - UnlistedNet(sums, ledger)
    ensures Balanced(ledger) ==> (AllNet(sums) == 0 <==> UnlistedNet(sums, ledger) == 0)
  {
    NetsAreSums(sums, ledger);
    GroupingKeepsTotal(sums, ledger);
  }

  // ------------------------------------------------------------------ the statements

  datatype BalanceSheet = BalanceSheet(assets: int, liabilities: int, equity: int, currentEarnings: int,
                                       liabilitiesAndEquity: int, balanced: bool)

  method ComputeBalanceSheet(sums: seq<AccountSum>) returns (b: BalanceSheet)
    ensures b.assets == KindNet(sums, Asset)
    ensures b.liabilities == -KindNet(sums, Liability) && b.equity == -KindNet(sums, Equity)
    ensures b.currentEarnings == -PlNet(sums)
    ensures b.liabilitiesAndEquity == b.liabilities + b.equity + b.currentEarnings
    ensures b.balanced <==> AllNet(sums) == 0
  {
    var assets, liabilities, equity, earnings := 0, 0, 0, 0;
    var i := 0;
    while i < |sums|
      invariant 0 <= i <= |sums|
      invariant assets == KindNet(sums[..i], Asset) && liabilities == -KindNet(sums[..i], Liability)
      invariant equity == -KindNet(sums[..i], Equity) && earnings == -PlNet(sums[..i])
    {
      var s := sums[i];
      assert sums[..i + 1][..i] == sums[..i];
      var balance := NormalBalance(s.kind, s.debit, s.credit);
      match s.kind {
        case Asset => assets := assets + balance;
        case Liability => liabilities := liabilities + balance;
        case Equity => equity := equity + balance;
        case Revenue => earnings := earnings + balance;
        case OtherIncome => earnings := earnings + balance;
        case Expense => earnings := earnings - balance;
        case Cogs => earnings := earnings - balance;
        case OtherExpense => earnings := earnings - balance;
      }
      i := i + 1;
    }
    assert sums[..i] == sums;
    KindsMakeAll(sums);
    var other := liabilities + equity + earnings;
    b := BalanceSheet(assets, liabilities, equity, earnings, other, assets == other);
  }

  datatype IncomeStatement = IncomeStatement(revenue: int, otherIncome: int, cogs: int, expenses: int,
                                             otherExpense: int, netIncome: int)

  method ComputeIncomeStatement(sums: seq<AccountSum>) returns (s: IncomeStatement)
    ensures s.revenue == -KindNet(sums, Revenue) && s.otherIncome == -KindNet(sums, OtherIncome)
    ensures s.cogs == KindNet(sums, Cogs) && s.expenses == KindNet(sums, Expense)
    ensures s.otherExpense == KindNet(sums, OtherExpense)
    ensures s.netIncome == -PlNet(sums)
  {
    var revenue, otherIncome, cogs, expenses, otherExpense := 0, 0, 0, 0, 0;
    var i := 0;
    while i < |sums|
      invariant 0 <= i <= |sums|
      invariant revenue == -KindNet(sums[..i], Revenue) && otherIncome == -KindNet(sums[..i], OtherIncome)
      invariant cogs == KindNet(sums[..i], Cogs) && expenses == KindNet(sums[..i], Expense)
      invariant otherExpense == KindNet(sums[..i], OtherExpense)
    {
      var a := sums[i];
      assert sums[..i + 1][..i] == sums[..i];
      var balance := NormalBalance(a.kind, a.debit, a.credit);
      match a.kind {
        case Revenue => revenue := revenue + balance;
        case OtherIncome => otherIncome := otherIncome + balance;
        case Cogs => cogs := cogs + balance;
        case Expense => expenses := expenses + balance;
        case OtherExpense => otherExpense := otherExpense + balance;
        case _ =>
      }
      i := i + 1;
    }
    assert sums[..i] == sums;
    KindsMakeAll(sums);
    s := IncomeStatement(revenue, otherIncome, cogs, expenses, otherExpense,
                         revenue + otherIncome - cogs - expenses - otherExpense);
  }

  datatype TrialLine = TrialLine(account: nat, debit: int, credit: int)

  /** A net amount on the side it falls. */
  function OnItsSide(account: nat, net: int): (l: TrialLine)
    ensures l.debit - l.credit == net && l.debit >= 0 && l.credit >= 0 && (l.debit == 0 || l.credit == 0)
  {
    if net > 0 then TrialLine(account, net, 0) else TrialLine(account, 0, -net)
  }

  /** One line for each account with a net amount, in order. */
  function TrialLines(sums: seq<AccountSum>): seq<TrialLine> {
    if sums == [] then []
    else
      var s := sums[|sums| - 1];
      var init := TrialLines(sums[..|sums| - 1]);
      if s.debit == s.credit then init else init + [OnItsSide(s.account, s.debit - s.credit)]
  }

  function TrialDebit(lines: seq<TrialLine>): int {
    if lines == [] then 0 else TrialDebit(lines[..|lines| - 1]) + lines[|lines| - 1].debit
  }

  function TrialCredit(lines: seq<TrialLine>): int {
    if lines == [] then 0 else TrialCredit(lines[..|lines| - 1]) + lines[|lines| - 1].credit
  }

  lemma {:induction false} TrialTotals(sums: seq<AccountSum>)
    ensures TrialDebit(TrialLines(sums)) - TrialCredit(TrialLines(sums)) == AllNet(sums)
    ensures forall i | 0 <= i < |TrialLines(sums)| ::
      (TrialLines(sums)[i].debit > 0 && TrialLines(sums)[i].credit == 0)
      || (TrialLines(sums)[i].debit == 0 && TrialLines(sums)[i].credit > 0)
  {
    if sums == [] {
    } else {
      var init := TrialLines(sums[..|sums| - 1]);
      TrialTotals(sums[..|sums| - 1]);
      var l := OnItsSide(sums[|sums| - 1].account, sums[|sums| - 1].debit - sums[|sums| - 1].credit);
      assert (init + [l])[..|init|] == init;
    }
  }

  /** The flat trial balance: totals over the net lines, balanced exactly when the sums are. */
  method ComputeTrialBalance(sums: seq<AccountSum>)
    returns (lines: seq<TrialLine>, totalDebit: int, totalCredit: int, balanced: bool)
    ensures lines == TrialLines(sums)
    ensures totalDebit == TrialDebit(lines) && totalCredit == TrialCredit(lines)
    ensures balanced <==> AllNet(sums) == 0
  {
    lines, totalDebit, totalCredit := [], 0, 0;
    var i := 0;
    while i < |sums|
      invariant 0 <= i <= |sums|
      invariant lines == TrialLines(sums[..i])
      invariant totalDebit == TrialDebit(lines) && totalCredit == TrialCredit(lines)
    {
      var s := sums[i];
      assert sums[..i + 1][..i] == sums[..i];
      var net := s.debit - s.credit;
      i := i + 1;
      if net == 0 {
        continue;
      }
      var l := if net > 0 then TrialLine(s.account, net, 0) else TrialLine(s.account, 0, -net);
      assert (lines + [l])[..|lines|] == lines;
      totalDebit, totalCredit := totalDebit + l.debit, totalCredit + l.credit;
      lines := lines + [l];
    }
    assert sums[..i] == sums;
    TrialTotals(sums);
    balanced := totalDebit == totalCredit;
  }

  /**
   * Balance sheet and trial balance balance exactly when the ledger does, but for the rows on
   * accounts they do not list; over a balanced ledger, exactly when those rows net to zero.
   */
  lemma {:induction false} StatementsAgree(sums: seq<AccountSum>, ledger: seq<PostingLine>)
    requires Summarizes(sums, ledger)
    ensures KindNet(sums, Asset) == -KindNet(sums, Liability) - KindNet(sums, Equity) - PlNet(sums)
      <==> SumDebit(ledger) - SumCredit(ledger) == UnlistedNet(sums, ledger)
    ensures TrialDebit(TrialLines(sums)) == TrialCredit(TrialLines(sums))
      <==> SumDebit(ledger) - SumCredit(ledger) == UnlistedNet(sums, ledger)
    ensures UnlistedNet(sums, ledger) == 0 ==>
      (TrialDebit(TrialLines(sums)) == TrialCredit(TrialLines(sums)) <==> Balanced(ledger))
  {
    SumsBalanceIff(sums, ledger);
    KindsMakeAll(sums);
    TrialTotals(sums);
  }

  /** Nothing is left out when every account of the ledger is listed. */
  lemma {:induction false} AllListedNothingLeft(sums: seq<AccountSum>, ledger: seq<PostingLine>)
    requires forall r | 0 <= r < |ledger| :: HasAccount(sums, ledger[r].account)
    ensures UnlistedNet(sums, ledger) == 0
  {
    if ledger == [] {
    } else {
      AllListedNothingLeft(sums, ledger[..|ledger| - 1]);
    }
  }
}
