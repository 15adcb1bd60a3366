/**
 * Posting lines and the pure double-entry rules: at least two lines, each a clean debit or a
 * clean credit, equal totals, postable accounts with the party rule, an open period.
 * Amounts are whole cents.
 */
module GlPosting {
  import opened Wrappers

  datatype PostingLine = PostingLine(
    account: nat,
    debit: int,
    credit: int,
    partyType: Option<string>,
    partyId: Option<nat>)

  datatype PostableAccount = PostableAccount(isDetail: bool, isHeader: bool, active: bool, subtype: string)

  datatype PostingError =
    | TooFewLines
    | Unbalanced
    | InvalidLineAmount
    | NonPostableAccount(account: nat)
    | AccountNotFound(account: nat)
    | PartyRequired(account: nat)
    | PartyNotAllowed(account: nat)
    | PeriodClosed
    | BudgetExceeded
    | Conflict

  predicate PartySubtype(subtype: string) {
    subtype == "accounts_receivable" || subtype == "accounts_payable"
  }

  /** Both sides non-negative, exactly one strictly positive. */
  predicate Clean(line: PostingLine) {
    line.debit >= 0 && line.credit >= 0 && ((line.debit > 0) != (line.credit > 0))
  }

  predicate AllClean(lines: seq<PostingLine>) {
    forall i | 0 <= i < |lines| :: Clean(lines[i])
  }

  function SumDebit(lines: seq<PostingLine>): int {
    if lines == [] then 0 else SumDebit(lines[..|lines| - 1]) + lines[|lines| - 1].debit
  }

  function SumCredit(lines: seq<PostingLine>): int {
    if lines == [] then 0 else SumCredit(lines[..|lines| - 1]) + lines[|lines| - 1].credit
  }

  predicate Balanced(lines: seq<PostingLine>) {
    SumDebit(lines) == SumCredit(lines)
  }

  /** What one line adds to an account: debits count up, credits down. */
  function NetOf(line: PostingLine, account: nat): int {
    if line.account == account then line.debit - line.credit else 0
  }

  /** The signed movement of one account over a list of lines or ledger rows. */
  function Net(lines: seq<PostingLine>, account: nat): int {
    if lines == [] then 0 else Net(lines[..|lines| - 1], account) + NetOf(lines[|lines| - 1], account)
  }

  function SwapLine(line: PostingLine): PostingLine {
    line.(debit := line.credit, credit := line.debit)
  }

  /** The lines of a reversal: every debit a credit and every credit a debit. */
  function Swapped(lines: seq<PostingLine>): (r: seq<PostingLine>)
    ensures |r| == |lines|
    ensures forall i | 0 <= i < |lines| :: r[i] == SwapLine(lines[i])
  {
    if lines == [] then [] else Swapped(lines[..|lines| - 1]) + [SwapLine(lines[|lines| - 1])]
  }

  function CheckAccount(line: PostingLine, accounts: map<nat, PostableAccount>): Option<PostingError> {
    if line.account !in accounts then Some(AccountNotFound(line.account))
    else
      var a := accounts[line.account];
      if a.isHeader || !a.isDetail || !a.active then Some(NonPostableAccount(line.account))
      else if PartySubtype(a.subtype) && !(line.partyType.Some? && line.partyId.Some?) then
        Some(PartyRequired(line.account))
      else if !PartySubtype(a.subtype) && (line.partyType.Some? || line.partyId.Some?) then
        Some(PartyNotAllowed(line.account))
      else None
  }

  /** The first line an account rule refuses, in line order. */
  function CheckAccounts(lines: seq<PostingLine>, accounts: map<nat, PostableAccount>): Option<PostingError> {
    if lines == [] then None
    else
      var earlier := CheckAccounts(lines[..|lines| - 1], accounts);
      if earlier.Some? then earlier else CheckAccount(lines[|lines| - 1], accounts)
  }

  function Validate(lines: seq<PostingLine>, accounts: map<nat, PostableAccount>, periodClosed: bool)
    : Option<PostingError>
  {
    if |lines| < 2 then Some(TooFewLines)
    else if !AllClean(lines) then Some(InvalidLineAmount)
    else if !Balanced(lines) then Some(Unbalanced)
    else
      var refused := CheckAccounts(lines, accounts);
      if refused.Some? then refused
      else if periodClosed then Some(PeriodClosed)
      else None
  }

  lemma {:induction false} AccountsAccepted(lines: seq<PostingLine>, accounts: map<nat, PostableAccount>)
    ensures CheckAccounts(lines, accounts).None?
            <==> forall i | 0 <= i < |lines| :: CheckAccount(lines[i], accounts).None?
  {
    if lines == [] {
    } else {
      AccountsAccepted(lines[..|lines| - 1], accounts);
      var last := |lines| - 1;
      assert forall i | 0 <= i < last :: lines[..last][i] == lines[i];
    }
  }

  lemma {:induction false} Append(a: seq<PostingLine>, b: seq<PostingLine>)
    ensures SumDebit(a + b) == SumDebit(a) + SumDebit(b)
    ensures SumCredit(a + b) == SumCredit(a) + SumCredit(b)
    ensures forall x :: Net(a + b, x) == Net(a, x) + Net(b, x)
  {
    if b == [] {
      assert a + b == a;
    } else {
      var k := |b| - 1;
      Append(a, b[..k]);
      assert (a + b)[..|a + b| - 1] == a + b[..k];
      forall x ensures Net(a + b, x) == Net(a, x) + Net(b, x) {
        assert Net(a + b, x) == Net(a + b[..k], x) + NetOf(b[k], x);
      }
    }
  }

  lemma {:induction false} PairSums(p: PostingLine, q: PostingLine)
    ensures SumDebit([p, q]) == p.debit + q.debit
    ensures SumCredit([p, q]) == p.credit + q.credit
  {
    assert [p, q] == [p] + [q];
    assert [p][..0] == [] && [q][..0] == [];
    Append([p], [q]);
  }

  /** A journal and its reversal cancel on every account, and the reversal is as sound as the journal. */
  lemma {:induction false} ReversalNetsToZero(lines: seq<PostingLine>)
    ensures forall a :: Net(lines + Swapped(lines), a) == 0
    ensures forall a :: Net(Swapped(lines), a) == -Net(lines, a)
    ensures SumDebit(Swapped(lines)) == SumCredit(lines) && SumCredit(Swapped(lines)) == SumDebit(lines)
    ensures AllClean(lines) ==> AllClean(Swapped(lines))
  {
    SwapNegates(lines);
    Append(lines, Swapped(lines));
  }

  lemma {:induction false} SwapNegates(lines: seq<PostingLine>)
    ensures forall a :: Net(Swapped(lines), a) == -Net(lines, a)
    ensures SumDebit(Swapped(lines)) == SumCredit(lines) && SumCredit(Swapped(lines)) == SumDebit(lines)
  {
    if lines == [] {
    } else {
      var k := |lines| - 1;
      SwapNegates(lines[..k]);
      assert Swapped(lines)[..k] == Swapped(lines[..k]);
      forall a ensures Net(Swapped(lines), a) == -Net(lines, a) {
        assert Net(Swapped(lines), a) == Net(Swapped(lines[..k]), a) + NetOf(SwapLine(lines[k]), a);
      }
    }
  }
}
