/**
 * Chart-of-accounts datasets and their validation: identifiers unique and non-blank, the code
 * the number with its dots stripped, parents no later than their children, and the four
 * subtypes posting and settlement need.
 */
module ChartDataset {
  import opened Wrappers
  import opened Text

  datatype Subtype = AccountsReceivable | AccountsPayable | Bank | Cash | Other(name: string)

  datatype AccountDef = AccountDef(
    number: string,
    code: string,
    name: string,
    subtype: Subtype,
    parent: Option<string>,
    currency: string,
    sortOrder: int)

  datatype DatasetError =
    | EmptyIdentifier(name: string)
    | EmptyName(number: string)
    | DuplicateNumber(number: string)
    | DuplicateCode(code: string)
    | DuplicateSortOrder(order: int)
    | InvalidCurrency(name: string, currency: string)
    | CodeNumberMismatch(name: string, code: string, number: string)
    | OrphanParent(code: string, parent: string)
    | MissingRequired(subtype: Subtype)

  function WithoutDots(s: string): string {
    if s == "" then ""
    else
      var last := s[|s| - 1];
      if last == '.' then WithoutDots(s[..|s| - 1]) else WithoutDots(s[..|s| - 1]) + [last]
  }

  predicate CurrencyOk(c: string) {
    |c| == 3 && forall i | 0 <= i < 3 :: 'A' <= c[i] <= 'Z'
  }

  // ------------------------------------------------------------------ what a good dataset is

  predicate RowOk(a: AccountDef) {
    && !Blank(a.number) && !Blank(a.code) && !Blank(a.name)
    && a.code == WithoutDots(a.number)
    && CurrencyOk(a.currency)
  }

  predicate Distinct(accounts: seq<AccountDef>) {
    forall i, j | 0 <= i < j < |accounts| ::
      && accounts[i].number != accounts[j].number
      && accounts[i].code != accounts[j].code
      && accounts[i].sortOrder != accounts[j].sortOrder
  }

  /** A parent is defined at or before its child: the account's own code already counts. */
  predicate ParentKnown(accounts: seq<AccountDef>, i: nat)
    requires i < |accounts|
  {
    accounts[i].parent.Some? ==> exists j | 0 <= j <= i :: accounts[j].code == accounts[i].parent.value
  }

  predicate HasSubtype(accounts: seq<AccountDef>, s: Subtype) {
    exists i | 0 <= i < |accounts| :: accounts[i].subtype == s
  }

  const REQUIRED: seq<Subtype> := [AccountsReceivable, AccountsPayable, Bank, Cash]

  predicate RowsOk(accounts: seq<AccountDef>) {
    && (forall i | 0 <= i < |accounts| :: RowOk(accounts[i]))
    && (forall i {:trigger ParentKnown(accounts, i)} | 0 <= i < |accounts| :: ParentKnown(accounts, i))
    && Distinct(accounts)
  }

  predicate Accepted(accounts: seq<AccountDef>) {
    && RowsOk(accounts)
    && forall s | s in REQUIRED :: HasSubtype(accounts, s)
  }

  // ------------------------------------------------------------------ which error comes first

  function RowError(accounts: seq<AccountDef>, i: nat): Option<DatasetError>
    requires i < |accounts|
  {
    var a := accounts[i];
    if Blank(a.number) || Blank(a.code) then Some(EmptyIdentifier(a.name))
    else if Blank(a.name) then Some(EmptyName(a.number))
    else if a.code != WithoutDots(a.number) then Some(CodeNumberMismatch(a.name, a.code, a.number))
    else if exists j | 0 <= j < i :: accounts[j].number == a.number then Some(DuplicateNumber(a.number))
    else if exists j | 0 <= j < i :: accounts[j].code == a.code then Some(DuplicateCode(a.code))
    else if exists j | 0 <= j < i :: accounts[j].sortOrder == a.sortOrder then Some(DuplicateSortOrder(a.sortOrder))
    else if !CurrencyOk(a.currency) then Some(InvalidCurrency(a.name, a.currency))
    else if !ParentKnown(accounts, i) then Some(OrphanParent(a.code, a.parent.value))
    else None
  }

  /** The error is the one of the first bad row, or the first missing subtype when no row is bad. */
  predicate Explains(accounts: seq<AccountDef>, e: DatasetError) {
    || (exists i | 0 <= i < |accounts| ::
          RowError(accounts, i) == Some(e) && forall j | 0 <= j < i :: RowError(accounts, j).None?)
    || ((forall i | 0 <= i < |accounts| :: RowError(accounts, i).None?)
        && exists k | 0 <= k < |REQUIRED| ::
          e == MissingRequired(REQUIRED[k]) && !HasSubtype(accounts, REQUIRED[k])
          && forall m | 0 <= m < k :: HasSubtype(accounts, REQUIRED[m]))
  }

  lemma {:induction false} NoErrorIff(accounts: seq<AccountDef>)
    ensures (forall i | 0 <= i < |accounts| :: RowError(accounts, i).None?) <==> RowsOk(accounts)
  {
    if forall i | 0 <= i < |accounts| :: RowError(accounts, i).None? {
      forall i, j | 0 <= i < j < |accounts|
        ensures accounts[i].number != accounts[j].number && accounts[i].code != accounts[j].code
          && accounts[i].sortOrder != accounts[j].sortOrder
      {
        assert RowError(accounts, j).None?;
      }
      forall i | 0 <= i < |accounts| ensures RowOk(accounts[i]) && ParentKnown(accounts, i) {
        assert RowError(accounts, i).None?;
      }
    }
  }

  lemma {:induction false} FirstBadRow(accounts: seq<AccountDef>, i: nat)
    requires i < |accounts| && forall j | 0 <= j < i :: RowError(accounts, j).None?
    ensures RowError(accounts, i).Some? ==> !Accepted(accounts) && Explains(accounts, RowError(accounts, i).value)
  {
    NoErrorIff(accounts);
  }

  // ------------------------------------------------------------------ validation

  /** One pass with three sets of what was seen; the code enters its set before the parent is looked up. */
  method Validate(accounts: seq<AccountDef>) returns (r: Result<(), DatasetError>)
    ensures r.Ok? <==> Accepted(accounts)
    ensures r.Err? ==> Explains(accounts, r.error)
  {
    var numbers: set<string>, codes: set<string>, orders: set<int> := {}, {}, {};
    var i := 0;
    while i < |accounts|
      invariant 0 <= i <= |accounts|
      invariant forall x :: x in numbers <==> exists j | 0 <= j < i :: accounts[j].number == x
      invariant forall x :: x in codes <==> exists j | 0 <= j < i :: accounts[j].code == x
      invariant forall x :: x in orders <==> exists j | 0 <= j < i :: accounts[j].sortOrder == x
      invariant forall j | 0 <= j < i :: RowError(accounts, j).None?
    {
      var a := accounts[i];
      FirstBadRow(accounts, i);
      if Blank(a.number) || Blank(a.code) {
        return Err(EmptyIdentifier(a.name));
      }
      if Blank(a.name) {
        return Err(EmptyName(a.number));
      }
      if a.code != WithoutDots(a.number) {
        return Err(CodeNumberMismatch(a.name, a.code, a.number));
      }
      if a.number in numbers {
        return Err(DuplicateNumber(a.number));
      }
      if a.code in codes {
        return Err(DuplicateCode(a.code));
      }
      if a.sortOrder in orders {
        return Err(DuplicateSortOrder(a.sortOrder));
      }
      numbers, codes, orders := numbers + {a.number}, codes + {a.code}, orders + {a.sortOrder};
      if !CurrencyOk(a.currency) {
        return Err(InvalidCurrency(a.name, a.currency));
      }
      assert forall x :: x in codes <==> exists j | 0 <= j <= i :: accounts[j].code == x;
      if a.parent.Some? && a.parent.value !in codes {
        return Err(OrphanParent(a.code, a.parent.value));
      }
      i := i + 1;
    }
    NoErrorIff(accounts);
    var k := 0;
    while k < |REQUIRED|
      invariant 0 <= k <= |REQUIRED|
      invariant forall m | 0 <= m < k :: HasSubtype(accounts, REQUIRED[m])
    {
      if !HasSubtype(accounts, REQUIRED[k]) {
        return Err(MissingRequired(REQUIRED[k]));
      }
      k := k + 1;
    }
    r := Ok(());
  }
}
