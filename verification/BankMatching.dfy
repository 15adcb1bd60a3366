/**
 * Bank-statement matching. Each statement line takes the first unmatched book entry with its
 * amount and reference, else the first unmatched entry with its amount. The greedy pass turns
 * out to be a maximum matching, and a perfect one exactly when the amounts agree as multisets.
 *
 * Lower-casing is a parameter: nothing below depends on what it does.
 */
module BankMatching {
  import opened Wrappers
  import opened Text

  datatype BookRow = BookRow(ledgerId: nat, amount: int, reference: Option<string>)

  datatype StatementLine = StatementLine(amount: int, reference: Option<string>)

  /** A book entry during matching. */
  datatype BookEntry = BookEntry(row: BookRow, matched: bool)

  /** A matched pair, by position in the book and in the statement. */
  datatype Pair = Pair(book: nat, statement: nat)

  type Fold = string -> string

  /** The comparable form of a reference; blank ones have none. */
  function Comparable(fold: Fold, reference: Option<string>): Option<string> {
    if reference.None? then None
    else
      var trimmed := Trim(reference.value);
      if trimmed == "" then None else Some(fold(trimmed))
  }

  // ------------------------------------------------------------------ the greedy rule

  predicate SameReference(fold: Fold, row: BookRow, line: StatementLine) {
    Comparable(fold, line.reference).Some? && Comparable(fold, row.reference) == Comparable(fold, line.reference)
  }

  predicate Fits(fold: Fold, row: BookRow, line: StatementLine, byReference: bool) {
    && row.amount == line.amount
    && (!byReference || SameReference(fold, row, line))
  }

  /** The first entry from `i` on that is not taken and fits. */
  function First(fold: Fold, rows: seq<BookRow>, taken: set<nat>, line: StatementLine, byReference: bool, i: nat)
    : (r: Option<nat>)
    requires i <= |rows|
    ensures r.Some? ==> i <= r.value < |rows| && r.value !in taken && Fits(fold, rows[r.value], line, byReference)
    ensures r.None? ==> forall k | i <= k < |rows| :: k in taken || !Fits(fold, rows[k], line, byReference)
    decreases |rows| - i
  {
    if i == |rows| then None
    else if i !in taken && Fits(fold, rows[i], line, byReference) then Some(i)
    else First(fold, rows, taken, line, byReference, i + 1)
  }

  function Hit(fold: Fold, rows: seq<BookRow>, taken: set<nat>, line: StatementLine): Option<nat> {
    var byReference := First(fold, rows, taken, line, true, 0);
    if byReference.Some? then byReference else First(fold, rows, taken, line, false, 0)
  }

  function BookSide(pairs: seq<Pair>): set<nat> {
    if pairs == [] then {} else BookSide(pairs[..|pairs| - 1]) + {pairs[|pairs| - 1].book}
  }

  function StatementSide(pairs: seq<Pair>): set<nat> {
    if pairs == [] then {} else StatementSide(pairs[..|pairs| - 1]) + {pairs[|pairs| - 1].statement}
  }

  /** The pairs the greedy pass makes of the first statement lines. */
  function Greedy(fold: Fold, rows: seq<BookRow>, lines: seq<StatementLine>): seq<Pair> {
    if lines == [] then []
    else
      var n := |lines| - 1;
      var before := Greedy(fold, rows, lines[..n]);
      var hit := Hit(fold, rows, BookSide(before), lines[n]);
      if hit.Some? then before + [Pair(hit.value, n)] else before
  }

  // ------------------------------------------------------------------ matchings in general

  function BookAmounts(rows: seq<BookRow>): (r: seq<int>)
    ensures |r| == |rows| && forall i | 0 <= i < |rows| :: r[i] == rows[i].amount
  {
    if rows == [] then [] else BookAmounts(rows[..|rows| - 1]) + [rows[|rows| - 1].amount]
  }

  function StatementAmounts(lines: seq<StatementLine>): (r: seq<int>)
    ensures |r| == |lines| && forall i | 0 <= i < |lines| :: r[i] == lines[i].amount
  {
    if lines == [] then [] else StatementAmounts(lines[..|lines| - 1]) + [lines[|lines| - 1].amount]
  }

  /** Pairs of equal amount, no book entry and no statement line used twice. */
  ghost predicate IsMatching(book: seq<int>, statement: seq<int>, pairs: seq<Pair>) {
    pairs != [] ==>
      var init, last := pairs[..|pairs| - 1], pairs[|pairs| - 1];
      && IsMatching(book, statement, init)
      && last.book < |book| && last.statement < |statement|
      && book[last.book] == statement[last.statement]
      && last.book !in BookSide(init) && last.statement !in StatementSide(init)
  }

  /** The values at the positions that are not taken. */
  function Open<T>(xs: seq<T>, taken: set<nat>): multiset<T> {
    if xs == [] then multiset{}
    else
      var n := |xs| - 1;
      if n in taken then Open(xs[..n], taken) else Open(xs[..n], taken) + multiset{xs[n]}
  }

  lemma {:induction false} OpenAll<T>(xs: seq<T>)
    ensures Open(xs, {}) == multiset(xs)
  {
    if xs == [] {
    } else {
      OpenAll(xs[..|xs| - 1]);
      assert xs == xs[..|xs| - 1] + [xs[|xs| - 1]];
    }
  }

  lemma {:induction false} OpenIgnores<T>(xs: seq<T>, taken: set<nat>, i: nat)
    requires |xs| <= i
    ensures Open(xs, taken + {i}) == Open(xs, taken)
  {
    if xs == [] {
    } else {
      OpenIgnores(xs[..|xs| - 1], taken, i);
    }
  }

  /** Taking one position takes one value out of the open ones. */
  lemma {:induction false} OpenTake<T>(xs: seq<T>, taken: set<nat>, i: nat)
    requires i < |xs| && i !in taken
    ensures Open(xs, taken) == Open(xs, taken + {i}) + multiset{xs[i]}
  {
    var n := |xs| - 1;
    if i < n {
      OpenTake(xs[..n], taken, i);
    } else {
      OpenIgnores(xs[..n], taken, i);
    }
  }

  lemma {:induction false} OpenHas<T>(xs: seq<T>, taken: set<nat>, x: T)
    ensures x in Open(xs, taken) <==> exists i | 0 <= i < |xs| :: i !in taken && xs[i] == x
  {
    if xs == [] {
    } else {
      var n := |xs| - 1;
      OpenHas(xs[..n], taken, x);
      assert xs == xs[..n] + [xs[n]];
    }
  }

  lemma {:induction false} OpenEmpty<T>(xs: seq<T>, taken: set<nat>)
    ensures Open(xs, taken) == multiset{} <==> forall i | 0 <= i < |xs| :: i in taken
  {
    if xs == [] {
    } else {
      var n := |xs| - 1;
      OpenEmpty(xs[..n], taken);
      assert n !in taken ==> xs[n] in Open(xs, taken);
    }
  }

  function MatchedAmounts(book: seq<int>, pairs: seq<Pair>): multiset<int> {
    if pairs == [] then multiset{}
    else
      var last := pairs[|pairs| - 1];
      MatchedAmounts(book, pairs[..|pairs| - 1]) + if last.book < |book| then multiset{book[last.book]} else multiset{}
  }

  /** What is matched and what is open make up the whole, on both sides. */
  lemma {:induction false} MatchedAndOpen(book: seq<int>, statement: seq<int>, pairs: seq<Pair>)
    requires IsMatching(book, statement, pairs)
    ensures MatchedAmounts(book, pairs) + Open(book, BookSide(pairs)) == multiset(book)
    ensures MatchedAmounts(book, pairs) + Open(statement, StatementSide(pairs)) == multiset(statement)
    ensures |MatchedAmounts(book, pairs)| == |pairs|
  {
    if pairs == [] {
      OpenAll(book);
      OpenAll(statement);
    } else {
      var init, last := pairs[..|pairs| - 1], pairs[|pairs| - 1];
      MatchedAndOpen(book, statement, init);
      OpenTake(book, BookSide(init), last.book);
      OpenTake(statement, StatementSide(init), last.statement);
    }
  }

  lemma {:induction false} MoreStatement(book: seq<int>, statement: seq<int>, pairs: seq<Pair>, x: int)
    requires IsMatching(book, statement, pairs)
    ensures IsMatching(book, statement + [x], pairs)
    ensures forall k | k in StatementSide(pairs) :: k < |statement|
  {
    if pairs == [] {
    } else {
      MoreStatement(book, statement, pairs[..|pairs| - 1], x);
    }
  }

  // ------------------------------------------------------------------ greedy is maximum

  /**
   * The greedy pass makes a matching, and matches exactly the common amounts: of each amount
   * as many as the scarcer side has.
   */
  lemma {:induction false} GreedyMatchesCommon(fold: Fold, rows: seq<BookRow>, lines: seq<StatementLine>)
    ensures var book, statement, pairs := BookAmounts(rows), StatementAmounts(lines), Greedy(fold, rows, lines);
      && IsMatching(book, statement, pairs)
      && MatchedAmounts(book, pairs) == multiset(book) * multiset(statement)
  {
    if lines == [] {
    } else {
      GreedyMatchesCommon(fold, rows, lines[..|lines| - 1]);
      GreedyStep(fold, rows, lines);
    }
  }

  lemma {:induction false} GreedyStep(fold: Fold, rows: seq<BookRow>, lines: seq<StatementLine>)
    requires lines != []
    requires var book, statement := BookAmounts(rows), StatementAmounts(lines[..|lines| - 1]);
      var before := Greedy(fold, rows, lines[..|lines| - 1]);
      IsMatching(book, statement, before) && MatchedAmounts(book, before) == multiset(book) * multiset(statement)
    ensures var book, statement, pairs := BookAmounts(rows), StatementAmounts(lines), Greedy(fold, rows, lines);
      && IsMatching(book, statement, pairs)
      && MatchedAmounts(book, pairs) == multiset(book) * multiset(statement)
  {
    var n := |lines| - 1;
    var x, book := lines[n].amount, BookAmounts(rows);
    var statement, before := StatementAmounts(lines[..n]), Greedy(fold, rows, lines[..n]);
    var taken := BookSide(before);
    MatchedAndOpen(book, statement, before);
    MoreStatement(book, statement, before, x);
    assert StatementAmounts(lines) == statement + [x];
    var hit := Hit(fold, rows, taken, lines[n]);
    assert hit.Some? <==> x in Open(book, taken) by {
      HitIff(fold, rows, taken, lines[n]);
      OpenHas(book, taken, x);
    }
    CommonStep(multiset(book), multiset(statement), MatchedAmounts(book, before), Open(book, taken), x);
    if hit.Some? {
      HitIff(fold, rows, taken, lines[n]);
      var pairs := before + [Pair(hit.value, n)];
      assert pairs[..|pairs| - 1] == before;
    }
  }

  /** Counting: one more `x` on the right is common exactly when an `x` on the left is still open. */
  lemma {:induction false} CommonStep(b: multiset<int>, s: multiset<int>, m: multiset<int>, open: multiset<int>, x: int)
    requires m + open == b && m == b * s
    ensures b * (s + multiset{x}) == if x in open then m + multiset{x} else m
  {
    assert b[x] == m[x] + open[x];
  }

  /** A line finds an entry exactly when an open entry has its amount. */
  lemma {:induction false} HitIff(fold: Fold, rows: seq<BookRow>, taken: set<nat>, line: StatementLine)
    ensures var hit := Hit(fold, rows, taken, line);
      && (hit.Some? <==> exists i | 0 <= i < |rows| :: i !in taken && BookAmounts(rows)[i] == line.amount)
      && (hit.Some? ==> hit.value < |rows| && hit.value !in taken && rows[hit.value].amount == line.amount)
  {
  }

  lemma {:induction false} CommonBounds(b: multiset<int>, s: multiset<int>, m: multiset<int>, openB: multiset<int>,
                                        openS: multiset<int>)
    requires m + openB == b && m + openS == s
    ensures |m| <= |b * s|
  {
    assert m <= b && m <= s;
    assert b * s == m + (b * s - m);
  }

  /** No amount-respecting pairing matches more than the greedy pass. */
  lemma {:induction false} GreedyIsMaximum(fold: Fold, rows: seq<BookRow>, lines: seq<StatementLine>, other: seq<Pair>)
    requires IsMatching(BookAmounts(rows), StatementAmounts(lines), other)
    ensures |other| <= |Greedy(fold, rows, lines)|
  {
    var book, statement := BookAmounts(rows), StatementAmounts(lines);
    assert |Greedy(fold, rows, lines)| == |multiset(book) * multiset(statement)| by {
      GreedyMatchesCommon(fold, rows, lines);
      MatchedAndOpen(book, statement, Greedy(fold, rows, lines));
    }
    MatchedAndOpen(book, statement, other);
    CommonBounds(multiset(book), multiset(statement), MatchedAmounts(book, other), Open(book, BookSide(other)),
                 Open(statement, StatementSide(other)));
  }

  /** Nothing stays open on either side exactly when both sides have the same amounts. */
  lemma {:induction false} BalancedIff(fold: Fold, rows: seq<BookRow>, lines: seq<StatementLine>)
    ensures var book, statement, pairs := BookAmounts(rows), StatementAmounts(lines), Greedy(fold, rows, lines);
      (forall i | 0 <= i < |rows| :: i in BookSide(pairs)) && (forall k | 0 <= k < |lines| :: k in StatementSide(pairs))
      <==> multiset(book) == multiset(statement)
  {
    var book, statement, pairs := BookAmounts(rows), StatementAmounts(lines), Greedy(fold, rows, lines);
    GreedyMatchesCommon(fold, rows, lines);
    MatchedAndOpen(book, statement, pairs);
    OpenEmpty(book, BookSide(pairs));
    OpenEmpty(statement, StatementSide(pairs));
    NothingOpen(multiset(book), multiset(statement), MatchedAmounts(book, pairs), Open(book, BookSide(pairs)),
                Open(statement, StatementSide(pairs)));
  }

  lemma {:induction false} NothingOpen(b: multiset<int>, s: multiset<int>, m: multiset<int>, openB: multiset<int>,
                                       openS: multiset<int>)
    requires m + openB == b && m + openS == s && m == b * s
    ensures openB == multiset{} && openS == multiset{} <==> b == s
  {
    if b == s {
      assert b * s == b;
      assert |m + openB| == |m| + |openB| && |m + openS| == |m| + |openS|;
    }
  }

  // ------------------------------------------------------------------ references

  /** What identifies an item: its comparable reference and its amount. */
  datatype Identity = Identity(reference: Option<string>, amount: int)

  function BookIdentities(fold: Fold, rows: seq<BookRow>): (r: seq<Identity>)
    ensures |r| == |rows|
    ensures forall i | 0 <= i < |rows| :: r[i] == Identity(Comparable(fold, rows[i].reference), rows[i].amount)
  {
    if rows == [] then []
    else
      var last := rows[|rows| - 1];
      BookIdentities(fold, rows[..|rows| - 1]) + [Identity(Comparable(fold, last.reference), last.amount)]
  }

  function StatementIdentities(fold: Fold, lines: seq<StatementLine>): (r: seq<Identity>)
    ensures |r| == |lines|
    ensures forall i | 0 <= i < |lines| :: r[i] == Identity(Comparable(fold, lines[i].reference), lines[i].amount)
  {
    if lines == [] then []
    else
      var last := lines[|lines| - 1];
      StatementIdentities(fold, lines[..|lines| - 1]) + [Identity(Comparable(fold, last.reference), last.amount)]
  }

  /** Line k is matched, in order, with an entry of its own reference and amount. */
  ghost predicate AllAgree(fold: Fold, rows: seq<BookRow>, lines: seq<StatementLine>, pairs: seq<Pair>) {
    && |pairs| == |lines|
    && forall k | 0 <= k < |lines| ::
      && pairs[k].statement == k && pairs[k].book < |rows|
      && rows[pairs[k].book].amount == lines[k].amount
      && Comparable(fold, rows[pairs[k].book].reference) == Comparable(fold, lines[k].reference)
  }

  /** While every line agreed with its entry, the open identities are the book's less the statement's. */
  lemma {:induction false} AgreeingOpen(fold: Fold, rows: seq<BookRow>, lines: seq<StatementLine>)
    requires AllAgree(fold, rows, lines, Greedy(fold, rows, lines))
    ensures Open(BookIdentities(fold, rows), BookSide(Greedy(fold, rows, lines)))
      + multiset(StatementIdentities(fold, lines)) == multiset(BookIdentities(fold, rows))
  {
    var ids := BookIdentities(fold, rows);
    if lines == [] {
      OpenAll(ids);
    } else {
      var n := |lines| - 1;
      GreedyLength(fold, rows, lines[..n]);
      var before := Greedy(fold, rows, lines[..n]);
      AgreeingOpen(fold, rows, lines[..n]);
      var hit := Hit(fold, rows, BookSide(before), lines[n]);
      OpenTake(ids, BookSide(before), hit.value);
      assert StatementIdentities(fold, lines) == StatementIdentities(fold, lines[..n]) + [ids[hit.value]];
    }
  }

  lemma {:induction false} GreedyLength(fold: Fold, rows: seq<BookRow>, lines: seq<StatementLine>)
    ensures |Greedy(fold, rows, lines)| <= |lines|
  {
    if lines == [] {
    } else {
      GreedyLength(fold, rows, lines[..|lines| - 1]);
    }
  }

  /**
   * With no blank reference on the statement, every line is matched with an entry of its own
   * reference exactly when the book holds the statement's references and amounts, counted.
   */
  lemma {:induction false} ReferencesAgreeIff(fold: Fold, rows: seq<BookRow>, lines: seq<StatementLine>)
    requires forall k | 0 <= k < |lines| :: Comparable(fold, lines[k].reference).Some?
    ensures AllAgree(fold, rows, lines, Greedy(fold, rows, lines))
      <==> multiset(StatementIdentities(fold, lines)) <= multiset(BookIdentities(fold, rows))
  {
    if AllAgree(fold, rows, lines, Greedy(fold, rows, lines)) {
      AgreeingOpen(fold, rows, lines);
    } else if multiset(StatementIdentities(fold, lines)) <= multiset(BookIdentities(fold, rows)) {
      ContainedAgrees(fold, rows, lines);
    }
  }

  lemma {:induction false} ContainedAgrees(fold: Fold, rows: seq<BookRow>, lines: seq<StatementLine>)
    requires forall k | 0 <= k < |lines| :: Comparable(fold, lines[k].reference).Some?
    requires multiset(StatementIdentities(fold, lines)) <= multiset(BookIdentities(fold, rows))
    ensures AllAgree(fold, rows, lines, Greedy(fold, rows, lines))
  {
    if lines == [] {
    } else {
      var n := |lines| - 1;
      FewerIdentities(fold, lines);
      ContainedAgrees(fold, rows, lines[..n]);
      NextAgrees(fold, rows, lines);
    }
  }

  lemma {:induction false} FewerIdentities(fold: Fold, lines: seq<StatementLine>)
    requires lines != []
    ensures multiset(StatementIdentities(fold, lines[..|lines| - 1])) <= multiset(StatementIdentities(fold, lines))
  {
  }

  lemma {:induction false} StillOpen<T>(all: multiset<T>, done: multiset<T>, open: multiset<T>, x: T)
    requires open + done == all && done + multiset{x} <= all
    ensures x in open
  {
    assert all[x] == open[x] + done[x];
  }

  /** With the earlier lines agreeing, the last line still finds an entry of its own reference. */
  lemma {:induction false} NextAgrees(fold: Fold, rows: seq<BookRow>, lines: seq<StatementLine>)
    requires lines != [] && Comparable(fold, lines[|lines| - 1].reference).Some?
    requires multiset(StatementIdentities(fold, lines)) <= multiset(BookIdentities(fold, rows))
    requires AllAgree(fold, rows, lines[..|lines| - 1], Greedy(fold, rows, lines[..|lines| - 1]))
    ensures AllAgree(fold, rows, lines, Greedy(fold, rows, lines))
  {
    var n := |lines| - 1;
    var before := Greedy(fold, rows, lines[..n]);
    var ids, taken := BookIdentities(fold, rows), BookSide(before);
    var last := Identity(Comparable(fold, lines[n].reference), lines[n].amount);
    AgreeingOpen(fold, rows, lines[..n]);
    assert multiset(StatementIdentities(fold, lines)) == multiset(StatementIdentities(fold, lines[..n])) + multiset{last};
    StillOpen(multiset(ids), multiset(StatementIdentities(fold, lines[..n])), Open(ids, taken), last);
    ReferenceFound(fold, rows, taken, lines[n]);
    AgreePush(fold, rows, lines, before, First(fold, rows, taken, lines[n], true, 0).value);
  }

  lemma {:induction false} ReferenceFound(fold: Fold, rows: seq<BookRow>, taken: set<nat>, line: StatementLine)
    requires Comparable(fold, line.reference).Some?
    requires Identity(Comparable(fold, line.reference), line.amount) in Open(BookIdentities(fold, rows), taken)
    ensures First(fold, rows, taken, line, true, 0).Some?
  {
    var ids := BookIdentities(fold, rows);
    OpenHas(ids, taken, Identity(Comparable(fold, line.reference), line.amount));
    var i :| 0 <= i < |ids| && i !in taken && ids[i] == Identity(Comparable(fold, line.reference), line.amount);
    assert Fits(fold, rows[i], line, true);
  }

  lemma {:induction false} AgreePush(fold: Fold, rows: seq<BookRow>, lines: seq<StatementLine>, before: seq<Pair>,
                                     hit: nat)
    requires lines != [] && AllAgree(fold, rows, lines[..|lines| - 1], before)
    requires hit < |rows| && Fits(fold, rows[hit], lines[|lines| - 1], true)
    ensures AllAgree(fold, rows, lines, before + [Pair(hit, |lines| - 1)])
  {
  }

  // ------------------------------------------------------------------ the matching loop

  /** The flags in the book say which entries the pairs used. */
  ghost predicate Flagged(entries: seq<BookEntry>, rows: seq<BookRow>, taken: set<nat>) {
    && |entries| == |rows|
    && forall i | 0 <= i < |rows| :: entries[i].row == rows[i] && (entries[i].matched <==> i in taken)
  }

  method Position(fold: Fold, book: array<BookEntry>, line: StatementLine, byReference: bool, ghost rows: seq<BookRow>,
                  ghost taken: set<nat>) returns (hit: Option<nat>)
    requires Flagged(book[..], rows, taken)
    ensures hit == First(fold, rows, taken, line, byReference, 0)
  {
    var i := 0;
    while i < book.Length
      invariant 0 <= i <= book.Length
      invariant First(fold, rows, taken, line, byReference, 0) == First(fold, rows, taken, line, byReference, i)
    {
      assert book[..][i] == book[i];
      if !book[i].matched && Fits(fold, book[i].row, line, byReference) {
        return Some(i);
      }
      i := i + 1;
    }
    hit := None;
  }

  datatype Outcome = Outcome(matched: seq<Pair>, openStatement: seq<nat>, openBook: seq<nat>, closingStatement: int,
                             difference: int, balanced: bool)

  function Sum(xs: seq<int>): int {
    if xs == [] then 0 else Sum(xs[..|xs| - 1]) + xs[|xs| - 1]
  }

  /** The positions below `n` outside `taken`, in order. */
  function Rest(n: nat, taken: set<nat>): (r: seq<nat>)
    ensures forall x: nat :: x in r <==> x < n && x !in taken
  {
    if n == 0 then []
    else
      var below := Rest(n - 1, taken);
      if n - 1 in taken then below else below + [n - 1]
  }

  /** The pairs and the open lines after `n` statement lines. */
  ghost predicate Processed(fold: Fold, rows: seq<BookRow>, lines: seq<StatementLine>, n: nat, matched: seq<Pair>,
                            openStatement: seq<nat>)
    requires n <= |lines|
  {
    && matched == Greedy(fold, rows, lines[..n])
    && (forall k | k in StatementSide(matched) :: k < n)
    && openStatement == Rest(n, StatementSide(matched))
  }

  lemma {:induction false} ProcessNext(fold: Fold, rows: seq<BookRow>, lines: seq<StatementLine>, n: nat,
                                       matched: seq<Pair>, openStatement: seq<nat>, hit: Option<nat>)
    requires n < |lines| && Processed(fold, rows, lines, n, matched, openStatement)
    requires hit == Hit(fold, rows, BookSide(matched), lines[n])
    ensures hit.None? ==> Processed(fold, rows, lines, n + 1, matched, openStatement + [n])
    ensures hit.Some? ==> Processed(fold, rows, lines, n + 1, matched + [Pair(hit.value, n)], openStatement)
    ensures hit.Some? ==> BookSide(matched + [Pair(hit.value, n)]) == BookSide(matched) + {hit.value}
  {
    GreedyNext(fold, rows, lines, n);
    if hit.Some? {
      SidesPush(matched, Pair(hit.value, n));
      RestIgnores(n, StatementSide(matched), n);
    }
  }

  lemma {:induction false} GreedyNext(fold: Fold, rows: seq<BookRow>, lines: seq<StatementLine>, n: nat)
    requires n < |lines|
    ensures var before := Greedy(fold, rows, lines[..n]);
      var hit := Hit(fold, rows, BookSide(before), lines[n]);
      Greedy(fold, rows, lines[..n + 1]) == if hit.Some? then before + [Pair(hit.value, n)] else before
  {
    assert lines[..n + 1][..n] == lines[..n];
  }

  lemma {:induction false} SidesPush(pairs: seq<Pair>, p: Pair)
    ensures BookSide(pairs + [p]) == BookSide(pairs) + {p.book}
    ensures StatementSide(pairs + [p]) == StatementSide(pairs) + {p.statement}
  {
    assert (pairs + [p])[..|pairs|] == pairs;
  }

  lemma {:induction false} SumNext(lines: seq<StatementLine>, n: nat)
    requires n < |lines|
    ensures Sum(StatementAmounts(lines[..n + 1])) == Sum(StatementAmounts(lines[..n])) + lines[n].amount
  {
    assert lines[..n + 1][..n] == lines[..n];
    assert StatementAmounts(lines[..n + 1])[..n] == StatementAmounts(lines[..n]);
  }

  lemma {:induction false} FlagOne(entries: seq<BookEntry>, rows: seq<BookRow>, taken: set<nat>, i: nat)
    requires Flagged(entries, rows, taken) && i < |entries|
    ensures Flagged(entries[i := entries[i].(matched := true)], rows, taken + {i})
  {
  }

  /** The matching loop: flags the book in place and collects pairs and leftovers. */
  method MatchLines(fold: Fold, book: array<BookEntry>, lines: seq<StatementLine>, ghost rows: seq<BookRow>)
    returns (matched: seq<Pair>, openStatement: seq<nat>, total: int)
    requires Flagged(book[..], rows, {})
    modifies book
    ensures matched == Greedy(fold, rows, lines)
    ensures Flagged(book[..], rows, BookSide(matched))
    ensures openStatement == Rest(|lines|, StatementSide(matched))
    ensures total == Sum(StatementAmounts(lines))
  {
    matched, openStatement, total := [], [], 0;
    var n := 0;
    while n < |lines|
      invariant 0 <= n <= |lines|
      invariant Processed(fold, rows, lines, n, matched, openStatement)
      invariant total == Sum(StatementAmounts(lines[..n]))
      invariant Flagged(book[..], rows, BookSide(matched))
    {
      var hit := Position(fold, book, lines[n], true, rows, BookSide(matched));
      if hit.None? {
        hit := Position(fold, book, lines[n], false, rows, BookSide(matched));
      }
      ProcessNext(fold, rows, lines, n, matched, openStatement, hit);
      SumNext(lines, n);
      if hit.Some? {
        FlagOne(book[..], rows, BookSide(matched), hit.value);
        var was := book[hit.value];
        book[hit.value] := was.(matched := true);
        matched := matched + [Pair(hit.value, n)];
      } else {
        openStatement := openStatement + [n];
      }
      total := total + lines[n].amount;
      n := n + 1;
    }
    assert lines[..n] == lines;
  }

  method Reconcile(fold: Fold, rows: seq<BookRow>, lines: seq<StatementLine>, closingBook: int)
    returns (r: Outcome)
    ensures r.matched == Greedy(fold, rows, lines)
    ensures r.openBook == Rest(|rows|, BookSide(r.matched))
    ensures r.openStatement == Rest(|lines|, StatementSide(r.matched))
    ensures r.balanced <==> multiset(BookAmounts(rows)) == multiset(StatementAmounts(lines))
    ensures r.closingStatement == Sum(StatementAmounts(lines)) && r.difference == closingBook - r.closingStatement
  {
    var book := new BookEntry[|rows|](i requires 0 <= i < |rows| => BookEntry(rows[i], false));
    var matched, openStatement, total := MatchLines(fold, book, lines, rows);
    var openBook := Unmatched(book, rows, BookSide(matched));
    BalancedIff(fold, rows, lines);
    RestEmpty(|rows|, BookSide(matched));
    RestEmpty(|lines|, StatementSide(matched));
    r := Outcome(matched, openStatement, openBook, total, closingBook - total, |openBook| == 0 && |openStatement| == 0);
  }

  method Unmatched(book: array<BookEntry>, ghost rows: seq<BookRow>, ghost taken: set<nat>)
    returns (open: seq<nat>)
    requires Flagged(book[..], rows, taken)
    ensures open == Rest(book.Length, taken)
  {
    open := [];
    var i := 0;
    while i < book.Length
      invariant 0 <= i <= book.Length
      invariant open == Rest(i, taken)
    {
      assert book[..][i] == book[i];
      if !book[i].matched {
        open := open + [i];
      }
      i := i + 1;
    }
  }

  lemma {:induction false} RestIgnores(n: nat, taken: set<nat>, x: nat)
    requires n <= x
    ensures Rest(n, taken + {x}) == Rest(n, taken)
  {
    if n == 0 {
    } else {
      RestIgnores(n - 1, taken, x);
    }
  }

  lemma {:induction false} RestEmpty(n: nat, taken: set<nat>)
    ensures Rest(n, taken) == [] <==> forall x | 0 <= x < n :: x in taken
  {
    if n == 0 {
    } else {
      RestEmpty(n - 1, taken);
    }
  }
}
