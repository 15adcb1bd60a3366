/**
 * Tag-length-value objects: a two-character id, a two-digit length, the value. Printing and
 * parsing are inverse to each other.
 */
module Tlv {
  import opened Wrappers

  // ------------------------------------------------------------------ decimal digits

  predicate IsDigit(c: char) {
    '0' <= c <= '9'
  }

  function DigitChar(d: nat): (c: char)
    requires d < 10
    ensures IsDigit(c) && DigitValue(c) == d
  {
    ('0' as int + d) as char
  }

  function DigitValue(c: char): (d: nat)
    requires IsDigit(c)
    ensures d < 10
  {
    c as int - '0' as int
  }

  lemma {:induction false} DigitBack(c: char)
    requires IsDigit(c)
    ensures DigitChar(DigitValue(c)) == c
  {
  }

  predicate AllDigits(s: string) {
    forall i | 0 <= i < |s| :: IsDigit(s[i])
  }

  /** A number without leading zeros. */
  function Decimal(n: nat): (s: string)
    ensures |s| >= 1 && AllDigits(s)
  {
    if n < 10 then [DigitChar(n)] else Decimal(n / 10) + [DigitChar(n % 10)]
  }

  function DecimalValue(s: string): nat
    requires AllDigits(s)
  {
    if s == "" then 0 else 10 * DecimalValue(s[..|s| - 1]) + DigitValue(s[|s| - 1])
  }

  lemma {:induction false} DecimalBack(n: nat)
    ensures DecimalValue(Decimal(n)) == n
  {
    var s := Decimal(n);
    if n < 10 {
      assert s[..0] == "";
    } else {
      DecimalBack(n / 10);
      assert s[..|s| - 1] == Decimal(n / 10);
    }
  }

  function Power(k: nat): nat {
    if k == 0 then 1 else 10 * Power(k - 1)
  }

  /** A number has at most k digits exactly when it is below 10^k. */
  lemma {:induction false} DecimalLength(n: nat, k: nat)
    requires k >= 1
    ensures |Decimal(n)| <= k <==> n < Power(k)
  {
    assert Power(k) == 10 * Power(k - 1);
    if n >= 10 {
      if k > 1 {
        DecimalLength(n / 10, k - 1);
      } else {
        assert Power(0) == 1;
      }
    } else {
      PowerPositive(k - 1);
    }
  }

  lemma {:induction false} PowerPositive(k: nat)
    ensures Power(k) >= 1
  {
    if k == 0 {
    } else {
      PowerPositive(k - 1);
    }
  }

  /** At least two digits. */
  function Padded(n: nat): (s: string)
    ensures |s| >= 2 && AllDigits(s)
    ensures n < 100 ==> s == [DigitChar(n / 10), DigitChar(n % 10)]
  {
    if n < 10 then "0" + Decimal(n)
    else
      assert n < 100 ==> Decimal(n / 10) == [DigitChar(n / 10)];
      Decimal(n)
  }

  // ------------------------------------------------------------------ objects

  datatype Field = Field(id: string, value: string)

  function Print(f: Field): string {
    f.id + Padded(|f.value|) + f.value
  }

  function PrintAll(fields: seq<Field>): string {
    if fields == [] then "" else Print(fields[0]) + PrintAll(fields[1..])
  }

  /** What the format can carry: two-character ids and two-digit lengths. */
  predicate Wire(f: Field) {
    |f.id| == 2 && |f.value| <= 99
  }

  predicate AllWire(fields: seq<Field>) {
    forall i | 0 <= i < |fields| :: Wire(fields[i])
  }

  function Parse(s: string): Option<seq<Field>> {
    if s == "" then Some([])
    else if |s| < 4 || !IsDigit(s[2]) || !IsDigit(s[3]) then None
    else
      var n := 10 * DigitValue(s[2]) + DigitValue(s[3]);
      if |s| < 4 + n then None
      else
        var rest := Parse(s[4 + n..]);
        if rest.None? then None else Some([Field(s[..2], s[4..4 + n])] + rest.value)
  }

  lemma {:induction false} ParseFirst(f: Field, rest: string)
    requires Wire(f)
    ensures var s := Print(f) + rest;
      Parse(s) == if Parse(rest).None? then None else Some([f] + Parse(rest).value)
  {
    var s, n := Print(f) + rest, |f.value|;
    assert s[..2] == f.id && s[2] == DigitChar(n / 10) && s[3] == DigitChar(n % 10);
    assert s[4..4 + n] == f.value && s[4 + n..] == rest;
  }

  /** Parsing what was printed gives back the fields. */
  lemma {:induction false} ParsePrinted(fields: seq<Field>)
    requires AllWire(fields)
    ensures Parse(PrintAll(fields)) == Some(fields)
  {
    if fields == [] {
    } else {
      ParsePrinted(fields[1..]);
      ParseFirst(fields[0], PrintAll(fields[1..]));
      assert [fields[0]] + fields[1..] == fields;
    }
  }

  /** A header read as digits is the padded length. */
  lemma {:induction false} HeaderBack(a: char, b: char)
    requires IsDigit(a) && IsDigit(b)
    ensures Padded(10 * DigitValue(a) + DigitValue(b)) == [a, b]
  {
    DigitBack(a);
    DigitBack(b);
  }

  lemma {:induction false} CutApart(s: string, n: nat)
    requires |s| >= 4 + n
    ensures s == s[..2] + [s[2], s[3]] + s[4..4 + n] + s[4 + n..]
  {
  }

  /** Whatever parses was printed: the text has no other reading. */
  lemma {:induction false} PrintParsed(s: string)
    requires Parse(s).Some?
    ensures AllWire(Parse(s).value) && PrintAll(Parse(s).value) == s
  {
    if s == "" {
    } else {
      var n := 10 * DigitValue(s[2]) + DigitValue(s[3]);
      PrintParsed(s[4 + n..]);
      PrintParsedStep(s, n, Parse(s[4 + n..]).value, Parse(s).value);
    }
  }

  lemma {:induction false} PrintParsedStep(s: string, n: nat, rest: seq<Field>, all: seq<Field>)
    requires |s| >= 4 + n && IsDigit(s[2]) && IsDigit(s[3]) && n == 10 * DigitValue(s[2]) + DigitValue(s[3])
    requires AllWire(rest) && PrintAll(rest) == s[4 + n..] && all == [Field(s[..2], s[4..4 + n])] + rest
    ensures AllWire(all) && PrintAll(all) == s
  {
    HeaderBack(s[2], s[3]);
    CutApart(s, n);
    assert all[1..] == rest;
    assert Print(all[0]) == s[..2] + [s[2], s[3]] + s[4..4 + n];
  }

  lemma {:induction false} PrintPush(fields: seq<Field>, f: Field)
    ensures PrintAll(fields + [f]) == PrintAll(fields) + Print(f)
  {
    if fields == [] {
      assert [f][1..] == [];
    } else {
      assert (fields + [f])[1..] == fields[1..] + [f];
      PrintPush(fields[1..], f);
    }
  }
}
