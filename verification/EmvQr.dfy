/**
 * The EMV QRCPS merchant-presented payload: which profiles are refused and in what order, the
 * objects an accepted one is built from, and the checksum that seals it. The currency table is
 * a parameter: a map from alphabetic to three-character numeric codes.
 */
module EmvQr {
  import opened Wrappers
  import opened Text
  import opened ByteValues
  import opened Tlv
  import opened Crc16

  const MAX_NAME := 25
  const MAX_CITY := 15
  const MAX_REFERENCE := 25
  const MAX_AMOUNT := 13
  const MAX_ACCOUNT := 32

  datatype Profile = Profile(name: string, city: string, country: string, mcc: string, gui: string,
                             identifier: string, initiation: string)

  /** What the payload is built from; the amount is in whole cents. */
  datatype Request = Request(profile: Profile, currency: string, cents: Option<int>, reference: Option<string>)

  datatype EmvError =
    | MerchantNameTooLong(n: nat)
    | MerchantCityTooLong(n: nat)
    | InvalidCountry(country: string)
    | InvalidMcc(mcc: string)
    | InvalidInitiation(initiation: string)
    | InvalidMerchantAccount
    | CurrencyNotSupported(currency: string)
    | InvalidAmount
    | AmountTooLong
    | ReferenceTooLong(n: nat)

  // ------------------------------------------------------------------ folding

  predicate Printable(c: char) {
    0x20 <= c as int <= 0x7E
  }

  predicate AllPrintable(s: string) {
    forall i | 0 <= i < |s| :: Printable(s[i])
  }

  predicate CombiningMark(c: char) {
    0x300 <= c as int <= 0x36F
  }

  /** The accent table: every entry folds to one plain letter, everything else stays. */
  function Plain(c: char): char {
    var n := c as int;
    if 0xC0 <= n <= 0xC5 then 'A' else if 0xE0 <= n <= 0xE5 then 'a'
    else if 0xC8 <= n <= 0xCB then 'E' else if 0xE8 <= n <= 0xEB then 'e'
    else if 0xCC <= n <= 0xCF then 'I' else if 0xEC <= n <= 0xEF then 'i'
    else if 0xD2 <= n <= 0xD6 then 'O' else if 0xF2 <= n <= 0xF6 then 'o'
    else if 0xD9 <= n <= 0xDC then 'U' else if 0xF9 <= n <= 0xFC then 'u'
    else if n == 0xDD then 'Y' else if n == 0xFD || n == 0xFF then 'y'
    else if n == 0xD1 then 'N' else if n == 0xF1 then 'n'
    else if n == 0xC7 then 'C' else if n == 0xE7 then 'c'
    else if n == 0x110 then 'D' else if n == 0x111 then 'd'
    else c
  }

  predicate Kept(c: char) {
    !CombiningMark(c) && Printable(c)
  }

  function FoldChars(s: string): (r: string)
    ensures AllPrintable(r) && |r| <= |s|
  {
    if s == "" then ""
    else
      var c := Plain(s[|s| - 1]);
      if Kept(c) then FoldChars(s[..|s| - 1]) + [c] else FoldChars(s[..|s| - 1])
  }

  function Fold(s: string): string {
    Trim(FoldChars(Trim(s)))
  }

  /** The folding loop. */
  method FoldAlphanum(text: string) returns (out: string)
    ensures out == Fold(text)
  {
    var t, folded, i := Trim(text), "", 0;
    while i < |t|
      invariant 0 <= i <= |t|
      invariant folded == FoldChars(t[..i])
    {
      var c := Plain(t[i]);
      assert t[..i + 1][..i] == t[..i];
      if Kept(c) {
        folded := folded + [c];
      }
      i := i + 1;
    }
    assert t[..i] == t;
    out := Trim(folded);
  }

  lemma {:induction false} FoldCharsKeeps(s: string)
    requires AllPrintable(s)
    ensures FoldChars(s) == s
  {
    if s == "" {
    } else {
      FoldCharsKeeps(s[..|s| - 1]);
      assert Plain(s[|s| - 1]) == s[|s| - 1];
    }
  }

  lemma {:induction false} TrimPrintable(s: string)
    requires AllPrintable(s)
    ensures AllPrintable(Trim(s))
  {
    TrimLeftPrintable(s);
    TrimRightPrintable(TrimLeft(s));
  }

  lemma {:induction false} TrimLeftPrintable(s: string)
    requires AllPrintable(s)
    ensures AllPrintable(TrimLeft(s))
  {
    if s != "" && IsWhitespace(s[0]) {
      TrimLeftPrintable(s[1..]);
    }
  }

  lemma {:induction false} TrimRightPrintable(s: string)
    requires AllPrintable(s)
    ensures AllPrintable(TrimRight(s))
  {
    if s != "" && IsWhitespace(s[|s| - 1]) {
      TrimRightPrintable(s[..|s| - 1]);
    }
  }

  lemma {:induction false} FoldPrintable(s: string)
    ensures AllPrintable(Fold(s))
  {
    TrimPrintable(FoldChars(Trim(s)));
  }

  /** Folded text is printable ASCII, is not padded, and folding it again changes nothing. */
  lemma {:induction false} FoldSettles(s: string)
    ensures AllPrintable(Fold(s))
    ensures var f := Fold(s); f != "" ==> !IsWhitespace(f[0]) && !IsWhitespace(f[|f| - 1])
    ensures Fold(Fold(s)) == Fold(s)
  {
    var f := Fold(s);
    FoldPrintable(s);
    TrimBlank(FoldChars(Trim(s)));
    TrimTrimmed(f);
    FoldCharsKeeps(f);
  }

  lemma {:induction false} TrimTrimmed(s: string)
    requires s != "" ==> !IsWhitespace(s[0]) && !IsWhitespace(s[|s| - 1])
    ensures Trim(s) == s
  {
  }

  function Upper(s: string): (r: string)
    ensures |r| == |s|
  {
    if s == "" then ""
    else
      var c := s[|s| - 1];
      Upper(s[..|s| - 1]) + [if 'a' <= c <= 'z' then (c as int - 32) as char else c]
  }

  predicate Letters(s: string) {
    forall i | 0 <= i < |s| :: 'a' <= s[i] <= 'z' || 'A' <= s[i] <= 'Z'
  }

  // ------------------------------------------------------------------ the amount

  /** Cents as a decimal with a point and two places. */
  function AmountText(cents: nat): (s: string)
    ensures AllPrintable(s)
  {
    Decimal(cents / 100) + "." + Padded(cents % 100)
  }

  /** The text denotes the amount: digits, a point, two digits. */
  lemma {:induction false} AmountTextMeans(cents: nat)
    ensures var s := AmountText(cents);
      && |s| >= 4 && s[|s| - 3] == '.' && AllDigits(s[..|s| - 3]) && AllDigits(s[|s| - 2..])
      && 100 * DecimalValue(s[..|s| - 3]) + DecimalValue(s[|s| - 2..]) == cents
  {
    var s := AmountText(cents);
    var whole, part := Decimal(cents / 100), Padded(cents % 100);
    assert s[..|s| - 3] == whole && s[|s| - 2..] == part;
    DecimalBack(cents / 100);
    TwoDigitsBack(cents % 100);
  }

  /** Up to ten digits before the point fit. */
  lemma {:induction false} AmountFitsIff(cents: nat)
    ensures |AmountText(cents)| <= MAX_AMOUNT <==> cents < 1_000_000_000_000
  {
    DecimalLength(cents / 100, 10);
    TenDigits();
  }

  lemma {:induction false} TenDigits()
    ensures Power(10) == 10_000_000_000
  {
    assert Power(5) == 100_000;
  }

  lemma {:induction false} TwoDigitsBack(n: nat)
    requires n < 100
    ensures DecimalValue(Padded(n)) == n
  {
    var s := Padded(n);
    assert s == [DigitChar(n / 10), DigitChar(n % 10)];
    assert s[..1] == [DigitChar(n / 10)] && s[..1][..0] == "";
    assert DecimalValue("") == 0;
    assert DecimalValue(s[..1]) == n / 10;
  }

  // ------------------------------------------------------------------ which profiles are refused

  predicate AccountText(s: string) {
    0 < |s| <= MAX_ACCOUNT && AllPrintable(s)
  }

  type Currencies = map<string, string>

  predicate TableOk(table: Currencies) {
    forall k | k in table :: |table[k]| == 3 && AllPrintable(table[k])
  }

  function FoldedReference(r: Request): string {
    if r.reference.Some? then Fold(r.reference.value) else ""
  }

  /** The first check that fails, in order. */
  function Refusal(table: Currencies, r: Request): Option<EmvError> {
    var p := r.profile;
    var name, city := Fold(p.name), Fold(p.city);
    var country, mcc := Upper(Trim(p.country)), Trim(p.mcc);
    if name == "" || |name| > MAX_NAME then Some(MerchantNameTooLong(|name|))
    else if city == "" || |city| > MAX_CITY then Some(MerchantCityTooLong(|city|))
    else if |country| != 2 || !Letters(country) then Some(InvalidCountry(p.country))
    else if |mcc| != 4 || !AllDigits(mcc) then Some(InvalidMcc(p.mcc))
    else if Trim(p.initiation) != "11" && Trim(p.initiation) != "12" then Some(InvalidInitiation(p.initiation))
    else if !AccountText(Trim(p.gui)) || !AccountText(Trim(p.identifier)) then Some(InvalidMerchantAccount)
    else if Upper(Trim(r.currency)) !in table then Some(CurrencyNotSupported(r.currency))
    else if r.cents.Some? && r.cents.value <= 0 then Some(InvalidAmount)
    else if r.cents.Some? && |AmountText(r.cents.value)| > MAX_AMOUNT then Some(AmountTooLong)
    else if |FoldedReference(r)| > MAX_REFERENCE then Some(ReferenceTooLong(|FoldedReference(r)|))
    else None
  }

  // ------------------------------------------------------------------ the objects of a payload

  function Account(p: Profile): seq<Field> {
    [Field("00", Trim(p.gui)), Field("01", Trim(p.identifier))]
  }

  function AmountField(r: Request): seq<Field>
    requires r.cents.Some? ==> r.cents.value >= 0
  {
    if r.cents.Some? then [Field("54", AmountText(r.cents.value))] else []
  }

  function ReferenceField(r: Request): seq<Field> {
    var reference := FoldedReference(r);
    if reference == "" then [] else [Field("62", PrintAll([Field("01", reference)]))]
  }

  function MerchantFields(p: Profile, currency: string): seq<Field> {
    [Field("00", "01"), Field("01", Trim(p.initiation)), Field("26", PrintAll(Account(p))),
     Field("52", Trim(p.mcc)), Field("53", currency)]
  }

  function PlaceFields(p: Profile): seq<Field> {
    [Field("58", Upper(Trim(p.country))), Field("59", Fold(p.name)), Field("60", Fold(p.city))]
  }

  /** The objects of an accepted request, in wire order. */
  function Objects(table: Currencies, r: Request): seq<Field>
    requires Refusal(table, r).None?
  {
    MerchantFields(r.profile, table[Upper(Trim(r.currency))]) + AmountField(r) + PlaceFields(r.profile)
    + ReferenceField(r)
  }

  // ------------------------------------------------------------------ the seal

  function Byte(c: char): bv8
    requires Printable(c)
  {
    c as int as bv8
  }

  function Bytes(s: string): (r: seq<bv8>)
    requires AllPrintable(s)
    ensures |r| == |s| && forall i | 0 <= i < |s| :: r[i] == Byte(s[i])
  {
    if s == "" then [] else Bytes(s[..|s| - 1]) + [Byte(s[|s| - 1])]
  }

  function BitValue(b: Bit): nat {
    if b == I then 1 else 0
  }

  function HexChar(n: nat): (c: char)
    requires n < 16
    ensures Printable(c)
  {
    if n < 10 then ('0' as int + n) as char else ('A' as int + n - 10) as char
  }

  function HexValue(c: char): Option<nat> {
    if '0' <= c <= '9' then Some(c as int - '0' as int)
    else if 'A' <= c <= 'F' then Some(c as int - 'A' as int + 10)
    else None
  }

  function Nibble(a: Bit, b: Bit, c: Bit, d: Bit): (n: nat)
    ensures n < 16
  {
    8 * BitValue(a) + 4 * BitValue(b) + 2 * BitValue(c) + BitValue(d)
  }

  /** A register as four upper-case hexadecimal digits. */
  function Hex(s: Register): (r: string)
    ensures |r| == 4 && AllPrintable(r)
  {
    [HexChar(Nibble(s.b15, s.b14, s.b13, s.b12)), HexChar(Nibble(s.b11, s.b10, s.b9, s.b8)),
     HexChar(Nibble(s.b7, s.b6, s.b5, s.b4)), HexChar(Nibble(s.b3, s.b2, s.b1, s.b0))]
  }

  lemma {:induction false} HexCharInjective(m: nat, n: nat)
    requires m < 16 && n < 16
    ensures HexChar(m) == HexChar(n) ==> m == n
    ensures HexValue(HexChar(m)) == Some(m)
  {
  }

  lemma {:induction false} NibbleInjective(a: Bit, b: Bit, c: Bit, d: Bit, e: Bit, f: Bit, g: Bit, h: Bit)
    ensures Nibble(a, b, c, d) == Nibble(e, f, g, h) ==> a == e && b == f && c == g && d == h
  {
  }

  /** Four hexadecimal digits determine the register. */
  lemma {:induction false} HexInjective(s: Register, t: Register)
    requires Hex(s) == Hex(t)
    ensures s == t
  {
    var x, y := Hex(s), Hex(t);
    assert x[0] == y[0] && x[1] == y[1] && x[2] == y[2] && x[3] == y[3];
    HexCharInjective(Nibble(s.b15, s.b14, s.b13, s.b12), Nibble(t.b15, t.b14, t.b13, t.b12));
    HexCharInjective(Nibble(s.b11, s.b10, s.b9, s.b8), Nibble(t.b11, t.b10, t.b9, t.b8));
    HexCharInjective(Nibble(s.b7, s.b6, s.b5, s.b4), Nibble(t.b7, t.b6, t.b5, t.b4));
    HexCharInjective(Nibble(s.b3, s.b2, s.b1, s.b0), Nibble(t.b3, t.b2, t.b1, t.b0));
    NibbleInjective(s.b15, s.b14, s.b13, s.b12, t.b15, t.b14, t.b13, t.b12);
    NibbleInjective(s.b11, s.b10, s.b9, s.b8, t.b11, t.b10, t.b9, t.b8);
    NibbleInjective(s.b7, s.b6, s.b5, s.b4, t.b7, t.b6, t.b5, t.b4);
    NibbleInjective(s.b3, s.b2, s.b1, s.b0, t.b3, t.b2, t.b1, t.b0);
  }

  /** The last four characters are the checksum of everything before them. */
  predicate Sealed(payload: string) {
    var n := |payload| - 4;
    && n >= 0 && AllPrintable(payload[..n])
    && payload[n..] == Hex(Crc(Bytes(payload[..n])))
  }

  // ------------------------------------------------------------------ building

  /** An object that can go on the wire as it is. */
  predicate Fits(f: Field) {
    Wire(f) && AllPrintable(f.id) && AllPrintable(f.value)
  }

  ghost predicate AllFit(fields: seq<Field>) {
    forall i | 0 <= i < |fields| :: Fits(fields[i])
  }

  lemma {:induction false} DigitsPrintable(s: string)
    requires AllDigits(s)
    ensures AllPrintable(s)
  {
  }

  lemma {:induction false} PrintPrintable(fields: seq<Field>)
    requires AllFit(fields)
    ensures AllPrintable(PrintAll(fields)) && AllWire(fields)
  {
    if fields == [] {
    } else {
      PrintPrintable(fields[1..]);
      DigitsPrintable(Padded(|fields[0].value|));
    }
  }

  lemma {:induction false} UpperPrintable(s: string)
    requires Letters(s)
    ensures AllPrintable(s)
  {
  }

  lemma {:induction false} PrintTwo(f: Field, g: Field)
    ensures PrintAll([f, g]) == Print(f) + Print(g) && PrintAll([f]) == Print(f)
  {
    assert [f, g][1..] == [g] && [g][1..] == [] && [f][1..] == [];
    assert PrintAll([]) == "";
  }

  /** Tag 26 takes at most 72 characters. */
  lemma {:induction false} AccountFits(p: Profile)
    requires AccountText(Trim(p.gui)) && AccountText(Trim(p.identifier))
    ensures AllFit(Account(p)) && |PrintAll(Account(p))| <= 72 && AllPrintable(PrintAll(Account(p)))
  {
    PrintTwo(Account(p)[0], Account(p)[1]);
    PrintPrintable(Account(p));
  }

  lemma {:induction false} MerchantFit(p: Profile, currency: string)
    requires AccountText(Trim(p.gui)) && AccountText(Trim(p.identifier))
    requires |Trim(p.initiation)| == 2 && AllPrintable(Trim(p.initiation))
    requires |Trim(p.mcc)| == 4 && AllDigits(Trim(p.mcc)) && |currency| == 3 && AllPrintable(currency)
    ensures AllFit(MerchantFields(p, currency))
  {
    DigitsPrintable(Trim(p.mcc));
    AccountFits(p);
  }

  lemma {:induction false} PlaceFit(p: Profile)
    requires |Fold(p.name)| <= MAX_NAME && |Fold(p.city)| <= MAX_CITY
    requires |Trim(p.country)| == 2 && Letters(Upper(Trim(p.country)))
    ensures AllFit(PlaceFields(p))
  {
    FoldPrintable(p.name);
    FoldPrintable(p.city);
    UpperPrintable(Upper(Trim(p.country)));
  }

  lemma {:induction false} AmountFits(r: Request)
    requires r.cents.Some? ==> r.cents.value > 0 && |AmountText(r.cents.value)| <= MAX_AMOUNT
    ensures AllFit(AmountField(r))
  {
  }

  lemma {:induction false} ReferenceFits(r: Request)
    requires |FoldedReference(r)| <= MAX_REFERENCE
    ensures AllFit(ReferenceField(r))
    ensures FoldedReference(r) != "" ==> AllFit([Field("01", FoldedReference(r))])
  {
    if FoldedReference(r) != "" {
      FoldPrintable(r.reference.value);
      var inner := Field("01", FoldedReference(r));
      PrintTwo(inner, inner);
      PrintPrintable([inner]);
    }
  }

  lemma {:induction false} FitsJoin(a: seq<Field>, b: seq<Field>)
    requires AllFit(a) && AllFit(b)
    ensures AllFit(a + b)
  {
  }

  /** Every object of an accepted request fits the wire format. */
  lemma {:induction false} ObjectsFit(table: Currencies, r: Request)
    requires TableOk(table) && Refusal(table, r).None?
    ensures AllFit(Objects(table, r))
  {
    var head, middle := MerchantFields(r.profile, table[Upper(Trim(r.currency))]), PlaceFields(r.profile);
    MerchantFit(r.profile, table[Upper(Trim(r.currency))]);
    PlaceFit(r.profile);
    AmountFits(r);
    ReferenceFits(r);
    FitsJoin(head, AmountField(r));
    FitsJoin(head + AmountField(r), middle);
    FitsJoin(head + AmountField(r) + middle, ReferenceField(r));
  }

  /** The payload of a list of objects: printed, sealed with tag 63 over everything before its value. */
  function Seal(fields: seq<Field>): string
    requires AllPrintable(PrintAll(fields))
  {
    var body := PrintAll(fields) + "6304";
    body + Hex(Crc(Bytes(body)))
  }

  /** The checksum value as it stands in a payload. */
  function Trailer(payload: string): string
    requires |payload| >= 4
  {
    payload[|payload| - 4..]
  }

  /**
   * A sealed payload parses back to exactly its objects, followed by tag 63, whose value is
   * the checksum of everything before it.
   */
  lemma {:induction false} SealedParses(fields: seq<Field>)
    requires AllFit(fields)
    ensures AllPrintable(PrintAll(fields))
    ensures var payload := Seal(fields);
      Sealed(payload) && Parse(payload) == Some(fields + [Field("63", Trailer(payload))])
  {
    PrintPrintable(fields);
    var body := PrintAll(fields) + "6304";
    SealedText(body, Hex(Crc(Bytes(body))));
    TaggedSeal(fields, Hex(Crc(Bytes(body))));
  }

  lemma {:induction false} SealedText(body: string, hex: string)
    requires AllPrintable(body) && hex == Hex(Crc(Bytes(body)))
    ensures Sealed(body + hex) && Trailer(body + hex) == hex
  {
    assert (body + hex)[..|body|] == body;
  }

  /** The header of tag 63 and four digits are one more object. */
  lemma {:induction false} TaggedSeal(fields: seq<Field>, hex: string)
    requires AllWire(fields) && |hex| == 4
    ensures Parse(PrintAll(fields) + "6304" + hex) == Some(fields + [Field("63", hex)])
  {
    PrintPush(fields, Field("63", hex));
    SealHeader(PrintAll(fields), hex);
    ParsePrinted(fields + [Field("63", hex)]);
  }

  lemma {:induction false} SealHeader(text: string, hex: string)
    requires |hex| == 4
    ensures text + "6304" + hex == text + Print(Field("63", hex))
  {
    assert Padded(|hex|) == ['0', '4'];
    assert Print(Field("63", hex)) == "6304" + hex;
  }

  /** The nested templates parse too: tag 26 to the merchant account, tag 62 to the reference. */
  lemma {:induction false} TemplatesParse(table: Currencies, r: Request)
    requires Refusal(table, r).None?
    ensures Parse(PrintAll(Account(r.profile))) == Some(Account(r.profile))
    ensures |PrintAll(Account(r.profile))| <= 72
    ensures FoldedReference(r) != "" ==>
      ReferenceField(r) == [Field("62", PrintAll([Field("01", FoldedReference(r))]))]
      && Parse(ReferenceField(r)[0].value) == Some([Field("01", FoldedReference(r))])
  {
    AccountFits(r.profile);
    ParsePrinted(Account(r.profile));
    ReferenceFits(r);
    if FoldedReference(r) != "" {
      ParsePrinted([Field("01", FoldedReference(r))]);
    }
  }

  lemma {:induction false} ByteBack(c: char)
    requires Printable(c)
    ensures Byte(c) as int == c as int
  {
    LowByte(c as int);
  }

  lemma {:induction false} BytesDiffer(c: char, d: char)
    requires Printable(c) && Printable(d)
    ensures Byte(c) == Byte(d) ==> c == d
  {
    ByteBack(c);
    ByteBack(d);
  }

  lemma {:induction false} SealedSplit(body: string, hex: string)
    requires |hex| == 4
    ensures Sealed(body + hex) <==> AllPrintable(body) && hex == Hex(Crc(Bytes(body)))
  {
    assert (body + hex)[..|body|] == body && (body + hex)[|body|..] == hex;
  }

  /** Changing one character or two adjacent ones of a sealed payload, before its checksum, breaks the seal. */
  lemma {:induction false} AlterationDetected(body: string, altered: string, seal: string, i: nat)
    requires |seal| == 4 && Sealed(body + seal) && |altered| == |body| && altered != body && i < |body|
    requires forall k | 0 <= k < |body| && k != i && k != i + 1 :: altered[k] == body[k]
    ensures !Sealed(altered + seal)
  {
    SealedSplit(body, seal);
    SealedSplit(altered, seal);
    SomeDiffers(body, altered, i);
    if AllPrintable(altered) {
      SealsDiffer(body, altered, seal, i);
    }
  }

  lemma {:induction false} SomeDiffers(s: string, t: string, i: nat)
    requires |s| == |t| && s != t && i < |s| && forall k | 0 <= k < |s| && k != i && k != i + 1 :: t[k] == s[k]
    ensures s[i] != t[i] || (i + 1 < |s| && s[i + 1] != t[i + 1])
  {
    var k :| 0 <= k < |s| && s[k] != t[k];
  }

  lemma {:induction false} SealsDiffer(s: string, t: string, seal: string, i: nat)
    requires AllPrintable(s) && AllPrintable(t) && |s| == |t| && i < |s|
    requires s[i] != t[i] || (i + 1 < |s| && s[i + 1] != t[i + 1])
    requires forall k | 0 <= k < |s| && k != i && k != i + 1 :: t[k] == s[k]
    requires seal == Hex(Crc(Bytes(s)))
    ensures seal != Hex(Crc(Bytes(t)))
  {
    AlteredBytes(s, t, i);
    if seal == Hex(Crc(Bytes(t))) {
      HexInjective(Crc(Bytes(s)), Crc(Bytes(t)));
    }
  }

  lemma {:induction false} AlteredBytes(s: string, t: string, i: nat)
    requires AllPrintable(s) && AllPrintable(t) && |s| == |t| && i < |s|
    requires s[i] != t[i] || (i + 1 < |s| && s[i + 1] != t[i + 1])
    requires forall k | 0 <= k < |s| && k != i && k != i + 1 :: t[k] == s[k]
    ensures Crc(Bytes(s)) != Crc(Bytes(t))
  {
    var a, b := Bytes(s), Bytes(t);
    var j := if s[i] != t[i] then i else i + 1;
    BytesDiffer(s[j], t[j]);
    assert a[j] != b[j];
    AdjacentBytesDetected(a, b, i);
  }

  // ------------------------------------------------------------------ the builder

  /** Refuses in order, or appends the objects one by one and seals the text. */
  method BuildPayload(table: Currencies, r: Request) returns (result: Result<string, EmvError>)
    requires TableOk(table)
    ensures result.Err? <==> Refusal(table, r).Some?
    ensures result.Err? ==> Refusal(table, r) == Some(result.error)
    ensures result.Ok? ==>
      && Sealed(result.value)
      && Parse(result.value) == Some(Objects(table, r) + [Field("63", Trailer(result.value))])
  {
    var p := r.profile;
    var name := FoldAlphanum(p.name);
    if name == "" || |name| > MAX_NAME {
      return Err(MerchantNameTooLong(|name|));
    }
    var city := FoldAlphanum(p.city);
    if city == "" || |city| > MAX_CITY {
      return Err(MerchantCityTooLong(|city|));
    }
    var country := Upper(Trim(p.country));
    if |country| != 2 || !Letters(country) {
      return Err(InvalidCountry(p.country));
    }
    var mcc := Trim(p.mcc);
    if |mcc| != 4 || !AllDigits(mcc) {
      return Err(InvalidMcc(p.mcc));
    }
    var initiation := Trim(p.initiation);
    if initiation != "11" && initiation != "12" {
      return Err(InvalidInitiation(p.initiation));
    }
    if !AccountText(Trim(p.gui)) || !AccountText(Trim(p.identifier)) {
      return Err(InvalidMerchantAccount);
    }
    var code := Upper(Trim(r.currency));
    if code !in table {
      return Err(CurrencyNotSupported(r.currency));
    }
    if r.cents.Some? && r.cents.value <= 0 {
      return Err(InvalidAmount);
    }
    if r.cents.Some? && |AmountText(r.cents.value)| > MAX_AMOUNT {
      return Err(AmountTooLong);
    }
    var reference := "";
    if r.reference.Some? {
      reference := FoldAlphanum(r.reference.value);
    }
    if |reference| > MAX_REFERENCE {
      return Err(ReferenceTooLong(|reference|));
    }
    var payload := AppendObjects(table, r);
    ObjectsFit(table, r);
    SealedParses(Objects(table, r));
    var crc := Compute(Bytes(payload + "6304"));
    result := Ok(payload + "6304" + Hex(Word(crc)));
  }

  /** One object appended to the text. */
  method Push(payload: string, f: Field, ghost done: seq<Field>) returns (longer: string, ghost all: seq<Field>)
    requires payload == PrintAll(done)
    ensures all == done + [f] && longer == PrintAll(all)
  {
    PrintPush(done, f);
    longer, all := payload + Print(f), done + [f];
  }

  lemma {:induction false} FivePushed(a: Field, b: Field, c: Field, d: Field, e: Field)
    ensures [] + [a] + [b] + [c] + [d] + [e] == [a, b, c, d, e]
  {
  }

  method PushMerchant(p: Profile, currency: string) returns (payload: string)
    ensures payload == PrintAll(MerchantFields(p, currency))
  {
    ghost var done: seq<Field>;
    payload, done := Push("", Field("00", "01"), []);
    payload, done := Push(payload, Field("01", Trim(p.initiation)), done);
    payload, done := Push(payload, Field("26", PrintAll(Account(p))), done);
    payload, done := Push(payload, Field("52", Trim(p.mcc)), done);
    payload, done := Push(payload, Field("53", currency), done);
    FivePushed(Field("00", "01"), Field("01", Trim(p.initiation)), Field("26", PrintAll(Account(p))),
               Field("52", Trim(p.mcc)), Field("53", currency));
  }

  method PushPlace(text: string, p: Profile, ghost before: seq<Field>) returns (payload: string)
    requires text == PrintAll(before)
    ensures payload == PrintAll(before + PlaceFields(p))
  {
    ghost var done: seq<Field>;
    payload, done := Push(text, Field("58", Upper(Trim(p.country))), before);
    payload, done := Push(payload, Field("59", Fold(p.name)), done);
    payload, done := Push(payload, Field("60", Fold(p.city)), done);
    assert done == before + PlaceFields(p);
  }

  method AppendObjects(table: Currencies, r: Request) returns (payload: string)
    requires Refusal(table, r).None?
    ensures payload == PrintAll(Objects(table, r))
  {
    payload := PushMerchant(r.profile, table[Upper(Trim(r.currency))]);
    ghost var merchant := MerchantFields(r.profile, table[Upper(Trim(r.currency))]);
    ghost var done := merchant;
    if r.cents.Some? {
      payload, done := Push(payload, Field("54", AmountText(r.cents.value)), done);
    }
    assert done == merchant + AmountField(r);
    payload := PushPlace(payload, r.profile, done);
    done := done + PlaceFields(r.profile);
    payload, done := PushReference(payload, r, done);
  }

  method PushReference(text: string, r: Request, ghost before: seq<Field>) returns (payload: string,
                       ghost all: seq<Field>)
    requires text == PrintAll(before)
    ensures all == before + ReferenceField(r) && payload == PrintAll(all)
  {
    payload, all := text, before;
    if FoldedReference(r) != "" {
      payload, all := Push(text, Field("62", PrintAll([Field("01", FoldedReference(r))])), before);
    }
  }
}
