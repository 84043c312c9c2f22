/** Invoice-number minting: `{store}-SINV-NNNNNN` in RetailSaleService and
    `{prefix}-{yyyyMM}-NNNN` in SalesService. Both read the newest matching
    number, parse its numeric suffix and add one. */
module Numbering {
  import opened Wrappers
  import opened Text
  import opened Models

  /** `WHERE invoice_number LIKE prefix% ORDER BY created_at DESC LIMIT 1`:
      the number of the most recently created sale that starts with `prefix`. */
  function LastMatching(sales: seq<SalesRetail>, prefix: string): (r: Option<string>)
    ensures r.Some? ==> prefix <= r.value
    ensures r.None? <==> forall i | 0 <= i < |sales| :: !(prefix <= sales[i].invoiceNumber)
    decreases |sales|
  {
    if |sales| == 0 then None
    else if prefix <= sales[|sales| - 1].invoiceNumber then Some(sales[|sales| - 1].invoiceNumber)
    else LastMatching(sales[..|sales| - 1], prefix)
  }

  /** The newest sale wins when it matches; otherwise it is invisible to the lookup. */
  lemma LastMatchingAppend(sales: seq<SalesRetail>, h: SalesRetail, prefix: string)
    ensures prefix <= h.invoiceNumber ==> LastMatching(sales + [h], prefix) == Some(h.invoiceNumber)
    ensures !(prefix <= h.invoiceNumber) ==> LastMatching(sales + [h], prefix) == LastMatching(sales, prefix)
  {
    assert (sales + [h])[..|sales|] == sales;
  }

  // ---------------------------------------------------------------- retail

  function RetailPattern(storeCode: string): string {
    storeCode + "-SINV-"
  }

  /** `{storeCode}-SINV-{n:D6}`. */
  function RetailNumber(storeCode: string, n: int): string {
    RetailPattern(storeCode) + FormatD(n, 6)
  }

  /** Stand-ins for the texts of `int.Parse`'s FormatException and
      OverflowException, whose wording depends on the .NET runtime. */
  const FormatError := "format error"
  const OverflowError := "overflow error"

  /** `int.Parse(s)`, throwing on a malformed or out-of-range suffix. */
  function ParseOrThrow(s: string): (r: Result<int>)
    ensures r.Success? <==> ParseInt32(s).Some?
    ensures r.Success? ==> r.value == ParseInt32(s).value
    ensures r.Failure? ==> r.message == (if |s| > 0 && AllDigits(s) then OverflowError else FormatError)
  {
    if |s| > 0 && AllDigits(s) then
      if Value(s) <= MaxInt32 then Success(Value(s)) else Failure(OverflowError)
    else Failure(FormatError)
  }

  /** `GenerateInvoiceNumberAsync` of the retail service, given the newest
      number matching `{storeCode}-SINV-%`. */
  function NextRetailNumber(storeCode: string, last: Option<string>): (r: Result<string>)
    ensures r.Success? ==> RetailPattern(storeCode) <= r.value
    ensures last.None? ==> r == Success(RetailNumber(storeCode, 1))
  {
    if last.None? || last.value == "" then Success(RetailNumber(storeCode, 1))
    else
      var lastNum :- ParseOrThrow(LastPart(last.value, '-'));
      Success(RetailNumber(storeCode, Wrap32(lastNum + 1)))
  }

  lemma RetailSuffix(storeCode: string, n: int)
    requires 0 <= n
    ensures '-' !in FormatD(n, 6)
    ensures RetailNumber(storeCode, n) == (storeCode + "-SINV") + ['-'] + FormatD(n, 6)
    ensures LastPart(RetailNumber(storeCode, n), '-') == FormatD(n, 6)
  {
    var d := FormatD(n, 6);
    assert forall i | 0 <= i < |d| :: d[i] != '-';
    assert RetailNumber(storeCode, n) == (storeCode + "-SINV") + ['-'] + d;
    LastPartAfterSeparator(storeCode + "-SINV", '-', d);
  }

  /** Parsing the suffix of a minted number gives back its sequence value. */
  lemma RetailNumberRoundTrip(storeCode: string, n: int)
    requires 0 <= n <= MaxInt32
    ensures ParseInt32(LastPart(RetailNumber(storeCode, n), '-')) == Some(n)
  {
    RetailSuffix(storeCode, n);
    FormatDParse(n, 6);
  }

  /** The number after `n` is `n + 1`, in the same store's format. */
  lemma RetailNumberSuccessor(storeCode: string, n: int)
    requires 0 <= n < MaxInt32
    ensures NextRetailNumber(storeCode, Some(RetailNumber(storeCode, n))) == Success(RetailNumber(storeCode, n + 1))
  {
    RetailNumberRoundTrip(storeCode, n);
  }

  /** Numbers 1..999999 are fixed width: six digits after the pattern. */
  lemma RetailNumberWidth(storeCode: string, n: int)
    requires 1 <= n <= 999999
    ensures |RetailNumber(storeCode, n)| == |storeCode| + 12
  {
    assert Pow10(6) == 1000000;
    FormatDWidth(n, 6);
  }

  /** Distinct sequence values give distinct numbers. */
  lemma RetailNumberInjective(storeCode: string, n: int, m: int)
    requires 0 <= n <= MaxInt32 && 0 <= m <= MaxInt32
    requires RetailNumber(storeCode, n) == RetailNumber(storeCode, m)
    ensures n == m
  {
    RetailNumberRoundTrip(storeCode, n);
    RetailNumberRoundTrip(storeCode, m);
  }

  /** A non-numeric suffix makes `int.Parse` throw. */
  lemma RetailNumberNonNumericThrows(storeCode: string, junk: string)
    requires '-' !in junk && |junk| > 0 && !AllDigits(junk)
    ensures NextRetailNumber(storeCode, Some(storeCode + "-SINV-" + junk)).Failure?
  {
    assert storeCode + "-SINV-" + junk == (storeCode + "-SINV") + ['-'] + junk;
    LastPartAfterSeparator(storeCode + "-SINV", '-', junk);
  }

  lemma WrapAtMax()
    ensures Wrap32(MaxInt32 + 1) == MinInt32
  {
    assert MaxInt32 + 1 - MinInt32 == 0x1_0000_0000;
  }

  /** The suffix of a number minted from a negative value is the digits of
      its magnitude. */
  lemma NegativeSuffix(storeCode: string, n: int)
    requires n < 0
    ensures var d := LastPart(RetailNumber(storeCode, n), '-');
      |d| > 0 && AllDigits(d) && Value(d) == -n
  {
    var m: nat := -n;
    var d := PadLeft(Digits(m), 6, '0');
    PaddedValue(m, 6);
    assert forall i | 0 <= i < |d| :: d[i] != '-';
    assert RetailNumber(storeCode, n) == (storeCode + "-SINV-") + ['-'] + d;
    LastPartAfterSeparator(storeCode + "-SINV-", '-', d);
    assert LastPart(RetailNumber(storeCode, n), '-') == d;
  }

  /** A number minted from a negative value parses as out of `int` range
      exactly when that value is int.MinValue. */
  lemma NegativeSuffixThrows(storeCode: string, n: int)
    requires MinInt32 <= n < 0
    ensures NextRetailNumber(storeCode, Some(RetailNumber(storeCode, n))).Failure? <==> n == MinInt32
  {
    NegativeSuffix(storeCode, n);
  }

  /** After int.MaxValue the unchecked `+ 1` wraps to int.MinValue, whose
      suffix no longer parses: every later retail sale of the store fails. */
  lemma RetailNumberAfterMaxFails(storeCode: string)
    ensures NextRetailNumber(storeCode, Some(RetailNumber(storeCode, MaxInt32))) == Success(RetailNumber(storeCode, MinInt32))
    ensures NextRetailNumber(storeCode, Some(RetailNumber(storeCode, MinInt32))).Failure?
  {
    RetailNumberRoundTrip(storeCode, MaxInt32);
    WrapAtMax();
    NegativeSuffixThrows(storeCode, MinInt32);
  }

  /** The first number of a store. */
  lemma RetailFirstNumber(storeCode: string)
    ensures RetailNumber(storeCode, 1) == storeCode + "-SINV-000001"
  {
    assert Digits(1) == "1";
    assert Repeat('0', 5) == "00000";
    assert FormatD(1, 6) == "000001";
  }

  /** Once a number n + 1 is the newest of its store, the next one is n + 2. */
  lemma RetailNextAfterAppend(sales: seq<SalesRetail>, h: SalesRetail, storeCode: string, n: int)
    requires h.invoiceNumber == RetailNumber(storeCode, n + 1) && 0 <= n < MaxInt32 - 1
    ensures LastMatching(sales + [h], RetailPattern(storeCode)) == Some(RetailNumber(storeCode, n + 1))
    ensures NextRetailNumber(storeCode, LastMatching(sales + [h], RetailPattern(storeCode))) == Success(RetailNumber(storeCode, n + 2))
  {
    LastMatchingAppend(sales, h, RetailPattern(storeCode));
    RetailNumberSuccessor(storeCode, n + 1);
  }

  // ---------------------------------------------------------------- monthly

  /** `{prefix}-{yyyy}{MM}-`. */
  function MonthlyPattern(prefix: string, year: nat, month: nat): string {
    prefix + "-" + Digits(year) + FormatD(month, 2) + "-"
  }

  /** `{prefix}-{yyyy}{MM}-{sequence:D4}`. */
  function MonthlyNumber(prefix: string, year: nat, month: nat, sequence: int): string {
    MonthlyPattern(prefix, year, month) + FormatD(sequence, 4)
  }

  /** SalesService as written: the sequence after `last` is its third '-'
      piece plus one; it silently restarts at 1 when there is no such piece
      or it does not parse. */
  function MonthlySequenceAsWritten(last: Option<string>): (n: int)
    ensures n >= 1 || n == MinInt32
    ensures last.None? ==> n == 1
  {
    if last.None? || last.value == "" then 1
    else
      var parts := Split(last.value, '-');
      if |parts| >= 3 && ParseInt32(parts[2]).Some? then Wrap32(ParseInt32(parts[2]).value + 1) else 1
  }

  /** The corrected sequence: the LAST '-' piece plus one, so that a prefix
      containing '-' does not shift the piece that is read. */
  function MonthlySequence(last: Option<string>): (n: int)
    ensures n >= 1 || n == MinInt32
    ensures last.None? ==> n == 1
  {
    if last.None? || last.value == "" then 1
    else
      var suffix := LastPart(last.value, '-');
      if ParseInt32(suffix).Some? then Wrap32(ParseInt32(suffix).value + 1) else 1
  }

  /** `GenerateInvoiceNumberAsync` of the sales service, as written: the
      sequence is read from the third '-' piece of the newest number. */
  function NextMonthlyNumber(prefix: string, clock: Clock, last: Option<string>): (r: string)
    ensures MonthlyPattern(prefix, clock.year, clock.month) <= r
    ensures last.None? ==> r == MonthlyPattern(prefix, clock.year, clock.month) + "0001"
  {
    MonthlyNumber(prefix, clock.year, clock.month, MonthlySequenceAsWritten(last))
  }

  lemma MonthlyNumberHasPattern(prefix: string, year: nat, month: nat, n: int)
    ensures MonthlyPattern(prefix, year, month) <= MonthlyNumber(prefix, year, month, n)
  {
  }

  lemma MonthlyPieces(prefix: string, year: nat, month: nat, n: int)
    requires 0 <= n
    ensures '-' !in FormatD(n, 4)
    ensures '-' !in Digits(year) + FormatD(month, 2)
    ensures MonthlyNumber(prefix, year, month, n) == prefix + ['-'] + (Digits(year) + FormatD(month, 2)) + ['-'] + FormatD(n, 4)
  {
    NoHyphenInDigits(FormatD(n, 4));
    NoHyphenInDigits(Digits(year));
    NoHyphenInDigits(FormatD(month, 2));
    var ym := Digits(year) + FormatD(month, 2);
    assert MonthlyPattern(prefix, year, month) == prefix + ['-'] + ym + ['-'];
  }

  lemma NoHyphenInDigits(s: string)
    requires AllDigits(s)
    ensures '-' !in s
  {
    assert forall i | 0 <= i < |s| :: s[i] != '-';
  }

  /** For any prefix, the corrected sequence after a minted number is its successor. */
  lemma MonthlySuccessor(prefix: string, year: nat, month: nat, n: int)
    requires 0 <= n < MaxInt32
    ensures MonthlySequence(Some(MonthlyNumber(prefix, year, month, n))) == n + 1
  {
    MonthlyPieces(prefix, year, month, n);
    var ym := Digits(year) + FormatD(month, 2);
    assert MonthlyNumber(prefix, year, month, n) == (prefix + ['-'] + ym) + ['-'] + FormatD(n, 4);
    LastPartAfterSeparator(prefix + ['-'] + ym, '-', FormatD(n, 4));
    FormatDParse(n, 4);
  }

  /** As written, the sequence after a number with three '-' pieces is its
      third piece plus one. */
  lemma AsWrittenThreePieces(a: string, b: string, c: string)
    requires '-' !in a && '-' !in b && '-' !in c
    requires ParseInt32(c).Some?
    ensures MonthlySequenceAsWritten(Some(a + ['-'] + b + ['-'] + c)) == Wrap32(ParseInt32(c).value + 1)
  {
    SplitThree(a, b, c, '-');
  }

  /** With a '-'-free prefix, as the default "INV", the code as written and
      the corrected sequence agree on every minted number. */
  lemma MonthlyAsWrittenAgrees(prefix: string, year: nat, month: nat, n: int)
    requires '-' !in prefix
    requires 0 <= n < MaxInt32
    ensures MonthlySequenceAsWritten(Some(MonthlyNumber(prefix, year, month, n))) == n + 1
    ensures MonthlySequence(Some(MonthlyNumber(prefix, year, month, n))) == n + 1
  {
    MonthlyPieces(prefix, year, month, n);
    FormatDParse(n, 4);
    AsWrittenThreePieces(prefix, Digits(year) + FormatD(month, 2), FormatD(n, 4));
    MonthlySuccessor(prefix, year, month, n);
  }

  /** As written, a last number with fewer than three pieces, or a
      non-numeric third piece, restarts the sequence at 1. */
  lemma MonthlyAsWrittenRestarts(a: string, b: string, c: string)
    requires '-' !in a && '-' !in b && '-' !in c
    requires !AllDigits(c) || |c| == 0
    ensures MonthlySequenceAsWritten(Some(a)) == 1
    ensures MonthlySequenceAsWritten(Some(a + ['-'] + b)) == 1
    ensures MonthlySequenceAsWritten(Some(a + ['-'] + b + ['-'] + c)) == 1
  {
    SplitNoSeparator(a, '-');
    SplitNoSeparator(b, '-');
    SplitNoSeparator(c, '-');
    SplitHead(a, '-', b);
    SplitHead(a, '-', b + ['-'] + c);
    assert a + ['-'] + b + ['-'] + c == a + ['-'] + (b + ['-'] + c);
    SplitHead(b, '-', c);
  }

  /** The defect as written: when the prefix has one '-', as "HW-INV", the
      third piece is the yyyyMM part, so the sequence after ANY number of the
      month is yyyyMM + 1. */
  lemma MonthlyAsWrittenReadsMonth(a: string, b: string, year: nat, month: nat, n: int)
    requires '-' !in a && '-' !in b
    requires 0 <= n && month < 100
    requires year * 100 + month < MaxInt32
    ensures MonthlySequenceAsWritten(Some(MonthlyNumber(a + "-" + b, year, month, n))) == year * 100 + month + 1
  {
    var ym := Digits(year) + FormatD(month, 2);
    HyphenatedThirdPiece(a, b, year, month, n);
    YearMonthValue(year, month);
    assert ParseInt32(ym) == Some(year * 100 + month);
  }

  /** With a prefix `a-b`, the third '-' piece of a monthly number is yyyyMM. */
  lemma HyphenatedThirdPiece(a: string, b: string, year: nat, month: nat, n: int)
    requires '-' !in a && '-' !in b && 0 <= n
    ensures var parts := Split(MonthlyNumber(a + "-" + b, year, month, n), '-');
      |parts| == 4 && parts[2] == Digits(year) + FormatD(month, 2)
  {
    var ym := Digits(year) + FormatD(month, 2);
    var d := FormatD(n, 4);
    MonthlyPieces(a + "-" + b, year, month, n);
    assert MonthlyNumber(a + "-" + b, year, month, n) == a + ['-'] + b + ['-'] + ym + ['-'] + d;
    SplitFour(a, b, ym, d, '-');
  }

  /** The yyyyMM piece reads as the number year * 100 + month. */
  lemma YearMonthValue(year: nat, month: nat)
    requires month < 100
    ensures AllDigits(Digits(year) + FormatD(month, 2))
    ensures Value(Digits(year) + FormatD(month, 2)) == year * 100 + month
  {
    ValueOfDigits(year);
    FormatD2Value(month);
    ValueAppend(Digits(year), FormatD(month, 2));
    assert Pow10(2) == 100;
  }

  /** Hence the number yyyyMM + 1 is minted again after itself: every sale of
      the month after the first gets the same invoice number. */
  lemma MonthlyAsWrittenRepeats(a: string, b: string, year: nat, month: nat)
    requires '-' !in a && '-' !in b
    requires month < 100
    requires year * 100 + month < MaxInt32
    ensures var last := MonthlyNumber(a + "-" + b, year, month, year * 100 + month + 1);
      MonthlyNumber(a + "-" + b, year, month, MonthlySequenceAsWritten(Some(last))) == last
  {
    MonthlyAsWrittenReadsMonth(a, b, year, month, year * 100 + month + 1);
  }

  /** The concrete case: prefix "HW-INV" in October 2026. After
      "HW-INV-202610-0001" comes "HW-INV-202610-202611", and then
      "HW-INV-202610-202611" again. The corrected sequence gives 2, 3, ... */
  lemma MonthlyAsWrittenExample()
    ensures MonthlySequenceAsWritten(Some(MonthlyNumber("HW-INV", 2026, 10, 1))) == 202611
    ensures MonthlySequenceAsWritten(Some(MonthlyNumber("HW-INV", 2026, 10, 202611))) == 202611
    ensures MonthlySequence(Some(MonthlyNumber("HW-INV", 2026, 10, 1))) == 2
  {
    assert "HW-INV" == "HW" + "-" + "INV";
    MonthlyAsWrittenReadsMonth("HW", "INV", 2026, 10, 1);
    MonthlyAsWrittenReadsMonth("HW", "INV", 2026, 10, 202611);
    MonthlySuccessor("HW-INV", 2026, 10, 1);
  }
}
