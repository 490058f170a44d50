/** The invoice number `INV-YYYYMMDD-NNN`: the year, the month and day
    zero-padded to two digits, and a random suffix zero-padded to three. The
    clock and the random source are parameters. */
module InvoiceNumber {
  import opened Text

  /** The calendar fields of the handler's clock reading: the full year, the
      month counted from 0 (as Date.prototype.getMonth) and the day of the
      month. */
  datatype Date = Date(year: int, monthIndex: int, day: int)

  predicate ValidDate(d: Date) {
    0 <= d.monthIndex <= 11 && 1 <= d.day <= 31
  }

  /** The suffix drawn from a random number in [0, 1): floor(rand * 1000). */
  function Suffix(rand: real): (n: nat)
    requires 0.0 <= rand < 1.0
    ensures n <= 999
    ensures n as real <= rand * 1000.0 < n as real + 1.0
  {
    (rand * 1000.0).Floor
  }

  function Format(today: Date, suffix: nat): string
    requires ValidDate(today)
  {
    "INV-" + IntToDecimal(today.year)
      + PadStart(NatToDecimal(today.monthIndex + 1), 2, '0')
      + PadStart(NatToDecimal(today.day), 2, '0')
      + "-" + PadStart(NatToDecimal(suffix), 3, '0')
  }

  datatype Parsed = Malformed | Fields(year: nat, month: nat, day: nat, suffix: nat)

  /** Reads back a 16-character invoice number with a 4-digit year. */
  function Parse(s: string): Parsed {
    if |s| == 16 && s[..4] == "INV-" && s[12] == '-'
       && AllDigits(s[4..8]) && AllDigits(s[8..10]) && AllDigits(s[10..12]) && AllDigits(s[13..])
    then Fields(DigitsValue(s[4..8]), DigitsValue(s[8..10]), DigitsValue(s[10..12]), DigitsValue(s[13..]))
    else Malformed
  }

  /** Any string of the invoice-number shape reads back to its digit groups. */
  lemma ParseShape(y: string, m: string, d: string, n: string)
    requires |y| == 4 && |m| == 2 && |d| == 2 && |n| == 3
    requires AllDigits(y) && AllDigits(m) && AllDigits(d) && AllDigits(n)
    ensures |"INV-" + y + m + d + "-" + n| == 16
    ensures Parse("INV-" + y + m + d + "-" + n) == Fields(DigitsValue(y), DigitsValue(m), DigitsValue(d), DigitsValue(n))
  {
    var s := "INV-" + y + m + d + "-" + n;
    assert s[..4] == "INV-";
    assert s[4..8] == y;
    assert s[8..10] == m;
    assert s[10..12] == d;
    assert s[12] == '-';
    assert s[13..] == n;
  }

  /** A four-digit year renders as four digits reading back to the year. */
  lemma YearGroup(year: int)
    requires 1000 <= year <= 9999
    ensures |IntToDecimal(year)| == 4 && AllDigits(IntToDecimal(year)) && DigitsValue(IntToDecimal(year)) == year
  {
    assert Pow10(3) == 1000 && Pow10(4) == 10000;
    DecimalLength(year, 4);
  }

  /** A number below 100 pads to two digits reading back to it. */
  lemma TwoDigitGroup(v: nat)
    requires v < 100
    ensures var g := PadStart(NatToDecimal(v), 2, '0');
      |g| == 2 && AllDigits(g) && DigitsValue(g) == v
  {
    assert Pow10(2) == 100;
    ZeroPadded(v, 2);
  }

  /** A number below 1000 pads to three digits reading back to it. */
  lemma ThreeDigitGroup(v: nat)
    requires v < 1000
    ensures var g := PadStart(NatToDecimal(v), 3, '0');
      |g| == 3 && AllDigits(g) && DigitsValue(g) == v
  {
    assert Pow10(3) == 1000;
    ZeroPadded(v, 3);
  }

  /** For a four-digit year the number is 16 characters long and reads back
      to the year, the month counted from 1, the day and the suffix. */
  lemma FormatRoundTrip(today: Date, suffix: nat)
    requires ValidDate(today) && 1000 <= today.year <= 9999 && suffix <= 999
    ensures |Format(today, suffix)| == 16
    ensures Parse(Format(today, suffix)) == Fields(today.year, today.monthIndex + 1, today.day, suffix)
  {
    var y := IntToDecimal(today.year);
    var m := PadStart(NatToDecimal(today.monthIndex + 1), 2, '0');
    var d := PadStart(NatToDecimal(today.day), 2, '0');
    var n := PadStart(NatToDecimal(suffix), 3, '0');
    YearGroup(today.year);
    TwoDigitGroup(today.monthIndex + 1);
    TwoDigitGroup(today.day);
    ThreeDigitGroup(suffix);
    ParseShape(y, m, d, n);
    assert Format(today, suffix) == "INV-" + y + m + d + "-" + n;
  }

  /** Every suffix the random source can yield gives a well-formed number. */
  lemma RandomSuffixParses(today: Date, rand: real)
    requires ValidDate(today) && 1000 <= today.year <= 9999 && 0.0 <= rand < 1.0
    ensures Parse(Format(today, Suffix(rand))).Fields?
    ensures Parse(Format(today, Suffix(rand))).suffix == Suffix(rand)
  {
    FormatRoundTrip(today, Suffix(rand));
  }
}
