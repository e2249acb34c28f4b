/** The name a report is saved under: its arrival time in Go's layout
    "2006-01-02.15-04-05" followed by ".log". */
module LogFile {

  /** A wall-clock time as Go's time.Time hands out its fields. */
  datatype DateTime = DateTime(year: int, month: int, day: int, hour: int, minute: int, second: int)

  /** A time of a four-digit year, as the clock gives it. */
  predicate Valid(t: DateTime) {
    && 0 <= t.year <= 9999 && 1 <= t.month <= 12 && 1 <= t.day <= 31
    && 0 <= t.hour <= 23 && 0 <= t.minute <= 59 && 0 <= t.second <= 59
  }

  datatype Option<T> = None | Some(value: T)

  function DigitChar(d: nat): char
    requires d < 10
  {
    ('0' as int + d) as char
  }

  predicate IsDigit(c: char) {
    '0' <= c <= '9'
  }

  /** The decimal digits of `n`, padded on the left with '0' to at least
      `width` runes, as Go's time formatter writes a numeric field. */
  function Decimal(n: nat, width: nat): (s: string)
    ensures |s| >= width && |s| >= 1
    ensures AllDigits(s)
    decreases n
  {
    var front := if n < 10 then Zeros(if width > 0 then width - 1 else 0)
                 else Decimal(n / 10, if width > 0 then width - 1 else 0);
    front + [DigitChar(n % 10)]
  }

  function Zeros(n: nat): (s: string)
    ensures |s| == n && forall i :: 0 <= i < n ==> s[i] == '0'
  {
    if n == 0 then [] else Zeros(n - 1) + ['0']
  }

  /** Go's appendInt: a minus sign for a negative value, then the padded
      digits of its magnitude. */
  function FormatInt(x: int, width: nat): string {
    if x < 0 then "-" + Decimal(-x, width) else Decimal(x, width)
  }

  /** saveLogToDisk's file name for a report received at `t`. */
  function FileName(t: DateTime): string {
    FormatInt(t.year, 4) + "-" + FormatInt(t.month, 2) + "-" + FormatInt(t.day, 2) + "."
      + FormatInt(t.hour, 2) + "-" + FormatInt(t.minute, 2) + "-" + FormatInt(t.second, 2) + ".log"
  }

  predicate AllDigits(s: string) {
    forall i :: 0 <= i < |s| ==> IsDigit(s[i])
  }

  function DigitValue(c: char): nat
    requires IsDigit(c)
  {
    c as int - '0' as int
  }

  /** The value of a run of digits. */
  function DigitsValue(s: string): nat
    requires AllDigits(s)
  {
    if s == [] then 0 else 10 * DigitsValue(s[..|s| - 1]) + DigitValue(s[|s| - 1])
  }

  /** Reads a file name back into the time it was saved at; None for a
      name not of the form YYYY-MM-DD.HH-MM-SS.log or with a field out of
      range. */
  function ParseFileName(s: string): Option<DateTime> {
    if |s| != 23 || s[4] != '-' || s[7] != '-' || s[10] != '.' || s[13] != '-' || s[16] != '-' || s[19..] != ".log"
    then None
    else if !(AllDigits(s[..4]) && AllDigits(s[5..7]) && AllDigits(s[8..10])
              && AllDigits(s[11..13]) && AllDigits(s[14..16]) && AllDigits(s[17..19]))
    then None
    else
      var t := DateTime(DigitsValue(s[..4]), DigitsValue(s[5..7]), DigitsValue(s[8..10]),
                        DigitsValue(s[11..13]), DigitsValue(s[14..16]), DigitsValue(s[17..19]));
      if Valid(t) then Some(t) else None
  }

  function Pow10(w: nat): nat {
    if w == 0 then 1 else 10 * Pow10(w - 1)
  }

  /** A number is ten times its leading digits plus its last digit. */
  lemma SplitLastDigit(n: nat)
    ensures n == 10 * (n / 10) + n % 10 && n % 10 < 10
    ensures n < 10 ==> n / 10 == 0
  {
  }

  /** Reading back the digits Decimal writes gives the number. */
  lemma {:induction false} DecimalValue(n: nat, width: nat)
    ensures DigitsValue(Decimal(n, width)) == n
    decreases n
  {
    var w := if width > 0 then width - 1 else 0;
    var s := Decimal(n, width);
    var q, r := n / 10, n % 10;
    SplitLastDigit(n);
    var front := if n < 10 then Zeros(w) else Decimal(q, w);
    assert s == front + [DigitChar(r)];
    assert s[..|s| - 1] == front;
    assert DigitValue(DigitChar(r)) == r;
    assert s[|s| - 1] == DigitChar(r);
    if n < 10 {
      ZerosValue(w);
    } else {
      DecimalValue(q, w);
    }
    assert DigitsValue(front) == q;
    assert DigitsValue(s) == 10 * DigitsValue(front) + DigitValue(s[|s| - 1]);
  }

  lemma {:induction false} ZerosValue(n: nat)
    ensures DigitsValue(Zeros(n)) == 0
  {
    if n > 0 {
      assert Zeros(n)[..n - 1] == Zeros(n - 1);
      ZerosValue(n - 1);
    }
  }

  /** A number below 10^width takes exactly `width` digits. */
  lemma {:induction false} DecimalWidth(n: nat, width: nat)
    requires 1 <= width && n < Pow10(width)
    ensures |Decimal(n, width)| == width
    decreases n
  {
    if n >= 10 {
      assert width >= 2;
      DecimalWidth(n / 10, width - 1);
    }
  }

  /** A run of '0's is worth 0, and a run worth 0 is all '0's. */
  lemma {:induction false} ZeroDigits(d: string)
    requires AllDigits(d) && DigitsValue(d) == 0
    ensures d == Zeros(|d|)
  {
    if d != [] {
      var front := d[..|d| - 1];
      ZeroDigits(front);
      assert d == front + [d[|d| - 1]];
    }
  }

  /** The last digit and the digits before it. */
  lemma LastDigit(a: nat, b: nat)
    requires b < 10
    ensures (10 * a + b) % 10 == b && (10 * a + b) / 10 == a
  {
  }

  /** Writing out the value of a run of digits at the run's width gives
      the run back: leading zeros included. */
  lemma {:induction false} DigitsDecimal(d: string)
    requires |d| >= 1 && AllDigits(d)
    ensures Decimal(DigitsValue(d), |d|) == d
    decreases |d|
  {
    var front, last := d[..|d| - 1], d[|d| - 1];
    var v := DigitsValue(d);
    assert v == 10 * DigitsValue(front) + DigitValue(last);
    LastDigit(DigitsValue(front), DigitValue(last));
    assert DigitChar(v % 10) == last;
    if v < 10 {
      ZeroDigits(front);
      assert Decimal(v, |d|) == Zeros(|front|) + [last];
    } else {
      DigitsDecimal(front);
      assert Decimal(v, |d|) == Decimal(DigitsValue(front), |front|) + [last];
    }
    assert d == front + [last];
  }

  /** Where the fields of a file name sit. */
  lemma Layout(y: string, mo: string, d: string, h: string, mi: string, s: string)
    requires |y| == 4 && |mo| == 2 && |d| == 2 && |h| == 2 && |mi| == 2 && |s| == 2
    ensures var name := y + "-" + mo + "-" + d + "." + h + "-" + mi + "-" + s + ".log";
      && |name| == 23
      && name[4] == '-' && name[7] == '-' && name[10] == '.' && name[13] == '-' && name[16] == '-'
      && name[..4] == y && name[5..7] == mo && name[8..10] == d
      && name[11..13] == h && name[14..16] == mi && name[17..19] == s && name[19..] == ".log"
  {
    var name := y + "-" + mo + "-" + d + "." + h + "-" + mi + "-" + s + ".log";
    assert name == y + ("-" + (mo + ("-" + (d + ("." + (h + ("-" + (mi + ("-" + (s + ".log"))))))))));
  }

  /** A name of the layout is the concatenation of its fields. */
  lemma Reassemble(name: string)
    requires |name| == 23
    requires name[4] == '-' && name[7] == '-' && name[10] == '.' && name[13] == '-' && name[16] == '-'
    requires name[19..] == ".log"
    ensures name == name[..4] + "-" + name[5..7] + "-" + name[8..10] + "." + name[11..13]
      + "-" + name[14..16] + "-" + name[17..19] + ".log"
  {
    Layout(name[..4], name[5..7], name[8..10], name[11..13], name[14..16], name[17..19]);
  }

  /** The value of a field of a valid time, written at its width. */
  lemma Field(n: int, width: nat)
    requires 1 <= width && 0 <= n < Pow10(width)
    ensures FormatInt(n, width) == Decimal(n, width)
    ensures |FormatInt(n, width)| == width && AllDigits(FormatInt(n, width))
    ensures DigitsValue(FormatInt(n, width)) == n
  {
    DecimalWidth(n, width);
    DecimalValue(n, width);
  }

  /** A valid time's file name is 23 runes long and reads back as that
      time. */
  lemma ParseFileNameOfFileName(t: DateTime)
    requires Valid(t)
    ensures |FileName(t)| == 23
    ensures ParseFileName(FileName(t)) == Some(t)
  {
    assert Pow10(2) == 100 && Pow10(4) == 10000;
    Field(t.year, 4);
    Field(t.month, 2);
    Field(t.day, 2);
    Field(t.hour, 2);
    Field(t.minute, 2);
    Field(t.second, 2);
    Layout(FormatInt(t.year, 4), FormatInt(t.month, 2), FormatInt(t.day, 2),
           FormatInt(t.hour, 2), FormatInt(t.minute, 2), FormatInt(t.second, 2));
  }

  /** A name that parses is exactly the file name of the time it parses
      to. */
  lemma FileNameOfParsed(name: string)
    requires ParseFileName(name).Some?
    ensures FileName(ParseFileName(name).value) == name
  {
    var t := ParseFileName(name).value;
    Reassemble(name);
    DigitsDecimal(name[..4]);
    DigitsDecimal(name[5..7]);
    DigitsDecimal(name[8..10]);
    DigitsDecimal(name[11..13]);
    DigitsDecimal(name[14..16]);
    DigitsDecimal(name[17..19]);
  }

  /** Two valid times never share a file name. */
  lemma FileNameInjective(t1: DateTime, t2: DateTime)
    requires Valid(t1) && Valid(t2) && FileName(t1) == FileName(t2)
    ensures t1 == t2
  {
    ParseFileNameOfFileName(t1);
    ParseFileNameOfFileName(t2);
  }
}
