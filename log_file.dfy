/** The per-run log file name `download_YYYYMMDD_HHMMSS.log`.

    The program formats `datetime.now()` with `strftime('%Y%m%d_%H%M%S')`;
    here the clock reading is a parameter. Every field is a fixed-width,
    zero-padded decimal number, so the name has one fixed length, and a
    parser that reads the fields back shows that nothing but the
    microseconds is lost. */
module LogFile {

  datatype Option<T> = None | Some(value: T)

  /** A `datetime.datetime` value. */
  datatype DateTime = DateTime(year: int, month: int, day: int,
                               hour: int, minute: int, second: int, microsecond: int)

  predicate IsLeapYear(y: int) {
    y % 4 == 0 && (y % 100 != 0 || y % 400 == 0)
  }

  function DaysInMonth(y: int, m: int): int
    requires 1 <= m <= 12
  {
    if m == 2 then (if IsLeapYear(y) then 29 else 28)
    else if m == 4 || m == 6 || m == 9 || m == 11 then 30
    else 31
  }

  /** The ranges `datetime` enforces on its fields (years 1 to 9999). */
  predicate ValidDateTime(t: DateTime) {
    1 <= t.year <= 9999 && 1 <= t.month <= 12 && 1 <= t.day <= DaysInMonth(t.year, t.month)
    && 0 <= t.hour < 24 && 0 <= t.minute < 60 && 0 <= t.second < 60
    && 0 <= t.microsecond < 1000000
  }

  /** The reading with the sub-second part dropped: all the name can show. */
  function ToSecond(t: DateTime): DateTime {
    t.(microsecond := 0)
  }

  // ---------------------------------------------------------------------------
  // Fixed-width decimal fields

  function Pow10(n: nat): nat {
    if n == 0 then 1 else 10 * Pow10(n - 1)
  }

  predicate IsDigit(c: char) {
    '0' <= c <= '9'
  }

  predicate AllDigits(s: string) {
    forall i :: 0 <= i < |s| ==> IsDigit(s[i])
  }

  function DigitChar(d: nat): (c: char)
    requires d < 10
    ensures IsDigit(c) && c as int - '0' as int == d
  {
    ('0' as int + d) as char
  }

  /** `n` written in exactly `w` decimal digits, with leading zeros, as
      `%Y` (four digits) and `%m`, `%d`, `%H`, `%M`, `%S` (two) write it. */
  function Digits(n: nat, w: nat): (r: string)
    requires n < Pow10(w)
    ensures |r| == w && AllDigits(r)
  {
    if w == 0 then "" else Digits(n / 10, w - 1) + [DigitChar(n % 10)]
  }

  /** The number a string of digits denotes. */
  function DigitsValue(s: string): nat
    requires AllDigits(s)
  {
    if s == [] then 0
    else 10 * DigitsValue(s[..|s| - 1]) + (s[|s| - 1] as int - '0' as int)
  }

  lemma {:induction false} DigitsValueBound(s: string)
    requires AllDigits(s)
    ensures DigitsValue(s) < Pow10(|s|)
  {
    if s != [] {
      DigitsValueBound(s[..|s| - 1]);
    }
  }

  /** Reading the digits back gives the number. */
  lemma {:induction false} DigitsValueOfDigits(n: nat, w: nat)
    requires n < Pow10(w)
    ensures DigitsValue(Digits(n, w)) == n
  {
    if w > 0 {
      var r := Digits(n, w);
      assert r[..w - 1] == Digits(n / 10, w - 1);
      DigitsValueOfDigits(n / 10, w - 1);
    }
  }

  /** Writing the number of a digit string gives the string back. */
  lemma {:induction false} DigitsOfDigitsValue(s: string)
    requires AllDigits(s)
    ensures DigitsValue(s) < Pow10(|s|) && Digits(DigitsValue(s), |s|) == s
  {
    DigitsValueBound(s);
    if s != [] {
      var init := s[..|s| - 1];
      DigitsOfDigitsValue(init);
      var n := DigitsValue(s);
      var d := s[|s| - 1] as int - '0' as int;
      assert n / 10 == DigitsValue(init) && n % 10 == d;
      assert s == init + [s[|s| - 1]];
    }
  }

  // ---------------------------------------------------------------------------
  // The name

  const Prefix := "download_"
  const Suffix := ".log"

  /** `%Y%m%d`. */
  function DatePart(t: DateTime): (r: string)
    requires ValidDateTime(t)
    ensures |r| == 8 && AllDigits(r)
  {
    Digits(t.year, 4) + Digits(t.month, 2) + Digits(t.day, 2)
  }

  /** `%H%M%S`. */
  function TimePart(t: DateTime): (r: string)
    requires ValidDateTime(t)
    ensures |r| == 6 && AllDigits(r)
  {
    Digits(t.hour, 2) + Digits(t.minute, 2) + Digits(t.second, 2)
  }

  /** The shape every log file name has: the prefix, eight digits, `_`, six
      digits and the suffix, 28 characters in all. */
  predicate WellFormedName(name: string) {
    |name| == 28 && name[..9] == Prefix && AllDigits(name[9..17]) && name[17] == '_'
    && AllDigits(name[18..24]) && name[24..] == Suffix
  }

  /** `make_log_file`'s name for the run started at `t`. */
  function LogFileName(t: DateTime): (name: string)
    requires ValidDateTime(t)
    ensures WellFormedName(name)
    ensures name[9..17] == DatePart(t) && name[18..24] == TimePart(t)
  {
    var name := Prefix + DatePart(t) + "_" + TimePart(t) + Suffix;
    assert name[..9] == Prefix;
    assert name[9..17] == DatePart(t);
    assert name[18..24] == TimePart(t);
    assert name[24..] == Suffix;
    name
  }

  /** Reads a log file name back into the second it names; `None` for any
      string that is not such a name. */
  function ParseLogFileName(name: string): (r: Option<DateTime>)
    ensures r.Some? ==> ValidDateTime(r.value) && r.value.microsecond == 0
  {
    if !WellFormedName(name) then None
    else
      var d := name[9..17];
      var c := name[18..24];
      assert AllDigits(d[..4]) && AllDigits(d[4..6]) && AllDigits(d[6..]);
      assert AllDigits(c[..2]) && AllDigits(c[2..4]) && AllDigits(c[4..]);
      var t := DateTime(DigitsValue(d[..4]), DigitsValue(d[4..6]), DigitsValue(d[6..]),
                        DigitsValue(c[..2]), DigitsValue(c[2..4]), DigitsValue(c[4..]), 0);
      if ValidDateTime(t) then Some(t) else None
  }

  lemma DatePartFields(t: DateTime)
    requires ValidDateTime(t)
    ensures var d := DatePart(t);
      d[..4] == Digits(t.year, 4) && d[4..6] == Digits(t.month, 2) && d[6..] == Digits(t.day, 2)
  {
  }

  lemma TimePartFields(t: DateTime)
    requires ValidDateTime(t)
    ensures var c := TimePart(t);
      c[..2] == Digits(t.hour, 2) && c[2..4] == Digits(t.minute, 2) && c[4..] == Digits(t.second, 2)
  {
  }

  /** The name records the reading down to the second. */
  lemma ParseLogFileNameOfLogFileName(t: DateTime)
    requires ValidDateTime(t)
    ensures ParseLogFileName(LogFileName(t)) == Some(ToSecond(t))
  {
    DatePartFields(t);
    TimePartFields(t);
    DigitsValueOfDigits(t.year, 4);
    DigitsValueOfDigits(t.month, 2);
    DigitsValueOfDigits(t.day, 2);
    DigitsValueOfDigits(t.hour, 2);
    DigitsValueOfDigits(t.minute, 2);
    DigitsValueOfDigits(t.second, 2);
  }

  lemma WellFormedNameParts(name: string)
    requires WellFormedName(name)
    ensures name == Prefix + name[9..17] + "_" + name[18..24] + Suffix
  {
    assert name == name[..9] + name[9..17] + [name[17]] + name[18..24] + name[24..];
  }

  /** A digit string split into fields of the given widths and written back. */
  lemma ThreeFields(s: string, a: nat, b: nat)
    requires AllDigits(s) && a + b <= |s|
    ensures AllDigits(s[..a]) && AllDigits(s[a..a + b]) && AllDigits(s[a + b..])
    ensures DigitsValue(s[..a]) < Pow10(a) && DigitsValue(s[a..a + b]) < Pow10(b)
    ensures DigitsValue(s[a + b..]) < Pow10(|s| - a - b)
    ensures Digits(DigitsValue(s[..a]), a) + Digits(DigitsValue(s[a..a + b]), b)
      + Digits(DigitsValue(s[a + b..]), |s| - a - b) == s
  {
    var x, y, z := s[..a], s[a..a + b], s[a + b..];
    assert AllDigits(x) && AllDigits(y) && AllDigits(z);
    DigitsOfDigitsValue(x);
    DigitsOfDigitsValue(y);
    DigitsOfDigitsValue(z);
    SplitThree(s, a, b);
  }

  lemma SplitThree(s: string, a: nat, b: nat)
    requires a + b <= |s|
    ensures s == s[..a] + s[a..a + b] + s[a + b..]
  {
  }

  /** Every name the parser accepts is the name of the second it returns. */
  lemma LogFileNameOfParseLogFileName(name: string)
    requires ParseLogFileName(name).Some?
    ensures LogFileName(ParseLogFileName(name).value) == name
  {
    var t := ParseLogFileName(name).value;
    var d := name[9..17];
    var c := name[18..24];
    ThreeFields(d, 4, 2);
    ThreeFields(c, 2, 2);
    assert d[4..6] == d[4..4 + 2] && c[2..4] == c[2..2 + 2];
    assert DatePart(t) == d;
    assert TimePart(t) == c;
    WellFormedNameParts(name);
  }

  /** Two runs get the same log file name exactly when they start in the same
      second. */
  lemma LogFileNameInjective(a: DateTime, b: DateTime)
    requires ValidDateTime(a) && ValidDateTime(b)
    ensures LogFileName(a) == LogFileName(b) <==> ToSecond(a) == ToSecond(b)
  {
    ParseLogFileNameOfLogFileName(a);
    ParseLogFileNameOfLogFileName(b);
    if ToSecond(a) == ToSecond(b) {
      assert DatePart(a) == DatePart(b) && TimePart(a) == TimePart(b);
    }
  }

  // ---------------------------------------------------------------------------
  // Sorting the names sorts the runs

  /** `<` on Python strings: lexicographic by code point. */
  predicate LexLess(s: string, t: string)
    decreases |s|
  {
    if s == [] then t != []
    else if t == [] then false
    else if s[0] != t[0] then s[0] < t[0]
    else LexLess(s[1..], t[1..])
  }

  lemma {:induction false} LexLessIrreflexive(s: string)
    ensures !LexLess(s, s)
  {
    if s != [] {
      LexLessIrreflexive(s[1..]);
    }
  }

  /** Comparing `a + b` with `c + d` when `a` and `c` have one length. */
  lemma {:induction false} LexLessAppend(a: string, b: string, c: string, d: string)
    requires |a| == |c|
    ensures LexLess(a + b, c + d) <==> LexLess(a, c) || (a == c && LexLess(b, d))
  {
    if a == [] {
      assert a + b == b && c + d == d;
    } else {
      assert (a + b)[0] == a[0] && (c + d)[0] == c[0];
      assert (a + b)[1..] == a[1..] + b && (c + d)[1..] == c[1..] + d;
      LexLessAppend(a[1..], b, c[1..], d);
      assert a == c <==> a[0] == c[0] && a[1..] == c[1..] by {
        if a[0] == c[0] && a[1..] == c[1..] {
          assert a == [a[0]] + a[1..] && c == [c[0]] + c[1..];
        }
      }
    }
  }

  /** The leading digit weighs `10^(n-1)`. */
  lemma {:induction false} DigitsValueFront(s: string)
    requires AllDigits(s) && s != []
    ensures DigitsValue(s) == (s[0] as int - '0' as int) * Pow10(|s| - 1) + DigitsValue(s[1..])
  {
    var d := s[0] as int - '0' as int;
    if |s| > 1 {
      var init := s[..|s| - 1];
      DigitsValueFront(init);
      assert init[1..] == s[1..][..|s| - 2];
      var p := Pow10(|s| - 2);
      assert 10 * (d * p) == d * (10 * p);
    }
  }

  lemma LeadingDigitDecides(a: int, b: int, x: int, y: int, p: int)
    requires 0 <= a < b && 0 <= x < p && 0 <= y
    ensures a * p + x < b * p + y
  {
    var c := b - a - 1;
    assert b * p == a * p + p + c * p;
    assert c * p >= 0;
  }

  /** For digit strings of one length, string order is numeric order. */
  lemma {:induction false} LexLessDigits(s: string, t: string)
    requires AllDigits(s) && AllDigits(t) && |s| == |t|
    ensures LexLess(s, t) <==> DigitsValue(s) < DigitsValue(t)
  {
    if s != [] {
      DigitsValueFront(s);
      DigitsValueFront(t);
      assert AllDigits(s[1..]) && AllDigits(t[1..]);
      DigitsValueBound(s[1..]);
      DigitsValueBound(t[1..]);
      var p := Pow10(|s| - 1);
      var x, y := DigitsValue(s[1..]), DigitsValue(t[1..]);
      var ds, dt := s[0] as int - '0' as int, t[0] as int - '0' as int;
      if ds < dt {
        LeadingDigitDecides(ds, dt, x, y, p);
      } else if dt < ds {
        LeadingDigitDecides(dt, ds, y, x, p);
      } else {
        LexLessDigits(s[1..], t[1..]);
      }
    }
  }

  /** `Digits` is one-to-one. */
  lemma DigitsInjective(m: nat, n: nat, w: nat)
    requires m < Pow10(w) && n < Pow10(w)
    ensures Digits(m, w) == Digits(n, w) <==> m == n
  {
    DigitsValueOfDigits(m, w);
    DigitsValueOfDigits(n, w);
  }

  /** Comparing two fixed-width fields and what follows them. */
  lemma LexLessField(m: nat, n: nat, w: nat, b: string, d: string)
    requires m < Pow10(w) && n < Pow10(w)
    ensures LexLess(Digits(m, w) + b, Digits(n, w) + d) <==> m < n || (m == n && LexLess(b, d))
  {
    LexLessAppend(Digits(m, w), b, Digits(n, w), d);
    LexLessDigits(Digits(m, w), Digits(n, w));
    DigitsValueOfDigits(m, w);
    DigitsValueOfDigits(n, w);
    DigitsInjective(m, n, w);
  }

  /** The order of readings down to the second. */
  predicate Earlier(a: DateTime, b: DateTime) {
    a.year < b.year || (a.year == b.year && (
    a.month < b.month || (a.month == b.month && (
    a.day < b.day || (a.day == b.day && (
    a.hour < b.hour || (a.hour == b.hour && (
    a.minute < b.minute || (a.minute == b.minute &&
    a.second < b.second)))))))))
  }

  /** The name with its fields in a row. */
  lemma LogFileNameFields(t: DateTime)
    requires ValidDateTime(t)
    ensures LogFileName(t) == Prefix + (Digits(t.year, 4) + (Digits(t.month, 2) + (Digits(t.day, 2)
      + ("_" + (Digits(t.hour, 2) + (Digits(t.minute, 2) + (Digits(t.second, 2) + Suffix)))))))
  {
  }

  /** Sorting log file names as strings sorts the runs by start time. */
  lemma LogFileNameOrder(a: DateTime, b: DateTime)
    requires ValidDateTime(a) && ValidDateTime(b)
    ensures LexLess(LogFileName(a), LogFileName(b)) <==> Earlier(a, b)
  {
    LogFileNameFields(a);
    LogFileNameFields(b);
    var sa := Digits(a.second, 2) + Suffix;
    var sb := Digits(b.second, 2) + Suffix;
    var ia := Digits(a.minute, 2) + sa;
    var ib := Digits(b.minute, 2) + sb;
    var ha := Digits(a.hour, 2) + ia;
    var hb := Digits(b.hour, 2) + ib;
    var da := Digits(a.day, 2) + ("_" + ha);
    var db := Digits(b.day, 2) + ("_" + hb);
    var ma := Digits(a.month, 2) + da;
    var mb := Digits(b.month, 2) + db;
    var ya := Digits(a.year, 4) + ma;
    var yb := Digits(b.year, 4) + mb;
    LexLessIrreflexive(Prefix);
    LexLessAppend(Prefix, ya, Prefix, yb);
    LexLessField(a.year, b.year, 4, ma, mb);
    LexLessField(a.month, b.month, 2, da, db);
    LexLessField(a.day, b.day, 2, "_" + ha, "_" + hb);
    LexLessIrreflexive("_");
    LexLessAppend("_", ha, "_", hb);
    LexLessField(a.hour, b.hour, 2, ia, ib);
    LexLessField(a.minute, b.minute, 2, sa, sb);
    LexLessField(a.second, b.second, 2, Suffix, Suffix);
    LexLessIrreflexive(Suffix);
  }
}
