/**
 * The D-day label of a `YYYY-MM-DD` date: the whole-day difference from
 * today, both taken at local midnight, written as `D-DAY`, `D-n` (n days to
 * go) or `D+n` (n days ago). Today is given as its local day number.
 */
module DateUtils {
  import opened Wrappers
  import opened Text
  import opened TwoDigitText
  import opened CivilCalendar

  /**
   * `Number(piece)` for the decimal integer forms: surrounding white space is
   * ignored, an empty text is 0, an optional sign precedes the digits; any
   * other text is NaN, here `None`.
   */
  function NumberOf(s: string): Option<int> {
    var t := Trim(s);
    var signed := |t| > 1 && (t[0] == '-' || t[0] == '+');
    var digits := if signed then t[1..] else t;
    if t == "" then Some(0)
    else if !AllDigits(digits) then None
    else if signed && t[0] == '-' then Some(0 - DigitsValue(digits))
    else Some(DigitsValue(digits))
  }

  /** The i-th piece read as a number; a missing piece is `undefined`, which reads as NaN. */
  function PieceNumber(parts: seq<string>, i: nat): Option<int> {
    if i < |parts| then NumberOf(parts[i]) else None
  }

  /**
   * The difference in days from today to `new Date(y, m - 1, d)`; `None` when
   * a piece is NaN.
   */
  function DayDifference(dateStr: string, today: int): Option<int> {
    var parts := SplitOn(dateStr, '-');
    DifferenceOfNumbers(PieceNumber(parts, 0), PieceNumber(parts, 1), PieceNumber(parts, 2), today)
  }

  /** `(date - today) / 86400000` at local midnight, `None` when a piece is NaN. */
  function DifferenceOfNumbers(y: Option<int>, m: Option<int>, d: Option<int>, today: int): Option<int> {
    if y.Some? && m.Some? && d.Some? then Some(MakeDay(ConstructorYear(y.value), m.value - 1, d.value) - today)
    else None
  }

  /** The label of a difference; a NaN difference fails both tests and prints as `D-NaN`. */
  function Label(diff: Option<int>): (r: string)
    ensures diff.None? ==> r == "D-NaN"
    ensures diff == Some(0) ==> r == "D-DAY"
    ensures diff.Some? && diff.value < 0 ==> r == "D+" + NatToString(-diff.value)
    ensures diff.Some? && diff.value > 0 ==> r == "D-" + NatToString(diff.value)
  {
    match diff
    case None => "D-NaN"
    case Some(n) => if n == 0 then "D-DAY" else if n < 0 then "D+" + IntToString(-n) else "D-" + IntToString(n)
  }

  /** `getDDay(dateStr)`. */
  function GetDDay(dateStr: string, today: int): string {
    Label(DayDifference(dateStr, today))
  }

  /** A text with fewer than three dash-separated pieces leaves the day `undefined`: the label is `D-NaN`. */
  lemma MissingPieceIsNaN(dateStr: string, today: int)
    requires |SplitOn(dateStr, '-')| < 3
    ensures GetDDay(dateStr, today) == "D-NaN"
  {
  }

  /** Different differences get different labels: the label determines the difference. */
  lemma LabelInjective(a: Option<int>, b: Option<int>)
    requires Label(a) == Label(b)
    ensures a == b
  {
    var la := Label(a);
    if a.Some? && a.value != 0 && b.Some? && b.value != 0 {
      var na: nat := if a.value < 0 then -a.value else a.value;
      var nb: nat := if b.value < 0 then -b.value else b.value;
      assert la[1] == Label(b)[1];
      assert la[2..] == NatToString(na) && Label(b)[2..] == NatToString(nb);
      NatToStringInjective(na, nb);
    } else if a.Some? && a.value != 0 {
      NotANumberLabel(a.value);
    } else if b.Some? && b.value != 0 {
      NotANumberLabel(b.value);
    }
  }

  /** A non-zero difference's label has digits after the sign, unlike `D-DAY` and `D-NaN`. */
  lemma NotANumberLabel(n: int)
    requires n != 0
    ensures Label(Some(n)) != "D-DAY" && Label(Some(n)) != "D-NaN"
  {
    var digits := NatToString(if n < 0 then -n else n);
    assert Label(Some(n))[2..] == digits;
    assert IsDigit(digits[0]);
  }

  /** The `YYYY-MM-DD` text of a date with a year of at least 100. */
  function DateText(y: nat, m: nat, d: nat): string
    requires m <= 99 && d <= 99
  {
    NatToString(y) + "-" + TwoDigits(m) + "-" + TwoDigits(d)
  }

  lemma NoDashInDigits(s: string)
    requires AllDigits(s)
    ensures '-' !in s
  {
    assert forall k :: 0 <= k < |s| ==> s[k] != '-';
  }

  /** Digits read as `Number` give their value. */
  lemma NumberOfDigits(s: string)
    requires AllDigits(s) && s != ""
    ensures NumberOf(s) == Some(DigitsValue(s))
  {
    assert !IsWhitespace(s[0]) && !IsWhitespace(s[|s| - 1]);
    assert TrimStart(s) == s;
    assert TrimEnd(s) == s;
  }

  /**
   * Splitting `a-b-c` on the dash gives the three pieces when none holds a
   * dash.
   */
  lemma SplitThree(a: string, b: string, c: string)
    requires '-' !in a && '-' !in b && '-' !in c
    ensures SplitOn(a + "-" + b + "-" + c, '-') == [a, b, c]
  {
    assert a + "-" + b + "-" + c == a + ['-'] + (b + ['-'] + c);
    SplitAfterPiece(a, b + ['-'] + c, '-');
    SplitAfterPiece(b, c, '-');
    assert SplitOn(c, '-') == [c];
  }

  /** The date text splits at its two dashes into the year and the two-digit month and day. */
  lemma DateTextPieces(y: nat, m: nat, d: nat)
    requires m <= 99 && d <= 99
    ensures SplitOn(DateText(y, m, d), '-') == [NatToString(y), TwoDigits(m), TwoDigits(d)]
  {
    var ys, ms, ds := NatToString(y), TwoDigits(m), TwoDigits(d);
    NoDashInDigits(ys);
    NoDashInDigits(ms);
    NoDashInDigits(ds);
    SplitThree(ys, ms, ds);
  }

  /** The pieces of a date text read back as the year, month and day. */
  lemma DateTextNumbers(y: nat, m: nat, d: nat)
    requires m <= 99 && d <= 99
    ensures var parts := SplitOn(DateText(y, m, d), '-');
      PieceNumber(parts, 0) == Some(y) && PieceNumber(parts, 1) == Some(m) && PieceNumber(parts, 2) == Some(d)
  {
    var ys, ms, ds := NatToString(y), TwoDigits(m), TwoDigits(d);
    var parts := SplitOn(DateText(y, m, d), '-');
    DateTextPieces(y, m, d);
    assert parts[0] == ys && parts[1] == ms && parts[2] == ds;
    DigitPiece(parts, 0);
    DigitPiece(parts, 1);
    DigitPiece(parts, 2);
    NatToStringRoundTrip(y);
    TwoDigitsValue(m);
    TwoDigitsValue(d);
  }

  lemma DigitPiece(parts: seq<string>, i: nat)
    requires i < |parts| && AllDigits(parts[i]) && parts[i] != ""
    ensures PieceNumber(parts, i) == Some(DigitsValue(parts[i]))
  {
    NumberOfDigits(parts[i]);
  }

  /**
   * For the date text of year `y` (100 or later), month `m` and day `d`, the
   * label is that of the day difference between the date and today: in
   * particular a date that is today reads `D-DAY`.
   */
  lemma DDayOfDateText(y: nat, m: nat, d: nat, today: int)
    requires 100 <= y && 1 <= m <= 12 && 1 <= d <= 31
    ensures GetDDay(DateText(y, m, d), today) == Label(Some(MakeDay(y, m - 1, d) - today))
    ensures MakeDay(y, m - 1, d) == today ==> GetDDay(DateText(y, m, d), today) == "D-DAY"
  {
    DateTextNumbers(y, m, d);
    LabelOfPieces(DateText(y, m, d), today, y, m, d);
    assert ConstructorYear(y) == y;
  }

  lemma LabelOfPieces(s: string, today: int, y: int, m: int, d: int)
    requires var parts := SplitOn(s, '-');
      PieceNumber(parts, 0) == Some(y) && PieceNumber(parts, 1) == Some(m) && PieceNumber(parts, 2) == Some(d)
    ensures GetDDay(s, today) == Label(Some(MakeDay(ConstructorYear(y), m - 1, d) - today))
  {
    DifferenceOfPieces(s, today, y, m, d);
  }

  lemma DifferenceOfPieces(s: string, today: int, y: int, m: int, d: int)
    requires var parts := SplitOn(s, '-');
      PieceNumber(parts, 0) == Some(y) && PieceNumber(parts, 1) == Some(m) && PieceNumber(parts, 2) == Some(d)
    ensures DayDifference(s, today) == Some(MakeDay(ConstructorYear(y), m - 1, d) - today)
  {
    var parts := SplitOn(s, '-');
    var py, pm, pd := PieceNumber(parts, 0), PieceNumber(parts, 1), PieceNumber(parts, 2);
    assert DayDifference(s, today) == DifferenceOfNumbers(py, pm, pd, today);
    assert py.value == y && pm.value == m && pd.value == d;
  }

  lemma TwoDigitsValue(n: nat)
    requires n <= 99
    ensures DigitsValue(TwoDigits(n)) == n
  {
    var t := TwoDigits(n);
    assert t[..1] == [DigitChar(n / 10)];
    assert [DigitChar(n / 10)][..0] == [];
    assert DigitsValue(t[..1]) == n / 10;
    assert DigitsValue(t) == (n / 10) * 10 + n % 10;
  }
}
