/** `convertDateToDBFormat`: `DD.MM.YYYY` or `DD.MM.YY` to `YYYY-MM-DD`. */
module Dates {
  import opened Basics

  /** The bytes C's `isspace` accepts: space, and tab through carriage return. */
  predicate IsSpace(b: byte) {
    b == Space || (Tab <= b <= CarriageReturn)
  }

  /**
   * `std::stoi` on a two-byte string (the short year). strtol skips leading
   * white space, takes an optional sign and then digits; with no digit at
   * all it throws `std::invalid_argument`, which is `None` here.
   */
  function Stoi2(s: Bytes): (r: Option<int>)
    requires |s| == 2
    ensures r.None? <==> !IsDigit(s[0]) && !((IsSpace(s[0]) || s[0] == Plus || s[0] == Minus) && IsDigit(s[1]))
    ensures IsDigit(s[0]) && IsDigit(s[1]) ==> r == Some(10 * DigitValue(s[0]) + DigitValue(s[1]))
  {
    if IsDigit(s[0]) then
      if IsDigit(s[1]) then Some(10 * DigitValue(s[0]) + DigitValue(s[1])) else Some(DigitValue(s[0]))
    else if (IsSpace(s[0]) || s[0] == Plus) && IsDigit(s[1]) then Some(DigitValue(s[1]))
    else if s[0] == Minus && IsDigit(s[1]) then Some(-(DigitValue(s[1]) as int))
    else None
  }

  /** Two-digit years above this belong to the 1900s, the others to the 2000s. */
  const Pivot := 50

  /** "19" */
  const Nineteen: Bytes := [0x31, 0x39]
  /** "20" */
  const Twenty: Bytes := [0x32, 0x30]

  predicate HasDots(s: Bytes) {
    |s| > 5 && s[2] == Dot && s[5] == Dot
  }

  /**
   * `convertDateToDBFormat`. `None` means the `std::stoi` on the short year
   * threw; every input of another shape comes back unchanged.
   */
  function ConvertDateToDbFormat(s: Bytes): (r: Option<Bytes>)
    ensures r.Some? && r.value != s ==> |r.value| == 10 && r.value[4] == Minus && r.value[7] == Minus
  {
    if |s| == 10 && HasDots(s) then
      Some(s[6..10] + [Minus] + s[3..5] + [Minus] + s[0..2])
    else if |s| == 8 && HasDots(s) then
      var yearShort := s[6..8];
      match Stoi2(yearShort)
      case None => None
      case Some(year) =>
        var fullYear := (if year > Pivot then Nineteen else Twenty) + yearShort;
        Some(fullYear + [Minus] + s[3..5] + [Minus] + s[0..2])
    else
      Some(s)
  }

  /** `DD.MM.YYYY` with digits in every position but the two dots. */
  predicate IsLongDottedDate(s: Bytes) {
    |s| == 10 && HasDots(s)
    && IsDigit(s[0]) && IsDigit(s[1]) && IsDigit(s[3]) && IsDigit(s[4])
    && IsDigit(s[6]) && IsDigit(s[7]) && IsDigit(s[8]) && IsDigit(s[9])
  }

  /** `DD.MM.YY` with digits in every position but the two dots. */
  predicate IsShortDottedDate(s: Bytes) {
    |s| == 8 && HasDots(s)
    && IsDigit(s[0]) && IsDigit(s[1]) && IsDigit(s[3]) && IsDigit(s[4])
    && IsDigit(s[6]) && IsDigit(s[7])
  }

  /** `YYYY-MM-DD` with digits in every position but the two dashes. */
  predicate IsDbDate(s: Bytes) {
    |s| == 10 && s[4] == Minus && s[7] == Minus
    && IsDigit(s[0]) && IsDigit(s[1]) && IsDigit(s[2]) && IsDigit(s[3])
    && IsDigit(s[5]) && IsDigit(s[6]) && IsDigit(s[8]) && IsDigit(s[9])
  }

  /** The reverse rewrite, from `YYYY-MM-DD` back to `DD.MM.YYYY`. */
  function DbToDotted(r: Bytes): Bytes
    requires |r| == 10
  {
    r[8..10] + [Dot] + r[5..7] + [Dot] + r[0..4]
  }

  /**
   * Any ten-byte input with dots at positions 2 and 5 is rewritten so that
   * the day, month and year survive byte for byte: rewriting back gives
   * the input.
   */
  lemma LongDateRoundTrip(s: Bytes)
    requires |s| == 10 && HasDots(s)
    ensures ConvertDateToDbFormat(s).Some?
    ensures var r := ConvertDateToDbFormat(s).value;
      |r| == 10 && r[4] == Minus && r[7] == Minus && DbToDotted(r) == s
    ensures IsLongDottedDate(s) ==> IsDbDate(ConvertDateToDbFormat(s).value)
  {
    var r := ConvertDateToDbFormat(s).value;
    assert r[0..4] == s[6..10] && r[5..7] == s[3..5] && r[8..10] == s[0..2];
    assert DbToDotted(r) == s[0..2] + [Dot] + s[3..5] + [Dot] + s[6..10];
    assert s == s[0..2] + [s[2]] + s[3..5] + [s[5]] + s[6..10];
  }

  /**
   * A short date with a digit year gets the century by the pivot: a year
   * above 50 becomes 19YY, any other 20YY; day and month are kept.
   */
  lemma ShortDatePivot(s: Bytes)
    requires IsShortDottedDate(s)
    ensures ConvertDateToDbFormat(s).Some?
    ensures var r := ConvertDateToDbFormat(s).value;
      var yy := 10 * DigitValue(s[6]) + DigitValue(s[7]);
      && IsDbDate(r)
      && r[0..2] == (if yy > 50 then Nineteen else Twenty)
      && r[2..4] == s[6..8] && r[5..7] == s[3..5] && r[8..10] == s[0..2]
  {
    var yearShort := s[6..8];
    assert Stoi2(yearShort) == Some(10 * DigitValue(s[6]) + DigitValue(s[7]));
  }

  /**
   * The conversion throws exactly on an eight-byte dotted input whose last
   * two bytes hold no number for `std::stoi`.
   */
  lemma ConvertThrows(s: Bytes)
    ensures ConvertDateToDbFormat(s).None? <==> |s| == 8 && HasDots(s) && Stoi2(s[6..8]).None?
  {
  }

  /** Every input other than an eight- or ten-byte dotted one is returned as is, `""` included. */
  lemma OtherShapesUnchanged(s: Bytes)
    requires !((|s| == 8 || |s| == 10) && HasDots(s))
    ensures ConvertDateToDbFormat(s) == Some(s)
  {
  }

  /** A date already in the database format passes through, so converting twice changes nothing more. */
  lemma ConvertIdempotent(s: Bytes)
    requires IsLongDottedDate(s) || IsShortDottedDate(s)
    ensures var r := ConvertDateToDbFormat(s).value;
      ConvertDateToDbFormat(r) == Some(r)
  {
    if IsLongDottedDate(s) {
      LongDateRoundTrip(s);
    } else {
      ShortDatePivot(s);
    }
    var r := ConvertDateToDbFormat(s).value;
    assert IsDigit(r[2]);
  }

  /** The pivot at its edge: "01.03.50" is 2050, "01.03.51" is 1951. */
  lemma PivotEdge()
    ensures ConvertDateToDbFormat([0x30, 0x31, Dot, 0x30, 0x33, Dot, 0x35, 0x30])
         == Some([0x32, 0x30, 0x35, 0x30, Minus, 0x30, 0x33, Minus, 0x30, 0x31])
    ensures ConvertDateToDbFormat([0x30, 0x31, Dot, 0x30, 0x33, Dot, 0x35, 0x31])
         == Some([0x31, 0x39, 0x35, 0x31, Minus, 0x30, 0x33, Minus, 0x30, 0x31])
  {
    var fifty: Bytes := [0x30, 0x31, Dot, 0x30, 0x33, Dot, 0x35, 0x30];
    var fiftyOne: Bytes := [0x30, 0x31, Dot, 0x30, 0x33, Dot, 0x35, 0x31];
    assert fifty[6..8] == [0x35, 0x30] && fifty[3..5] == [0x30, 0x33] && fifty[0..2] == [0x30, 0x31];
    assert fiftyOne[6..8] == [0x35, 0x31] && fiftyOne[3..5] == [0x30, 0x33] && fiftyOne[0..2] == [0x30, 0x31];
    assert Stoi2([0x35, 0x30]) == Some(50);
    assert Stoi2([0x35, 0x31]) == Some(51);
    assert Twenty + [0x35, 0x30] + [Minus] + [0x30, 0x33] + [Minus] + [0x30, 0x31]
        == [0x32, 0x30, 0x35, 0x30, Minus, 0x30, 0x33, Minus, 0x30, 0x31];
    assert Nineteen + [0x35, 0x31] + [Minus] + [0x30, 0x33] + [Minus] + [0x30, 0x31]
        == [0x31, 0x39, 0x35, 0x31, Minus, 0x30, 0x33, Minus, 0x30, 0x31];
  }
}
