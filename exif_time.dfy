/**
 * The IDIT date normalisation of riffdate.c (lines 295-360).
 *
 * `convert_to_exif_time` reads a date such as "FRI SEP 07 23:37:15 2012"
 * with `sscanf(from, "%3s %3s %2d %2d:%2d:%2d %4d", ...)`, looks the month
 * token up case-insensitively among "jan" .. "dec", and prints
 * "YYYY:MM:DD hh:mm:ss" with `%04d:%02d:%02d %02d:%02d:%02d`. `print_idit`
 * prints that result, or the raw text when the conversion fails.
 *
 * The scan is over the C string: `sscanf` stops at the first NUL, so the
 * functions here are applied to `CStr` of the saved buffer. The directives
 * are modelled as the C library defines them in the "C" locale:
 *   `%Ns`  skips white space, then takes 1 to N bytes that are not white space;
 *   `%Nd`  skips white space, then takes an optional sign and at least one
 *          decimal digit, N bytes at most counting the sign;
 *   `' '`  skips white space (a no-op here, since every directive that
 *          follows one skips white space itself);
 *   `':'`  must match the next byte exactly.
 * Text after the year is ignored.
 */
module ExifTime {
  import opened Bytes

  const SPACE: Byte := 0x20
  const COLON: Byte := 0x3A
  const MINUS: Byte := 0x2D
  const PLUS: Byte := 0x2B

  /** A value `sscanf` stored, with the position just after the bytes it consumed. */
  datatype Scanned<T> = Scanned(value: T, next: nat)

  /** The seven conversions of the format, in their order in the input. */
  datatype Fields = Fields(dow: seq<Byte>, mon: seq<Byte>, dd: int, hh: int, mi: int, ss: int, yyyy: int)

  /** What `print_idit` prints: the converted time, or the raw IDIT text. */
  datatype Idit = IditExif(time: seq<Byte>) | IditRaw(text: seq<Byte>)

  /** The first position at or after `p` that does not hold white space. */
  function SkipSpace(s: seq<Byte>, p: nat): (q: nat)
    requires p <= |s|
    ensures p <= q <= |s|
    ensures forall i :: p <= i < q ==> IsSpace(s[i])
    ensures q < |s| ==> !IsSpace(s[q])
    decreases |s| - p
  {
    if p < |s| && IsSpace(s[p]) then SkipSpace(s, p + 1) else p
  }

  /** How many bytes from `p` on, `w` at most, are not white space. */
  function NonSpaceRun(s: seq<Byte>, p: nat, w: nat): (n: nat)
    requires p <= |s|
    ensures n <= w && p + n <= |s|
    ensures forall i :: p <= i < p + n ==> !IsSpace(s[i])
    ensures n < w && p + n < |s| ==> IsSpace(s[p + n])
    decreases w
  {
    if w == 0 || p == |s| || IsSpace(s[p]) then 0 else 1 + NonSpaceRun(s, p + 1, w - 1)
  }

  /** How many bytes from `p` on, `w` at most, are decimal digits. */
  function DigitRun(s: seq<Byte>, p: nat, w: nat): (n: nat)
    requires p <= |s|
    ensures n <= w && p + n <= |s|
    ensures forall i :: p <= i < p + n ==> IsDigit(s[i])
    ensures n < w && p + n < |s| ==> !IsDigit(s[p + n])
    decreases w
  {
    if w == 0 || p == |s| || !IsDigit(s[p]) then 0 else 1 + DigitRun(s, p + 1, w - 1)
  }

  /** The `%Ns` directive. */
  function ScanStr(s: seq<Byte>, p: nat, w: nat): (r: Option<Scanned<seq<Byte>>>)
    requires p <= |s|
    ensures r.Some? ==> 1 <= |r.value.value| <= w && r.value.next <= |s|
  {
    var q := SkipSpace(s, p);
    var n := NonSpaceRun(s, q, w);
    if n == 0 then None else Some(Scanned(s[q..q + n], q + n))
  }

  /** The `%Nd` directive, for a width `w` of at least one byte. */
  function ScanInt(s: seq<Byte>, p: nat, w: nat): (r: Option<Scanned<int>>)
    requires p <= |s| && 1 <= w
    ensures r.Some? ==> r.value.next <= |s|
    ensures r.Some? ==> 0 < r.value.value + Pow10(w - 1) && r.value.value < Pow10(w)
  {
    var q := SkipSpace(s, p);
    var signed := q < |s| && (s[q] == MINUS || s[q] == PLUS);
    var d := if signed then q + 1 else q;
    var n := DigitRun(s, d, if signed then w - 1 else w);
    if n == 0 then None
    else
      var mag: int := DecValue(s[d..d + n]);
      Pow10Grows(n, if signed then w - 1 else w);
      Pow10Grows(w - 1, w);
      Some(Scanned(if signed && s[q] == MINUS then -mag else mag, d + n))
  }

  /** An ordinary byte of the format: it must be the next input byte. */
  function ScanLit(s: seq<Byte>, p: nat, c: Byte): (r: Option<nat>)
    requires p <= |s|
    ensures r.Some? ==> p < |s| && s[p] == c && r.value == p + 1
  {
    if p < |s| && s[p] == c then Some(p + 1) else None
  }

  /**
   * `sscanf(from, "%3s %3s %2d %2d:%2d:%2d %4d", ...) == 7`: the seven
   * values when every directive matches, None when fewer than seven are
   * assigned.
   */
  function ScanDate(s: seq<Byte>): (r: Option<Fields>)
    ensures r.Some? ==> Fitting(r.value)
  {
    match ScanStr(s, 0, 3)
    case None => None
    case Some(dow) =>
      match ScanStr(s, dow.next, 3)
      case None => None
      case Some(mon) =>
        match ScanDayTime(s, mon.next)
        case None => None
        case Some(t) => Some(Fields(dow.value, mon.value, t.0, t.1, t.2, t.3, t.4))
  }

  /** The directives `" %2d %2d"` and what follows them: day, hour, minute, second, year. */
  function ScanDayTime(s: seq<Byte>, p: nat): (r: Option<(int, int, int, int, int)>)
    requires p <= |s|
    ensures r.Some? ==> -10 < r.value.0 < 100 && -10 < r.value.1 < 100
    ensures r.Some? ==> -10 < r.value.2 < 100 && -10 < r.value.3 < 100 && -1000 < r.value.4 < 10000
  {
    assert Pow10(1) == 10 && Pow10(2) == 100;
    match ScanInt(s, p, 2)
    case None => None
    case Some(dd) =>
      match ScanInt(s, dd.next, 2)
      case None => None
      case Some(hh) =>
        match ScanMinutes(s, hh.next)
        case None => None
        case Some(t) => Some((dd.value, hh.value, t.0, t.1, t.2))
  }

  /** The directives `":%2d"` and what follows them: minute, second, year. */
  function ScanMinutes(s: seq<Byte>, p: nat): (r: Option<(int, int, int)>)
    requires p <= |s|
    ensures r.Some? ==> -10 < r.value.0 < 100 && -10 < r.value.1 < 100 && -1000 < r.value.2 < 10000
  {
    assert Pow10(1) == 10 && Pow10(2) == 100;
    match ScanLit(s, p, COLON)
    case None => None
    case Some(c1) =>
      match ScanInt(s, c1, 2)
      case None => None
      case Some(mi) =>
        match ScanSeconds(s, mi.next)
        case None => None
        case Some(t) => Some((mi.value, t.0, t.1))
  }

  /** The directives `":%2d %4d"`: second and year. */
  function ScanSeconds(s: seq<Byte>, p: nat): (r: Option<(int, int)>)
    requires p <= |s|
    ensures r.Some? ==> -10 < r.value.0 < 100 && -1000 < r.value.1 < 10000
  {
    assert Pow10(1) == 10 && Pow10(2) == 100 && Pow10(3) == 1000 && Pow10(4) == 10000;
    match ScanLit(s, p, COLON)
    case None => None
    case Some(c2) =>
      match ScanInt(s, c2, 2)
      case None => None
      case Some(ss) =>
        match ScanInt(s, ss.next, 4)
        case None => None
        case Some(yyyy) => Some((ss.value, yyyy.value))
  }

  /** `tolower` of the "C" locale. */
  function LowerByte(b: Byte): Byte {
    if 0x41 <= b <= 0x5A then b + 0x20 else b
  }

  function Lower(s: seq<Byte>): (r: seq<Byte>)
    ensures |r| == |s| && forall i :: 0 <= i < |s| ==> r[i] == LowerByte(s[i])
  {
    seq(|s|, i requires 0 <= i < |s| => LowerByte(s[i]))
  }

  /** `!strcasecmp(a, b)`: equal lengths and equal bytes once both are lower-cased. */
  predicate CaseEq(a: seq<Byte>, b: seq<Byte>) {
    Lower(a) == Lower(b)
  }

  /** The month table of `convert_to_exif_time`, in order: "jan" .. "dec". */
  const MONTHS: seq<seq<Byte>> := [
    [0x6A, 0x61, 0x6E], [0x66, 0x65, 0x62], [0x6D, 0x61, 0x72],  // jan feb mar
    [0x61, 0x70, 0x72], [0x6D, 0x61, 0x79], [0x6A, 0x75, 0x6E],  // apr may jun
    [0x6A, 0x75, 0x6C], [0x61, 0x75, 0x67], [0x73, 0x65, 0x70],  // jul aug sep
    [0x6F, 0x63, 0x74], [0x6E, 0x6F, 0x76], [0x64, 0x65, 0x63]]  // oct nov dec

  /** The 1-based number of the first entry from `i` on that matches `tok`. */
  function MonthFrom(tok: seq<Byte>, i: nat): (m: Option<int>)
    requires i <= |MONTHS|
    ensures m.Some? ==> i < m.value <= |MONTHS| && CaseEq(MONTHS[m.value - 1], tok)
    ensures m.Some? ==> forall j :: i <= j < m.value - 1 ==> !CaseEq(MONTHS[j], tok)
    ensures m.None? ==> forall j :: i <= j < |MONTHS| ==> !CaseEq(MONTHS[j], tok)
    decreases |MONTHS| - i
  {
    if i == |MONTHS| then None
    else if CaseEq(MONTHS[i], tok) then Some(i + 1)
    else MonthFrom(tok, i + 1)
  }

  /** The month loop of `convert_to_exif_time`: MM, or None for the value -1. */
  function MonthNumber(tok: seq<Byte>): Option<int> {
    MonthFrom(tok, 0)
  }

  /**
   * `%0Nd` for a value that fits the width: a negative value takes a '-'
   * and N - 1 zero-padded digits of its magnitude, any other N digits.
   */
  function Render(v: int, w: nat): (r: seq<Byte>)
    requires 1 <= w && 0 < v + Pow10(w - 1) && v < Pow10(w)
    ensures |r| == w
  {
    if v < 0 then [MINUS] + Digits(-v, w - 1) else Digits(v, w)
  }

  /** The `snprintf` of `convert_to_exif_time`. */
  function Format(f: Fields, mm: int): (t: seq<Byte>)
    requires 1 <= mm <= 12 && Fitting(f)
  {
    assert Pow10(1) == 10 && Pow10(2) == 100 && Pow10(3) == 1000 && Pow10(4) == 10000;
    Render(f.yyyy, 4) + [COLON] + Render(mm, 2) + [COLON] + Render(f.dd, 2) + [SPACE]
      + Render(f.hh, 2) + [COLON] + Render(f.mi, 2) + [COLON] + Render(f.ss, 2)
  }

  /** The numbers fit their `%2d`/`%4d` widths, as every scanned value does. */
  predicate Fitting(f: Fields) {
    && -10 < f.dd < 100 && -10 < f.hh < 100 && -10 < f.mi < 100 && -10 < f.ss < 100
    && -1000 < f.yyyy < 10000
  }

  /**
   * `convert_to_exif_time` applied to the C string `from`: None where the
   * source returns NULL. The output buffer of 100 bytes always holds the
   * 19 bytes printed, so the `snprintf` check never fails.
   */
  function ExifTime(from: seq<Byte>): (r: Option<seq<Byte>>)
  {
    match ScanDate(from)
    case None => None
    case Some(f) =>
      match MonthNumber(f.mon)
      case None => None
      case Some(mm) => Some(Format(f, mm))
  }

  /** `print_idit`: the record printed for the saved IDIT buffer. */
  function PrintIdit(idit: seq<Byte>): Idit {
    match ExifTime(CStr(idit))
    case Some(t) => IditExif(t)
    case None => IditRaw(CStr(idit))
  }

  /** The month loop of `convert_to_exif_time`: MM is -1 until an entry matches, then the loop stops. */
  method FindMonth(tok: seq<Byte>) returns (mm: int)
    ensures MonthNumber(tok).Some? ==> mm == MonthNumber(tok).value
    ensures MonthNumber(tok).None? ==> mm == -1
  {
    mm := -1;
    var i := 0;
    while i < |MONTHS|
      invariant 0 <= i <= |MONTHS|
      invariant mm == -1 ==> MonthFrom(tok, i) == MonthNumber(tok)
      invariant mm != -1 ==> Some(mm) == MonthNumber(tok)
      decreases |MONTHS| - i
    {
      if CaseEq(MONTHS[i], tok) {
        mm := i + 1;
        break;
      }
      i := i + 1;
    }
  }

  /** `convert_to_exif_time`. */
  method ConvertToExifTime(from: seq<Byte>) returns (r: Option<seq<Byte>>)
    ensures r == ExifTime(from)
  {
    var fields := ScanDate(from);
    if fields.None? {
      return None;
    }
    var mm := FindMonth(fields.value.mon);
    if mm == -1 {
      return None;
    }
    return Some(Format(fields.value, mm));
  }

  // ---------------------------------------------------------------------
  // Properties of the conversion
  // ---------------------------------------------------------------------

  lemma {:induction false} Pow10Grows(a: nat, b: nat)
    requires a <= b
    ensures Pow10(a) <= Pow10(b)
    decreases b
  {
    if a < b {
      Pow10Grows(a, b - 1);
    }
  }


  /** The printed time is 19 bytes: four fields of digits separated as "YYYY:MM:DD hh:mm:ss". */
  lemma FormatShape(f: Fields, mm: int)
    requires 1 <= mm <= 12 && Fitting(f)
    ensures var t := Format(f, mm);
            |t| == 19 && t[4] == COLON && t[7] == COLON && t[10] == SPACE && t[13] == COLON && t[16] == COLON
            && t[..4] == Render(f.yyyy, 4) && t[5..7] == Render(mm, 2) && t[8..10] == Render(f.dd, 2)
            && t[11..13] == Render(f.hh, 2) && t[14..16] == Render(f.mi, 2) && t[17..] == Render(f.ss, 2)
  {
    assert Pow10(1) == 10 && Pow10(2) == 100 && Pow10(3) == 1000 && Pow10(4) == 10000;
  }

  /** Every converted time has the EXIF layout, with the month as its 1-based number. */
  lemma ExifTimeShape(from: seq<Byte>)
    ensures var r := ExifTime(from);
            r.Some? ==> && ScanDate(from).Some? && MonthNumber(ScanDate(from).value.mon).Some?
                        && var t := r.value;
                           |t| == 19 && t[4] == COLON && t[7] == COLON && t[10] == SPACE
                           && t[13] == COLON && t[16] == COLON
                           && t[5..7] == Digits(MonthNumber(ScanDate(from).value.mon).value, 2)
  {
    if ExifTime(from).Some? {
      var f := ScanDate(from).value;
      var mm := MonthNumber(f.mon).value;
      FormatShape(f, mm);
    }
  }

  lemma {:induction false} SkipSpaceTo(s: seq<Byte>, p: nat, q: nat)
    requires p <= q <= |s|
    requires forall i :: p <= i < q ==> IsSpace(s[i])
    requires q < |s| ==> !IsSpace(s[q])
    ensures SkipSpace(s, p) == q
    decreases q - p
  {
    if p < q {
      SkipSpaceTo(s, p + 1, q);
    }
  }

  lemma {:induction false} NonSpaceRunIs(s: seq<Byte>, p: nat, w: nat)
    requires p + w <= |s|
    requires forall i :: p <= i < p + w ==> !IsSpace(s[i])
    ensures NonSpaceRun(s, p, w) == w
    decreases w
  {
    if w > 0 {
      NonSpaceRunIs(s, p + 1, w - 1);
    }
  }

  lemma {:induction false} DigitRunIs(s: seq<Byte>, p: nat, w: nat)
    requires p + w <= |s|
    requires forall i :: p <= i < p + w ==> IsDigit(s[i])
    ensures DigitRun(s, p, w) == w
    decreases w
  {
    if w > 0 {
      DigitRunIs(s, p + 1, w - 1);
    }
  }

  /** `%Ns` over white space and then N bytes that are not white space takes exactly those bytes. */
  lemma ScanStrOf(s: seq<Byte>, p: nat, q: nat, w: nat)
    requires p <= q && q + w <= |s| && 1 <= w
    requires forall i :: p <= i < q ==> IsSpace(s[i])
    requires forall i :: q <= i < q + w ==> !IsSpace(s[i])
    ensures ScanStr(s, p, w) == Some(Scanned(s[q..q + w], q + w))
  {
    SkipSpaceTo(s, p, q);
    NonSpaceRunIs(s, q, w);
  }

  /** `%Nd` over white space and then the N digits of `v` reads `v` back. */
  lemma ScanIntOf(s: seq<Byte>, p: nat, q: nat, w: nat, v: nat)
    requires p <= q && q + w <= |s| && 1 <= w && v < Pow10(w)
    requires forall i :: p <= i < q ==> IsSpace(s[i])
    requires s[q..q + w] == Digits(v, w)
    ensures ScanInt(s, p, w) == Some(Scanned(v, q + w))
  {
    assert forall i :: q <= i < q + w ==> IsDigit(s[i]) by {
      forall i | q <= i < q + w
        ensures IsDigit(s[i])
      {
        assert s[i] == s[q..q + w][i - q];
      }
    }
    SkipSpaceTo(s, p, q);
    DigitRunIs(s, q, w);
    DecValueOfDigits(v, w);
  }

  /** The month names are already lower case. */
  lemma MonthsAreLower(j: nat)
    requires j < |MONTHS|
    ensures Lower(MONTHS[j]) == MONTHS[j]
  {
  }

  /** The month search only looks at the lower-cased token: the first name equal to it. */
  lemma {:induction false} MonthFromLower(tok: seq<Byte>, i: nat)
    requires i <= |MONTHS|
    ensures MonthFrom(tok, i).Some? ==> MONTHS[MonthFrom(tok, i).value - 1] == Lower(tok)
    ensures MonthFrom(tok, i).None? ==> forall j :: i <= j < |MONTHS| ==> MONTHS[j] != Lower(tok)
    decreases |MONTHS| - i
  {
    if i < |MONTHS| {
      MonthsAreLower(i);
      MonthFromLower(tok, i + 1);
    }
  }

  /** No two month names are equal. */
  lemma MonthsDistinct(i: nat, j: nat)
    requires i < j < |MONTHS|
    ensures MONTHS[i] != MONTHS[j]
  {
    var a, b := MONTHS[i], MONTHS[j];
    assert i == 0 || i == 1 || i == 2 || i == 3 || i == 4 || i == 5 || i == 6 || i == 7 || i == 8 || i == 9 || i == 10;
    assert a[0] != b[0] || a[1] != b[1] || a[2] != b[2];
  }

  /** No month name holds white space. */
  lemma MonthsHaveNoSpace(j: nat, k: nat)
    requires j < |MONTHS| && k < 3
    ensures |MONTHS[j]| == 3 && 0x61 <= MONTHS[j][k] <= 0x7A
  {
    assert j == 0 || j == 1 || j == 2 || j == 3 || j == 4 || j == 5 || j == 6 || j == 7 || j == 8 || j == 9 || j == 10 || j == 11;
  }

  /** A token that lower-cases to the name of month `m` is month `m`. */
  lemma MonthNumberOfName(tok: seq<Byte>, m: int)
    requires 1 <= m <= |MONTHS| && Lower(tok) == MONTHS[m - 1]
    ensures MonthNumber(tok) == Some(m)
  {
    MonthsAreLower(m - 1);
    assert CaseEq(MONTHS[m - 1], tok);
    MonthFromLower(tok, 0);
    var r := MonthFrom(tok, 0);
    assert r.Some?;
    assert r.value <= m;
    if r.value < m {
      MonthsDistinct(r.value - 1, m - 1);
    }
  }

  /** A date laid out as "DOW MON DD hh:mm:ss YYYY" is the layout the scan reads. */
  predicate DateLayout(s: seq<Byte>, dd: nat, hh: nat, mi: nat, ss: nat, yyyy: nat) {
    && 24 <= |s|
    && (forall i :: 0 <= i < 7 && i != 3 ==> !IsSpace(s[i]))
    && s[3] == SPACE && s[7] == SPACE && s[10] == SPACE && s[13] == COLON && s[16] == COLON && s[19] == SPACE
    && dd < 100 && hh < 100 && mi < 100 && ss < 100 && yyyy < 10000
    && s[8..10] == Digits(dd, 2) && s[11..13] == Digits(hh, 2) && s[14..16] == Digits(mi, 2)
    && s[17..19] == Digits(ss, 2) && s[20..24] == Digits(yyyy, 4)
  }

  /** The scan of a date in that layout gives the tokens and numbers back. */
  lemma ScanDateOfLayout(s: seq<Byte>, dd: nat, hh: nat, mi: nat, ss: nat, yyyy: nat)
    requires DateLayout(s, dd, hh, mi, ss, yyyy)
    ensures ScanDate(s) == Some(Fields(s[0..3], s[4..7], dd, hh, mi, ss, yyyy))
  {
    assert ScanStr(s, 0, 3) == Some(Scanned(s[0..3], 3)) by {
      ScanStrOf(s, 0, 0, 3);
    }
    assert ScanStr(s, 3, 3) == Some(Scanned(s[4..7], 7)) by {
      ScanStrOf(s, 3, 4, 3);
    }
    ScanDayTimeOfLayout(s, dd, hh, mi, ss, yyyy);
  }

  lemma ScanDayTimeOfLayout(s: seq<Byte>, dd: nat, hh: nat, mi: nat, ss: nat, yyyy: nat)
    requires DateLayout(s, dd, hh, mi, ss, yyyy)
    ensures ScanDayTime(s, 7) == Some((dd as int, hh as int, mi as int, ss as int, yyyy as int))
  {
    assert Pow10(2) == 100;
    assert ScanInt(s, 7, 2) == Some(Scanned(dd as int, 10)) by {
      ScanIntOf(s, 7, 8, 2, dd);
    }
    assert ScanInt(s, 10, 2) == Some(Scanned(hh as int, 13)) by {
      ScanIntOf(s, 10, 11, 2, hh);
    }
    ScanMinutesOfLayout(s, dd, hh, mi, ss, yyyy);
  }

  lemma ScanMinutesOfLayout(s: seq<Byte>, dd: nat, hh: nat, mi: nat, ss: nat, yyyy: nat)
    requires DateLayout(s, dd, hh, mi, ss, yyyy)
    ensures ScanMinutes(s, 13) == Some((mi as int, ss as int, yyyy as int))
  {
    assert Pow10(2) == 100;
    assert ScanLit(s, 13, COLON) == Some(14);
    assert ScanInt(s, 14, 2) == Some(Scanned(mi as int, 16)) by {
      ScanIntOf(s, 14, 14, 2, mi);
    }
    ScanSecondsOfLayout(s, dd, hh, mi, ss, yyyy);
  }

  lemma ScanSecondsOfLayout(s: seq<Byte>, dd: nat, hh: nat, mi: nat, ss: nat, yyyy: nat)
    requires DateLayout(s, dd, hh, mi, ss, yyyy)
    ensures ScanSeconds(s, 16) == Some((ss as int, yyyy as int))
  {
    assert Pow10(2) == 100 && Pow10(4) == 10000;
    assert ScanLit(s, 16, COLON) == Some(17);
    assert ScanInt(s, 17, 2) == Some(Scanned(ss as int, 19)) by {
      ScanIntOf(s, 17, 17, 2, ss);
    }
    assert ScanInt(s, 19, 4) == Some(Scanned(yyyy as int, 24)) by {
      ScanIntOf(s, 19, 20, 4, yyyy);
    }
  }

  /**
   * The round trip the tool exists for: a date laid out as
   * "DOW MON DD hh:mm:ss YYYY" (any three non-blank bytes for the day of the
   * week, the month in any letter case, any text after the year) converts
   * to "YYYY:MM:DD hh:mm:ss" with the same numbers and MM the month's number.
   */
  lemma ExifTimeOfDate(s: seq<Byte>, m: int, dd: nat, hh: nat, mi: nat, ss: nat, yyyy: nat)
    requires 24 <= |s|
    requires forall i :: 0 <= i < 3 ==> !IsSpace(s[i])
    requires 1 <= m <= 12 && Lower(s[4..7]) == MONTHS[m - 1]
    requires s[3] == SPACE && s[7] == SPACE && s[10] == SPACE && s[13] == COLON && s[16] == COLON && s[19] == SPACE
    requires dd < 100 && hh < 100 && mi < 100 && ss < 100 && yyyy < 10000
    requires s[8..10] == Digits(dd, 2) && s[11..13] == Digits(hh, 2) && s[14..16] == Digits(mi, 2)
    requires s[17..19] == Digits(ss, 2) && s[20..24] == Digits(yyyy, 4)
    ensures ExifTime(s) == Some(Digits(yyyy, 4) + [COLON] + Digits(m, 2) + [COLON] + Digits(dd, 2) + [SPACE]
                                + Digits(hh, 2) + [COLON] + Digits(mi, 2) + [COLON] + Digits(ss, 2))
  {
    var f := Fields(s[0..3], s[4..7], dd, hh, mi, ss, yyyy);
    MonthTokenHasNoSpace(s, m);
    ScanDateOfLayout(s, dd, hh, mi, ss, yyyy);
    MonthNumberOfName(s[4..7], m);
    FormatOfNatural(f, m);
    ExifTimeOfFields(s, f, m);
  }

  lemma MonthTokenHasNoSpace(s: seq<Byte>, m: int)
    requires 7 <= |s| && 1 <= m <= 12 && Lower(s[4..7]) == MONTHS[m - 1]
    ensures forall i :: 4 <= i < 7 ==> !IsSpace(s[i])
  {
    forall i | 4 <= i < 7
      ensures !IsSpace(s[i])
    {
      MonthsHaveNoSpace(m - 1, i - 4);
      assert LowerByte(s[i]) == Lower(s[4..7])[i - 4];
    }
  }

  lemma ExifTimeOfFields(s: seq<Byte>, f: Fields, mm: int)
    requires ScanDate(s) == Some(f) && MonthNumber(f.mon) == Some(mm) && 1 <= mm <= 12
    ensures ExifTime(s) == Some(Format(f, mm))
  {
  }

  /** Without minus signs, the print is the zero-padded digits of each number. */
  lemma FormatOfNatural(f: Fields, mm: int)
    requires 1 <= mm <= 12
    requires 0 <= f.dd < 100 && 0 <= f.hh < 100 && 0 <= f.mi < 100 && 0 <= f.ss < 100 && 0 <= f.yyyy < 10000
    ensures Format(f, mm) == Digits(f.yyyy, 4) + [COLON] + Digits(mm, 2) + [COLON] + Digits(f.dd, 2) + [SPACE]
                             + Digits(f.hh, 2) + [COLON] + Digits(f.mi, 2) + [COLON] + Digits(f.ss, 2)
  {
    assert Pow10(1) == 10 && Pow10(2) == 100 && Pow10(3) == 1000 && Pow10(4) == 10000;
  }

  /** A scanned date whose month token names no month is printed as the raw IDIT text. */
  lemma UnknownMonthFallsBack(idit: seq<Byte>)
    requires ScanDate(CStr(idit)).Some?
    requires forall j :: 0 <= j < |MONTHS| ==> MONTHS[j] != Lower(ScanDate(CStr(idit)).value.mon)
    ensures PrintIdit(idit) == IditRaw(CStr(idit))
  {
    MonthFromLower(ScanDate(CStr(idit)).value.mon, 0);
  }

  /**
   * `print_idit` on a saved IDIT buffer that holds such a date followed by
   * its NUL terminator and any further bytes prints the EXIF form.
   */
  lemma PrintIditOfDate(s: seq<Byte>, rest: seq<Byte>, m: int, dd: nat, hh: nat, mi: nat, ss: nat, yyyy: nat)
    requires forall i :: 0 <= i < |s| ==> s[i] != 0
    requires 24 <= |s|
    requires forall i :: 0 <= i < 3 ==> !IsSpace(s[i])
    requires 1 <= m <= 12 && Lower(s[4..7]) == MONTHS[m - 1]
    requires s[3] == SPACE && s[7] == SPACE && s[10] == SPACE && s[13] == COLON && s[16] == COLON && s[19] == SPACE
    requires dd < 100 && hh < 100 && mi < 100 && ss < 100 && yyyy < 10000
    requires s[8..10] == Digits(dd, 2) && s[11..13] == Digits(hh, 2) && s[14..16] == Digits(mi, 2)
    requires s[17..19] == Digits(ss, 2) && s[20..24] == Digits(yyyy, 4)
    ensures PrintIdit(s + [0] + rest) == IditExif(Digits(yyyy, 4) + [COLON] + Digits(m, 2) + [COLON] + Digits(dd, 2) + [SPACE]
                                                  + Digits(hh, 2) + [COLON] + Digits(mi, 2) + [COLON] + Digits(ss, 2))
  {
    CStrStopsAtNul(s, rest);
    ExifTimeOfDate(s, m, dd, hh, mi, ss, yyyy);
  }
}
