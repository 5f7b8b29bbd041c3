/** Relative paths of sealed segments, `YYYY/MM/DD/<id>.<extension>`: printing
    one for a segment id, and recognising exactly the printed ones. */
module SegmentPath {
  import opened Machine
  import opened Calendar

  const I64_MIN: int := -0x8000_0000_0000_0000
  const I64_MAX: int := 0x7FFF_FFFF_FFFF_FFFF

  lemma IdsAre64Bits()
    ensures I64_MAX == Power(2, 63) - 1 && I64_MIN == -I64_MAX - 1
  {
    WidthsAreBits();
  }

  // ---- Decimal text ----

  predicate IsDigit(c: char) {
    '0' <= c <= '9'
  }

  function DigitChar(n: nat): (c: char)
    requires n < 10
    ensures IsDigit(c)
  {
    '0' + n as char
  }

  function DigitValue(c: char): (n: nat)
    requires IsDigit(c)
    ensures n < 10 && DigitChar(n) == c
  {
    c as int - '0' as int
  }

  predicate AllDigits(s: string) {
    forall i :: 0 <= i < |s| ==> IsDigit(s[i])
  }

  /** The number a digit string denotes, leading zeros included. */
  function NumberOf(s: string): nat
    requires AllDigits(s)
  {
    if s == "" then 0 else 10 * NumberOf(s[..|s| - 1]) + DigitValue(s[|s| - 1])
  }

  /** Shortest decimal text of a number. */
  function Decimal(n: nat): (s: string)
    ensures AllDigits(s) && |s| >= 1
  {
    if n < 10 then [DigitChar(n)] else Decimal(n / 10) + [DigitChar(n % 10)]
  }

  function DecimalInt(n: int): string {
    if n < 0 then "-" + Decimal(-n) else Decimal(n)
  }

  /** The last `width` decimal digits of a number, zero-padded. */
  function Padded(n: nat, width: nat): (s: string)
    ensures AllDigits(s) && |s| == width
  {
    if width == 0 then "" else Padded(n / 10, width - 1) + [DigitChar(n % 10)]
  }

  function PowerOfTen(width: nat): nat {
    if width == 0 then 1 else 10 * PowerOfTen(width - 1)
  }

  lemma {:induction false} PaddedNumber(n: nat, width: nat)
    requires n < PowerOfTen(width)
    ensures NumberOf(Padded(n, width)) == n
  {
    if width > 0 {
      PaddedNumber(n / 10, width - 1);
      var s := Padded(n, width);
      assert s[..|s| - 1] == Padded(n / 10, width - 1);
    }
  }

  lemma {:induction false} NumberPadded(s: string)
    requires AllDigits(s)
    ensures NumberOf(s) < PowerOfTen(|s|) && Padded(NumberOf(s), |s|) == s
  {
    if s != "" {
      var init := s[..|s| - 1];
      NumberPadded(init);
      assert init + [s[|s| - 1]] == s;
    }
  }

  /** A digit string without a leading zero, or the string "0". */
  predicate IsNatural(s: string) {
    AllDigits(s) && (s == "0" || (|s| >= 1 && s[0] != '0'))
  }

  lemma {:induction false} DecimalNumber(n: nat)
    ensures IsNatural(Decimal(n)) && NumberOf(Decimal(n)) == n
    ensures n > 0 ==> Decimal(n)[0] != '0'
  {
    var s := Decimal(n);
    assert s[..|s| - 1] == if n < 10 then "" else Decimal(n / 10);
    if n >= 10 {
      DecimalNumber(n / 10);
    } else {
      assert NumberOf("") == 0;
    }
  }

  lemma DecimalStep(n: nat, c: char)
    requires n > 0 && IsDigit(c)
    ensures Decimal(10 * n + DigitValue(c)) == Decimal(n) + [c]
  {
    var m := 10 * n + DigitValue(c);
    assert m / 10 == n && m % 10 == DigitValue(c);
  }

  lemma NumberOfOne(c: char)
    requires IsDigit(c)
    ensures NumberOf([c]) == DigitValue(c) && Decimal(DigitValue(c)) == [c]
  {
    assert [c][..0] == "" && NumberOf("") == 0;
  }

  lemma NumberOfAppend(init: string, last: char)
    requires AllDigits(init) && IsDigit(last)
    ensures AllDigits(init + [last]) && NumberOf(init + [last]) == 10 * NumberOf(init) + DigitValue(last)
  {
    assert (init + [last])[..|init|] == init;
  }

  lemma {:induction false} NumberDecimal(s: string)
    requires IsNatural(s)
    ensures Decimal(NumberOf(s)) == s
    ensures s != "0" ==> NumberOf(s) > 0
  {
    var init, last := s[..|s| - 1], s[|s| - 1];
    if |s| == 1 {
      assert s == [last];
      NumberOfOne(last);
    } else {
      assert init[0] == s[0] != '0';
      NumberDecimal(init);
      NumberOfAppend(init, last);
      DecimalStep(NumberOf(init), last);
      assert s == init + [last];
    }
  }

  /** Segment ids as text: no leading zero, no plus sign, no `-0`. */
  predicate IsIdText(s: string) {
    if |s| > 0 && s[0] == '-' then IsNatural(s[1..]) && s[1..] != "0" else IsNatural(s)
  }

  function IdOf(s: string): int
    requires IsIdText(s)
  {
    if |s| > 0 && s[0] == '-' then 0 - NumberOf(s[1..]) else NumberOf(s)
  }

  lemma IdTextRoundTrip(id: int)
    ensures IsIdText(DecimalInt(id)) && IdOf(DecimalInt(id)) == id
  {
    var s := DecimalInt(id);
    if id < 0 {
      DecimalNumber(-id);
      assert s[1..] == Decimal(-id);
    } else {
      DecimalNumber(id);
      assert IsDigit(s[0]);
    }
  }

  lemma IdTextUnique(s: string)
    requires IsIdText(s)
    ensures DecimalInt(IdOf(s)) == s
  {
    if |s| > 0 && s[0] == '-' {
      NumberDecimal(s[1..]);
      assert "-" + s[1..] == s;
    } else {
      NumberDecimal(s);
    }
  }

  // ---- Recognising a path ----

  /** The accepted shape: four, two and two digits, an id, one of two extensions. */
  predicate HasPathShape(value: string) {
    && |value| >= 16
    && AllDigits(value[..4]) && value[4] == '/'
    && AllDigits(value[5..7]) && value[7] == '/'
    && AllDigits(value[8..10]) && value[10] == '/'
    && IsIdText(value[11..|value| - 4])
    && value[|value| - 4] == '.'
    && value[|value| - 3..] in ["pgm", "ovf"]
  }

  /** The groups of an accepted path: the date and id it spells, and its extension. */
  function Groups(value: string): (Date, int, string)
    requires HasPathShape(value)
  {
    (Date(NumberOf(value[..4]), NumberOf(value[5..7]), NumberOf(value[8..10])),
     IdOf(value[11..|value| - 4]),
     value[|value| - 3..])
  }

  predicate IsPathDate(d: Date) {
    0 <= d.year < 10_000 && 0 <= d.month < 100 && 0 <= d.day < 100
  }

  function PathText(d: Date, id: int, extension: string): string
    requires IsPathDate(d)
  {
    Padded(d.year, 4) + "/" + Padded(d.month, 2) + "/" + Padded(d.day, 2) + "/"
    + DecimalInt(id) + "." + extension
  }

  lemma JoinedSlices(y: string, m: string, d: string, id: string, extension: string)
    requires |y| == 4 && |m| == 2 && |d| == 2 && |id| >= 1 && |extension| == 3
    ensures var value := y + "/" + m + "/" + d + "/" + id + "." + extension;
            var n := |value|;
            && n == 15 + |id|
            && value[..4] == y && value[4] == '/' && value[5..7] == m && value[7] == '/'
            && value[8..10] == d && value[10] == '/'
            && value[11..n - 4] == id && value[n - 4] == '.' && value[n - 3..] == extension
  {
  }

  lemma DateNumbers(d: Date)
    requires IsPathDate(d)
    ensures Date(NumberOf(Padded(d.year, 4)), NumberOf(Padded(d.month, 2)), NumberOf(Padded(d.day, 2))) == d
  {
    assert PowerOfTen(2) == 100 && PowerOfTen(4) == 100 * PowerOfTen(2);
    PaddedNumber(d.year, 4);
    PaddedNumber(d.month, 2);
    PaddedNumber(d.day, 2);
  }

  lemma TextHasGroups(d: Date, id: int, extension: string)
    requires IsPathDate(d) && extension in ["pgm", "ovf"]
    ensures HasPathShape(PathText(d, id, extension))
    ensures Groups(PathText(d, id, extension)) == (d, id, extension)
  {
    IdTextRoundTrip(id);
    DateNumbers(d);
    assert |extension| == 3;
    JoinedSlices(Padded(d.year, 4), Padded(d.month, 2), Padded(d.day, 2), DecimalInt(id), extension);
  }

  lemma SlicesJoin(value: string)
    requires |value| >= 16
    requires value[4] == '/' && value[7] == '/' && value[10] == '/' && value[|value| - 4] == '.'
    ensures value == value[..4] + "/" + value[5..7] + "/" + value[8..10] + "/"
                   + value[11..|value| - 4] + "." + value[|value| - 3..]
  {
    var n := |value|;
    assert value[..4] + "/" + value[5..7] + "/" == value[..8];
    assert value[..8] + value[8..10] + "/" == value[..11];
    assert value[..11] + value[11..n - 4] + "." == value[..n - 3];
    assert value == value[..n - 3] + value[n - 3..];
  }

  lemma NumbersDate(y: string, m: string, d: string)
    requires AllDigits(y) && |y| == 4 && AllDigits(m) && |m| == 2 && AllDigits(d) && |d| == 2
    ensures IsPathDate(Date(NumberOf(y), NumberOf(m), NumberOf(d)))
    ensures Padded(NumberOf(y), 4) == y && Padded(NumberOf(m), 2) == m && Padded(NumberOf(d), 2) == d
  {
    assert PowerOfTen(2) == 100 && PowerOfTen(4) == 100 * PowerOfTen(2);
    NumberPadded(y);
    NumberPadded(m);
    NumberPadded(d);
  }

  lemma GroupsGiveText(value: string)
    requires HasPathShape(value)
    ensures var (d, id, extension) := Groups(value);
            IsPathDate(d) && extension in ["pgm", "ovf"] && value == PathText(d, id, extension)
  {
    IdTextUnique(value[11..|value| - 4]);
    NumbersDate(value[..4], value[5..7], value[8..10]);
    SlicesJoin(value);
  }

  /** `canonical_segment_path`: the id and file name of a well-placed segment. */
  function CanonicalSegmentPath(value: string, extension: string): Option<(int, string)> {
    if !HasPathShape(value) then None
    else
      var (written, id, ext) := Groups(value);
      if ext != extension || !(I64_MIN <= id <= I64_MAX) then None
      else
        var day := CivilFromDays(id / MICROS_PER_DAY);
        if !(0 <= day.year <= 9_999) || written != day then None
        else Some((id, DecimalInt(id) + "." + extension))
  }

  lemma LayoutDate(id: int)
    requires InLayout(id)
    ensures IsPathDate(CivilFromDays(id / MICROS_PER_DAY))
  {
    CivilFromDaysIsInverse(id / MICROS_PER_DAY);
  }

  /** The one path of a segment file. */
  function PathOf(id: int, extension: string): string
    requires InLayout(id)
  {
    LayoutDate(id);
    PathText(CivilFromDays(id / MICROS_PER_DAY), id, extension)
  }

  lemma LayoutFitsI64(id: int)
    requires InLayout(id)
    ensures I64_MIN <= id <= I64_MAX
  {
    LayoutRange(id);
  }

  /** Every segment file's printed path is recognised as that segment. */
  lemma PrintedPathIsAccepted(id: int, extension: string)
    requires InLayout(id) && extension in ["pgm", "ovf"]
    ensures CanonicalSegmentPath(PathOf(id, extension), extension)
         == Some((id, DecimalInt(id) + "." + extension))
  {
    LayoutDate(id);
    LayoutFitsI64(id);
    TextHasGroups(CivilFromDays(id / MICROS_PER_DAY), id, extension);
  }

  /** Nothing else is recognised: an accepted string is the printed path of its id. */
  lemma AcceptedPathIsPrinted(value: string, extension: string)
    requires CanonicalSegmentPath(value, extension).Some?
    ensures var (id, name) := CanonicalSegmentPath(value, extension).value;
            && InLayout(id) && extension in ["pgm", "ovf"]
            && value == PathOf(id, extension) && name == DecimalInt(id) + "." + extension
  {
    GroupsGiveText(value);
  }

  /** Recognition and printing are inverse to each other on the whole layout. */
  lemma PathBijection(value: string, extension: string, id: int)
    ensures (CanonicalSegmentPath(value, extension).Some? && CanonicalSegmentPath(value, extension).value.0 == id)
       <==> (InLayout(id) && extension in ["pgm", "ovf"] && value == PathOf(id, extension))
  {
    if CanonicalSegmentPath(value, extension).Some? {
      AcceptedPathIsPrinted(value, extension);
    }
    if InLayout(id) && extension in ["pgm", "ovf"] && value == PathOf(id, extension) {
      PrintedPathIsAccepted(id, extension);
    }
  }

  /** Two files never share a path. */
  lemma PathsAreDistinct(a: int, b: int, ea: string, eb: string)
    requires InLayout(a) && InLayout(b) && ea in ["pgm", "ovf"] && eb in ["pgm", "ovf"]
    requires PathOf(a, ea) == PathOf(b, eb)
    ensures a == b && ea == eb
  {
    LayoutDate(a);
    LayoutDate(b);
    TextHasGroups(CivilFromDays(a / MICROS_PER_DAY), a, ea);
    TextHasGroups(CivilFromDays(b / MICROS_PER_DAY), b, eb);
  }
}
