/**
 * The `%FT%T` rendering that `std::put_time` gives the broken-down UTC
 * time in `OutputStream::log` (src/include/cxxlog/transport.h): the
 * extended complete representation `YYYY-MM-DDThh:mm:ss` of section 4.3.2
 * of ISO 8601:2004, and the parser that reads it back.
 */
module IsoFormat {

  import opened CivilTime
  import W = Wrappers

  predicate IsDigit(c: char)
  {
    '0' <= c <= '9'
  }

  predicate AllDigits(s: string)
  {
    forall i | 0 <= i < |s| :: IsDigit(s[i])
  }

  function Pow10(n: nat): (r: nat)
    ensures r >= 1
  {
    if n == 0 then 1 else 10 * Pow10(n - 1)
  }

  function DigitValue(c: char): (d: int)
    requires IsDigit(c)
    ensures 0 <= d < 10
  {
    c as int - '0' as int
  }

  function DigitChar(d: int): (c: char)
    requires 0 <= d < 10
    ensures IsDigit(c) && DigitValue(c) == d
  {
    (d + '0' as int) as char
  }

  /** The `width` low-order decimal digits of `n`, most significant first, zero-padded. */
  function Pad(n: nat, width: nat): (r: string)
    ensures |r| == width && AllDigits(r)
  {
    if width == 0 then "" else Pad(n / 10, width - 1) + [DigitChar(n % 10)]
  }

  /** The number a string of decimal digits denotes. */
  function ValueOf(s: string): (v: nat)
    requires AllDigits(s)
    ensures v < Pow10(|s|)
  {
    if s == [] then 0 else ValueOf(s[..|s| - 1]) * 10 + DigitValue(s[|s| - 1])
  }

  /** Reading back a zero-padded number gives the number when it fits the width. */
  lemma {:induction false} ValueOfPad(n: nat, width: nat)
    requires n < Pow10(width)
    ensures ValueOf(Pad(n, width)) == n
  {
    if width > 0 {
      var p := Pad(n, width);
      assert p[..width - 1] == Pad(n / 10, width - 1);
      ValueOfPad(n / 10, width - 1);
    }
  }

  /** Padding the value of a digit string to its length gives the string back. */
  lemma {:induction false} PadValueOf(s: string)
    requires AllDigits(s)
    ensures Pad(ValueOf(s), |s|) == s
  {
    if s != [] {
      var front := s[..|s| - 1];
      assert AllDigits(front);
      PadValueOf(front);
      var c := s[|s| - 1];
      assert ValueOf(s) / 10 == ValueOf(front) && ValueOf(s) % 10 == DigitValue(c);
      assert DigitChar(DigitValue(c)) == c;
    }
  }

  /** A two-digit field is the tens digit followed by the units digit. */
  lemma PadTwo(n: nat)
    requires n < 100
    ensures Pad(n, 2) == [DigitChar(n / 10), DigitChar(n % 10)]
  {
    assert Pad(n / 10, 1) == Pad(n / 100, 0) + [DigitChar(n / 10 % 10)];
  }

  /** The fields fit the widths of `%Y-%m-%dT%H:%M:%S`. */
  predicate Renderable(dt: DateTime)
  {
    && 0 <= dt.year < 10000
    && 0 <= dt.month < 100 && 0 <= dt.day < 100
    && 0 <= dt.hour < 100 && 0 <= dt.minute < 100 && 0 <= dt.second < 100
  }

  /** `%FT%T`: a fixed-width, zero-padded, 19-character rendering. */
  function Format(dt: DateTime): (r: string)
    requires Renderable(dt)
    ensures |r| == 19
  {
    Pad(dt.year, 4) + "-" + Pad(dt.month, 2) + "-" + Pad(dt.day, 2) + "T"
    + Pad(dt.hour, 2) + ":" + Pad(dt.minute, 2) + ":" + Pad(dt.second, 2)
  }

  /** Reads a `YYYY-MM-DDThh:mm:ss` string; the partner of `Format`. */
  function Parse(s: string): W.Option<DateTime>
  {
    if && |s| == 19
       && s[4] == '-' && s[7] == '-' && s[10] == 'T' && s[13] == ':' && s[16] == ':'
       && AllDigits(s[0..4]) && AllDigits(s[5..7]) && AllDigits(s[8..10])
       && AllDigits(s[11..13]) && AllDigits(s[14..16]) && AllDigits(s[17..19])
    then
      W.Some(DateTime(ValueOf(s[0..4]), ValueOf(s[5..7]), ValueOf(s[8..10]),
                      ValueOf(s[11..13]), ValueOf(s[14..16]), ValueOf(s[17..19])))
    else
      W.None
  }

  lemma FormatFields(dt: DateTime)
    requires Renderable(dt)
    ensures var r := Format(dt);
      && r[0..4] == Pad(dt.year, 4) && r[4] == '-' && r[5..7] == Pad(dt.month, 2) && r[7] == '-'
      && r[8..10] == Pad(dt.day, 2) && r[10] == 'T' && r[11..13] == Pad(dt.hour, 2) && r[13] == ':'
      && r[14..16] == Pad(dt.minute, 2) && r[16] == ':' && r[17..19] == Pad(dt.second, 2)
  {
  }

  /** Every renderable date-time is read back from its rendering. */
  lemma ParseFormat(dt: DateTime)
    requires Renderable(dt)
    ensures Parse(Format(dt)) == W.Some(dt)
  {
    FormatFields(dt);
    ValueOfPad(dt.year, 4);
    ValueOfPad(dt.month, 2);
    ValueOfPad(dt.day, 2);
    ValueOfPad(dt.hour, 2);
    ValueOfPad(dt.minute, 2);
    ValueOfPad(dt.second, 2);
  }

  /** Every string the parser accepts is the rendering of what it reads. */
  lemma FormatParse(s: string, dt: DateTime)
    requires Parse(s) == W.Some(dt)
    ensures Renderable(dt) && Format(dt) == s
  {
    PadValueOf(s[0..4]);
    PadValueOf(s[5..7]);
    PadValueOf(s[8..10]);
    PadValueOf(s[11..13]);
    PadValueOf(s[14..16]);
    PadValueOf(s[17..19]);
    assert s == s[0..4] + [s[4]] + s[5..7] + [s[7]] + s[8..10] + [s[10]]
              + s[11..13] + [s[13]] + s[14..16] + [s[16]] + s[17..19];
  }

}
