/**
 * The transports (src/include/cxxlog/transport.h): the reference
 * `OutputStream` transport, which writes one timestamped line per call to
 * an output stream it does not own, and the tagging transport the tests
 * of the logger define, which writes the severity's number and the message.
 */
module Transports {

  import opened Levels
  import opened CivilTime
  import opened IsoFormat
  import W = Wrappers

  /** A `std::ostream`, seen as the characters written to it so far. */
  class Stream {
    var text: string

    constructor ()
      ensures text == ""
    {
      text := "";
    }

    /** `operator<<` of a string: appends it. */
    method Write(s: string)
      modifies this
      ensures text == old(text) + s
    {
      text := text + s;
    }
  }

  /** Every reading of the clock renders to a four-digit-year `%FT%T` stamp. */
  lemma StampRenderable(ts: Millis)
    ensures Renderable(UtcFromMillis(ts))
  {
    UtcFromMillisSound(ts);
  }

  /** The timestamp field: `%FT%T` of the UTC date-time of `ts`. */
  function Stamp(ts: Millis): (r: string)
    ensures |r| == 19
  {
    StampRenderable(ts);
    Format(UtcFromMillis(ts))
  }

  /** The timestamp field reads back as the UTC date-time of the clock reading. */
  lemma StampReadsBack(ts: Millis)
    ensures Parse(Stamp(ts)) == W.Some(UtcFromMillis(ts))
  {
    StampRenderable(ts);
    ParseFormat(UtcFromMillis(ts));
  }

  /**
   * An operand of a `<<` chain on a stream: the `put_time` manipulator of
   * a clock reading, a non-negative `int`, or a string.
   */
  datatype Insertion = PutTime(ts: Millis) | Number(n: nat) | Chars(chars: string)

  /** The characters one operand inserts. */
  function Inserted(x: Insertion): string
  {
    match x
    case PutTime(ts) => Stamp(ts)
    case Number(n) => Decimal(n)
    case Chars(t) => t
  }

  /**
   * A `<<` expression on the stream, left-nested as C++ parses it: the
   * stream itself, or an expression with one more operand inserted.
   * Because `Written` is recursive, the verifier does not unfold a line
   * into its six pieces in every proof that mentions it; `LineText` gives
   * the flat concatenation where a proof needs it.
   */
  datatype ShiftExpr = Os | Shift(lhs: ShiftExpr, rhs: Insertion)

  /** What evaluating a `<<` expression writes: the left side's output, then the operand's. */
  function Written(e: ShiftExpr): string
  {
    match e
    case Os => ""
    case Shift(lhs, rhs) => Written(lhs) + Inserted(rhs)
  }

  /** The expression `OutputStream::log` evaluates. */
  function LogExpr(msg: string, s: Severity, ts: Millis): ShiftExpr
    requires Code(s) < |StrLevels|
  {
    Shift(Shift(Shift(Shift(Shift(Shift(Os, PutTime(ts)), Chars(" ")), Chars(ToCString(s))), Chars(": ")), Chars(msg)), Chars("\n"))
  }

  /** The line `OutputStream::log` writes: `<timestamp> <letter>: <msg>\n`. */
  function Line(msg: string, s: Severity, ts: Millis): (r: string)
    requires Code(s) < |StrLevels|
    ensures |r| > 0 && r[|r| - 1] == '\n'
  {
    Written(LogExpr(msg, s, ts))
  }

  /** The line is the stamp, a space, the letter, ": ", the message and a newline. */
  lemma LineText(msg: string, s: Severity, ts: Millis)
    requires Code(s) < |StrLevels|
    ensures Line(msg, s, ts) == Stamp(ts) + " " + ToCString(s) + ": " + msg + "\n"
  {
    var e1 := Shift(Os, PutTime(ts));
    var e3 := Shift(Shift(e1, Chars(" ")), Chars(ToCString(s)));
    var e5 := Shift(Shift(e3, Chars(": ")), Chars(msg));
    assert Written(e1) == Stamp(ts);
    assert Written(e3) == Stamp(ts) + " " + ToCString(s);
    assert Written(e5) == Stamp(ts) + " " + ToCString(s) + ": " + msg;
  }

  /**
   * The layout of a line: 19 characters of stamp, a space, the one-letter
   * severity, ": ", the message verbatim and a final newline.
   */
  lemma LineLayout(msg: string, s: Severity, ts: Millis)
    requires Code(s) < |StrLevels|
    ensures var r := Line(msg, s, ts);
      && |r| == |msg| + 24
      && r[..19] == Stamp(ts)
      && r[19] == ' ' && [r[20]] == ToCString(s) && r[21..23] == ": "
      && r[23..|r| - 1] == msg && r[|r| - 1] == '\n'
  {
    LineText(msg, s, ts);
    var r, tail := Line(msg, s, ts), " " + ToCString(s) + ": " + msg + "\n";
    assert r == Stamp(ts) + tail;
    assert r[19..] == tail && r[..19] == Stamp(ts);
    assert tail[2..4] == ": " && tail[4..|tail| - 1] == msg;
  }

  /** Past the stamp, a line depends on the severity and the message only. */
  lemma LineAfterStamp(msg: string, s: Severity, ts: Millis)
    requires Code(s) < |StrLevels|
    ensures var r := Line(msg, s, ts);
      |r| == |msg| + 24 && r[19..] == " " + ToCString(s) + ": " + msg + "\n"
  {
    LineText(msg, s, ts);
  }

  /** Writing the pieces one after another appends their concatenation. */
  lemma AppendPieces(t: string, a: string, b: string, c: string, d: string, e: string, f: string)
    ensures t + a + b + c + d + e + f == t + (a + b + c + d + e + f)
  {
  }

  /** What a line carries: the date-time shown, the severity and the message. */
  datatype Entry = Entry(stamp: DateTime, severity: Severity, msg: string)

  /** Reads a line back; the partner of `Line`. */
  function ParseLine(line: string): W.Option<Entry>
  {
    if |line| < 24 || line[19] != ' ' || line[21..23] != ": " || line[|line| - 1] != '\n' then
      W.None
    else
      match (Parse(line[..19]), SeverityOfLetter(line[20]))
      case (Some(dt), Some(s)) => W.Some(Entry(dt, s, line[23..|line| - 1]))
      case _ => W.None
  }

  /** A line reads back as its date-time, its severity and its message verbatim. */
  lemma ParseLineOfLine(msg: string, s: Severity, ts: Millis)
    requires Code(s) < |StrLevels|
    ensures ParseLine(Line(msg, s, ts)) == W.Some(Entry(UtcFromMillis(ts), s, msg))
  {
    LineLayout(msg, s, ts);
    StampReadsBack(ts);
  }

  /** Every string that reads as a line is that line, whatever the message holds. */
  lemma LineOfParseLine(line: string, e: Entry)
    requires ParseLine(line) == W.Some(e)
    ensures Code(e.severity) < |StrLevels| && Renderable(e.stamp)
    ensures line == Format(e.stamp) + " " + ToCString(e.severity) + ": " + e.msg + "\n"
  {
    FormatParse(line[..19], e.stamp);
    SeverityOfLetterInverse(line[20], e.severity);
    assert line == line[..19] + [line[19]] + [line[20]] + line[21..23] + line[23..|line| - 1] + [line[|line| - 1]];
  }

  /** The `OutputStream` transport: a non-owning reference to its stream. */
  datatype OutputStream = OutputStream(out: Stream) {

    /**
     * `OutputStream::log`: writes the timestamp, a space, the severity
     * letter, ": ", the message and a newline, in that order, after what
     * the stream already holds.
     */
    method Log(msg: string, s: Severity, ts: Millis)
      requires Code(s) < |StrLevels|
      modifies out
      ensures out.text == old(out.text) + Line(msg, s, ts)
    {
      var stamp, letter := Stamp(ts), ToCString(s);
      out.Write(stamp);
      out.Write(" ");
      out.Write(letter);
      out.Write(": ");
      out.Write(msg);
      out.Write("\n");
      AppendPieces(old(out.text), stamp, " ", letter, ": ", msg, "\n");
      LineText(msg, s, ts);
    }
  }

  /** `operator<<` of a non-negative `int`: its decimal digits, without leading zeros. */
  function Decimal(n: nat): (r: string)
    ensures |r| > 0 && AllDigits(r)
  {
    if n < 10 then [DigitChar(n)] else Decimal(n / 10) + [DigitChar(n % 10)]
  }

  /** The digits read back as the number, and only zero starts with '0'. */
  lemma {:induction false} DecimalValue(n: nat)
    ensures var r := Decimal(n);
      && |r| > 0 && AllDigits(r) && ValueOf(r) == n
      && (r[0] == '0' <==> n == 0)
  {
    if n >= 10 {
      DecimalValue(n / 10);
      var r := Decimal(n);
      assert r[..|r| - 1] == Decimal(n / 10);
    }
  }

  /** The line the capturing transport of the tests writes: `<code> -> <msg>`. */
  function TaggedLine(msg: string, s: Severity): string
  {
    Written(Shift(Shift(Shift(Os, Number(Code(s))), Chars(" -> ")), Chars(msg)))
  }

  /** The tagged line is the severity's number in decimal, " -> " and the message. */
  lemma TaggedText(msg: string, s: Severity)
    ensures TaggedLine(msg, s) == Decimal(Code(s)) + " -> " + msg
  {
    var e1 := Shift(Os, Number(Code(s)));
    var e2 := Shift(e1, Chars(" -> "));
    assert Written(e1) == Decimal(Code(s));
    assert Written(e2) == Decimal(Code(s)) + " -> ";
    assert Written(Shift(e2, Chars(msg))) == Written(e2) + msg;
  }

  /**
   * A transport an application defines (the capturing transport of
   * src/test/test_logger.cxx): writes the severity's numeric value, " -> "
   * and the message to a stream it does not own.
   */
  datatype TaggedStream = TaggedStream(out: Stream) {

    method Log(msg: string, s: Severity, ts: Millis)
      modifies out
      ensures out.text == old(out.text) + TaggedLine(msg, s)
    {
      var code := Decimal(Code(s));
      out.Write(code);
      out.Write(" -> ");
      out.Write(msg);
      assert out.text == old(out.text) + (code + " -> " + msg);
      TaggedText(msg, s);
    }
  }

}
