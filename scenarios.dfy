/**
 * Concrete runs taken from the repository's tests (src/test/), stated as
 * methods that build the streams and transports, log, and return what the
 * streams hold. The clock reading is a parameter: pinned by the
 * precondition to the value a transport test passes in, and free where a
 * logger test reads the system clock.
 */
module Scenarios {

  import opened Levels
  import opened CivilTime
  import opened IsoFormat
  import opened Transports
  import opened Logging

  /**
   * The clock readings the transport tests pass in. Members that use them
   * take the reading as a parameter with `requires ts == Early` (or
   * `Later`) rather than the constant itself, because a literal argument
   * makes the verifier evaluate the whole calendar in every proof step.
   */
  const Early: Millis := 1234567890
  const Later: Millis := 987654321000

  /** 1234567890 ms after the epoch is 1970-01-15T06:56:07 UTC. */
  lemma UtcAtEarly()
    ensures UtcFromMillis(Early) == DateTime(1970, 1, 15, 6, 56, 7)
  {
    var dt := DateTime(1970, 1, 15, 6, 56, 7);
    assert ValidDateTime(dt);
    assert DaysFromCivil(DateOf(dt)) == 14;
    assert EpochSeconds(dt) == 1234567;
    GmTimeInverse(dt);
    assert ToTimeT(Early) == 1234567;
  }

  /** 987654321000 ms after the epoch is 2001-04-19T04:25:21 UTC. */
  lemma UtcAtLater()
    ensures UtcFromMillis(Later) == DateTime(2001, 4, 19, 4, 25, 21)
  {
    var dt := DateTime(2001, 4, 19, 4, 25, 21);
    assert ValidDateTime(dt);
    assert DaysFromCivil(DateOf(dt)) == 11431;
    assert EpochSeconds(dt) == 987654321;
    GmTimeInverse(dt);
    assert ToTimeT(Later) == 987654321;
  }

  lemma YearOfEarly()
    ensures Pad(1970, 4) == "1970"
  {
  }

  lemma YearOfLater()
    ensures Pad(2001, 4) == "2001"
  {
  }

  /** The rendering of the date-time at `Early`. */
  lemma FormatAtEarly(dt: DateTime)
    requires dt == DateTime(1970, 1, 15, 6, 56, 7)
    ensures Format(dt) == "1970-01-15T06:56:07"
  {
    YearOfEarly();
    PadTwo(dt.month);
    PadTwo(dt.day);
    PadTwo(dt.hour);
    PadTwo(dt.minute);
    PadTwo(dt.second);
  }

  /** The rendering of the date-time at `Later`. */
  lemma FormatAtLater(dt: DateTime)
    requires dt == DateTime(2001, 4, 19, 4, 25, 21)
    ensures Format(dt) == "2001-04-19T04:25:21"
  {
    YearOfLater();
    PadTwo(dt.month);
    PadTwo(dt.day);
    PadTwo(dt.hour);
    PadTwo(dt.minute);
    PadTwo(dt.second);
  }

  /** The stamp the transport tests expect at `Early`. */
  lemma StampAtEarly(ts: Millis)
    requires ts == Early
    ensures Stamp(ts) == "1970-01-15T06:56:07"
  {
    UtcAtEarly();
    StampRenderable(ts);
    FormatAtEarly(UtcFromMillis(ts));
  }

  /** The stamp the transport tests expect at `Later`. */
  lemma StampAtLater(ts: Millis)
    requires ts == Later
    ensures Stamp(ts) == "2001-04-19T04:25:21"
  {
    UtcAtLater();
    StampRenderable(ts);
    FormatAtLater(UtcFromMillis(ts));
  }

  /** The line of an info message at `Early`. */
  lemma InfoLineAtEarly(ts: Millis)
    requires ts == Early
    ensures Line("Test message", Levels.Info, ts) == "1970-01-15T06:56:07 I: Test message\n"
  {
    assert "1970-01-15T06:56:07" + " " + "I" + ": " + "Test message" + "\n" == "1970-01-15T06:56:07 I: Test message\n";
    LineText("Test message", Levels.Info, ts);
    StampAtEarly(ts);
  }

  /** The line of an empty debug message at `Early`. */
  lemma EmptyLineAtEarly(ts: Millis)
    requires ts == Early
    ensures Line("", Levels.Debug, ts) == "1970-01-15T06:56:07 D: \n"
  {
    assert "1970-01-15T06:56:07" + " " + "D" + ": " + "" + "\n" == "1970-01-15T06:56:07 D: \n";
    LineText("", Levels.Debug, ts);
    StampAtEarly(ts);
  }

  /** The line of an error at `Later`. */
  lemma ErrorLineAtLater(ts: Millis)
    requires ts == Later
    ensures Line("Message 1", Levels.Error, ts) == "2001-04-19T04:25:21 E: Message 1\n"
  {
    assert "2001-04-19T04:25:21" + " " + "E" + ": " + "Message 1" + "\n" == "2001-04-19T04:25:21 E: Message 1\n";
    LineText("Message 1", Levels.Error, ts);
    StampAtLater(ts);
  }

  /** The line of a warning at `Later`. */
  lemma WarnLineAtLater(ts: Millis)
    requires ts == Later
    ensures Line("Message 2", Levels.Warn, ts) == "2001-04-19T04:25:21 W: Message 2\n"
  {
    assert "2001-04-19T04:25:21" + " " + "W" + ": " + "Message 2" + "\n" == "2001-04-19T04:25:21 W: Message 2\n";
    LineText("Message 2", Levels.Warn, ts);
    StampAtLater(ts);
  }

  /** An info message written to a fresh stream at `Early`. */
  method MessageWithSeverity(ts: Millis) returns (text: string)
    requires ts == Early
    ensures text == "1970-01-15T06:56:07 I: Test message\n"
  {
    var out := new Stream();
    OutputStream(out).Log("Test message", Levels.Info, ts);
    text := out.text;
    InfoLineAtEarly(ts);
  }

  /** Two messages in a row at `Later` land one after the other, each on its own line. */
  method MultipleMessages(ts: Millis) returns (text: string)
    requires ts == Later
    ensures text == "2001-04-19T04:25:21 E: Message 1\n" + "2001-04-19T04:25:21 W: Message 2\n"
  {
    var out := new Stream();
    var os := OutputStream(out);
    os.Log("Message 1", Levels.Error, ts);
    ErrorLineAtLater(ts);
    assert out.text == "2001-04-19T04:25:21 E: Message 1\n";
    os.Log("Message 2", Levels.Warn, ts);
    WarnLineAtLater(ts);
    text := out.text;
  }

  /** An empty message still yields the stamp, the letter, ": " and the newline. */
  method EmptyMessage(ts: Millis) returns (text: string)
    requires ts == Early
    ensures text == "1970-01-15T06:56:07 D: \n"
  {
    var out := new Stream();
    OutputStream(out).Log("", Levels.Debug, ts);
    text := out.text;
    EmptyLineAtEarly(ts);
  }

  /**
   * A logger with threshold `t` and one `OutputStream` transport, asked to
   * log `msg` at level `s`: the stream receives the line exactly when the
   * level is emitted, and nothing otherwise.
   */
  method SeverityGate(t: Severity, s: Severity, msg: string, ts: Millis) returns (text: string)
    ensures Emits(t, s) ==> text == Line(msg, s, ts)
    ensures !Emits(t, s) ==> text == ""
  {
    var out := new Stream();
    var logger := new Logger(t);
    var entry := Output(OutputStream(out));
    logger.Transport(entry);
    assert logger.transports == [entry];
    OneEntry(entry);
    ghost var lines := logger.Log(s, msg, ts);
    if Emits(t, s) {
      OneEntryText(entry, lines, msg, s, ts);
    }
    text := out.text;
  }

  /**
   * The threshold changes of the severity test, on one `OutputStream`: at
   * threshold `Fatal` a fatal message is written and an error is not;
   * `SetLevel(Error)` hands back `Fatal`; the same error is then written
   * after the fatal line.
   */
  method ThresholdChange(ts: Millis) returns (afterFatal: string, afterError: string, previous: Severity, text: string)
    ensures afterFatal == Line("test: logger", Levels.Fatal, ts)
    ensures afterError == afterFatal
    ensures previous == Levels.Fatal
    ensures text == Line("test: logger", Levels.Fatal, ts) + Line("test: logger", Levels.Error, ts)
  {
    var out := new Stream();
    var logger := new Logger(Levels.Fatal);
    var entry := Output(OutputStream(out));
    logger.Transport(entry);
    assert logger.transports == [entry];
    OneEntry(entry);
    ghost var lines := logger.Fatal("test: logger", ts);
    OneEntryText(entry, lines, "test: logger", Levels.Fatal, ts);
    afterFatal := out.text;
    lines := logger.Error("test: logger", ts);
    afterError := out.text;
    previous := logger.SetLevel(Levels.Error);
    lines := logger.Error("test: logger", ts);
    OneEntryText(entry, lines, "test: logger", Levels.Error, ts);
    text := out.text;
  }

  /** The tagging transport writes a debug message as its number, 1, then " -> " and the message. */
  lemma TaggedDebug()
    ensures TaggedLine("hello debug", Levels.Debug) == "1 -> hello debug"
  {
    TaggedText("hello debug", Levels.Debug);
    assert Decimal(Code(Levels.Debug)) == "1";
  }

  /** Past its 19-character stamp, the line of a debug message is fixed whatever the clock reads. */
  lemma DebugLineAfterStamp(ts: Millis)
    ensures var line := Line("hello debug", Levels.Debug, ts);
      |line| == 35 && line[19..] == " D: hello debug\n"
  {
    assert " " + "D" + ": " + "hello debug" + "\n" == " D: hello debug\n";
    LineAfterStamp("hello debug", Levels.Debug, ts);
  }

  /**
   * A tagging transport and an `OutputStream` on two streams; a debug
   * message reaches both, each in its own layout.
   */
  method MultipleTransport(ts: Millis) returns (tagged: string, line: string)
    ensures tagged == "1 -> hello debug"
    ensures line == Line("hello debug", Levels.Debug, ts)
    ensures |line| == 35 && line[19..] == " D: hello debug\n"
  {
    var ss0 := new Stream();
    var ss1 := new Stream();
    var logger := new Logger(Levels.Verbose);
    var first, second := Tagged(TaggedStream(ss0)), Output(OutputStream(ss1));
    logger.Transport(first);
    logger.Transport(second);
    assert logger.transports == [first, second];
    TwoEntries(first, second);
    ghost var lines := logger.Debug("hello debug", ts);
    TwoEntriesText(first, second, lines, "hello debug", Levels.Debug, ts);
    tagged, line := ss0.text, ss1.text;
    TaggedDebug();
    DebugLineAfterStamp(ts);
  }

  /** Two `OutputStream` transports on two streams: each receives the fatal line. */
  method SameTransportTwice(ts: Millis) returns (first: string, second: string)
    ensures first == Line("Hello World!", Levels.Fatal, ts)
    ensures second == Line("Hello World!", Levels.Fatal, ts)
  {
    var a := new Stream();
    var b := new Stream();
    var logger := new Logger(Levels.Verbose);
    var ta, tb := Output(OutputStream(a)), Output(OutputStream(b));
    logger.Transport(ta);
    logger.Transport(tb);
    assert logger.transports == [ta, tb];
    TwoEntries(ta, tb);
    ghost var lines := logger.Fatal("Hello World!", ts);
    TwoEntriesText(ta, tb, lines, "Hello World!", Levels.Fatal, ts);
    first, second := a.text, b.text;
  }

  /** One stream registered twice receives the line twice, in a row. */
  method OneStreamTwice(ts: Millis) returns (text: string)
    ensures text == Line("Hello World!", Levels.Fatal, ts) + Line("Hello World!", Levels.Fatal, ts)
  {
    var out := new Stream();
    var logger := new Logger(Levels.Verbose);
    var entry := Output(OutputStream(out));
    logger.Transport(entry);
    logger.Transport(entry);
    assert logger.transports == [entry, entry];
    TwoEntries(entry, entry);
    ghost var lines := logger.Fatal("Hello World!", ts);
    TwoEntriesText(entry, entry, lines, "Hello World!", Levels.Fatal, ts);
    text := out.text;
  }
}
