# cxxlogger core in Dafny

A model of the core of the header-only C++ logger `cxxlog`. It covers two parts.

- **The dispatch engine `Logger` (`src/include/cxxlog/logger.h`).** It holds a
  severity threshold and a list of transports that only grows. `log` hands one
  message, one severity and one timestamp to every transport, in registration
  order, when the threshold lets the level through.
- **The reference transport `OutputStream` (`src/include/cxxlog/transport.h`).**
  It turns a clock reading in epoch milliseconds into the UTC date-time of that
  second. It renders that date-time as `YYYY-MM-DDThh:mm:ss`, the extended
  complete representation of section 4.3.2 of ISO 8601:2004. It then appends
  `<timestamp> <letter>: <message>\n` to a stream it does not own.

The model has seven modules, one per file.

- `levels.dfy` (`Levels`): the `Severity` enumeration, its underlying values and
  order, and the `kStrLevels` letter table behind `toCString`.
- `civil_time.dfy` (`CivilTime`): `to_time_t` and `gmtime_r` on the proleptic
  Gregorian calendar. "Seconds since the Epoch" follows section 4.16 of the
  POSIX.1-2017 Base Definitions: every day has 86400 seconds.
  - `DaysFromCivil` counts days in closed form.
  - `CivilFromDays` walks years, then months.
  - Each is proved to invert the other.
- `iso_format.dfy` (`IsoFormat`): the `%FT%T` rendering, and `Parse`, a parser
  proved to be its partner in both directions.
- `transport.dfy` (`Transports`):
  - An output stream is a `Stream` object whose text the transports append to.
  - `OutputStream::log` evaluates a `<<` chain. It is modelled as that chain
    (`ShiftExpr`) and as a method that writes the six pieces in order.
  - `ParseLine` reads a line back.
  - `TaggedStream` is the transport that `src/test/test_logger.cxx` defines in
    `test_multiple_transport`: it writes the severity's number, " -> " and the
    message.
- `logger.dfy` (`Logging`): the `Logger` class.
  - Its fields are the threshold, the transport list and a ghost trace `calls`
    of every transport invocation.
  - `Transport` is the closed variant of transport kinds.
  - `Dispatch` is the fan-out loop. It is proved against `FanOut` and against
    `TextFor`, which gives what each stream receives when several entries share
    one stream.
- `scenarios.dfy` (`Scenarios`): the tests' scenarios, stated with the test's
  concrete clock readings or with the clock as a parameter.
- `wrappers.dfy` (`Wrappers`): an `Option` type.

The clock is a parameter `ts` of every `log`. Readings run from the epoch up to,
but not including, 10000-01-01T00:00:00Z (type `CivilTime.Millis`). Under
libstdc++ the program itself is defined only up to 2262 (see "## Left out").

## Model

| member | source | states |
|---|---|---|
| Levels.AtMost | src/include/cxxlog/logger.h:35-43 | Comparing the underlying values (`<=` on the scoped enum) orders the levels exactly as declared: Verbose < Debug < Info < Warn < Error < Fatal < None. |
| Levels.AtMostIsTotalOrder | src/include/cxxlog/logger.h:35-43 | The comparison is reflexive, antisymmetric, transitive and total on the seven enumerators. |
| Levels.ToCString | src/include/cxxlog/logger.h:211 | For a level whose value indexes inside the table, the result is a single letter, and reading that letter back gives the level. |
| Levels.HasLetterIffEmitting | src/include/cxxlog/logger.h:217 | A level has an entry in the six-entry `kStrLevels` table exactly when it is one of the six emitting levels; `kNone` (0x7F) has none. |
| Levels.SeverityOfLetterInverse | src/include/cxxlog/logger.h:217 | Every character that reads back as a severity is that severity's table entry, so a letter is `V`, `D`, `I`, `W`, `E` or `F` and names one level. |
| Levels.NonePassesEveryThreshold | src/include/cxxlog/logger.h:206 | As written, `isEnabled(kNone)` holds under every threshold, and `kNone` has no entry in the letter table. |
| Levels.Emits | src/include/cxxlog/logger.h:101-102 | The gate used by the model: a message is emitted exactly when its level is one of the six emitting levels and is at or above the threshold. An emitted level always has a letter. |
| Levels.ExtremeThresholds | src/include/cxxlog/logger.h:35-43 | Threshold `None` turns away all six emitting levels, and threshold `Verbose` lets all six through. |
| Levels.GateMonotone | src/include/cxxlog/logger.h:206 | The gate is monotone: a level that passes a threshold passes every lower threshold, and every emitting level passes a threshold equal to itself. |
| CivilTime.ToTimeT | src/include/cxxlog/transport.h:46 | `to_time_t` drops the sub-second part: the result `t` satisfies `t * 1000 <= ms < t * 1000 + 1000`. |
| CivilTime.CivilFromDaysSound | src/include/cxxlog/transport.h:51 | The date found for a day count is a valid date from 1970 on. `DaysFromCivil` maps it back to the count. Its year is before 10000 exactly when the count is before 10000-01-01. |
| CivilTime.CivilFromDaysInverse | src/include/cxxlog/transport.h:51 | Every valid date from 1970 on is found again from its day count. |
| CivilTime.GmTime | src/include/cxxlog/transport.h:51 | `gmtime_r` of a second count: the hour is below 24, the minute and the second below 60. |
| CivilTime.GmTimeSound | src/include/cxxlog/transport.h:51 | `gmtime_r` yields a valid date-time: month 1..12, day within the month, hour < 24, minute < 60, second < 60, year 1970..9999. Its seconds since the epoch are the input. |
| CivilTime.GmTimeInverse | src/include/cxxlog/transport.h:51 | Every valid date-time of the years 1970..9999 is what `gmtime_r` gives for its own seconds since the epoch. |
| CivilTime.UtcFromMillis | src/include/cxxlog/transport.h:46-51 | The date-time the transport prints for a reading, `gmtime_r(to_time_t(ts))`: its time-of-day fields are in range. |
| CivilTime.UtcFromMillisSound | src/include/cxxlog/transport.h:46-51 | The date-time shown for a reading is valid, falls in 1970..9999, and is the second the reading falls in: its epoch seconds are `ms / 1000`. |
| CivilTime.SameStampIffSameSecond | src/include/cxxlog/transport.h:46-51 | Two readings show the same date-time exactly when they fall in the same second. |
| IsoFormat.ValueOfPad | src/include/cxxlog/transport.h:51 | A zero-padded field reads back as its number whenever the number fits the width. |
| IsoFormat.PadValueOf | src/include/cxxlog/transport.h:51 | Padding the value of a string of digits to its length gives the string back. |
| IsoFormat.PadTwo | src/include/cxxlog/transport.h:51 | A two-digit field is the tens digit followed by the units digit. |
| IsoFormat.Format | src/include/cxxlog/transport.h:51 | `%FT%T` of a date-time whose fields fit their widths is 19 characters long. |
| IsoFormat.ParseFormat | src/include/cxxlog/transport.h:51 | Every date-time whose fields fit their widths is read back from its rendering. |
| IsoFormat.FormatParse | src/include/cxxlog/transport.h:51 | Every string the parser accepts is the rendering of the date-time it reads. |
| Transports.Stamp | src/include/cxxlog/transport.h:51 | The timestamp field is always exactly 19 characters. |
| Transports.StampReadsBack | src/include/cxxlog/transport.h:46-51 | The timestamp field reads back as the UTC date-time of the reading. |
| Transports.Line | src/include/cxxlog/transport.h:50-53 | The line `OutputStream::log` writes is not empty and ends in a newline. |
| Transports.LineText | src/include/cxxlog/transport.h:50-53 | The `<<` chain writes the stamp, a space, the severity letter, ": ", the message and a newline, in that order. |
| Transports.LineLayout | src/include/cxxlog/transport.h:50-53 | A line is 24 characters longer than its message. It has the stamp at 0..18, a space at 19, the letter at 20 and ": " at 21..22. The message follows verbatim, then a final newline. |
| Transports.LineAfterStamp | src/include/cxxlog/transport.h:52-53 | Past the stamp, a line depends only on the severity and the message. |
| Transports.ParseLineOfLine | src/include/cxxlog/transport.h:50-53 | Every line reads back as its UTC date-time, its severity and its message, whatever characters the message holds. |
| Transports.LineOfParseLine | src/include/cxxlog/transport.h:50-53 | Every string that reads as a line is exactly the line of what it reads. |
| Transports.Stream.Write | src/include/cxxlog/transport.h:50-53 | `operator<<` of a string appends it to what the stream already holds. |
| Transports.OutputStream.Log | src/include/cxxlog/transport.h:45-54 | One call appends exactly one line to the stream, and what the stream held before stays as a prefix. |
| Transports.Decimal | src/test/test_logger.cxx:246 | `operator<<` of a non-negative int writes at least one character, and only decimal digits. |
| Transports.DecimalValue | src/test/test_logger.cxx:246 | `operator<<` of a non-negative int writes decimal digits that read back as the number, with no leading zero except for 0 itself. |
| Transports.TaggedText | src/test/test_logger.cxx:246 | The tagging transport's `<<` chain writes the severity's decimal number, " -> " and the message. |
| Transports.TaggedStream.Log | src/test/test_logger.cxx:245-247 | The tagging transport appends its tagged line to its stream. |
| Logging.Transport.Log | src/include/cxxlog/logger.h:108-109 | `std::visit` of a list entry runs the `log` of the one kind it holds. The entry's stream gains exactly that kind's rendering. |
| Logging.FanOut | src/include/cxxlog/logger.h:108-109 | The calls of one emitted message go one per entry, the i-th to the i-th transport, all with the same message, severity and timestamp. |
| Logging.TextForRepeats | src/include/cxxlog/logger.h:108-109 | A stream whose every writer writes the same line receives that line once per registration. |
| Logging.OutputOnlyStream | src/include/cxxlog/logger.h:108-109 | A stream written only by `OutputStream` entries receives the formatted line once per registration, and nothing when no entry writes to it. |
| Logging.OneEntryText | src/include/cxxlog/logger.h:108-109 | With one entry, its stream gains exactly that entry's rendering. |
| Logging.TwoEntriesText | src/include/cxxlog/logger.h:108-109 | With two entries on different streams, each stream gains its own entry's rendering. With one stream shared by both, it gains the first entry's rendering, then the second's. |
| Logging.Dispatch | src/include/cxxlog/logger.h:108-109 | The loop over the transports makes exactly the calls `FanOut` lists, in list order. Each stream gains the lines of the entries that write to it, in list order, after what it held. |
| Logging.Logger.constructor | src/include/cxxlog/logger.h:75-77 | A new logger has the given threshold (`Info` by default), no transports and no calls. |
| Logging.Logger.Transport | src/include/cxxlog/logger.h:87-89 | Registration appends the transport at the end. Earlier entries keep their order, the threshold is unchanged and nothing is called. |
| Logging.Logger.SetLevel | src/include/cxxlog/logger.h:197 | Returns the threshold in effect before the call, and `GetLevel` then returns the new one. The transport list and the call trace are unchanged. |
| Logging.Logger.GetLevel | src/include/cxxlog/logger.h:201 | The threshold; a message at the threshold's own level is enabled. |
| Logging.Logger.IsEnabled | src/include/cxxlog/logger.h:206 | Holds exactly when the threshold comes no later than the level in the declaration order. |
| Logging.Logger.Log | src/include/cxxlog/logger.h:101-111 | When the level is emitted, every registered transport is invoked once, in list order, with the same message, severity and timestamp. Each stream gains those transports' lines in that order. Otherwise no transport is invoked and no stream changes. The threshold and the list never change. |
| Logging.Logger.Verbose | src/include/cxxlog/logger.h:122-124 | `log` at `Verbose`. |
| Logging.Logger.Debug | src/include/cxxlog/logger.h:135-137 | `log` at `Debug`. |
| Logging.Logger.Info | src/include/cxxlog/logger.h:148-150 | `log` at `Info`. |
| Logging.Logger.Warn | src/include/cxxlog/logger.h:161-163 | `log` at `Warn`. |
| Logging.Logger.Error | src/include/cxxlog/logger.h:174-176 | `log` at `Error`. |
| Logging.Logger.Fatal | src/include/cxxlog/logger.h:187-189 | `log` at `Fatal`. |
| Scenarios.UtcAtEarly | src/test/test_transport.cxx:34-38 | 1234567890 ms after the epoch is 1970-01-15 06:56:07 UTC; the 890 ms are dropped. |
| Scenarios.UtcAtLater | src/test/test_transport.cxx:45-51 | 987654321000 ms after the epoch is 2001-04-19 04:25:21 UTC. |
| Scenarios.StampAtEarly | src/test/test_transport.cxx:38 | The stamp at 1234567890 ms is "1970-01-15T06:56:07". |
| Scenarios.StampAtLater | src/test/test_transport.cxx:50-51 | The stamp at 987654321000 ms is "2001-04-19T04:25:21". |
| Scenarios.MessageWithSeverity | src/test/test_transport.cxx:33-39 | An info message on a fresh stream yields exactly "1970-01-15T06:56:07 I: Test message\n". |
| Scenarios.MultipleMessages | src/test/test_transport.cxx:44-52 | Two calls yield the error line, then the warning line, each with its own letter. |
| Scenarios.EmptyMessage | src/test/test_transport.cxx:57-63 | An empty message still yields the stamp, the letter, ": " and the newline: "1970-01-15T06:56:07 D: \n". |
| Scenarios.SeverityGate | src/test/test_logger.cxx:61-201 | With any threshold and any level, the stream receives the line exactly when the level is emitted, and nothing otherwise. |
| Scenarios.ThresholdChange | src/test/test_logger.cxx:61-88 | Under threshold `Fatal` a fatal message is written and an error is not. `setLevel(Error)` hands back `Fatal`, and the error is then written. |
| Scenarios.TaggedDebug | src/test/test_logger.cxx:261 | The tagging transport writes a debug message as "1 -> hello debug". |
| Scenarios.DebugLineAfterStamp | src/test/test_logger.cxx:262 | Whatever the clock reads, the debug line is 35 characters and ends in " D: hello debug\n" after its stamp. |
| Scenarios.MultipleTransport | src/test/test_logger.cxx:238-263 | A tagging transport and an `OutputStream` on two streams both receive the debug message, each in its own layout. |
| Scenarios.SameTransportTwice | src/test/test_logger.cxx:268-299 | Two `OutputStream` transports on two streams each receive the fatal line. |
| Scenarios.OneStreamTwice | src/include/cxxlog/logger.h:87-89 | One stream registered twice receives the fatal line twice, back to back. |

## Left out

- Message formatting through `fmtlib::format` (`src/include/cxxlog/logger.h:103`) is a foreign library; the model takes the already formatted message as a string.
- `std::chrono::system_clock::now()` (`src/include/cxxlog/logger.h:104-106`) is a real clock; its reading is the parameter `ts` of `log`.
- CivilTime.Millis: the model gives a stamp to every reading below 10000-01-01. Under libstdc++, where `system_clock::duration` counts nanoseconds, the conversion at `src/include/cxxlog/transport.h:46` overflows a 64-bit count (undefined behaviour) from 9223372036855 ms on (2262-04-11T23:47:16.855Z); readings from there to the year 10000 have no defined result in the program.
- Clock readings before the epoch, or from year 10000 on, are outside `CivilTime.Millis`: `%Y` would no longer print four digits, and `to_time_t` of a negative reading is not modelled.
- `std::ostream` internals, `std::put_time` and `gmtime_r` as library calls are replaced by `Stream.text` and the model's own calendar functions.
- The `Loggable` concept, `std::variant`/`std::visit`, `std::list`, `std::reference_wrapper` and `mutable`/`const` are C++ mechanics; the closed set of transport kinds is the datatype `Logging.Transport`, and a transport holds a reference to a `Stream` object.
- Exceptions thrown by a transport (which would stop the fan-out) are not modelled: the modelled transports cannot fail.
- Concurrency: the logger has none and relies on its caller for serialisation.
- Logging.Logger.Log: the gate is `Levels.Emits`, not `isEnabled` as written, so a message at level `None` is turned away instead of reaching the transports (see Findings).
- The filesystem part of `test_same_transport_multiple_times` (`src/test/test_logger.cxx:271-298`) is modelled by a second in-memory stream.
- The floating-point formatting checks of `test_format` (`src/test/test_logger.cxx:27-55`) test `fmtlib`, which is left out.
- The `ts % 10000` transport of `test_custom_transporter` (`src/test/test_logger.cxx:206-233`) compares against a second reading of the system clock, which the model does not have.

## Findings

| source | as written | input that shows it | evidently intended | confidence | as-written member | corrected member |
|---|---|---|---|---|---|---|
| src/include/cxxlog/logger.h:101-109, 206, 211 | `log` gates on `isEnabled(s)`, which is `_severity <= s`; since every threshold is `<= kNone`, `log(kNone, ...)` always passes and each `OutputStream` then reads `kStrLevels[0x7F]` of a six-entry array | `logger.log(Severity::kNone, "x")` with an `OutputStream` transport, under any threshold | `kNone` is only a threshold meaning "no logging", so a message at `kNone` is not emitted | not executed | Levels.NonePassesEveryThreshold | Levels.Emits |
