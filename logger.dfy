/**
 * The dispatch engine `cxxlog::Logger` (src/include/cxxlog/logger.h): a
 * severity threshold, an append-only list of transports, and `log`, which
 * hands one message, one severity and one timestamp to every transport in
 * registration order.
 */
module Logging {

  import opened Levels
  import opened CivilTime
  import opened Transports

  /**
   * One entry of the transport list, `std::variant<Ts...>` over the closed
   * set of transport kinds this logger is instantiated with.
   */
  datatype Transport = Output(os: OutputStream) | Tagged(tg: TaggedStream) {

    /** The stream the transport writes to (it does not own it). */
    function Target(): Stream
    {
      match this
      case Output(o) => o.out
      case Tagged(t) => t.out
    }

    /** What the transport writes for one message. */
    function Render(msg: string, s: Severity, ts: Millis): string
      requires Code(s) < |StrLevels|
    {
      match this
      case Output(_) => Line(msg, s, ts)
      case Tagged(_) => TaggedLine(msg, s)
    }

    /**
     * `std::visit` of the entry's `log`: the one kind it holds handles the
     * call. Returns the line written, which is this entry's rendering.
     */
    method Log(msg: string, s: Severity, ts: Millis) returns (ghost line: string)
      requires Code(s) < |StrLevels|
      modifies Target()
      ensures Rendered([this], [line], 1, msg, s, ts)
      ensures Target().text == old(Target().text) + line
    {
      line := Render(msg, s, ts);
      match this
      case Output(o) => o.Log(msg, s, ts);
      case Tagged(t) => t.Log(msg, s, ts);
      assert [this][0] == this;
    }
  }

  /** One invocation of a transport's `log` by the logger. */
  datatype Call = Call(transport: Transport, msg: string, severity: Severity, ts: Millis)

  /**
   * The invocations one emitted message makes: the i-th goes to the i-th
   * transport, and all carry the same message, severity and timestamp.
   */
  function FanOut(list: seq<Transport>, msg: string, s: Severity, ts: Millis): (r: seq<Call>)
    ensures |r| == |list|
    ensures forall i | 0 <= i < |r| :: r[i] == Call(list[i], msg, s, ts)
  {
    if list == [] then []
    else FanOut(list[..|list| - 1], msg, s, ts) + [Call(list[|list| - 1], msg, s, ts)]
  }

  /** The stream each entry writes to, in list order. */
  function Destinations(list: seq<Transport>): (r: seq<Stream>)
    ensures |r| == |list|
    ensures forall k | 0 <= k < |r| :: r[k] == list[k].Target()
  {
    if list == [] then []
    else Destinations(list[..|list| - 1]) + [list[|list| - 1].Target()]
  }

  /**
   * `lines` holds what the first `n` entries of `list` write for one
   * message, entry by entry. (The trigger keeps the line layout, and with
   * it the calendar arithmetic of the stamp, out of every proof that only
   * moves these lines around.)
   */
  ghost predicate Rendered(list: seq<Transport>, lines: seq<string>, n: nat, msg: string, s: Severity, ts: Millis)
    requires Code(s) < |StrLevels|
  {
    && n <= |list| && |lines| == n
    && forall k {:trigger list[k].Render(msg, s, ts)} | 0 <= k < n :: lines[k] == list[k].Render(msg, s, ts)
  }

  /** The line entry `i` wrote extends the lines of the entries before it. */
  lemma RenderedSnoc(list: seq<Transport>, lines: seq<string>, line: string, i: nat, msg: string, s: Severity, ts: Millis)
    requires Code(s) < |StrLevels| && i < |list|
    requires Rendered(list, lines, i, msg, s, ts)
    requires Rendered([list[i]], [line], 1, msg, s, ts)
    ensures Rendered(list, lines + [line], i + 1, msg, s, ts)
  {
    assert [list[i]][0].Render(msg, s, ts) == line;
  }

  /** What stream `o` gains when `lines[k]` goes to `dests[k]` for every `k`, in order. */
  function TextFor(dests: seq<Stream>, lines: seq<string>, o: Stream): string
    requires |dests| == |lines|
  {
    if dests == [] then ""
    else
      var n := |dests| - 1;
      TextFor(dests[..n], lines[..n], o) + (if dests[n] == o then lines[n] else "")
  }

  /** One more entry adds its line to its own stream and nothing to the others. */
  lemma TextForSnoc(dests: seq<Stream>, lines: seq<string>, line: string, o: Stream)
    requires |lines| < |dests|
    ensures var i := |lines|;
      TextFor(dests[..i + 1], lines + [line], o) == TextFor(dests[..i], lines, o) + (if dests[i] == o then line else "")
  {
    var i := |lines|;
    assert dests[..i + 1][..i] == dests[..i];
    assert (lines + [line])[..i] == lines;
  }

  /** The number of entries whose stream is `o`. */
  function Registrations(dests: seq<Stream>, o: Stream): nat
  {
    if dests == [] then 0
    else Registrations(dests[..|dests| - 1], o) + (if dests[|dests| - 1] == o then 1 else 0)
  }

  /** `n` copies of `line`, one after another. */
  function Repeat(line: string, n: nat): string
  {
    if n == 0 then "" else Repeat(line, n - 1) + line
  }

  /** A stream to which every entry writing to it writes `line` receives `line` once per registration. */
  lemma {:induction false} TextForRepeats(dests: seq<Stream>, lines: seq<string>, o: Stream, line: string)
    requires |dests| == |lines|
    requires forall k | 0 <= k < |dests| && dests[k] == o :: lines[k] == line
    ensures TextFor(dests, lines, o) == Repeat(line, Registrations(dests, o))
  {
    if dests != [] {
      var n := |dests| - 1;
      TextForRepeats(dests[..n], lines[..n], o, line);
    }
  }

  /**
   * A stream that only `OutputStream` entries write to receives the
   * formatted line once per registration on it, and nothing when no entry
   * writes to it.
   */
  lemma OutputOnlyStream(list: seq<Transport>, lines: seq<string>, o: Stream, msg: string, s: Severity, ts: Millis)
    requires Code(s) < |StrLevels|
    requires Rendered(list, lines, |list|, msg, s, ts)
    requires forall k | 0 <= k < |list| && list[k].Target() == o :: list[k].Output?
    ensures TextFor(Destinations(list), lines, o) == Repeat(Line(msg, s, ts), Registrations(Destinations(list), o))
  {
    var dests := Destinations(list);
    forall k | 0 <= k < |list| && dests[k] == o
      ensures lines[k] == Line(msg, s, ts)
    {
      assert lines[k] == list[k].Render(msg, s, ts);
    }
    TextForRepeats(dests, lines, o, Line(msg, s, ts));
  }

  /** The destinations the entries of `list` write to. */
  ghost function TargetsOf(list: seq<Transport>): (r: set<Stream>)
    ensures forall k | 0 <= k < |list| :: list[k].Target() in r
  {
    if list == [] then {} else TargetsOf(list[..|list| - 1]) + {list[|list| - 1].Target()}
  }

  /** A list of one entry writes to that entry's stream only. */
  lemma OneEntry(t: Transport)
    ensures Destinations([t]) == [t.Target()] && TargetsOf([t]) == {t.Target()}
  {
    assert [t][..0] == [];
  }

  /** A list of two entries writes to their two streams, in order. */
  lemma TwoEntries(a: Transport, b: Transport)
    ensures Destinations([a, b]) == [a.Target(), b.Target()] && TargetsOf([a, b]) == {a.Target(), b.Target()}
  {
    assert [a, b][..1] == [a];
    OneEntry(a);
  }

  /** With one entry, its stream gains exactly the entry's line. */
  lemma OneEntryText(t: Transport, lines: seq<string>, msg: string, s: Severity, ts: Millis)
    requires Code(s) < |StrLevels|
    requires Rendered([t], lines, 1, msg, s, ts)
    ensures TextFor([t.Target()], lines, t.Target()) == t.Render(msg, s, ts)
  {
    assert [t.Target()][..0] == [] && lines[..0] == [];
    assert lines[0] == [t][0].Render(msg, s, ts);
  }

  /**
   * With two entries, two different streams gain one line each, and one
   * stream shared by both gains the first entry's line, then the second's.
   */
  lemma TwoEntriesText(a: Transport, b: Transport, lines: seq<string>, msg: string, s: Severity, ts: Millis)
    requires Code(s) < |StrLevels|
    requires Rendered([a, b], lines, 2, msg, s, ts)
    ensures var dests := [a.Target(), b.Target()];
      && (a.Target() != b.Target() ==>
            TextFor(dests, lines, a.Target()) == a.Render(msg, s, ts)
            && TextFor(dests, lines, b.Target()) == b.Render(msg, s, ts))
      && (a.Target() == b.Target() ==>
            TextFor(dests, lines, a.Target()) == a.Render(msg, s, ts) + b.Render(msg, s, ts))
  {
    var dests := [a.Target(), b.Target()];
    assert lines[0] == [a, b][0].Render(msg, s, ts);
    assert lines[1] == [a, b][1].Render(msg, s, ts);
    assert dests[..1] == [a.Target()] && lines[..1] == [lines[0]];
    assert [a.Target()][..0] == [] && lines[..1][..0] == [];
    forall o: Stream
      ensures TextFor(dests, lines, o)
           == (if a.Target() == o then lines[0] else "") + (if b.Target() == o then lines[1] else "")
    {
      assert TextFor(dests[..1], lines[..1], o) == (if a.Target() == o then lines[0] else "");
    }
  }

  /** What each stream of `dests` holds. */
  ghost function Texts(dests: seq<Stream>): (r: seq<string>)
    reads dests
    ensures |r| == |dests| && forall j | 0 <= j < |dests| :: r[j] == dests[j].text
  {
    if dests == [] then [] else Texts(dests[..|dests| - 1]) + [dests[|dests| - 1].text]
  }

  /**
   * `texts`, what the streams of `dests` hold, is what they held before
   * (`before`) followed by the lines, among the first `|lines|` entries,
   * of those writing to them.
   */
  predicate Appended(dests: seq<Stream>, texts: seq<string>, before: seq<string>, lines: seq<string>)
    requires |texts| == |before| == |dests| && |lines| <= |dests|
  {
    forall j | 0 <= j < |dests| :: texts[j] == before[j] + TextFor(dests[..|lines|], lines, dests[j])
  }

  /** Entry `i` writing `line` to its own stream extends what every stream has gained by its share. */
  lemma AppendedSnoc(dests: seq<Stream>, texts: seq<string>, texts': seq<string>, before: seq<string>,
                     lines: seq<string>, line: string)
    requires |texts| == |texts'| == |before| == |dests| && |lines| < |dests|
    requires Appended(dests, texts, before, lines)
    requires forall j | 0 <= j < |dests| :: texts'[j] == texts[j] + (if dests[j] == dests[|lines|] then line else "")
    ensures Appended(dests, texts', before, lines + [line])
  {
    forall j | 0 <= j < |dests|
      ensures texts'[j] == before[j] + TextFor(dests[..|lines| + 1], lines + [line], dests[j])
    {
      TextForSnoc(dests, lines, line, dests[j]);
    }
  }

  /**
   * Where the loop of `log` stands after its first `i` entries: the calls
   * made so far, the lines those entries wrote, and what each stream holds.
   */
  ghost predicate Progress(list: seq<Transport>, i: nat, made: seq<Call>, lines: seq<string>,
                           msg: string, s: Severity, ts: Millis, dests: seq<Stream>, texts: seq<string>, before: seq<string>)
    requires Code(s) < |StrLevels|
  {
    && i <= |list| && dests == Destinations(list) && |texts| == |before| == |list|
    && made == FanOut(list[..i], msg, s, ts)
    && Rendered(list, lines, i, msg, s, ts)
    && Appended(dests, texts, before, lines)
  }

  /** The call to entry `i` and the line it wrote move the loop of `log` one entry on. */
  lemma ProgressSnoc(list: seq<Transport>, i: nat, made: seq<Call>, lines: seq<string>, line: string,
                     msg: string, s: Severity, ts: Millis, dests: seq<Stream>, texts: seq<string>, texts': seq<string>, before: seq<string>)
    requires Code(s) < |StrLevels| && i < |list|
    requires Progress(list, i, made, lines, msg, s, ts, dests, texts, before)
    requires Rendered([list[i]], [line], 1, msg, s, ts)
    requires |texts'| == |texts|
    requires forall j | 0 <= j < |dests| :: texts'[j] == texts[j] + (if dests[j] == dests[i] then line else "")
    ensures Progress(list, i + 1, made + [Call(list[i], msg, s, ts)], lines + [line], msg, s, ts, dests, texts', before)
  {
    AppendedSnoc(dests, texts, texts', before, lines, line);
    RenderedSnoc(list, lines, line, i, msg, s, ts);
    assert list[..i + 1][..i] == list[..i];
  }

  /**
   * One step of the loop of `log`: entry `i` is invoked and appends its
   * line to its stream; the call and the line join those made before.
   */
  method Invoke(list: seq<Transport>, i: nat, msg: string, s: Severity, ts: Millis,
                ghost dests: seq<Stream>, ghost before: seq<string>, ghost made: seq<Call>, ghost lines: seq<string>)
    returns (ghost made': seq<Call>, ghost lines': seq<string>)
    requires Code(s) < |StrLevels| && i < |list|
    requires Progress(list, i, made, lines, msg, s, ts, dests, Texts(dests), before)
    modifies list[i].Target()
    ensures Progress(list, i + 1, made', lines', msg, s, ts, dests, Texts(dests), before)
  {
    ghost var texts := Texts(dests);
    ghost var line := list[i].Log(msg, s, ts);
    ghost var texts' := Texts(dests);
    ProgressSnoc(list, i, made, lines, line, msg, s, ts, dests, texts, texts', before);
    made', lines' := made + [Call(list[i], msg, s, ts)], lines + [line];
  }

  /** Before the first entry is invoked, no call is made, no line written, and every stream holds what it held. */
  lemma ProgressStart(list: seq<Transport>, msg: string, s: Severity, ts: Millis, texts: seq<string>)
    requires Code(s) < |StrLevels| && |texts| == |list|
    ensures Progress(list, 0, [], [], msg, s, ts, Destinations(list), texts, texts)
  {
    forall j | 0 <= j < |list|
      ensures texts[j] == texts[j] + TextFor(Destinations(list)[..0], [], Destinations(list)[j])
    {
    }
    assert list[..0] == [];
  }

  /** Once every entry has been invoked, each stream holds the lines of the entries writing to it. */
  lemma ProgressDone(list: seq<Transport>, made: seq<Call>, lines: seq<string>, msg: string, s: Severity, ts: Millis,
                     dests: seq<Stream>, texts: seq<string>, before: seq<string>)
    requires Code(s) < |StrLevels|
    requires Progress(list, |list|, made, lines, msg, s, ts, dests, texts, before)
    ensures made == FanOut(list, msg, s, ts)
    ensures Rendered(list, lines, |list|, msg, s, ts)
    ensures forall j | 0 <= j < |list| :: texts[j] == before[j] + TextFor(dests, lines, dests[j])
  {
    assert list[..|list|] == list && dests[..|list|] == dests;
  }

  /**
   * The loop of `log`: invokes every entry of `list`, in order, with the
   * same message, severity and timestamp. Returns the invocations made and
   * the lines the entries wrote; each stream gains, in list order, the lines
   * of the entries that write to it.
   */
  method Dispatch(list: seq<Transport>, msg: string, s: Severity, ts: Millis)
    returns (ghost made: seq<Call>, ghost lines: seq<string>)
    requires Code(s) < |StrLevels|
    modifies TargetsOf(list)
    ensures made == FanOut(list, msg, s, ts)
    ensures Rendered(list, lines, |list|, msg, s, ts)
    ensures forall j | 0 <= j < |list| ::
              list[j].Target().text == old(list[j].Target().text) + TextFor(Destinations(list), lines, list[j].Target())
  {
    ghost var dests := Destinations(list);
    ghost var before := Texts(dests);
    made, lines := [], [];
    ProgressStart(list, msg, s, ts, before);
    var i := 0;
    while i < |list|
      invariant i <= |list|
      invariant Progress(list, i, made, lines, msg, s, ts, dests, Texts(dests), before)
    {
      made, lines := Invoke(list, i, msg, s, ts, dests, before, made, lines);
      i := i + 1;
    }
    ProgressDone(list, made, lines, msg, s, ts, dests, Texts(dests), before);
  }

  /**
   * The logger. `threshold` is `_severity`, `transports` is `_transport`;
   * the ghost `calls` records every transport invocation made, in order.
   */
  class Logger {
    var threshold: Severity
    var transports: seq<Transport>
    ghost var calls: seq<Call>

    /** The destinations the registered transports write to. */
    ghost function Targets(): set<Stream>
      reads this
    {
      TargetsOf(transports)
    }

    /** `Logger(Severity severity = kInfo)`: no transports yet. */
    constructor (severity: Severity := Levels.Info)
      ensures threshold == severity && transports == [] && calls == []
    {
      threshold := severity;
      transports := [];
      calls := [];
    }

    /** `transport(t)`: appends `t`; nothing registered earlier moves or goes. */
    method Transport(t: Transport)
      modifies this
      ensures transports == old(transports) + [t]
      ensures threshold == old(threshold) && calls == old(calls)
    {
      transports := transports + [t];
    }

    /** `setLevel(s)`: installs `s` and returns the threshold it replaces. */
    method SetLevel(s: Severity) returns (previous: Severity)
      modifies this
      ensures previous == old(threshold) && GetLevel() == s
      ensures transports == old(transports) && calls == old(calls)
    {
      previous := threshold;
      threshold := s;
    }

    /** `getLevel()`: the threshold, a level that is itself enabled. */
    function GetLevel(): (r: Severity)
      reads this
      ensures IsEnabled(r)
    {
      threshold
    }

    /**
     * `isEnabled(s)`: `threshold <= s` on the enumeration, that is, `s`
     * comes no earlier than the threshold in Verbose < ... < Fatal < None.
     */
    predicate IsEnabled(s: Severity)
      reads this
      ensures IsEnabled(s) <==> Rank(threshold) <= Rank(s)
    {
      AtMost(threshold, s)
    }

    /**
     * The effect of one `log(s, msg)` at clock reading `ts`, `lines` being
     * what the transports wrote. When the level is emitted, every transport
     * is invoked once, in list order, with the same message, severity and
     * timestamp, `lines` holds what each wrote, and each stream gains the
     * lines of the transports that write to it, in list order. Otherwise no
     * transport is invoked and no stream changes. The threshold and the
     * transport list never change.
     */
    twostate predicate Logged(s: Severity, msg: string, ts: Millis, lines: seq<string>)
      reads this, Targets()
    {
      && threshold == old(threshold) && transports == old(transports)
      && (Emits(threshold, s) ==>
            && calls == old(calls) + FanOut(transports, msg, s, ts)
            && Rendered(transports, lines, |transports|, msg, s, ts)
            && forall i | 0 <= i < |transports| ::
                 transports[i].Target().text
                 == old(transports[i].Target().text) + TextFor(Destinations(transports), lines, transports[i].Target()))
      && (!Emits(threshold, s) ==>
            && calls == old(calls) && lines == []
            && forall i | 0 <= i < |transports| ::
                 transports[i].Target().text == old(transports[i].Target().text))
    }

    /**
     * `log(s, fmt, args...)` with the message already formatted and the
     * clock already read. The gate is `Emits`, which also turns away the
     * sentinel level `None`.
     */
    method Log(s: Severity, msg: string, ts: Millis) returns (ghost lines: seq<string>)
      modifies this, Targets()
      ensures Logged(s, msg, ts, lines)
    {
      lines := [];
      if Emits(threshold, s) {
        ghost var made;
        made, lines := Dispatch(transports, msg, s, ts);
        calls := calls + made;
      }
    }

    method Verbose(msg: string, ts: Millis) returns (ghost lines: seq<string>)
      modifies this, Targets()
      ensures Logged(Levels.Verbose, msg, ts, lines)
    {
      lines := Log(Levels.Verbose, msg, ts);
    }

    method Debug(msg: string, ts: Millis) returns (ghost lines: seq<string>)
      modifies this, Targets()
      ensures Logged(Levels.Debug, msg, ts, lines)
    {
      lines := Log(Levels.Debug, msg, ts);
    }

    method Info(msg: string, ts: Millis) returns (ghost lines: seq<string>)
      modifies this, Targets()
      ensures Logged(Levels.Info, msg, ts, lines)
    {
      lines := Log(Levels.Info, msg, ts);
    }

    method Warn(msg: string, ts: Millis) returns (ghost lines: seq<string>)
      modifies this, Targets()
      ensures Logged(Levels.Warn, msg, ts, lines)
    {
      lines := Log(Levels.Warn, msg, ts);
    }

    method Error(msg: string, ts: Millis) returns (ghost lines: seq<string>)
      modifies this, Targets()
      ensures Logged(Levels.Error, msg, ts, lines)
    {
      lines := Log(Levels.Error, msg, ts);
    }

    method Fatal(msg: string, ts: Millis) returns (ghost lines: seq<string>)
      modifies this, Targets()
      ensures Logged(Levels.Fatal, msg, ts, lines)
    {
      lines := Log(Levels.Fatal, msg, ts);
    }
  }

}
