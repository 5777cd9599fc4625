/**
 * The Severity enumeration of the logger (src/include/cxxlog/logger.h):
 * its underlying values, the order the C++ comparison operators give it,
 * and the single-letter table used by `Logger::toCString`.
 */
module Levels {

  import W = Wrappers

  /** The seven enumerators, in declaration order. */
  datatype Severity = Verbose | Debug | Info | Warn | Error | Fatal | None

  /** The enumerators in the order they are declared. */
  const Declared: seq<Severity> := [Verbose, Debug, Info, Warn, Error, Fatal, None]

  /** The six levels a message can be logged at (every level but the sentinel). */
  const Emitting: seq<Severity> := [Verbose, Debug, Info, Warn, Error, Fatal]

  /** The underlying `std::int_fast8_t` value of each enumerator. */
  function Code(s: Severity): int
  {
    match s
    case Verbose => 0x00
    case Debug => 0x01
    case Info => 0x02
    case Warn => 0x03
    case Error => 0x04
    case Fatal => 0x05
    case None => 0x7F
  }

  /** Position of an enumerator in the declaration. */
  function Rank(s: Severity): (r: nat)
    ensures r < |Declared| && Declared[r] == s
  {
    match s
    case Verbose => 0
    case Debug => 1
    case Info => 2
    case Warn => 3
    case Error => 4
    case Fatal => 5
    case None => 6
  }

  /**
   * `a <= b` on the scoped enumeration: a comparison of the underlying
   * values, which is the declaration order Verbose < ... < Fatal < None.
   */
  predicate AtMost(a: Severity, b: Severity)
    ensures AtMost(a, b) <==> Rank(a) <= Rank(b)
  {
    Code(a) <= Code(b)
  }

  /** The comparison is a total order on the seven enumerators. */
  lemma AtMostIsTotalOrder(a: Severity, b: Severity, c: Severity)
    ensures AtMost(a, a)
    ensures AtMost(a, b) && AtMost(b, a) ==> a == b
    ensures AtMost(a, b) && AtMost(b, c) ==> AtMost(a, c)
    ensures AtMost(a, b) || AtMost(b, a)
  {
  }

  /** `kStrLevels`: one letter per emitting level, indexed by the underlying value. */
  const StrLevels: seq<string> := ["V", "D", "I", "W", "E", "F"]

  /**
   * `Logger::toCString`: the table entry at the level's underlying value.
   * The table has six entries, so the sentinel (0x7F) has no entry.
   */
  function ToCString(s: Severity): (r: string)
    requires Code(s) < |StrLevels|
    ensures |r| == 1
    ensures SeverityOfLetter(r[0]) == W.Some(s)
  {
    StrLevels[Code(s)]
  }

  /** Exactly the six emitting levels index inside the letter table. */
  lemma HasLetterIffEmitting(s: Severity)
    ensures Code(s) < |StrLevels| <==> s in Emitting
  {
  }

  /** Reads a severity letter back; the inverse of `ToCString`. */
  function SeverityOfLetter(c: char): W.Option<Severity>
  {
    match c
    case 'V' => W.Some(Verbose)
    case 'D' => W.Some(Debug)
    case 'I' => W.Some(Info)
    case 'W' => W.Some(Warn)
    case 'E' => W.Some(Error)
    case 'F' => W.Some(Fatal)
    case _ => W.None
  }

  /** Every letter that reads back as a severity is that severity's table entry. */
  lemma SeverityOfLetterInverse(c: char, s: Severity)
    requires SeverityOfLetter(c) == W.Some(s)
    ensures Code(s) < |StrLevels| && ToCString(s) == [c]
  {
  }

  /**
   * The gate that `Logger::log` uses, as written: `isEnabled(s)` is
   * `threshold <= s`. Since every threshold is `<= None`, a call at
   * level `None` passes it whatever the threshold.
   */
  lemma NonePassesEveryThreshold(threshold: Severity)
    ensures AtMost(threshold, None)
    ensures !(Code(None) < |StrLevels|)
  {
  }

  /**
   * The gate as intended: a message is emitted when its level is one of
   * the six emitting levels and reaches the threshold. `None` is only a
   * threshold, never the level of an emitted message.
   */
  predicate Emits(threshold: Severity, s: Severity)
    ensures Emits(threshold, s) ==> Code(s) < |StrLevels|
    ensures Emits(threshold, s) <==> s in Emitting && Rank(threshold) <= Rank(s)
  {
    s != None && AtMost(threshold, s)
  }

  /**
   * The two extreme thresholds: `None` turns away every emitting level,
   * `Verbose` lets all six through.
   */
  lemma ExtremeThresholds(s: Severity)
    ensures s in Emitting ==> !AtMost(None, s) && !Emits(None, s)
    ensures s in Emitting ==> AtMost(Verbose, s) && Emits(Verbose, s)
  {
  }

  /**
   * The gate is monotone: raising the threshold only turns levels away,
   * and a level always passes a threshold equal to itself.
   */
  lemma GateMonotone(t: Severity, u: Severity, s: Severity)
    ensures AtMost(t, u) && AtMost(u, s) ==> AtMost(t, s)
    ensures AtMost(t, u) && Emits(u, s) ==> Emits(t, s)
    ensures AtMost(s, s) && (s in Emitting ==> Emits(s, s))
  {
  }

}
