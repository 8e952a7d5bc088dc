/**
 * The `TUI` printer: four entry points, one per slog severity, each printing a
 * key-value message only when the configured threshold lets its severity
 * through.
 */
module Tui {
  import opened Bytes
  import opened Layout

  /** U+1F537, U+1F7E2, U+1F7E8 and U+274C in UTF-8. */
  const IconDebug: Bytes := [0xF0, 0x9F, 0x94, 0xB7]
  const IconInfo: Bytes := [0xF0, 0x9F, 0x9F, 0xA2]
  const IconWarn: Bytes := [0xF0, 0x9F, 0x9F, 0xA8]
  const IconError: Bytes := [0xE2, 0x9D, 0x8C]

  /** The slog severities, in ascending order. */
  const LevelDebug: int := -4
  const LevelInfo: int := 0
  const LevelWarn: int := 4
  const LevelError: int := 8

  /** A `slog.Leveler`: `Nil` is the nil interface a zero `HandlerOptions` carries. */
  datatype Leveler = Nil | Fixed(level: int)

  /** The part of `slog.HandlerOptions` the printer reads. */
  datatype HandlerOptions = HandlerOptions(addSource: bool, level: Leveler)

  /** What a gate does with a call at some severity. */
  datatype Gate = Print | Skip | Panic

  /**
   * The gate as written: `t.level.Level() <= severity`. Calling `Level()` on a
   * nil `Leveler` panics, so a printer made from zero options panics on every call.
   */
  function GateAsWritten(level: Leveler, severity: int): (g: Gate)
    ensures g == Panic <==> level.Nil?
    ensures level.Fixed? ==> (g == Print <==> level.level <= severity)
  {
    match level
    case Nil => Panic
    case Fixed(threshold) => if threshold <= severity then Print else Skip
  }

  /** The threshold in force, reading a nil `Leveler` as slog does: as `LevelInfo`. */
  function Threshold(level: Leveler): (t: int)
    ensures level.Fixed? ==> t == level.level
    ensures level.Nil? ==> t == LevelInfo
  {
    match level
    case Nil => LevelInfo
    case Fixed(threshold) => threshold
  }

  /** The corrected gate: a call prints iff the threshold is at or below its severity. */
  predicate Enabled(level: Leveler, severity: int) {
    Threshold(level) <= severity
  }

  /** `NewTUI(opts)`: keeps the options' level and never fails. */
  function NewTUI(opts: HandlerOptions): (r: (TUI, Option<Bytes>))
    ensures r.0.level == opts.level
    ensures r.1.None?
  {
    (TUI(opts.level), None)
  }

  /** The zero options make the as-written gate panic on an Info call. */
  lemma ZeroOptionsPanic()
    ensures GateAsWritten(NewTUI(HandlerOptions(false, Nil)).0.level, LevelInfo) == Panic
  {
  }

  /**
   * The corrected gate never panics, agrees with the written one wherever that
   * one does not panic, and lets a nil `Leveler` through from Info upwards.
   */
  lemma CorrectedGate(level: Leveler, severity: int)
    ensures GateAsWritten(level, severity) != Panic ==>
      (GateAsWritten(level, severity) == Print <==> Enabled(level, severity))
    ensures level.Nil? ==> (Enabled(level, severity) <==> LevelInfo <= severity)
  {
  }

  /** If a call at one severity prints, so does every call at a higher one. */
  lemma GateMonotone(level: Leveler, lower: int, higher: int)
    requires lower <= higher
    ensures Enabled(level, lower) ==> Enabled(level, higher)
  {
  }

  /** The four entry points in order: each one printing implies the next one prints. */
  lemma GateChain(level: Leveler)
    ensures LevelDebug < LevelInfo < LevelWarn < LevelError
    ensures Enabled(level, LevelDebug) ==> Enabled(level, LevelInfo)
    ensures Enabled(level, LevelInfo) ==> Enabled(level, LevelWarn)
    ensures Enabled(level, LevelWarn) ==> Enabled(level, LevelError)
  {
  }

  /** The printer; its level is fixed when it is made. */
  datatype TUI = TUI(level: Leveler) {

    method Debug(msg: Bytes, fields: seq<Bytes>, now: Bytes, reported: int) returns (out: seq<Bytes>)
      ensures out == if Enabled(level, LevelDebug) then Render(msg, IconDebug, fields, now, reported) else []
    {
      out := [];
      if Threshold(level) <= LevelDebug {
        out := PrintTUI(msg, IconDebug, fields, now, reported);
      }
    }

    method Info(msg: Bytes, fields: seq<Bytes>, now: Bytes, reported: int) returns (out: seq<Bytes>)
      ensures out == if Enabled(level, LevelInfo) then Render(msg, IconInfo, fields, now, reported) else []
    {
      out := [];
      if Threshold(level) <= LevelInfo {
        out := PrintTUI(msg, IconInfo, fields, now, reported);
      }
    }

    method Warn(msg: Bytes, fields: seq<Bytes>, now: Bytes, reported: int) returns (out: seq<Bytes>)
      ensures out == if Enabled(level, LevelWarn) then Render(msg, IconWarn, fields, now, reported) else []
    {
      out := [];
      if Threshold(level) <= LevelWarn {
        out := PrintTUI(msg, IconWarn, fields, now, reported);
      }
    }

    method Error(msg: Bytes, fields: seq<Bytes>, now: Bytes, reported: int) returns (out: seq<Bytes>)
      ensures out == if Enabled(level, LevelError) then Render(msg, IconError, fields, now, reported) else []
    {
      out := [];
      if Threshold(level) <= LevelError {
        out := PrintTUI(msg, IconError, fields, now, reported);
      }
    }
  }
}
