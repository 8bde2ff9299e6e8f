/**
 * The write macros `LOG`, `LOG_`, `LOG_IF` and `LOG_IF_` of logxx.hpp.
 * Each looks the logger up, compares its `severity()` with the requested
 * level, and only when that guard holds calls `get(level)` and streams the
 * payload.  The returned flag says whether the payload expression was
 * evaluated at all.
 */
module Macros {
  import opened Severity
  import opened Format
  import opened Channels
  import opened Policies
  import opened Logging

  /** The macros' guard `severity() >= level`. */
  predicate Guard(threshold: int, level: Level) {
    threshold >= level.Value()
  }

  /** The guard admits exactly the levels the filter would make visible. */
  lemma GuardIsFilter(threshold: int, level: Level)
    ensures Guard(threshold, level) <==> Visible(level.Value(), threshold)
  {
  }

  /**
   * The tail every macro expands to, `logger.get(level) << payload`, for a
   * level the logger's threshold admits: the envelope and then the payload
   * reach the logger's channel, created first if the logger had none.
   */
  method Emit(l: Logger, level: Level, ts: string, pid: string, payload: string)
    requires Visible(level.Value(), l.threshold)
    modifies l, l.channel
    ensures l.threshold == old(l.threshold)
    ensures l.channel == old(l.channel) || (old(l.channel) == null && fresh(l.channel))
    ensures l.Output() == old(l.Output()) + [Envelope(ts, pid, level.Value()), payload]
    ensures old(l.channel) == null ==> l.channel.kind == Console
    ensures l.channel.delivered == (if old(l.channel) == null then [] else old(l.channel.delivered))
    ensures l.channel.flushes == (if old(l.channel) == null then 0 else old(l.channel.flushes))
  {
    var stream := l.Get(level.Value(), ts, pid);
    Append(stream, payload);
  }

  /**
   * `LOG_IF_(condition, sink, level) << payload`.  With a false condition
   * the registry is not consulted at all; otherwise it gains `sink` and keeps
   * every other entry.  No logger's threshold or channel changes, except that
   * `sink`'s logger may get its default channel.  The payload is evaluated
   * (`admitted`) exactly when the condition holds and the guard admits
   * `level`; then the envelope and the payload, and nothing else, reach
   * `sink`'s channel; no other channel is in the frame.  When the guard fails
   * `get` is not called, so not even the default channel is created.
   */
  method LogIfTo(reg: Registry, condition: bool, sink: string, level: Level, ts: string, pid: string, payload: string)
    returns (admitted: bool)
    requires reg.Valid()
    modifies reg, reg.loggers.Values, reg.ChannelOf(sink)
    ensures reg.Valid()
    ensures !condition ==> reg.loggers == old(reg.loggers)
    ensures reg.loggers.Keys == old(reg.loggers.Keys) + (if condition then {sink} else {})
    ensures forall n :: n in old(reg.loggers) ==> n in reg.loggers && reg.loggers[n] == old(reg.loggers)[n]
    ensures condition && sink !in old(reg.loggers) ==> fresh(reg.loggers[sink])
    ensures forall n :: n in old(reg.loggers) && n != sink ==>
      reg.loggers[n].threshold == old(reg.loggers[n].threshold) && reg.loggers[n].channel == old(reg.loggers[n].channel)
    ensures admitted == (condition && Guard(old(reg.ThresholdOf(sink)), level))
    ensures reg.ThresholdOf(sink) == old(reg.ThresholdOf(sink))
    ensures reg.ChannelOf(sink) == old(reg.ChannelOf(sink)) ||
      (admitted && old(reg.ChannelOf(sink)) == null && fresh(reg.ChannelOf(sink)))
    ensures reg.OutputOf(sink) == old(reg.OutputOf(sink)) + (if admitted then [Envelope(ts, pid, level.Value()), payload] else [])
    ensures old(reg.ChannelOf(sink)) != null ==>
      reg.ChannelOf(sink).delivered == old(reg.ChannelOf(sink).delivered) &&
      reg.ChannelOf(sink).flushes == old(reg.ChannelOf(sink).flushes)
    ensures !admitted && old(reg.ChannelOf(sink)) != null ==>
      reg.ChannelOf(sink).pending == old(reg.ChannelOf(sink).pending)
    ensures old(reg.ChannelOf(sink)) == null && reg.ChannelOf(sink) != null ==>
      reg.ChannelOf(sink).kind == Console && reg.ChannelOf(sink).delivered == [] && reg.ChannelOf(sink).flushes == 0
  {
    admitted := false;
    if condition {
      var l := reg.Log(sink);
      if l.Severity() >= level.Value() {
        // the macro's second `log(sink)`, whose result `get` is called on
        var again := reg.Log(sink);
        Emit(l, level, ts, pid, payload);
        admitted := true;
      }
    }
  }

  /** `LOG_(sink, level) << payload`. */
  method LogTo(reg: Registry, sink: string, level: Level, ts: string, pid: string, payload: string)
    returns (admitted: bool)
    requires reg.Valid()
    modifies reg, reg.loggers.Values, reg.ChannelOf(sink)
    ensures reg.Valid()
    ensures reg.loggers.Keys == old(reg.loggers.Keys) + {sink}
    ensures forall n :: n in old(reg.loggers) ==> n in reg.loggers && reg.loggers[n] == old(reg.loggers)[n]
    ensures sink !in old(reg.loggers) ==> fresh(reg.loggers[sink])
    ensures forall n :: n in old(reg.loggers) && n != sink ==>
      reg.loggers[n].threshold == old(reg.loggers[n].threshold) && reg.loggers[n].channel == old(reg.loggers[n].channel)
    ensures admitted == (Guard(old(reg.ThresholdOf(sink)), level))
    ensures reg.ThresholdOf(sink) == old(reg.ThresholdOf(sink))
    ensures reg.ChannelOf(sink) == old(reg.ChannelOf(sink)) ||
      (admitted && old(reg.ChannelOf(sink)) == null && fresh(reg.ChannelOf(sink)))
    ensures reg.OutputOf(sink) == old(reg.OutputOf(sink)) + (if admitted then [Envelope(ts, pid, level.Value()), payload] else [])
    ensures old(reg.ChannelOf(sink)) != null ==>
      reg.ChannelOf(sink).delivered == old(reg.ChannelOf(sink).delivered) &&
      reg.ChannelOf(sink).flushes == old(reg.ChannelOf(sink).flushes)
    ensures !admitted && old(reg.ChannelOf(sink)) != null ==>
      reg.ChannelOf(sink).pending == old(reg.ChannelOf(sink).pending)
    ensures old(reg.ChannelOf(sink)) == null && reg.ChannelOf(sink) != null ==>
      reg.ChannelOf(sink).kind == Console && reg.ChannelOf(sink).delivered == [] && reg.ChannelOf(sink).flushes == 0
  {
    admitted := LogIfTo(reg, true, sink, level, ts, pid, payload);
  }

  /** `LOG_IF(condition, level) << payload`: the root logger `""`. */
  method LogIf(reg: Registry, condition: bool, level: Level, ts: string, pid: string, payload: string)
    returns (admitted: bool)
    requires reg.Valid()
    modifies reg, reg.loggers.Values, reg.ChannelOf("")
    ensures reg.Valid()
    ensures !condition ==> reg.loggers == old(reg.loggers)
    ensures reg.loggers.Keys == old(reg.loggers.Keys) + (if condition then {""} else {})
    ensures forall n :: n in old(reg.loggers) ==> n in reg.loggers && reg.loggers[n] == old(reg.loggers)[n]
    ensures condition && "" !in old(reg.loggers) ==> fresh(reg.loggers[""])
    ensures forall n :: n in old(reg.loggers) && n != "" ==>
      reg.loggers[n].threshold == old(reg.loggers[n].threshold) && reg.loggers[n].channel == old(reg.loggers[n].channel)
    ensures admitted == (condition && Guard(old(reg.ThresholdOf("")), level))
    ensures reg.ThresholdOf("") == old(reg.ThresholdOf(""))
    ensures reg.ChannelOf("") == old(reg.ChannelOf("")) ||
      (admitted && old(reg.ChannelOf("")) == null && fresh(reg.ChannelOf("")))
    ensures reg.OutputOf("") == old(reg.OutputOf("")) + (if admitted then [Envelope(ts, pid, level.Value()), payload] else [])
    ensures old(reg.ChannelOf("")) != null ==>
      reg.ChannelOf("").delivered == old(reg.ChannelOf("").delivered) &&
      reg.ChannelOf("").flushes == old(reg.ChannelOf("").flushes)
    ensures !admitted && old(reg.ChannelOf("")) != null ==>
      reg.ChannelOf("").pending == old(reg.ChannelOf("").pending)
    ensures old(reg.ChannelOf("")) == null && reg.ChannelOf("") != null ==>
      reg.ChannelOf("").kind == Console && reg.ChannelOf("").delivered == [] && reg.ChannelOf("").flushes == 0
  {
    admitted := LogIfTo(reg, condition, "", level, ts, pid, payload);
  }

  /** `LOG(level) << payload`: the root logger `""`. */
  method Log(reg: Registry, level: Level, ts: string, pid: string, payload: string)
    returns (admitted: bool)
    requires reg.Valid()
    modifies reg, reg.loggers.Values, reg.ChannelOf("")
    ensures reg.Valid()
    ensures reg.loggers.Keys == old(reg.loggers.Keys) + {""}
    ensures forall n :: n in old(reg.loggers) ==> n in reg.loggers && reg.loggers[n] == old(reg.loggers)[n]
    ensures "" !in old(reg.loggers) ==> fresh(reg.loggers[""])
    ensures forall n :: n in old(reg.loggers) && n != "" ==>
      reg.loggers[n].threshold == old(reg.loggers[n].threshold) && reg.loggers[n].channel == old(reg.loggers[n].channel)
    ensures admitted == (Guard(old(reg.ThresholdOf("")), level))
    ensures reg.ThresholdOf("") == old(reg.ThresholdOf(""))
    ensures reg.ChannelOf("") == old(reg.ChannelOf("")) ||
      (admitted && old(reg.ChannelOf("")) == null && fresh(reg.ChannelOf("")))
    ensures reg.OutputOf("") == old(reg.OutputOf("")) + (if admitted then [Envelope(ts, pid, level.Value()), payload] else [])
    ensures old(reg.ChannelOf("")) != null ==>
      reg.ChannelOf("").delivered == old(reg.ChannelOf("").delivered) &&
      reg.ChannelOf("").flushes == old(reg.ChannelOf("").flushes)
    ensures !admitted && old(reg.ChannelOf("")) != null ==>
      reg.ChannelOf("").pending == old(reg.ChannelOf("").pending)
    ensures old(reg.ChannelOf("")) == null && reg.ChannelOf("") != null ==>
      reg.ChannelOf("").kind == Console && reg.ChannelOf("").delivered == [] && reg.ChannelOf("").flushes == 0
  {
    admitted := LogIfTo(reg, true, "", level, ts, pid, payload);
  }
}
