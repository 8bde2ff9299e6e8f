/**
 * `basic_logger<std_format, std_filter>` of logxx.hpp (the `logger` type)
 * and its process-wide registry `channels_`.  A logger holds a threshold
 * (the filter's `severity_`) and an optional channel; the registry maps
 * names to logger instances and creates them on first lookup.
 */
module Logging {
  import opened Severity
  import opened Format
  import opened Channels
  import opened Policies

  /** The threshold `basic_logger`'s constructor defaults to. */
  const DefaultThreshold: int := Debug.Value()

  class Logger {
    var threshold: int
    var channel: Channel?

    /** `basic_logger(int severity = debug)`: no channel until one is needed. */
    constructor (severity: int := DefaultThreshold)
      ensures threshold == severity && channel == null
    {
      threshold, channel := severity, null;
    }

    /** What this logger's current channel has received; nothing while there is no channel. */
    function Output(): seq<string>
      reads this, channel
    {
      if channel == null then [] else channel.Written()
    }

    /** `severity()`: the threshold the filter compares against. */
    function Severity(): int
      reads this
    {
      threshold
    }

    /** `filter(int)`: sets the threshold; the channel is untouched. */
    method SetFilter(severity: int)
      modifies this
      ensures threshold == severity && Severity() == severity
      ensures channel == old(channel)
    {
      threshold := severity;
    }

    /**
     * `channel(basic_channel*)`: flushes the channel being replaced, if
     * there is one, and adopts `c`.
     */
    method SetChannel(c: Channel?)
      modifies this, channel
      ensures channel == c && threshold == old(threshold)
      ensures old(channel) != null ==>
        old(channel).pending == [] &&
        old(channel).delivered == old(channel.delivered) + old(channel.pending) &&
        old(channel).flushes == old(channel.flushes) + 1
    {
      if channel != null {
        channel.Flush();
      }
      channel := c;
    }

    /**
     * `channel()`: the current channel, creating a console channel first
     * when there is none.
     */
    method GetChannel() returns (ch: Channel)
      modifies this
      ensures channel == ch && threshold == old(threshold)
      ensures old(channel) != null ==> ch == old(channel)
      ensures old(channel) == null ==> fresh(ch) && ch.kind == Console && ch.Written() == [] && ch.flushes == 0
    {
      if channel == null {
        channel := new Channel(Console);
      }
      ch := channel;
    }

    /**
     * `get(int)` and `operator()(int)`: resolve the channel (creating the
     * default one even when the severity is then filtered out) and run the
     * filter.  A visible severity gets the channel's stream with the envelope
     * already written; any other gets the null stream and writes nothing.
     */
    method Get(severity: int, ts: string, pid: string) returns (stream: Sink)
      modifies this, channel
      ensures channel != null && threshold == old(threshold)
      ensures old(channel) != null ==> channel == old(channel)
      ensures old(channel) == null ==> fresh(channel) && channel.kind == Console
      ensures stream == (if Visible(severity, threshold) then Real(channel) else Null)
      ensures channel.Written() == old(Output()) + (if Visible(severity, threshold) then [Envelope(ts, pid, severity)] else [])
      ensures channel.delivered == (if old(channel) == null then [] else old(channel.delivered))
      ensures channel.flushes == (if old(channel) == null then 0 else old(channel.flushes))
    {
      var ch := GetChannel();
      stream := StdFilter(threshold, severity, ch, ts, pid);
    }

    /** `~basic_logger()`: flushes the channel, if there is one. */
    method Dispose()
      modifies channel
      ensures channel != null ==>
        channel.pending == [] &&
        channel.delivered == old(channel.delivered) + old(channel.pending) &&
        channel.flushes == old(channel.flushes) + 1
    {
      if channel != null {
        channel.Flush();
      }
    }
  }

  /** The static map `channels_` from logger names to logger instances. */
  class Registry {
    var loggers: map<string, Logger>

    /** Distinct names never share a logger instance. */
    ghost predicate Valid()
      reads this
    {
      forall a, b :: a in loggers && b in loggers && a != b ==> loggers[a] != loggers[b]
    }

    /** The map starts empty. */
    constructor ()
      ensures Valid() && loggers == map[]
    {
      loggers := map[];
    }

    ghost function Channels(): set<Channel?>
      reads this, loggers.Values
    {
      set l | l in loggers.Values :: l.channel
    }

    /** The threshold `name` has, or would get on its first lookup. */
    function ThresholdOf(name: string): int
      reads this, loggers.Values
    {
      if name in loggers then loggers[name].threshold else DefaultThreshold
    }

    /** The channel of `name`'s logger; none before the logger exists. */
    function ChannelOf(name: string): Channel?
      reads this, loggers.Values
    {
      if name in loggers then loggers[name].channel else null
    }

    /** What the channel of `name`'s logger has received. */
    function OutputOf(name: string): seq<string>
      reads this, loggers.Values, Channels()
    {
      if name in loggers then loggers[name].Output() else []
    }

    /**
     * `log(name)`: the logger registered under `name`; on the first lookup
     * of a name, a new logger with the default threshold and no channel is
     * registered under it.  Other entries stay as they were.
     */
    method Log(name: string := "") returns (l: Logger)
      requires Valid()
      modifies this
      ensures Valid()
      ensures name in loggers && loggers[name] == l
      ensures name in old(loggers) ==> l == old(loggers)[name] && loggers == old(loggers)
      ensures name !in old(loggers) ==>
        fresh(l) && loggers == old(loggers)[name := l] &&
        l.threshold == DefaultThreshold && l.channel == null
    {
      if name in loggers {
        l := loggers[name];
      } else {
        l := new Logger();
        loggers := loggers[name := l];
      }
    }
  }
}
