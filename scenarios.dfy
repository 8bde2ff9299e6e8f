/**
 * Client code of the logger, checked against the contracts of the
 * registry, the logger and the write macros alone.
 */
module Scenarios {
  import opened Severity
  import opened Format
  import opened Channels
  import opened Policies
  import opened Logging
  import opened Macros

  /** Looking a name up twice yields one instance, and the second lookup changes nothing. */
  method LookupTwice(reg: Registry, name: string) returns (first: Logger, second: Logger)
    requires reg.Valid()
    modifies reg
    ensures reg.Valid()
    ensures first == second && name in reg.loggers && reg.loggers[name] == first
    ensures reg.loggers.Keys == old(reg.loggers.Keys) + {name}
    ensures forall n :: n in old(reg.loggers) ==> reg.loggers[n] == old(reg.loggers)[n]
  {
    first := reg.Log(name);
    second := reg.Log(name);
  }

  /** A registry holding only logger "net", at threshold `warning`, writing to an empty file channel. */
  method NetLogger() returns (reg: Registry, net: Logger, out: Channel)
    ensures fresh(reg) && fresh(net) && fresh(out) && reg.Valid()
    ensures reg.loggers == map["net" := net] && net.channel == out
    ensures reg.ThresholdOf("net") == Warning.Value()
    ensures out.delivered == [] && out.pending == [] && out.flushes == 0
  {
    reg := new Registry();
    net := reg.Log("net");
    net.SetFilter(Warning.Value());
    out := new Channel(File("net.log"));
    net.SetChannel(out);
  }

  /**
   * Logger "net" at threshold `warning`: an `error` line reaches the channel
   * with its envelope, a `trace` line does not.
   */
  method NetScenario(ts: string, pid: string) returns (out: Channel)
    ensures out.Written() == [Envelope(ts, pid, Error.Value()), "link up"]
  {
    var reg, net;
    reg, net, out := NetLogger();
    var shown := LogTo(reg, "net", Error, ts, pid, "link up");
    assert shown && reg.ChannelOf("net") == out;
    assert reg.loggers == map["net" := net];
    var hidden := LogTo(reg, "net", Trace, ts, pid, "packet dump");
    assert !hidden && reg.ChannelOf("net") == out;
  }

  /**
   * A write to "net" and a `LOG_IF_` whose condition is false leave the
   * separate channel of logger "db" exactly as it was.
   */
  method OtherChannelsUntouched(ts: string, pid: string) returns (db: Channel)
    ensures db.delivered == [] && db.pending == ["ready"] && db.flushes == 0
  {
    var reg, net, out := NetLogger();
    var dbLogger := reg.Log("db");
    db := new Channel(File("db.log"));
    dbLogger.SetChannel(db);
    db.Write("ready");
    var shown := LogTo(reg, "net", Error, ts, pid, "link up");
    var skipped := LogIfTo(reg, false, "net", Error, ts, pid, "never evaluated");
    assert !skipped;
  }

  /**
   * Writes that are skipped, by a false condition or by the guard, leave the
   * sink's own channel exactly as it was, unflushed text included.
   */
  method SkippedWritesKeepChannel(ts: string, pid: string) returns (c: Channel)
    ensures c.delivered == [] && c.pending == ["buffered"] && c.flushes == 0
  {
    var reg, net;
    reg, net, c := NetLogger();
    c.Write("buffered");
    var skipped := LogIfTo(reg, false, "net", Error, ts, pid, "never evaluated");
    assert reg.loggers == map["net" := net] && reg.ChannelOf("net") == c;
    var hidden := LogTo(reg, "net", Trace, ts, pid, "packet dump");
    assert !hidden;
  }

  /**
   * An admitted `LOG` on an empty registry creates a console channel holding
   * the envelope and the payload unflushed; replacing it flushes it once.
   */
  method CreatedChannelIsConsole(ts: string, pid: string) returns (d: Channel)
    ensures d.kind == Console && d.flushes == 1 && d.pending == []
    ensures d.delivered == [Envelope(ts, pid, Info.Value()), "started"]
  {
    var reg := new Registry();
    var shown := Log(reg, Info, ts, pid, "started");
    assert shown;
    d := reg.ChannelOf("");
    var root := reg.Log();
    var next := new Channel(Console);
    root.SetChannel(next);
  }

  /**
   * A logger created after the root logger was reconfigured still starts
   * with the default threshold and no channel: nothing is copied from "".
   */
  method NoRootInheritance() returns (root: Logger, net: Logger)
    ensures root.threshold == Trace.Value() && root.channel != null
    ensures net.threshold == DefaultThreshold && net.channel == null
  {
    var reg := new Registry();
    root := reg.Log();
    root.SetFilter(Trace.Value());
    var c := new Channel(Console);
    root.SetChannel(c);
    net := reg.Log("net");
  }

  /** Replacing a channel flushes everything the old one buffered. */
  method ReplaceChannel(ts: string, pid: string) returns (old1: Channel, new1: Channel)
    ensures old1.pending == [] && old1.delivered == [Envelope(ts, pid, Info.Value()), "started"]
    ensures old1.flushes == 1
    ensures new1.Written() == []
  {
    var l := new Logger();
    old1 := new Channel(File("a.log"));
    new1 := new Channel(File("b.log"));
    l.SetChannel(old1);
    var stream := l.Get(Info.Value(), ts, pid);
    Append(stream, "started");
    l.SetChannel(new1);
  }

  /**
   * Calling `get` directly at a filtered severity still creates the default
   * console channel (empty); the `LOG` guard keeps even that from happening.
   */
  method FilteredWrites(ts: string, pid: string) returns (direct: Channel?, guarded: Channel?)
    ensures direct != null && direct.kind == Console && direct.Written() == []
    ensures guarded == null
  {
    var l := new Logger();
    var stream := l.Get(Trace.Value(), ts, pid);
    assert stream == Null;
    direct := l.channel;

    var reg := new Registry();
    var admitted := Log(reg, Trace, ts, pid, "expensive payload");
    assert !admitted;
    guarded := reg.ChannelOf("");
  }
}
