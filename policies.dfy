/**
 * The default policies `basic_logger` is composed with in logxx.hpp:
 * `std_format`, which streams the envelope into the channel, and
 * `std_filter`, which decides whether a severity is visible under the
 * threshold and hands out either the channel's stream or the null stream.
 */
module Policies {
  import opened Severity
  import opened Format
  import opened Channels

  /** The filter's rule: a severity is visible when it is at most the threshold. */
  predicate Visible(severity: int, threshold: int) {
    severity <= threshold
  }

  /** A more urgent severity is visible wherever a less urgent one is. */
  lemma VisibleMonotone(s1: int, s2: int, threshold: int)
    requires s1 <= s2 && Visible(s2, threshold)
    ensures Visible(s1, threshold)
  {
  }

  /** Raising the threshold never hides a severity that was visible. */
  lemma VisibleGrowsWithThreshold(severity: int, t1: int, t2: int)
    requires t1 <= t2 && Visible(severity, t1)
    ensures Visible(severity, t2)
  {
  }

  /** On the enumerated levels: `fatal` is visible at every level, `trace` only at `trace`. */
  lemma VisibleAtLevels(t: Level)
    ensures Visible(Fatal.Value(), t.Value())
    ensures Visible(Trace.Value(), t.Value()) <==> t == Trace
  {
  }

  /** `std_format::format`: streams the envelope into `out` and returns `out`'s stream. */
  method StdFormat(severity: int, out: Channel, ts: string, pid: string) returns (stream: Sink)
    modifies out
    ensures stream == Real(out)
    ensures out.pending == old(out.pending) + [Envelope(ts, pid, severity)]
    ensures out.delivered == old(out.delivered) && out.flushes == old(out.flushes)
  {
    out.Write(Envelope(ts, pid, severity));
    stream := Real(out);
  }

  /**
   * `std_filter::filter`: for a visible severity, the formatted channel
   * stream; otherwise the null stream, and the channel is left untouched.
   */
  method StdFilter(threshold: int, severity: int, s: Channel, ts: string, pid: string) returns (stream: Sink)
    modifies s
    ensures stream.Real? <==> Visible(severity, threshold)
    ensures stream.Real? ==> stream.ch == s
    ensures s.Written() == old(s.Written()) + (if Visible(severity, threshold) then [Envelope(ts, pid, severity)] else [])
    ensures s.delivered == old(s.delivered) && s.flushes == old(s.flushes)
  {
    if severity <= threshold {
      stream := StdFormat(severity, s, ts, pid);
    } else {
      stream := Null;
    }
  }
}
