/**
 * The default format policy `std_format` of logxx.hpp: the envelope
 * `<timestamp> [<pid>] <<severity>>: ` written in front of every visible
 * message.  The severity is streamed as an `int`, so its decimal text is
 * modelled here too, together with a parser that recovers the severity
 * from an envelope.
 */
module Format {
  import opened Wrappers

  predicate IsDigit(c: char) {
    '0' <= c <= '9'
  }

  function DigitChar(d: nat): (c: char)
    requires d < 10
    ensures IsDigit(c) && c as int - '0' as int == d
  {
    ('0' as int + d) as char
  }

  function DigitValue(c: char): nat
    requires IsDigit(c)
  {
    c as int - '0' as int
  }

  /** Decimal text of `n`, most significant digit first, without leading zeros. */
  function NatToString(n: nat): (s: string)
    ensures |s| >= 1
    ensures forall i :: 0 <= i < |s| ==> IsDigit(s[i])
    ensures n == 0 <==> s == "0"
    ensures n > 0 ==> s[0] != '0'
    decreases n
  {
    if n < 10 then [DigitChar(n)] else NatToString(n / 10) + [DigitChar(n % 10)]
  }

  /** Decimal text of an `int` as `operator<<` writes it: a minus sign for negative values. */
  function IntToString(i: int): (s: string)
    ensures |s| >= 1
    ensures s[0] == '-' <==> i < 0
    ensures i >= 0 ==> IsDigit(s[0])
    ensures forall k :: 1 <= k < |s| ==> IsDigit(s[k])
  {
    if i < 0 then "-" + NatToString(-i) else NatToString(i)
  }

  /** Reads a non-empty run of decimal digits; anything else is rejected. */
  function ParseNat(s: string): (r: Option<nat>)
    ensures r.Some? <==> |s| >= 1 && forall i :: 0 <= i < |s| ==> IsDigit(s[i])
  {
    if |s| == 0 || !IsDigit(s[|s| - 1]) then None
    else if |s| == 1 then Some(DigitValue(s[0]))
    else match ParseNat(s[..|s| - 1])
      case None => None
      case Some(p) => Some(p * 10 + DigitValue(s[|s| - 1]))
  }

  /** Reads an optional minus sign followed by decimal digits. */
  function ParseInt(s: string): Option<int>
  {
    if |s| >= 1 && s[0] == '-' then
      match ParseNat(s[1..])
      case None => None
      case Some(p) => Some(-(p as int))
    else
      match ParseNat(s)
      case None => None
      case Some(p) => Some(p)
  }

  lemma {:induction false} ParseNatToString(n: nat)
    ensures ParseNat(NatToString(n)) == Some(n)
    decreases n
  {
    if n >= 10 {
      var front := NatToString(n / 10);
      var s := front + [DigitChar(n % 10)];
      assert s[..|s| - 1] == front;
      ParseNatToString(n / 10);
    }
  }

  /** Rendering an `int` and reading it back gives the same `int`. */
  lemma ParseIntToString(i: int)
    ensures ParseInt(IntToString(i)) == Some(i)
  {
    if i < 0 {
      var s := IntToString(i);
      assert s[1..] == NatToString(-i);
      ParseNatToString(-i);
    } else {
      ParseNatToString(i);
    }
  }

  /** The envelope `std_format::format` streams before the payload. */
  function Envelope(ts: string, pid: string, severity: int): string
  {
    ts + " [" + pid + "]" + " <" + IntToString(severity) + ">" + ": "
  }

  /** Position of the last `c` in `s`, if any. */
  function LastIndexOf(s: string, c: char): (r: Option<nat>)
    ensures r.Some? ==> r.value < |s| && s[r.value] == c
    ensures r.Some? ==> forall j :: r.value < j < |s| ==> s[j] != c
    ensures r.None? ==> forall j :: 0 <= j < |s| ==> s[j] != c
  {
    if |s| == 0 then None
    else if s[|s| - 1] == c then Some(|s| - 1)
    else LastIndexOf(s[..|s| - 1], c)
  }

  /**
   * The severity an envelope announces: the integer between the last `<`
   * and the closing `>: `.  The timestamp and pid fields may hold any text,
   * so the envelope is read from its end.
   */
  function SeverityOf(e: string): Option<int>
  {
    if |e| < 3 || e[|e| - 3..] != ">: " then None
    else match LastIndexOf(e[..|e| - 3], '<')
      case None => None
      case Some(k) => ParseInt(e[k + 1..|e| - 3])
  }

  /** The envelope keeps the field order: timestamp first, `: ` last. */
  lemma EnvelopeShape(ts: string, pid: string, severity: int)
    ensures |Envelope(ts, pid, severity)| > |ts| + 2
    ensures Envelope(ts, pid, severity)[..|ts|] == ts
    ensures Envelope(ts, pid, severity)[|ts|..|ts| + 2] == " ["
    ensures var e := Envelope(ts, pid, severity); e[|e| - 2..] == ": "
  {
  }

  /** A `c` closing the prefix is the last one when none follows it. */
  lemma LastIndexAfterPrefix(p: string, d: string, c: char)
    requires |p| > 0 && p[|p| - 1] == c
    requires forall i :: 0 <= i < |d| ==> d[i] != c
    ensures LastIndexOf(p + d, c) == Some(|p| - 1)
  {
    var s := p + d;
    assert s[|p| - 1] == c;
    assert forall j :: |p| <= j < |s| ==> s[j] == d[j - |p|];
  }

  /** Whatever the timestamp and pid, the severity can be read back from the envelope. */
  lemma EnvelopeSeverityRoundTrip(ts: string, pid: string, severity: int)
    ensures SeverityOf(Envelope(ts, pid, severity)) == Some(severity)
  {
    var p := ts + " [" + pid + "] <";
    var digits := IntToString(severity);
    var e := Envelope(ts, pid, severity);
    assert e == p + digits + ">: ";
    assert e[..|e| - 3] == p + digits;
    LastIndexAfterPrefix(p, digits, '<');
    assert e[|p|..|e| - 3] == digits;
    ParseIntToString(severity);
  }
}
