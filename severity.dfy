/**
 * The `severity` enumeration of logxx.  Lower values are more urgent:
 * `fatal` is 0 and `trace` is 5.  Everywhere else in the logger a severity
 * travels as a plain `int`, so the enumeration is given together with its
 * integer value.  `LevelOf` describes which integers name an enumerator;
 * logxx itself never converts an `int` back to a `severity`.
 */
module Severity {
  import opened Wrappers

  datatype Level = Fatal | Error | Warning | Info | Debug | Trace
  {
    /** The integer the C++ enumerator converts to. */
    function Value(): (v: int)
      ensures 0 <= v <= 5
    {
      match this
      case Fatal => 0
      case Error => 1
      case Warning => 2
      case Info => 3
      case Debug => 4
      case Trace => 5
    }
  }

  /** Which integers name an enumerator, and which one: the enumerator whose value is `v`, if any. */
  function LevelOf(v: int): (r: Option<Level>)
    ensures r.Some? <==> 0 <= v <= 5
    ensures r.Some? ==> r.value.Value() == v
  {
    if v == 0 then Some(Fatal)
    else if v == 1 then Some(Error)
    else if v == 2 then Some(Warning)
    else if v == 3 then Some(Info)
    else if v == 4 then Some(Debug)
    else if v == 5 then Some(Trace)
    else None
  }

  /** Converting an enumerator to its value and back gives the enumerator. */
  lemma LevelOfValue(l: Level)
    ensures LevelOf(l.Value()) == Some(l)
  {
  }

  /** Distinct enumerators have distinct values. */
  lemma ValueInjective(a: Level, b: Level)
    ensures a.Value() == b.Value() <==> a == b
  {
  }

  /** The declaration order: `fatal` is 0 and each level is one more than the one before. */
  lemma LevelsAscending()
    ensures Fatal.Value() == 0
    ensures Error.Value() == Fatal.Value() + 1
    ensures Warning.Value() == Error.Value() + 1
    ensures Info.Value() == Warning.Value() + 1
    ensures Debug.Value() == Info.Value() + 1
    ensures Trace.Value() == Debug.Value() + 1
  {
  }

  /** Comparing values orders the levels totally. */
  lemma LevelsTotallyOrdered(a: Level, b: Level)
    ensures a.Value() < b.Value() || a == b || b.Value() < a.Value()
  {
  }
}
