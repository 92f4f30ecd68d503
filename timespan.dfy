// TimeSpan: an immutable span of time held in milliseconds. Numbers are
// modelled as exact reals, so the unit conversions are exact.
module TimeSpans {
  const MillisecondsPerSecond: real := 1000.0
  const MillisecondsPerMinute: real := 60.0 * 1000.0
  const MillisecondsPerHour: real := 60.0 * 60.0 * 1000.0
  const MillisecondsPerDay: real := 24.0 * 60.0 * 60.0 * 1000.0

  datatype TimeSpan = TimeSpan(milliseconds: real)
  {
    function TotalMilliseconds(): real { milliseconds }
    function TotalSeconds(): real { milliseconds / MillisecondsPerSecond }
    function TotalMinutes(): real { milliseconds / MillisecondsPerMinute }
    function TotalHours(): real { milliseconds / MillisecondsPerHour }
    function TotalDays(): real { milliseconds / MillisecondsPerDay }

    /** add: a new span of the summed milliseconds; neither operand changes (both are values). */
    function Add(other: TimeSpan): (r: TimeSpan)
      ensures r.TotalMilliseconds() - other.TotalMilliseconds() == TotalMilliseconds()
    {
      TimeSpan(milliseconds + other.TotalMilliseconds())
    }

    /** subtract: a new span of the difference. */
    function Subtract(other: TimeSpan): (r: TimeSpan)
      ensures r.TotalMilliseconds() + other.TotalMilliseconds() == TotalMilliseconds()
    {
      TimeSpan(milliseconds - other.TotalMilliseconds())
    }
  }

  /** fromMilliseconds keeps the value, so totalMilliseconds gives it back. */
  function FromMilliseconds(v: real): (r: TimeSpan)
    ensures r.TotalMilliseconds() == v
  {
    TimeSpan(v)
  }

  /** fromSeconds: totalSeconds gives the value back. */
  function FromSeconds(v: real): (r: TimeSpan)
    ensures r.TotalSeconds() == v && r.TotalMilliseconds() == v * 1000.0
  {
    TimeSpan(v * 1000.0)
  }

  /** fromMinutes: totalMinutes gives the value back. */
  function FromMinutes(v: real): (r: TimeSpan)
    ensures r.TotalMinutes() == v && r.TotalSeconds() == v * 60.0
  {
    TimeSpan(v * 60.0 * 1000.0)
  }

  /** fromHours: totalHours gives the value back. */
  function FromHours(v: real): (r: TimeSpan)
    ensures r.TotalHours() == v && r.TotalMinutes() == v * 60.0
  {
    TimeSpan(v * 60.0 * 60.0 * 1000.0)
  }

  /** fromDays: totalDays gives the value back. */
  function FromDays(v: real): (r: TimeSpan)
    ensures r.TotalDays() == v && r.TotalHours() == v * 24.0
  {
    TimeSpan(v * 24.0 * 60.0 * 60.0 * 1000.0)
  }

  /** Every span is rebuilt by the factory of any unit from its total in that unit. */
  lemma TotalsRoundTrip(t: TimeSpan)
    ensures FromMilliseconds(t.TotalMilliseconds()) == t
    ensures FromSeconds(t.TotalSeconds()) == t
    ensures FromMinutes(t.TotalMinutes()) == t
    ensures FromHours(t.TotalHours()) == t
    ensures FromDays(t.TotalDays()) == t
  {
  }

  /** Adding then subtracting the same span gives the first back, and add commutes. */
  lemma AddSubtract(a: TimeSpan, b: TimeSpan)
    ensures a.Add(b).Subtract(b) == a
    ensures a.Subtract(b).Add(b) == a
    ensures a.Add(b) == b.Add(a)
  {
  }
}
