/**
 * The submit handler's translation of the "create alarm" form into the
 * schedule object handed to `alarms.create`.
 */
module AlarmInfo {
  import opened Wrappers

  /** A number as `Number.parseFloat` returns it: NaN or a finite value. */
  datatype Number = NaN | Finite(value: real)

  /** JavaScript truthiness of a number: neither zero nor NaN. */
  predicate Truthy(n: Number)
    ensures !Truthy(n) <==> n == NaN || n == Finite(0.0)
  {
    n.Finite? && n.value != 0.0
  }

  /** Addition; NaN absorbs. */
  function Add(a: Number, b: Number): (r: Number)
    ensures r.NaN? <==> a.NaN? || b.NaN?
    ensures r.Finite? ==> r.value == a.value + b.value
  {
    if a.Finite? && b.Finite? then Finite(a.value + b.value) else NaN
  }

  /** The `Partial<{ when, delayInMinutes, periodInMinutes }>` object; `None` is an absent property. */
  datatype AlarmInfo = AlarmInfo(
    when: Option<Number>,
    delayInMinutes: Option<Number>,
    periodInMinutes: Option<Number>)

  /**
   * Fill a fresh `alarmInfo` from the form: unit `"ms"` sets the absolute
   * `when = now + delay`, unit `"min"` sets `delayInMinutes = delay`, any
   * other unit sets neither; a truthy `period` sets `periodInMinutes`.
   * `now` stands for `Date.now()`.
   */
  function Translate(unit: string, delay: Number, period: Number, now: int): (info: AlarmInfo)
    ensures info.when.Some? <==> unit == "ms"
    ensures info.when.Some? ==> info.when.value == Add(Finite(now as real), delay)
    ensures info.delayInMinutes.Some? <==> unit == "min"
    ensures info.delayInMinutes.Some? ==> info.delayInMinutes.value == delay
    ensures !(info.when.Some? && info.delayInMinutes.Some?)
    ensures info.periodInMinutes.Some? <==> Truthy(period)
    ensures info.periodInMinutes.Some? ==> info.periodInMinutes.value == period
  {
    var (when, delayInMinutes) :=
      if unit == "ms" then (Some(Add(Finite(now as real), delay)), None)
      else if unit == "min" then (None, Some(delay))
      else (None, None);
    var periodInMinutes := if Truthy(period) then Some(period) else None;
    AlarmInfo(when, delayInMinutes, periodInMinutes)
  }

  /** A millisecond delay of 500 becomes `when = now + 500` with no relative delay and no period. */
  lemma TranslateMilliseconds(now: int)
    ensures Translate("ms", Finite(500.0), Finite(0.0), now)
         == AlarmInfo(Some(Finite(now as real + 500.0)), None, None)
  {
  }

  /** Two minutes repeating every five: `delayInMinutes = 2, periodInMinutes = 5`, no `when`. */
  lemma TranslateMinutesRepeating(now: int)
    ensures Translate("min", Finite(2.0), Finite(5.0), now)
         == AlarmInfo(None, Some(Finite(2.0)), Some(Finite(5.0)))
  {
  }

  /** An empty period field parses to NaN, which is falsy: the alarm does not repeat. */
  lemma TranslateNaNPeriod(unit: string, delay: Number, now: int)
    ensures Translate(unit, delay, NaN, now).periodInMinutes == None
  {
  }
}
