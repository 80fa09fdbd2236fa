/**
 * `DateRangeCheck`: a check that a date lies between two bounds given as text.
 *
 * A bound is unset (`null` or empty), one of the symbolic tokens `now`, `today`,
 * `tomorrow`, `yesterday`, or a literal date parsed with the configured format
 * (or the locale's default date-time parser when no format is set). A tolerance
 * in milliseconds widens the window: it is subtracted from the lower bound and
 * added to the upper bound. Resolved literal bounds are cached in `minMillis` and
 * `maxMillis`; symbolic and unset bounds are never cached.
 *
 * The date parsers depend on the locale and time zone, which are fixed for the
 * life of the check: they are a `Parsers` value the check is built with. The
 * clock is read on every evaluation: it is a `Clock` value passed to each call.
 */
module DateRange {
  import opened Wrappers
  import opened JavaNumbers
  import opened CheckTypes

  /**
   * `withFormat(f, s)` is `new SimpleDateFormat(f).parse(s).getTime()` and
   * `byDefault(s)` is `DateFormat.getDateTimeInstance().parse(s).getTime()`;
   * `None` is a `ParseException`.
   */
  datatype Parsers = Parsers(withFormat: (string, string) -> Option<Long>, byDefault: string -> Option<Long>)

  /**
   * `now` is `System.currentTimeMillis()`; `dayStart(k)` is the instant at which the
   * local calendar day `k` days after today begins (a `Calendar` set to midnight and
   * moved by `k` days).
   */
  datatype Clock = Clock(now: Long, dayStart: int -> Long)

  /** `InvalidConfigurationException`. */
  datatype ConfigError = InvalidConfiguration(message: string)

  /** The value handed to `isSatisfied`: `null`, a `Date`, a `Calendar`, or any other object by its `toString()`. */
  datatype Candidate = Null | DateValue(time: Long) | CalendarValue(timeInMillis: Long) | OtherValue(text: string)

  /** The attributes of a `@DateRange` annotation (annotation attributes are never `null`). */
  datatype DateRangeAnnotation = DateRangeAnnotation(min: string, max: string, format: string, tolerance: Long)

  const MIN_PARSE_ERROR := InvalidConfiguration("Unable to parse the min Date String")
  const MAX_PARSE_ERROR := InvalidConfiguration("Unable to parse the max Date String")

  /** The `-1` that `isSatisfied` uses as "not parsed yet". */
  const UNPARSED: Long := -1

  predicate IsUnset(bound: Option<string>) {
    bound.None? || |bound.value| == 0
  }

  predicate IsSymbolic(s: string) {
    s == "now" || s == "today" || s == "tomorrow" || s == "yesterday"
  }

  /** A bound that is parsed as a date, and whose resolved value is cached. */
  predicate IsLiteral(bound: Option<string>) {
    !IsUnset(bound) && !IsSymbolic(bound.value)
  }

  /** Parsing a bound: with the format when it is non-empty, otherwise with the default parser. */
  function ParseBound(text: string, format: Option<string>, p: Parsers): Option<Long> {
    if format.Some? && |format.value| > 0 then p.withFormat(format.value, text) else p.byDefault(text)
  }

  /** A literal lower bound with the tolerance subtracted; `None` when it does not parse. */
  function LiteralMin(text: string, format: Option<string>, tolerance: Long, p: Parsers): Option<Long> {
    match ParseBound(text, format, p)
    case None => None
    case Some(v) => Some(WrapLong(v - tolerance))
  }

  /** A literal upper bound with the tolerance added; `None` when it does not parse. */
  function LiteralMax(text: string, format: Option<string>, tolerance: Long, p: Parsers): Option<Long> {
    match ParseBound(text, format, p)
    case None => None
    case Some(v) => Some(WrapLong(v + tolerance))
  }

  /** What `getMinMillis()` computes when nothing is cached. */
  function ResolveMin(min: Option<string>, format: Option<string>, tolerance: Long, p: Parsers, clock: Clock): Result<Long, ConfigError> {
    if IsUnset(min) then Ok(0)
    else if min.value == "now" then Ok(WrapLong(clock.now - tolerance))
    else if min.value == "today" then Ok(WrapLong(clock.dayStart(0) - tolerance))
    else if min.value == "tomorrow" then Ok(WrapLong(clock.dayStart(1) - tolerance))
    else if min.value == "yesterday" then Ok(WrapLong(clock.dayStart(-1) - tolerance))
    else
      match LiteralMin(min.value, format, tolerance, p)
      case None => Err(MIN_PARSE_ERROR)
      case Some(v) => Ok(v)
  }

  /** What `getMaxMillis()` computes when nothing is cached; a day's end is one millisecond before the next day starts. */
  function ResolveMax(max: Option<string>, format: Option<string>, tolerance: Long, p: Parsers, clock: Clock): Result<Long, ConfigError> {
    if IsUnset(max) then Ok(LONG_MAX)
    else if max.value == "now" then Ok(WrapLong(clock.now + tolerance))
    else if max.value == "today" then Ok(WrapLong(clock.dayStart(1) - 1 + tolerance))
    else if max.value == "tomorrow" then Ok(WrapLong(clock.dayStart(2) - 1 + tolerance))
    else if max.value == "yesterday" then Ok(WrapLong(clock.dayStart(0) - 1 + tolerance))
    else
      match LiteralMax(max.value, format, tolerance, p)
      case None => Err(MAX_PARSE_ERROR)
      case Some(v) => Ok(v)
  }

  /**
   * The instant `isSatisfied` compares, for a non-null candidate; `None` when a text
   * candidate parses with neither parser. Text is tried with the format whenever one
   * is set (even an empty one); the default parser is tried only while the value is
   * still the `-1` sentinel.
   */
  function CandidateInstant(value: Candidate, format: Option<string>, p: Parsers): Option<Long>
    requires !value.Null?
  {
    match value
    case DateValue(t) => Some(t)
    case CalendarValue(t) => Some(t)
    case OtherValue(s) =>
      var viaFormat := if format.Some? then p.withFormat(format.value, s) else None;
      if viaFormat.Some? && viaFormat.value != UNPARSED then viaFormat else p.byDefault(s)
  }

  /**
   * The verdict of `isSatisfied` given the bounds `lo` and `hi` it would obtain:
   * `null` passes, unparsable text fails, otherwise `lo <= v <= hi`, where the upper
   * bound is consulted only when the lower one holds.
   */
  function Verdict(value: Candidate, format: Option<string>, p: Parsers,
                   lo: Result<Long, ConfigError>, hi: Result<Long, ConfigError>): Result<bool, ConfigError>
  {
    if value.Null? then Ok(true)
    else
      match CandidateInstant(value, format, p)
      case None => Ok(false)
      case Some(v) =>
        match lo
        case Err(e) => Err(e)
        case Ok(l) =>
          if v < l then Ok(false)
          else
            match hi
            case Err(e) => Err(e)
            case Ok(h) => Ok(v <= h)
  }

  /** The message variables `createMessageVariables` produces from the bounds and the format. */
  function MessageVariablesOf(min: Option<string>, max: Option<string>, format: Option<string>): map<string, Option<string>> {
    map["min" := Some(if min.None? then ".." else min.value),
        "max" := Some(if max.None? then ".." else max.value),
        "format" := format]
  }

  /** `getAppliesToDefault()`: a date range applies to the values of a container. */
  function AppliesToDefault(): (r: seq<ConstraintTarget>)
    ensures |r| == 1 && VALUES in r
  {
    [VALUES]
  }

  /**
   * Tolerance is applied to every set lower bound (subtracted) and never to an
   * unset one, which resolves to 0 whatever the tolerance.
   */
  lemma MinTolerance(min: Option<string>, format: Option<string>, tolerance: Long, p: Parsers, clock: Clock)
    ensures IsUnset(min) ==> ResolveMin(min, format, tolerance, p, clock) == Ok(0)
    ensures !IsUnset(min) && ResolveMin(min, format, 0, p, clock).Ok? ==>
      ResolveMin(min, format, tolerance, p, clock) == Ok(WrapLong(ResolveMin(min, format, 0, p, clock).value - tolerance))
    ensures ResolveMin(min, format, 0, p, clock).Err? <==> ResolveMin(min, format, tolerance, p, clock).Err?
  {
    if !IsUnset(min) && ResolveMin(min, format, 0, p, clock).Ok? {
      MinToleranceSet(min, format, tolerance, p, clock);
    }
  }

  /** A set lower bound before the tolerance is applied: the instant it names, or its parsed value. */
  lemma MinToleranceSet(min: Option<string>, format: Option<string>, tolerance: Long, p: Parsers, clock: Clock)
    requires !IsUnset(min) && ResolveMin(min, format, 0, p, clock).Ok?
    ensures ResolveMin(min, format, tolerance, p, clock) == Ok(WrapLong(ResolveMin(min, format, 0, p, clock).value - tolerance))
  {
    var m := min.value;
    var base: Long :=
      if m == "now" then clock.now
      else if m == "today" then clock.dayStart(0)
      else if m == "tomorrow" then clock.dayStart(1)
      else if m == "yesterday" then clock.dayStart(-1)
      else ParseBound(m, format, p).value;
    assert ResolveMin(min, format, 0, p, clock) == Ok(base);
    assert ResolveMin(min, format, tolerance, p, clock) == Ok(WrapLong(base - tolerance));
  }

  /**
   * Tolerance is applied to every set upper bound (added) and never to an unset
   * one, which resolves to `Long.MAX_VALUE` whatever the tolerance.
   */
  lemma MaxTolerance(max: Option<string>, format: Option<string>, tolerance: Long, p: Parsers, clock: Clock)
    ensures IsUnset(max) ==> ResolveMax(max, format, tolerance, p, clock) == Ok(LONG_MAX)
    ensures !IsUnset(max) && ResolveMax(max, format, 0, p, clock).Ok? ==>
      ResolveMax(max, format, tolerance, p, clock) == Ok(WrapLong(ResolveMax(max, format, 0, p, clock).value + tolerance))
    ensures ResolveMax(max, format, 0, p, clock).Err? <==> ResolveMax(max, format, tolerance, p, clock).Err?
  {
    if !IsUnset(max) && ResolveMax(max, format, 0, p, clock).Ok? {
      MaxToleranceSet(max, format, tolerance, p, clock);
    }
  }

  /** A set upper bound before the tolerance is added: a day's end may lie below `Long.MIN_VALUE`; `None` when a literal does not parse. */
  function MaxBase(bound: string, format: Option<string>, p: Parsers, clock: Clock): Option<int> {
    if bound == "now" then Some(clock.now)
    else if bound == "today" then Some(clock.dayStart(1) - 1)
    else if bound == "tomorrow" then Some(clock.dayStart(2) - 1)
    else if bound == "yesterday" then Some(clock.dayStart(0) - 1)
    else match ParseBound(bound, format, p)
      case None => None
      case Some(v) => Some(v)
  }

  lemma MaxFromBase(max: Option<string>, format: Option<string>, tolerance: Long, p: Parsers, clock: Clock)
    requires !IsUnset(max)
    ensures MaxBase(max.value, format, p, clock).None? ==> ResolveMax(max, format, tolerance, p, clock).Err?
    ensures MaxBase(max.value, format, p, clock).Some? ==>
      ResolveMax(max, format, tolerance, p, clock) == Ok(WrapLong(MaxBase(max.value, format, p, clock).value + tolerance))
  {
  }

  lemma MaxToleranceSet(max: Option<string>, format: Option<string>, tolerance: Long, p: Parsers, clock: Clock)
    requires !IsUnset(max) && ResolveMax(max, format, 0, p, clock).Ok?
    ensures ResolveMax(max, format, tolerance, p, clock) == Ok(WrapLong(ResolveMax(max, format, 0, p, clock).value + tolerance))
  {
    MaxFromBase(max, format, 0, p, clock);
    MaxFromBase(max, format, tolerance, p, clock);
    var base := MaxBase(max.value, format, p, clock).value;
    assert base + 0 == base;
    WrapLongAdd(base, tolerance);
  }

  /** No `long` overflow when the tolerance `t` is applied to the bounds. */
  predicate ToleranceFits(min: Option<string>, max: Option<string>, format: Option<string>, p: Parsers, clock: Clock, t: Long) {
    && (ResolveMin(min, format, 0, p, clock).Ok? ==> ResolveMin(min, format, 0, p, clock).value - t >= LONG_MIN)
    && (ResolveMax(max, format, 0, p, clock).Ok? ==> ResolveMax(max, format, 0, p, clock).value + t <= LONG_MAX)
  }

  /**
   * Tolerance widens the window outward: a value accepted with tolerance `t1` is
   * accepted with any larger tolerance `t2`, as long as no bound overflows.
   */
  lemma ToleranceWidensWindow(value: Candidate, min: Option<string>, max: Option<string>, format: Option<string>,
                              p: Parsers, clock: Clock, t1: Long, t2: Long)
    requires 0 <= t1 <= t2
    requires ToleranceFits(min, max, format, p, clock, t2)
    requires Verdict(value, format, p, ResolveMin(min, format, t1, p, clock), ResolveMax(max, format, t1, p, clock)) == Ok(true)
    ensures Verdict(value, format, p, ResolveMin(min, format, t2, p, clock), ResolveMax(max, format, t2, p, clock)) == Ok(true)
  {
    MinTolerance(min, format, t1, p, clock);
    MinTolerance(min, format, t2, p, clock);
    MaxTolerance(max, format, t1, p, clock);
    MaxTolerance(max, format, t2, p, clock);
  }

  /**
   * With both bounds unset every `Date` from the epoch on is accepted, and every
   * earlier one is rejected: the unset lower bound is 0, not `Long.MIN_VALUE`.
   */
  lemma UnboundedWindow(t: Long, format: Option<string>, tolerance: Long, p: Parsers, clock: Clock)
    ensures Verdict(DateValue(t), format, p, ResolveMin(None, format, tolerance, p, clock), ResolveMax(None, format, tolerance, p, clock))
         == Ok(t >= 0)
    ensures Verdict(DateValue(t), format, p, ResolveMin(Some(""), format, tolerance, p, clock), ResolveMax(Some(""), format, tolerance, p, clock))
         == Ok(t >= 0)
  {
  }

  /**
   * `min = "today"`, `max = "tomorrow"`, no tolerance: the current instant is accepted
   * and an instant after the end of tomorrow is rejected.
   */
  lemma TodayTomorrowWindow(format: Option<string>, p: Parsers, clock: Clock, later: Long)
    requires clock.dayStart(0) <= clock.now < clock.dayStart(1) <= clock.dayStart(2)
    requires later >= clock.dayStart(2)
    ensures Verdict(DateValue(clock.now), format, p, ResolveMin(Some("today"), format, 0, p, clock), ResolveMax(Some("tomorrow"), format, 0, p, clock))
         == Ok(true)
    ensures Verdict(DateValue(later), format, p, ResolveMin(Some("today"), format, 0, p, clock), ResolveMax(Some("tomorrow"), format, 0, p, clock))
         == Ok(false)
  {
  }

  /**
   * Literal bounds read with an explicit format: a text candidate that the format
   * reads inside the window is accepted, one read after the upper bound is rejected.
   */
  lemma LiteralWindow(min: string, max: string, f: string, p: Parsers, clock: Clock, inside: string, after: string)
    requires IsLiteral(Some(min)) && IsLiteral(Some(max)) && |f| > 0
    requires p.withFormat(f, min).Some? && p.withFormat(f, max).Some?
    requires p.withFormat(f, inside).Some? && p.withFormat(f, inside).value != UNPARSED
    requires p.withFormat(f, min).value <= p.withFormat(f, inside).value <= p.withFormat(f, max).value
    requires p.withFormat(f, after).Some? && p.withFormat(f, after).value != UNPARSED
    requires p.withFormat(f, after).value > p.withFormat(f, max).value
    ensures Verdict(OtherValue(inside), Some(f), p, ResolveMin(Some(min), Some(f), 0, p, clock), ResolveMax(Some(max), Some(f), 0, p, clock))
         == Ok(true)
    ensures Verdict(OtherValue(after), Some(f), p, ResolveMin(Some(min), Some(f), 0, p, clock), ResolveMax(Some(max), Some(f), 0, p, clock))
         == Ok(false)
  {
  }

  /**
   * A text candidate that no parser accepts is a plain `false`, never an error, and
   * no bound is consulted for it (even unparsable bounds raise nothing).
   */
  lemma UnparsableCandidateFails(s: string, format: Option<string>, p: Parsers,
                                 lo: Result<Long, ConfigError>, hi: Result<Long, ConfigError>)
    requires format.Some? ==> p.withFormat(format.value, s).None?
    requires p.byDefault(s).None?
    ensures Verdict(OtherValue(s), format, p, lo, hi) == Ok(false)
  {
  }

  /**
   * The format is tried on candidates even when it is empty, while bounds treat an
   * empty format as absent; and a candidate the format reads as the instant -1 is
   * re-read by the default parser, because -1 is the "not parsed" sentinel.
   */
  lemma FormatUseOnCandidatesAndBounds(s: string, f: string, p: Parsers)
    ensures ParseBound(s, Some(""), p) == p.byDefault(s)
    ensures p.withFormat("", s).Some? && p.withFormat("", s).value != UNPARSED ==>
      CandidateInstant(OtherValue(s), Some(""), p) == p.withFormat("", s)
    ensures p.withFormat(f, s) == Some(UNPARSED) ==> CandidateInstant(OtherValue(s), Some(f), p) == p.byDefault(s)
  {
  }

  /** A `Date` or `Calendar` candidate is compared by its own instant, whatever the format. */
  lemma NativeCandidates(t: Long, format: Option<string>, p: Parsers, lo: Long, hi: Long)
    ensures Verdict(DateValue(t), format, p, Ok(lo), Ok(hi)) == Ok(lo <= t <= hi)
    ensures Verdict(CalendarValue(t), format, p, Ok(lo), Ok(hi)) == Ok(lo <= t <= hi)
  {
  }

  class DateRangeCheck {
    const parsers: Parsers

    var format: Option<string>
    var max: Option<string>
    var min: Option<string>
    var maxMillis: Option<Long>
    var minMillis: Option<Long>
    var tolerance: Long

    /** The message-variable cache kept by every check, and whether it is current. */
    var messageVariables: map<string, Option<string>>
    var messageVariablesUpToDate: bool

    /** The format in force when `minMillis` / `maxMillis` was filled. */
    ghost var minMillisFormat: Option<string>
    ghost var maxMillisFormat: Option<string>

    /**
     * Cache coherence: a cached bound belongs to a literal bound text and equals that
     * text parsed (with the format in force when it was cached) and moved by the
     * current tolerance; cached message variables match the current parameters.
     */
    ghost predicate Valid()
      reads this
    {
      && (minMillis.Some? ==> IsLiteral(min) && minMillis == LiteralMin(min.value, minMillisFormat, tolerance, parsers))
      && (maxMillis.Some? ==> IsLiteral(max) && maxMillis == LiteralMax(max.value, maxMillisFormat, tolerance, parsers))
      && (messageVariablesUpToDate ==> messageVariables == MessageVariablesOf(min, max, format))
    }

    /** The lower bound `getMinMillis()` returns in the current state. */
    function CurrentMin(clock: Clock): Result<Long, ConfigError>
      reads this
    {
      if minMillis.Some? then Ok(minMillis.value) else ResolveMin(min, format, tolerance, parsers, clock)
    }

    /** The upper bound `getMaxMillis()` returns in the current state. */
    function CurrentMax(clock: Clock): Result<Long, ConfigError>
      reads this
    {
      if maxMillis.Some? then Ok(maxMillis.value) else ResolveMax(max, format, tolerance, parsers, clock)
    }

    /** `minMillis` after `getMinMillis()`: filled when empty and the literal bound resolved. */
    function MinCacheAfterLookup(clock: Clock): Option<Long>
      reads this
    {
      if minMillis.None? && IsLiteral(min) && CurrentMin(clock).Ok? then Some(CurrentMin(clock).value) else minMillis
    }

    /** `maxMillis` after `getMaxMillis()`. */
    function MaxCacheAfterLookup(clock: Clock): Option<Long>
      reads this
    {
      if maxMillis.None? && IsLiteral(max) && CurrentMax(clock).Ok? then Some(CurrentMax(clock).value) else maxMillis
    }

    /** Whether `isSatisfied(value)` reaches `getMinMillis()`. */
    predicate LooksUpMin(value: Candidate)
      reads this
    {
      !value.Null? && CandidateInstant(value, format, parsers).Some?
    }

    /** Whether `isSatisfied(value)` reaches `getMaxMillis()`: only after the lower bound held. */
    predicate LooksUpMax(value: Candidate, clock: Clock)
      reads this
    {
      LooksUpMin(value) && CurrentMin(clock).Ok? && CandidateInstant(value, format, parsers).value >= CurrentMin(clock).value
    }

    constructor (parsers: Parsers)
      ensures Valid() && this.parsers == parsers
      ensures format.None? && max.None? && min.None? && tolerance == 0
      ensures maxMillis.None? && minMillis.None? && !messageVariablesUpToDate
    {
      this.parsers := parsers;
      format, max, min := None, None, None;
      maxMillis, minMillis := None, None;
      tolerance := 0;
      messageVariables := map[];
      messageVariablesUpToDate := false;
      minMillisFormat, maxMillisFormat := None, None;
    }

    /** `getMinMillis()`: a cached value if any, else the resolved bound, caching only literal ones. */
    method GetMinMillis(clock: Clock) returns (r: Result<Long, ConfigError>)
      requires Valid()
      modifies this`minMillis, this`minMillisFormat
      ensures Valid()
      ensures r == old(CurrentMin(clock))
      ensures r == ResolveMin(min, if old(minMillis).Some? then old(minMillisFormat) else format, tolerance, parsers, clock)
      ensures minMillis == old(MinCacheAfterLookup(clock))
    {
      if minMillis.None? {
        if min.None? || |min.value| == 0 {
          return Ok(0);
        }
        var m := min.value;
        if m == "now" {
          return Ok(WrapLong(clock.now - tolerance));
        } else if m == "today" {
          return Ok(WrapLong(clock.dayStart(0) - tolerance));
        } else if m == "tomorrow" {
          return Ok(WrapLong(clock.dayStart(1) - tolerance));
        } else if m == "yesterday" {
          return Ok(WrapLong(clock.dayStart(-1) - tolerance));
        }
        var parsed := if format.Some? && |format.value| > 0 then parsers.withFormat(format.value, m) else parsers.byDefault(m);
        if parsed.None? {
          return Err(MIN_PARSE_ERROR);
        }
        minMillis := Some(WrapLong(parsed.value - tolerance));
        minMillisFormat := format;
      }
      r := Ok(minMillis.value);
    }

    /** `getMaxMillis()`: a cached value if any, else the resolved bound, caching only literal ones. */
    method GetMaxMillis(clock: Clock) returns (r: Result<Long, ConfigError>)
      requires Valid()
      modifies this`maxMillis, this`maxMillisFormat
      ensures Valid()
      ensures r == old(CurrentMax(clock))
      ensures r == ResolveMax(max, if old(maxMillis).Some? then old(maxMillisFormat) else format, tolerance, parsers, clock)
      ensures maxMillis == old(MaxCacheAfterLookup(clock))
    {
      if maxMillis.None? {
        if max.None? || |max.value| == 0 {
          return Ok(LONG_MAX);
        }
        var m := max.value;
        if m == "now" {
          return Ok(WrapLong(clock.now + tolerance));
        } else if m == "today" {
          return Ok(WrapLong(clock.dayStart(1) - 1 + tolerance));
        } else if m == "tomorrow" {
          return Ok(WrapLong(clock.dayStart(2) - 1 + tolerance));
        } else if m == "yesterday" {
          return Ok(WrapLong(clock.dayStart(0) - 1 + tolerance));
        }
        var parsed := if format.Some? && |format.value| > 0 then parsers.withFormat(format.value, m) else parsers.byDefault(m);
        if parsed.None? {
          return Err(MAX_PARSE_ERROR);
        }
        maxMillis := Some(WrapLong(parsed.value + tolerance));
        maxMillisFormat := format;
      }
      r := Ok(maxMillis.value);
    }

    /**
     * The first part of `isSatisfied` for a non-null value: a date or calendar gives
     * its instant; text is tried with the format, then with the default parser while
     * the value is still the `-1` sentinel; `None` when neither parses it.
     */
    method ValueInMillis(value: Candidate) returns (v: Option<Long>)
      requires !value.Null?
      ensures v == CandidateInstant(value, format, parsers)
    {
      var valueInMillis: Long := UNPARSED;
      match value {
        case DateValue(t) =>
          valueInMillis := t;
        case CalendarValue(t) =>
          valueInMillis := t;
        case OtherValue(stringValue) =>
          if format.Some? {
            var viaFormat := parsers.withFormat(format.value, stringValue);
            if viaFormat.Some? {
              valueInMillis := viaFormat.value;
            }
          }
          if valueInMillis == UNPARSED {
            var viaDefault := parsers.byDefault(stringValue);
            if viaDefault.None? {
              return None;
            }
            valueInMillis := viaDefault.value;
          }
      }
      v := Some(valueInMillis);
    }

    /**
     * `isSatisfied`: `null` passes without consulting any bound; a `Date` or `Calendar`
     * gives its instant; other values are parsed from their text, and one that neither
     * parser accepts fails (it is not an error). Then `getMinMillis() <= v <= getMaxMillis()`,
     * evaluated left to right with short-circuit.
     */
    method IsSatisfied(value: Candidate, clock: Clock) returns (r: Result<bool, ConfigError>)
      requires Valid()
      modifies this`minMillis, this`minMillisFormat, this`maxMillis, this`maxMillisFormat
      ensures Valid()
      ensures r == old(Verdict(value, format, parsers, CurrentMin(clock), CurrentMax(clock)))
      ensures minMillis == if old(LooksUpMin(value)) then old(MinCacheAfterLookup(clock)) else old(minMillis)
      ensures maxMillis == if old(LooksUpMax(value, clock)) then old(MaxCacheAfterLookup(clock)) else old(maxMillis)
    {
      if value.Null? {
        return Ok(true);
      }
      var parsed := ValueInMillis(value);
      if parsed.None? {
        return Ok(false);
      }
      var valueInMillis := parsed.value;
      var lo := GetMinMillis(clock);
      if lo.Err? {
        return Err(lo.error);
      }
      if valueInMillis < lo.value {
        return Ok(false);
      }
      var hi := GetMaxMillis(clock);
      if hi.Err? {
        return Err(hi.error);
      }
      r := Ok(valueInMillis <= hi.value);
    }

    /** `createMessageVariables()`: `min`, `max` (`..` for a null bound) and `format`. */
    method CreateMessageVariables() returns (vars: map<string, Option<string>>)
      ensures vars == MessageVariablesOf(min, max, format)
    {
      vars := map[];
      vars := vars["min" := Some(if min == None then ".." else min.value)];
      vars := vars["max" := Some(if max == None then ".." else max.value)];
      vars := vars["format" := format];
    }

    /** The lazy lookup every check performs: recompute the message variables when they are stale. */
    method GetMessageVariables() returns (vars: map<string, Option<string>>)
      requires Valid()
      modifies this`messageVariables, this`messageVariablesUpToDate
      ensures Valid() && messageVariablesUpToDate
      ensures vars == MessageVariablesOf(min, max, format)
    {
      if !messageVariablesUpToDate {
        messageVariables := CreateMessageVariables();
        messageVariablesUpToDate := true;
      }
      vars := messageVariables;
    }

    /** `setFormat`: marks the message variables stale but keeps both cached bounds. */
    method SetFormat(format: Option<string>)
      requires Valid()
      modifies this`format, this`messageVariablesUpToDate
      ensures Valid()
      ensures this.format == format && !messageVariablesUpToDate
      ensures minMillis == old(minMillis) && maxMillis == old(maxMillis)
    {
      this.format := format;
      messageVariablesUpToDate := false;
    }

    /** `setMax`: clears only the cached upper bound and marks the message variables stale. */
    method SetMax(max: Option<string>)
      requires Valid()
      modifies this`max, this`maxMillis, this`messageVariablesUpToDate
      ensures Valid()
      ensures this.max == max && maxMillis.None? && !messageVariablesUpToDate
      ensures minMillis == old(minMillis)
    {
      this.max := max;
      maxMillis := None;
      messageVariablesUpToDate := false;
    }

    /** `setMin`: clears only the cached lower bound and marks the message variables stale. */
    method SetMin(min: Option<string>)
      requires Valid()
      modifies this`min, this`minMillis, this`messageVariablesUpToDate
      ensures Valid()
      ensures this.min == min && minMillis.None? && !messageVariablesUpToDate
      ensures maxMillis == old(maxMillis)
    {
      this.min := min;
      minMillis := None;
      messageVariablesUpToDate := false;
    }

    /** `setTolerance`: clears both cached bounds; the message variables stay current. */
    method SetTolerance(tolerance: Long)
      requires Valid()
      modifies this`tolerance, this`minMillis, this`maxMillis
      ensures Valid()
      ensures this.tolerance == tolerance && minMillis.None? && maxMillis.None?
      ensures messageVariablesUpToDate == old(messageVariablesUpToDate)
    {
      this.tolerance := tolerance;
      minMillis := None;
      maxMillis := None;
    }

    /** `configure(annotation)`: the four setters with the annotation's attributes. */
    method Configure(a: DateRangeAnnotation)
      requires Valid()
      modifies this
      ensures Valid()
      ensures min == Some(a.min) && max == Some(a.max) && format == Some(a.format) && tolerance == a.tolerance
      ensures minMillis.None? && maxMillis.None? && !messageVariablesUpToDate
    {
      SetMin(Some(a.min));
      SetMax(Some(a.max));
      SetFormat(Some(a.format));
      SetTolerance(a.tolerance);
    }
  }
}
