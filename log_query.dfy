/** Log-query parameters and their validation (internal/types/log.go): the required environment,
    the `since` grammar, the exclusion of `start` with `since`, and the default limit. */
module LogQuery {
  import opened Wrappers
  import opened Text

  /** An instant; `Time(0)` is Go's zero `time.Time`, which `IsZero` recognises. */
  datatype Time = Time(instant: int) {
    predicate IsZero() { instant == 0 }
  }

  const ZeroTime: Time := Time(0)

  /** The two layouts `parseTime` tries, in this order. */
  datatype Layout = DateTime | DateOnly

  /** `time.Parse`, left abstract: `Some` when the string parses under the layout. */
  type TimeParser = (Layout, string) -> Option<Time>

  const DefaultLimit: int := 50

  datatype FilterParams = FilterParams(
    environment: string,
    start: Option<string>,
    end: Option<string>,
    since: Option<string>,
    limit: Option<int>)

  datatype Filter = Filter(environment: string, start: Time, end: Time, since: string, limit: int)

  datatype LogEntry = LogEntry(owner: string, log: string, ts: string)

  /** `LogEntry.Line`: owner, a space, the log text. */
  function Line(e: LogEntry): string
  {
    e.owner + " " + e.log
  }

  /** A line whose owner has no space is cut back into owner and text at its first space. */
  lemma LineParts(e: LogEntry)
    requires ' ' !in e.owner
    ensures Cut(Line(e), ' ') == Some((e.owner, e.log))
  {
    CutJoin(e.owner, ' ', e.log);
  }

  /** The units `since` may end with. */
  predicate IsSinceUnit(c: char) { c == 's' || c == 'm' || c == 'h' || c == 'd' || c == 'w' }

  /** `^[1-9]\d*[smhdw]$`: a non-zero digit, any further digits, one unit letter. */
  predicate SinceMatches(s: string)
  {
    |s| >= 2 && '1' <= s[0] <= '9' && AllDigits(s[1..|s| - 1]) && IsSinceUnit(s[|s| - 1])
  }

  /** A count followed by one character matches exactly when the count is positive and the
      character is a unit: "0s" and "5x" are refused, "15m" is accepted. */
  lemma SinceMatchesCount(n: nat, unit: char)
    ensures SinceMatches(NatToString(n) + [unit]) <==> n >= 1 && IsSinceUnit(unit)
  {
    var s := NatToString(n) + [unit];
    assert s[|s| - 1] == unit;
    assert s[1..|s| - 1] == NatToString(n)[1..];
    if n == 0 {
      assert s[0] == '0';
    }
  }

  /** Every accepted `since` is such a count and unit. */
  lemma SinceMatchesShape(s: string)
    requires SinceMatches(s)
    ensures AllDigits(s[..|s| - 1]) && s[0] != '0' && IsSinceUnit(s[|s| - 1])
    ensures DigitsValue(s[..|s| - 1]) >= 1
  {
    LeadingDigitPositive(s[..|s| - 1]);
  }

  lemma {:induction false} LeadingDigitPositive(digits: string)
    requires |digits| >= 1 && AllDigits(digits) && digits[0] != '0'
    ensures DigitsValue(digits) >= 1
  {
    if |digits| > 1 {
      LeadingDigitPositive(digits[..|digits| - 1]);
    }
  }

  /** `parseTime`: the date-and-time layout first, then the date-only layout. */
  function ParseTime(parse: TimeParser, s: string): (r: Result<Time>)
  {
    match parse(DateTime, s)
    case Some(t) => Ok(t)
    case None =>
      match parse(DateOnly, s)
      case Some(t) => Ok(t)
      case None => Err("cannot parse \"" + s + "\" as either date+time or date-only")
  }

  /** A string parses when either layout accepts it, and the date-and-time reading wins. */
  lemma ParseTimeSpec(parse: TimeParser, s: string)
    ensures ParseTime(parse, s).Ok? <==> parse(DateTime, s).Some? || parse(DateOnly, s).Some?
    ensures parse(DateTime, s).Some? ==> ParseTime(parse, s) == Ok(parse(DateTime, s).value)
    ensures parse(DateTime, s).None? && parse(DateOnly, s).Some? ==> ParseTime(parse, s) == Ok(parse(DateOnly, s).value)
  {
  }

  /** A bound that is given and not empty, parsed; otherwise the zero time. */
  function ParseBound(parse: TimeParser, bound: Option<string>): Result<Time>
  {
    if bound.Some? && bound.value != "" then ParseTime(parse, bound.value) else Ok(ZeroTime)
  }

  /** Whether validation gets as far as copying `since`, which the source dereferences without a
      nil check. */
  predicate ReachesSinceCopy(f: FilterParams, parse: TimeParser)
  {
    f.environment != "" && ParseBound(parse, f.start).Ok? && ParseBound(parse, f.end).Ok?
  }

  /** `FilterParams.Validate`. */
  function Validate(f: FilterParams, parse: TimeParser): (r: Result<Filter>)
    requires ReachesSinceCopy(f, parse) ==> f.since.Some?
    ensures f.environment == "" ==> r.Err?
    ensures f.since.Some? && f.since.value != "" && !SinceMatches(f.since.value) ==> r.Err?
    ensures r.Ok? ==> r.value.environment == f.environment && f.since.Some? && r.value.since == f.since.value
    ensures r.Ok? ==> r.value.limit >= 1
    ensures r.Ok? ==> r.value.limit == (if f.limit.Some? && f.limit.value > 0 then f.limit.value else DefaultLimit)
  {
    if f.environment == "" then Err("'environment' is blank")
    else if f.since.Some? && f.since.value != "" && !SinceMatches(f.since.value) then
      Err("invalid 'since' format " + f.since.value)
    else
      var start :- ParseBound(parse, f.start);
      var end :- ParseBound(parse, f.end);
      var since := f.since.value;
      if !start.IsZero() && since != "" then Err("you cannot use both 'start' and 'since' to query logs")
      else
        var limit := if f.limit.Some? && f.limit.value > 0 then f.limit.value else DefaultLimit;
        Ok(Filter(f.environment, start, end, since, limit))
  }

  /** Validation succeeds exactly when the environment is set, `since` is empty or well formed,
      both bounds that are given parse, and a non-zero start is not combined with a `since`;
      the bounds in the result are the parsed ones. */
  lemma ValidateSpec(f: FilterParams, parse: TimeParser)
    requires ReachesSinceCopy(f, parse) ==> f.since.Some?
    ensures Validate(f, parse).Ok? <==>
      f.environment != "" &&
      f.since.Some? && (f.since.value == "" || SinceMatches(f.since.value)) &&
      ParseBound(parse, f.start).Ok? && ParseBound(parse, f.end).Ok? &&
      (ParseBound(parse, f.start).value.IsZero() || f.since.value == "")
    ensures Validate(f, parse).Ok? ==>
      Validate(f, parse).value.start == ParseBound(parse, f.start).value &&
      Validate(f, parse).value.end == ParseBound(parse, f.end).value
  {
  }

  /** A query that sets both a start which parses to a non-zero time and a non-empty `since` is
      refused. */
  lemma StartExcludesSince(f: FilterParams, parse: TimeParser)
    requires f.since.Some? && f.since.value != ""
    requires ParseBound(parse, f.start).Ok? && !ParseBound(parse, f.start).value.IsZero()
    ensures Validate(f, parse).Err?
  {
  }
}
