/** Timestamps and the branch logic of `parseDate` (parser.go:428-458).  The
    `time` package itself is not modelled: a time is an abstract count of
    seconds whose zero is Go's zero `time.Time`, and parsing and zone lookup
    are functions supplied by the caller. */
module Dates {
  import opened Wrappers
  import opened Properties

  datatype Time = Time(seconds: int)
  {
    /** `time.Time.IsZero`. */
    predicate IsZero()
    {
      seconds == 0
    }

    /** `time.Time.Add`, for a duration in seconds. */
    function Add(d: int): Time
    {
      Time(seconds + d)
    }
  }

  /** What `time.Parse` returns alongside an error: the zero time. */
  const ZeroTime: Time := Time(0)

  /** `time.Hour * 24`, in seconds. */
  const Day: int := 24 * 60 * 60

  /** The three layouts: `dateLayout` "20060102", `dateTimeLayoutUTC`
      "20060102T150405Z" and `dateTimeLayoutLocalized` "20060102T150405". */
  datatype Layout = DateOnly | DateTimeUTC | DateTimeLocalized

  /** The location a value is read in: UTC (also what `time.Parse` uses), a
      zone loaded by name, or the location handed to `Parse`. */
  datatype Zone = UTC | Loaded(name: string) | Caller

  /** The parts of the `time` package the parser calls: whether
      `time.LoadLocation` knows a zone name, and `time.ParseInLocation`. */
  datatype DateEnv = DateEnv(known: string -> bool, parse: (Layout, Zone, string) -> Option<Time>)

  /** `strings.HasSuffix(s, "Z")`. */
  predicate EndsWithZ(s: string)
  {
    |s| > 0 && s[|s| - 1] == 'Z'
  }

  /** The layout and location `parseDate` hands to the `time` package, in the
      order of its four tests.  Its last test, for VALUE=DATE, can only fire on
      an eight-rune value, and those have already been answered. */
  function DateChoice(p: Property, env: DateEnv): (c: (Layout, Zone))
    requires WellFormed(p)
    ensures EndsWithZ(p.value) ==> c == (DateTimeUTC, UTC)
    ensures !EndsWithZ(p.value) && "TZID" in p.params ==>
      var tz := p.params["TZID"].values[0];
      c == (DateTimeLocalized, if env.known(tz) then Loaded(tz) else UTC)
    ensures c.0 == DateOnly <==> !EndsWithZ(p.value) && "TZID" !in p.params && |p.value| == 8
    ensures c.0 == DateOnly ==> c.1 == UTC
    ensures !EndsWithZ(p.value) && "TZID" !in p.params && |p.value| != 8 ==> c == (DateTimeLocalized, Caller)
  {
    if EndsWithZ(p.value) then (DateTimeUTC, UTC)
    else if "TZID" in p.params then
      var tz := p.params["TZID"].values[0];
      (DateTimeLocalized, if env.known(tz) then Loaded(tz) else UTC)
    else if |p.value| == 8 then (DateOnly, UTC)
    else
      var layout :=
        if "VALUE" in p.params && p.params["VALUE"].values[0] == "DATE" && |p.value| == 8
        then DateOnly else DateTimeLocalized;
      (layout, Caller)
  }

  /** `parseDate` as its callers use it: the error is dropped, so a value the
      `time` package rejects becomes the zero time. */
  function ParseDate(p: Property, env: DateEnv): (t: Time)
    requires WellFormed(p)
    ensures var c := DateChoice(p, env);
      env.parse(c.0, c.1, p.value).None? ==> t == ZeroTime
    ensures var c := DateChoice(p, env);
      env.parse(c.0, c.1, p.value).Some? ==> t == env.parse(c.0, c.1, p.value).value
  {
    var c := DateChoice(p, env);
    match env.parse(c.0, c.1, p.value)
    case Some(t) => t
    case None => ZeroTime
  }

  /** A VALUE parameter never changes what `parseDate` does. */
  lemma ValueParamIgnored(p: Property, env: DateEnv)
    requires WellFormed(p)
    ensures WellFormed(p.(params := p.params - {"VALUE"}))
    ensures DateChoice(p, env) == DateChoice(p.(params := p.params - {"VALUE"}), env)
  {
    var q := p.(params := p.params - {"VALUE"});
    assert "TZID" in p.params <==> "TZID" in q.params;
    if "TZID" in p.params {
      assert q.params["TZID"] == p.params["TZID"];
    }
  }

  /** Without a TZID parameter (the case for everything the lexer and
      parser produce) the location is UTC or the caller's, never a loaded zone. */
  lemma NoZoneLookup(p: Property, env: DateEnv)
    requires WellFormed(p) && "TZID" !in p.params
    ensures !DateChoice(p, env).1.Loaded?
    ensures forall env2: DateEnv :: DateChoice(p, env2) == DateChoice(p, env)
  {
  }
}
