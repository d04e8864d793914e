/** What `validateCalendar`, `validateEvent` and `validateAlarm`
    (parser.go:316-416) compute, as functions of a component's property list. */
module Validation {
  import opened Wrappers
  import opened Properties
  import opened Dates

  /** The checks a component can fail.  The message text and the name in the
      "occurs more than once" message are not modelled: which name is reported
      depends on Go's map iteration order. */
  datatype Violation =
    | MissingProdidOrVersion
    | BothDtendAndDuration
    | MissingDtstamp
    | MissingUid
    | MissingDtstart
    | Repeated
    | MissingAlarmProperty(name: string)

  /** The calendar-level check: PRODID and VERSION are counted together. */
  predicate CalendarAccepts(props: seq<Property>)
  {
    Count(props, "PRODID") + Count(props, "VERSION") == 2
  }

  /** PRODID and VERSION are counted as one total: two PRODIDs and no
      VERSION pass, a single PRODID does not, and neither do PRODID, VERSION
      and a second VERSION. */
  lemma AggregateCount(a: string, b: string, c: string)
    ensures CalendarAccepts([Property("PRODID", a, map[]), Property("PRODID", b, map[])])
    ensures !CalendarAccepts([Property("PRODID", a, map[])])
    ensures !CalendarAccepts([Property("PRODID", a, map[]), Property("VERSION", b, map[]), Property("VERSION", c, map[])])
  {
    var p, v, w := Property("PRODID", a, map[]), Property("VERSION", b, map[]), Property("VERSION", c, map[]);
    assert [p, v, w] == [p] + [v] + [w] && [p] == [] + [p];
    CountSnoc([p] + [v], w, "PRODID");
    CountSnoc([p] + [v], w, "VERSION");
    CountSnoc([p], v, "PRODID");
    CountSnoc([p], v, "VERSION");
  }

  /** PRODID, VERSION, CALSCALE and METHOD, the calendar fields
      `validateCalendar` writes. */
  type Header = (string, string, string, string)

  /** One pass of `validateCalendar`'s loop: four independent tests. */
  function HeaderStep(h: Header, p: Property): Header
  {
    (if p.name == "PRODID" then p.value else h.0,
     if p.name == "VERSION" then p.value else h.1,
     if p.name == "CALSCALE" then p.value else h.2,
     if p.name == "METHOD" then p.value else h.3)
  }

  /** The header after the loop has run over all of `props`, from `h`. */
  function HeaderAfter(props: seq<Property>, h: Header): Header
  {
    if |props| == 0 then h else HeaderStep(HeaderAfter(props[..|props| - 1], h), props[|props| - 1])
  }

  /** Each header field holds the last value of its property, or what it had. */
  lemma {:induction false} HeaderFields(props: seq<Property>, h: Header)
    ensures HeaderAfter(props, h) == (LastValue(props, "PRODID", h.0), LastValue(props, "VERSION", h.1),
      LastValue(props, "CALSCALE", h.2), LastValue(props, "METHOD", h.3))
  {
    if |props| > 0 {
      var init := props[..|props| - 1];
      var p := props[|props| - 1];
      assert props == init + [p];
      HeaderFields(init, h);
      LastValueSnoc(init, p, "PRODID", h.0);
      LastValueSnoc(init, p, "VERSION", h.1);
      LastValueSnoc(init, p, "CALSCALE", h.2);
      LastValueSnoc(init, p, "METHOD", h.3);
    }
  }

  /** `propertyCount[key]++` on a Go map, where a missing key reads as 0. */
  function Increment(m: map<string, int>, key: string): map<string, int>
  {
    m[key := (if key in m then m[key] else 0) + 1]
  }

  /** The counter map a validator's loop builds over `props`, counting the
      names in `counted`. */
  function Tally(props: seq<Property>, counted: set<string>): map<string, int>
  {
    if |props| == 0 then map[]
    else
      var m := Tally(props[..|props| - 1], counted);
      if props[|props| - 1].name in counted then Increment(m, props[|props| - 1].name) else m
  }

  /** The counter map has a key exactly for each counted name that occurs,
      holding its number of occurrences. */
  lemma {:induction false} TallyCounts(props: seq<Property>, counted: set<string>)
    ensures forall key :: key in Tally(props, counted) <==> key in counted && Count(props, key) > 0
    ensures forall key :: key in Tally(props, counted) ==> Tally(props, counted)[key] == Count(props, key)
  {
    if |props| > 0 {
      var init := props[..|props| - 1];
      var p := props[|props| - 1];
      assert props == init + [p];
      TallyCounts(init, counted);
      forall key ensures Count(props, key) == Count(init, key) + (if p.name == key then 1 else 0) {
        CountSnoc(init, p, key);
      }
    }
  }

  /** The names `validateAlarm` counts. */
  const AlarmNames: set<string> := {"ACTION", "TRIGGER"}

  /** The names `validateEvent` counts. */
  const EventNames: set<string> := {"UID", "DTSTAMP", "DTSTART", "DTEND", "DURATION", "SUMMARY", "DESCRIPTION"}

  /** The event fields `validateEvent` writes. */
  datatype EventFields = EventFields(
    uid: string, timestamp: Time, startDate: Time, endDate: Time,
    summary: string, description: string)

  /** One pass of the `switch` in `validateEvent`'s loop, for a property whose
      DTEND/DURATION test has passed. */
  function Absorb(f: EventFields, p: Property, env: DateEnv): EventFields
    requires WellFormed(p)
  {
    match p.name
    case "UID" => f.(uid := p.value)
    case "DTSTAMP" => f.(timestamp := ParseDate(p, env))
    case "DTSTART" => f.(startDate := ParseDate(p, env))
    case "DTEND" => f.(endDate := ParseDate(p, env))
    case "SUMMARY" => f.(summary := p.value)
    case "DESCRIPTION" => f.(description := p.value)
    case _ => f
  }

  /** The fields after the loop has run over all of `props`, from `f`. */
  function Absorbed(props: seq<Property>, f: EventFields, env: DateEnv): EventFields
    requires AllWellFormed(props)
  {
    if |props| == 0 then f
    else Absorb(Absorbed(props[..|props| - 1], f, env), props[|props| - 1], env)
  }

  predicate IsBound(name: string)
  {
    name == "DTEND" || name == "DURATION"
  }

  /** Index of the first DTEND or DURATION property, or `|props|`. */
  function FirstBound(props: seq<Property>): (j: nat)
    ensures j <= |props|
    ensures j < |props| ==> IsBound(props[j].name)
    ensures forall i :: 0 <= i < j ==> !IsBound(props[i].name)
  {
    if |props| == 0 then 0
    else if IsBound(props[0].name) then 0
    else 1 + FirstBound(props[1..])
  }

  /** Some name in `counted` occurs more than once. */
  predicate RepeatsIn(props: seq<Property>, counted: set<string>)
  {
    exists i :: 0 <= i < |props| && props[i].name in counted && Count(props, props[i].name) > 1
  }

  /** Some name counted by `validateEvent` occurs more than once. */
  predicate EventRepeats(props: seq<Property>)
  {
    RepeatsIn(props, EventNames)
  }

  /** Some counter exceeds one: what the `range` over the counter map looks for. */
  predicate OverOne(m: map<string, int>)
  {
    exists key :: key in m && m[key] > 1
  }

  /** A counted name repeats exactly when some counter of the tally exceeds one. */
  lemma RepeatsTally(props: seq<Property>, counted: set<string>)
    ensures RepeatsIn(props, counted) <==> OverOne(Tally(props, counted))
  {
    TallyCounts(props, counted);
    var t := Tally(props, counted);
    if OverOne(t) {
      var key :| key in t && t[key] > 1;
      CountPositive(props, key);
      var i :| 0 <= i < |props| && props[i].name == key;
      assert props[i].name in counted && Count(props, props[i].name) > 1;
    }
    if RepeatsIn(props, counted) {
      var i :| 0 <= i < |props| && props[i].name in counted && Count(props, props[i].name) > 1;
      var key := props[i].name;
      assert key in t && t[key] > 1;
    }
  }

  /** For an alarm, a repeat means a second ACTION or a second TRIGGER. */
  lemma AlarmRepeats(props: seq<Property>)
    ensures RepeatsIn(props, AlarmNames) <==> Count(props, "ACTION") > 1 || Count(props, "TRIGGER") > 1
  {
    CountPositive(props, "ACTION");
    CountPositive(props, "TRIGGER");
    if Count(props, "ACTION") > 1 {
      var i :| 0 <= i < |props| && props[i].name == "ACTION";
      assert props[i].name in AlarmNames;
    } else if Count(props, "TRIGGER") > 1 {
      var i :| 0 <= i < |props| && props[i].name == "TRIGGER";
      assert props[i].name in AlarmNames;
    }
  }

  /** `validateEvent` on an event whose fields are `f`, in a calendar whose
      METHOD is `calMethod`: the fields it leaves and the check that fails. When
      both DTEND and DURATION are present the loop stops at the first of them,
      having written the fields of the properties before it. */
  function EventCheck(props: seq<Property>, f: EventFields, calMethod: string, env: DateEnv)
    : (EventFields, Option<Violation>)
    requires AllWellFormed(props)
  {
    if HasProperty("DTEND", props) && HasProperty("DURATION", props) then
      (Absorbed(props[..FirstBound(props)], f, env), Some(BothDtendAndDuration))
    else
      var g := Absorbed(props, f, env);
      if calMethod == "" && g.timestamp.IsZero() then (g, Some(MissingDtstamp))
      else if g.uid == "" then (g, Some(MissingUid))
      else if g.startDate.IsZero() then (g, Some(MissingDtstart))
      else if EventRepeats(props) then (g, Some(Repeated))
      else if !HasProperty("DTEND", props) then (g.(endDate := g.startDate.Add(Day)), None)
      else (g, None)
  }

  /** The event fields after the loop: each text field holds the last value
      of its property, each time the last such property's parsed date, and a
      field without a property keeps what it had. */
  lemma {:induction false} AbsorbedFields(props: seq<Property>, f: EventFields, env: DateEnv)
    requires AllWellFormed(props)
    ensures var g := Absorbed(props, f, env);
      && g.uid == LastValue(props, "UID", f.uid)
      && g.summary == LastValue(props, "SUMMARY", f.summary)
      && g.description == LastValue(props, "DESCRIPTION", f.description)
      && g.timestamp == (if HasProperty("DTSTAMP", props) then ParseDate(LastProp(props, "DTSTAMP"), env) else f.timestamp)
      && g.startDate == (if HasProperty("DTSTART", props) then ParseDate(LastProp(props, "DTSTART"), env) else f.startDate)
      && g.endDate == (if HasProperty("DTEND", props) then ParseDate(LastProp(props, "DTEND"), env) else f.endDate)
  {
    if |props| > 0 {
      var init := props[..|props| - 1];
      var p := props[|props| - 1];
      assert props == init + [p];
      AbsorbedFields(init, f, env);
      AbsorbFields(Absorbed(init, f, env), p, env);
      LastValueSnoc(init, p, "UID", f.uid);
      LastValueSnoc(init, p, "SUMMARY", f.summary);
      LastValueSnoc(init, p, "DESCRIPTION", f.description);
      DatedSnoc(init, p, "DTSTAMP", env);
      DatedSnoc(init, p, "DTSTART", env);
      DatedSnoc(init, p, "DTEND", env);
    }
  }

  /** Each field `Absorb` writes belongs to exactly one property name. */
  lemma AbsorbFields(f: EventFields, p: Property, env: DateEnv)
    requires WellFormed(p)
    ensures var g := Absorb(f, p, env);
      && g.uid == (if p.name == "UID" then p.value else f.uid)
      && g.summary == (if p.name == "SUMMARY" then p.value else f.summary)
      && g.description == (if p.name == "DESCRIPTION" then p.value else f.description)
      && g.timestamp == (if p.name == "DTSTAMP" then ParseDate(p, env) else f.timestamp)
      && g.startDate == (if p.name == "DTSTART" then ParseDate(p, env) else f.startDate)
      && g.endDate == (if p.name == "DTEND" then ParseDate(p, env) else f.endDate)
  {
  }

  lemma DatedSnoc(props: seq<Property>, p: Property, name: string, env: DateEnv)
    requires AllWellFormed(props + [p])
    ensures HasProperty(name, props + [p]) <==> HasProperty(name, props) || p.name == name
    ensures HasProperty(name, props + [p]) ==>
      LastProp(props + [p], name) == if p.name == name then p else LastProp(props, name)
  {
    assert (props + [p])[..|props|] == props;
    if HasProperty(name, props) {
      var i :| 0 <= i < |props| && props[i].name == name;
      assert (props + [p])[i].name == name;
    }
    if p.name == name {
      assert (props + [p])[|props|].name == name;
    }
    if HasProperty(name, props + [p]) && p.name != name {
      var i :| 0 <= i < |props + [p]| && (props + [p])[i].name == name;
      assert props[i].name == name;
    }
  }

  /** An event in either order of DTEND and DURATION is refused. */
  lemma BothBoundsRefused(props: seq<Property>, f: EventFields, calMethod: string, env: DateEnv, i: nat, j: nat)
    requires AllWellFormed(props)
    requires i < |props| && j < |props| && props[i].name == "DTEND" && props[j].name == "DURATION"
    ensures EventCheck(props, f, calMethod, env).1 == Some(BothDtendAndDuration)
  {
  }

  /** What an accepted fresh event (`NewEvent`'s zero fields) has: a UID and a
      DTSTART property, each counted name at most once, a timestamp unless the
      calendar has a METHOD, and an end 24 hours after the start when there is
      no DTEND. */
  lemma EventAccepted(props: seq<Property>, calMethod: string, env: DateEnv)
    requires AllWellFormed(props)
    requires EventCheck(props, NewEventFields, calMethod, env).1 == None
    ensures var g := EventCheck(props, NewEventFields, calMethod, env).0;
      && HasProperty("UID", props) && Count(props, "UID") == 1
      && HasProperty("DTSTART", props) && Count(props, "DTSTART") == 1
      && !(HasProperty("DTEND", props) && HasProperty("DURATION", props))
      && !EventRepeats(props)
      && g.uid != "" && !g.startDate.IsZero()
      && (calMethod == "" ==> HasProperty("DTSTAMP", props) && !g.timestamp.IsZero())
      && (!HasProperty("DTEND", props) ==> g.endDate == g.startDate.Add(Day))
      && g.uid == LastProp(props, "UID").value && g.startDate == ParseDate(LastProp(props, "DTSTART"), env)
  {
    AbsorbedFields(props, NewEventFields, env);
    CountPositive(props, "UID");
    CountPositive(props, "DTSTART");
    var g := EventCheck(props, NewEventFields, calMethod, env).0;
    assert HasProperty("UID", props) by {
      assert g.uid == LastValue(props, "UID", "") && g.uid != "";
    }
    assert HasProperty("DTSTART", props) by {
      assert g.startDate != ZeroTime;
    }
    var i :| 0 <= i < |props| && props[i].name == "UID";
    var j :| 0 <= j < |props| && props[j].name == "DTSTART";
    assert props[i].name in EventNames && props[j].name in EventNames;
  }

  /** The fields of `NewEvent`. */
  const NewEventFields: EventFields := EventFields("", ZeroTime, ZeroTime, ZeroTime, "", "")
}
