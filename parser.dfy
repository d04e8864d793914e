/** The recursive-descent parser (parser.go:47-314): a one-token pushback
    buffer over the lexer's items, an integer scope, and the scanners and
    validators that build the calendar tree. */
module IcalParser {
  import opened Wrappers
  import opened Lexer
  import opened Properties
  import opened Dates
  import opened Validation
  import opened Tokens
  import opened Components

  /** A parse error: an unexpected token, or a component that fails its check. */
  datatype ParseError = Unexpected(expected: Expectation, found: Item) | Invalid(violation: Violation)

  /** What a scanner returns: nil, `errorDone`, another error, or, where Go
      dereferences a nil `p.v` or `p.a` and panics, `NilDereference`. */
  datatype Status = Ok | Done | Failed(error: ParseError) | NilDereference

  const ScopeCalendar: int := 0
  const ScopeEvent: int := 1
  const ScopeAlarm: int := 2

  /** Scanned parameters or values, with the values read before them. */
  function Extend(vs: seq<string>, s: Scan<seq<string>>): Scan<seq<string>>
  {
    match s
    case Scanned(ws, n) => Scanned(vs + ws, n)
    case Stuck(_, _, _) => s
  }

  lemma ExtendTwice(a: seq<string>, b: seq<string>, s: Scan<seq<string>>)
    ensures Extend(a, Extend(b, s)) == Extend(a + b, s)
  {
    match s {
      case Scanned(ws, _) => assert a + (b + ws) == (a + b) + ws;
      case Stuck(_, _, _) =>
    }
  }

  /** Nothing read yet. */
  lemma ExtendNone(s: Scan<seq<string>>)
    ensures Extend([], s) == s
  {
    match s {
      case Scanned(ws, _) => assert [] + ws == ws;
      case Stuck(_, _, _) =>
    }
  }

  /** One more pass of a `range` loop over a property list. */
  lemma CountAt(props: seq<Property>, i: nat, name: string)
    requires i < |props|
    ensures Count(props[..i + 1], name) == Count(props[..i], name) + (if props[i].name == name then 1 else 0)
  {
    assert props[..i + 1] == props[..i] + [props[i]];
    CountSnoc(props[..i], props[i], name);
  }

  lemma LastValueAt(props: seq<Property>, i: nat, name: string, dflt: string)
    requires i < |props|
    ensures LastValue(props[..i + 1], name, dflt) == if props[i].name == name then props[i].value else LastValue(props[..i], name, dflt)
  {
    assert props[..i + 1] == props[..i] + [props[i]];
    LastValueSnoc(props[..i], props[i], name, dflt);
  }

  /** The `range` over a counter map: it reports a repeat when some counter
      exceeds one, whichever key the iteration happens to reach first. */
  method FindRepeated(counts: map<string, int>) returns (err: Option<Violation>)
    ensures err == (if OverOne(counts) then Some(Repeated) else None)
  {
    var keys := counts.Keys;
    while keys != {}
      invariant keys <= counts.Keys
      invariant forall key :: key in counts && key !in keys ==> counts[key] <= 1
      decreases keys
    {
      var key :| key in keys;
      if counts[key] > 1 {
        return Some(Repeated);
      }
      keys := keys - {key};
    }
    return None;
  }

  /** The `range` over an alarm's counter map (parser.go:407-414): a counter
      below one is reported as a missing property, one above one as a repeat,
      whichever the iteration reaches first. */
  method FindAlarmFault(counts: map<string, int>) returns (err: Option<Violation>)
    ensures err.None? <==> forall key :: key in counts ==> counts[key] == 1
    ensures err.Some? ==> err == Some(Repeated) || err.value.MissingAlarmProperty?
    ensures err == Some(Repeated) ==> OverOne(counts)
    ensures err.Some? && err.value.MissingAlarmProperty? ==> err.value.name in counts && counts[err.value.name] < 1
  {
    var keys := counts.Keys;
    while keys != {}
      invariant keys <= counts.Keys
      invariant forall key :: key in counts && key !in keys ==> counts[key] == 1
      decreases keys
    {
      var key :| key in keys;
      if counts[key] < 1 {
        return Some(MissingAlarmProperty(key));
      }
      if counts[key] > 1 {
        return Some(Repeated);
      }
      keys := keys - {key};
    }
    return None;
  }

  /** The alarm's counters come from the tally, so none is below one: the
      scan reports a repeat exactly when ACTION or TRIGGER occurs twice. */
  lemma AlarmVerdict(props: seq<Property>, counts: map<string, int>, err: Option<Violation>)
    requires counts == Tally(props, AlarmNames)
    requires err.None? <==> forall key :: key in counts ==> counts[key] == 1
    requires err.Some? ==> err == Some(Repeated) || err.value.MissingAlarmProperty?
    requires err == Some(Repeated) ==> OverOne(counts)
    requires err.Some? && err.value.MissingAlarmProperty? ==> err.value.name in counts && counts[err.value.name] < 1
    ensures err == (if RepeatsIn(props, AlarmNames) then Some(Repeated) else None)
    ensures err.None? <==> Count(props, "ACTION") <= 1 && Count(props, "TRIGGER") <= 1
  {
    TallyCounts(props, AlarmNames);
    RepeatsTally(props, AlarmNames);
    AlarmRepeats(props);
    if err.None? {
      assert !OverOne(counts);
    }
  }

  /** What a `next` expecting the CRLF that ends a delimiter line reports. */
  function LineEndStatus(items: seq<Item>, k: int): Status
  {
    var t := ItemAt(items, k);
    if t.typ.ItemLineEnd? then Ok else Failed(Unexpected(ExpectLineEnd, t))
  }

  /** What `Parse` returns: the calendar, an error, or a panic (a nil
      dereference in the parser). */
  datatype Verdict = Accepted | Rejected(error: ParseError) | Panicked

  /** No BEGIN:VEVENT among the items at cursors `from` up to `to`. */
  predicate NoBeginVEvent(items: seq<Item>, from: int, to: int)
  {
    forall k :: from <= k < to ==> !ItemAt(items, k).typ.ItemBeginVEvent?
  }

  /** What one `scanContentLine` at calendar scope reads from cursor `k`. */
  datatype Line =
    | PropertyLine(prop: Property, next: nat)  // a property line, ending just before `next`
    | EndLine(next: nat)                       // END:VCALENDAR, ending the parse
    | BadLine(error: ParseError)               // the error the line is refused with
    | ComponentLine                            // a BEGIN/END of an event or alarm

  /** `scanContentLine` at calendar scope (parser.go:237-277): each
      BEGIN:VCALENDAR is dispatched to a `scanDelimiter` case that does
      nothing, END:VCALENDAR ends the parse, and any other token starts a
      property line the calendar keeps. */
  function CalendarLine(items: seq<Item>, k: nat): (l: Line)
    ensures l.PropertyLine? ==> k < l.next <= |items| && WellFormed(l.prop)
    ensures l.EndLine? ==> k < l.next <= |items| && ItemAt(items, l.next - 1).typ.ItemEndVCalendar?
    decreases |items| - k
  {
    var t := ItemAt(items, k);
    if t.typ.ItemBeginVCalendar? then CalendarLine(items, k + 1)
    else if t.typ.ItemEndVCalendar? then EndLine(k + 1)
    else if IsDelimiter(t.typ) then ComponentLine
    else if !IsItemComponent(t) then BadLine(Unexpected(ExpectComponent, t))
    else
      PropertyWellFormed(items, k + 1, t.val);
      match ScanPropertySpec(items, k + 1, t.val)
      case Stuck(x, f, _) => BadLine(Unexpected(x, f))
      case Scanned(p, n) => PropertyLine(p, n)
  }

  /** The lines `parse` reads from cursor `k` while no event or alarm has
      been opened: the properties up to END:VCALENDAR, the error of the
      first refused line, or `Opened` at the first event or alarm line. */
  datatype Lines = Finished(props: seq<Property>, next: nat) | Broken(error: ParseError) | Opened

  function Preceded(ps: seq<Property>, r: Lines): Lines
  {
    match r
    case Finished(qs, n) => Finished(ps + qs, n)
    case _ => r
  }

  lemma PrecededTwice(ps: seq<Property>, qs: seq<Property>, r: Lines)
    ensures Preceded(ps, Preceded(qs, r)) == Preceded(ps + qs, r)
  {
    match r {
      case Finished(rs, _) => assert ps + (qs + rs) == (ps + qs) + rs;
      case _ =>
    }
  }

  /** One property line more in `parse`'s loop: what has been read grows by
      the line's property, and the rest of the calendar is read from its end. */
  lemma CalendarPass(items: seq<Item>, k: nat, read: seq<Property>) returns (read': seq<Property>)
    requires CalendarLines(items, 2) == Preceded(read, CalendarLines(items, k))
    ensures CalendarLine(items, k).PropertyLine? ==>
      var l := CalendarLine(items, k);
      read' == read + [l.prop] && CalendarLines(items, 2) == Preceded(read', CalendarLines(items, l.next))
    ensures CalendarLine(items, k).EndLine? ==> CalendarLines(items, 2) == Finished(read, CalendarLine(items, k).next)
    ensures CalendarLine(items, k).BadLine? ==> CalendarLines(items, 2) == Broken(CalendarLine(items, k).error)
    ensures CalendarLine(items, k).ComponentLine? ==> CalendarLines(items, 2).Opened?
  {
    read' := read;
    match CalendarLine(items, k)
    case PropertyLine(p, n) =>
      PrecededTwice(read, [p], CalendarLines(items, n));
      read' := read + [p];
    case EndLine(n) =>
      assert read + [] == read;
    case _ =>
  }

  /** `parse`'s loop (parser.go:176-185) over calendar-scope lines. */
  function CalendarLines(items: seq<Item>, k: nat): (r: Lines)
    ensures r.Finished? ==> k < r.next <= |items| && ItemAt(items, r.next - 1).typ.ItemEndVCalendar?
    ensures r.Finished? ==> forall i :: 0 <= i < |r.props| ==> WellFormed(r.props[i])
    decreases |items| - k
  {
    match CalendarLine(items, k)
    case PropertyLine(p, n) =>
      var rest := CalendarLines(items, n);
      assert rest.Finished? ==> forall i :: 1 <= i < |[p] + rest.props| ==> ([p] + rest.props)[i] == rest.props[i - 1];
      Preceded([p], rest)
    case EndLine(n) => Finished([], n)
    case BadLine(e) => Broken(e)
    case ComponentLine => Opened
  }

  /** A calendar without events is never validated: a lone property line
      that `validateCalendar` would refuse is kept, and the parse ends. */
  lemma UnvalidatedCalendar()
    ensures var items := [
        Item(ItemBeginVCalendar, 0, BeginVCalendar), Item(ItemLineEnd, 15, CRLF),
        Item(ItemComponent, 17, "X"), Item(ItemColon, 18, ":"), Item(ItemValue, 19, "y"), Item(ItemLineEnd, 20, CRLF),
        Item(ItemEndVCalendar, 22, EndVCalendar), Item(ItemLineEnd, 35, CRLF), Item(ItemEOF, 37, "")];
      && CalendarLines(items, 2) == Finished([Property("X", "y", map[])], 7)
      && !CalendarAccepts([Property("X", "y", map[])])
  {
    var items := [
        Item(ItemBeginVCalendar, 0, BeginVCalendar), Item(ItemLineEnd, 15, CRLF),
        Item(ItemComponent, 17, "X"), Item(ItemColon, 18, ":"), Item(ItemValue, 19, "y"), Item(ItemLineEnd, 20, CRLF),
        Item(ItemEndVCalendar, 22, EndVCalendar), Item(ItemLineEnd, 35, CRLF), Item(ItemEOF, 37, "")];
    assert ScanParamsSpec(items, 3, map[]) == Scanned(map[], 3);
    assert ScanPropertySpec(items, 3, "X") == Scanned(Property("X", "y", map[]), 6);
    assert CalendarLine(items, 2) == PropertyLine(Property("X", "y", map[]), 6);
    assert CalendarLines(items, 6) == Finished([], 7);
    assert [Property("X", "y", map[])] + [] == [Property("X", "y", map[])];
  }

  class Parser {
    /** Everything the lexer sends, in order; after it the channel yields
        the zero item. */
    const items: seq<Item>
    const env: DateEnv
    /** How many items have been received from the channel. */
    var received: nat
    const token: array<Item>
    var peekCount: nat
    var scope: int
    const c: Calendar
    var v: Event?
    var a: Alarm?

    /** The pushback buffer holds the last item received, and at most one
        item is ever pushed back. */
    ghost predicate Valid()
      reads this, token
    {
      && token.Length == 2 && peekCount <= 1
      && (peekCount == 1 ==> received > 0)
      && (received > 0 ==> token[0] == ItemAt(items, received - 1))
    }

    /** The event being built has well-formed parameters, as `parseDate`
        needs. */
    ghost predicate Building()
      reads this, v
    {
      v != null ==> AllWellFormed(v.properties)
    }

    /** Index of the next item `next` returns. */
    function Cursor(): int
      reads this
    {
      received - peekCount
    }

    /** `Parse`'s setup: a fresh parser at calendar scope with a new calendar. */
    constructor (items: seq<Item>, env: DateEnv)
      ensures this.items == items && this.env == env
      ensures Valid() && received == 0 && peekCount == 0 && scope == ScopeCalendar
      ensures v == null && a == null && fresh(c) && fresh(token)
      ensures c.Header() == ("", "", "GREGORIAN", "") && c.properties == [] && c.events == []
    {
      this.items := items;
      this.env := env;
      received := 0;
      token := new Item[2](_ => ZeroItem);
      peekCount := 0;
      scope := ScopeCalendar;
      c := new Calendar();
      v := null;
      a := null;
    }

    /** `next` (parser.go:121-131): the pushed-back item if there is one,
        otherwise a fresh item from the lexer. */
    method Next() returns (t: Item)
      requires Valid()
      modifies this, token
      ensures Valid()
      ensures t == ItemAt(items, old(Cursor())) && Cursor() == old(Cursor()) + 1 && peekCount == 0
      ensures received == old(received) + (if old(peekCount) == 0 then 1 else 0)
      ensures scope == old(scope) && v == old(v) && a == old(a)
    {
      if peekCount > 0 {
        peekCount := peekCount - 1;
      } else {
        token[0] := ItemAt(items, received);
        received := received + 1;
      }
      t := token[peekCount];
    }

    /** `backup` (parser.go:134-136).  Every call site follows a `next`, so
        nothing is pushed back at that point. */
    method Backup()
      requires Valid() && peekCount == 0 && received > 0
      modifies this
      ensures Valid()
      ensures peekCount == 1 && received == old(received) && Cursor() == old(Cursor()) - 1
      ensures scope == old(scope) && v == old(v) && a == old(a)
    {
      peekCount := peekCount + 1;
    }

    /** The pushback contract: after `next` and `backup`, `next` returns the
        same item again without receiving from the lexer. */
    method NextBackupNext() returns (t1: Item, t2: Item)
      requires Valid()
      modifies this, token
      ensures Valid() && t1 == t2 && t2 == ItemAt(items, old(Cursor()))
      ensures received == old(received) + (if old(peekCount) == 0 then 1 else 0)
      ensures scope == old(scope) && v == old(v) && a == old(a)
    {
      t1 := Next();
      Backup();
      t2 := Next();
    }

    /** `enterScope` (parser.go:151-153). */
    method EnterScope()
      modifies this
      ensures scope == old(scope) + 1
      ensures received == old(received) && peekCount == old(peekCount) && v == old(v) && a == old(a)
    {
      scope := scope + 1;
    }

    /** `leaveScope` (parser.go:156-158). */
    method LeaveScope()
      modifies this
      ensures scope == old(scope) - 1
      ensures received == old(received) && peekCount == old(peekCount) && v == old(v) && a == old(a)
    {
      scope := scope - 1;
    }

    /** `scanValues` (parser.go:302-314): the values are returned instead of
        being appended to a `*Param`. */
    method ScanValues() returns (s: Scan<seq<string>>)
      requires Valid() && Cursor() >= 0
      modifies this, token
      ensures Valid()
      ensures s == ScanValuesSpec(items, old(Cursor())) && Cursor() == s.next
      ensures peekCount == (if s.Scanned? then 1 else 0)
      ensures scope == old(scope) && v == old(v) && a == old(a)
    {
      ghost var k0: nat := Cursor();
      var values: seq<string> := [];
      ExtendNone(ScanValuesSpec(items, k0));
      while true
        invariant Valid() && scope == old(scope) && v == old(v) && a == old(a)
        invariant Cursor() >= k0 && (values != [] ==> Cursor() <= |items|)
        invariant ScanValuesSpec(items, k0) == Extend(values, ScanValuesSpec(items, Cursor()))
        decreases |items| + 1 - Cursor()
      {
        var done;
        done, values := ValuesPass(values);
        if done.Some? {
          return done.value;
        }
      }
    }

    /** One pass of `scanValues`'s loop (parser.go:305-313): a value, then
        either a comma and another pass, or the pushed-back end of the list.
        `values` is what earlier passes read. */
    method ValuesPass(values: seq<string>) returns (done: Option<Scan<seq<string>>>, grown: seq<string>)
      requires Valid() && Cursor() >= 0
      modifies this, token
      ensures Valid() && scope == old(scope) && v == old(v) && a == old(a)
      ensures done.Some? ==>
        && done.value == Extend(values, ScanValuesSpec(items, old(Cursor()))) && Cursor() == done.value.next
        && peekCount == (if done.value.Scanned? then 1 else 0)
      ensures done.None? ==>
        && old(Cursor()) < Cursor() <= |items|
        && Extend(values, ScanValuesSpec(items, old(Cursor()))) == Extend(grown, ScanValuesSpec(items, Cursor()))
    {
      ghost var k: nat := Cursor();
      var t := Next();
      if !t.typ.ItemParamValue? {
        return Some(Stuck(ExpectParamValue, t, Cursor())), values;
      }
      var u := Next();
      if !u.typ.ItemComma? {
        Backup();
        return Some(Scanned(values + [t.val], Cursor())), values;
      }
      assert ScanValuesSpec(items, k) == Extend([t.val], ScanValuesSpec(items, k + 2));
      ExtendTwice(values, [t.val], ScanValuesSpec(items, k + 2));
      return None, values + [t.val];
    }

    /** `scanParams` (parser.go:280-299): the parameters are returned instead
        of being stored in a `*Property`. */
    method ScanParams() returns (s: Scan<map<string, Param>>)
      requires Valid() && Cursor() >= 0
      modifies this, token
      ensures Valid()
      ensures s == ScanParamsSpec(items, old(Cursor()), map[]) && Cursor() == s.next
      ensures peekCount == (if s.Scanned? then 1 else 0)
      ensures scope == old(scope) && v == old(v) && a == old(a)
    {
      ghost var k0: nat := Cursor();
      var params: map<string, Param> := map[];
      while true
        invariant Valid() && scope == old(scope) && v == old(v) && a == old(a)
        invariant Cursor() >= k0 && (Cursor() > k0 ==> Cursor() <= |items|)
        invariant ScanParamsSpec(items, k0, map[]) == ScanParamsSpec(items, Cursor(), params)
        decreases |items| + 1 - Cursor()
      {
        var done;
        done, params := ParamsPass(params);
        if done.Some? {
          return done.value;
        }
      }
    }

    /** One pass of `scanParams`'s loop with the parameters `params` stored so
        far: either the loop returns the scan in `done`, or one more group is
        stored. */
    method ParamsPass(params: map<string, Param>) returns (done: Option<Scan<map<string, Param>>>, stored: map<string, Param>)
      requires Valid() && Cursor() >= 0
      modifies this, token
      ensures Valid() && scope == old(scope) && v == old(v) && a == old(a)
      ensures done.Some? ==>
        && done.value == ScanParamsSpec(items, old(Cursor()), params) && Cursor() == done.value.next
        && peekCount == (if done.value.Scanned? then 1 else 0)
      ensures done.None? ==>
        && old(Cursor()) < Cursor() <= |items|
        && ScanParamsSpec(items, old(Cursor()), params) == ScanParamsSpec(items, Cursor(), stored)
    {
      ghost var k: nat := Cursor();
      var t := Next();
      if !t.typ.ItemSemiColon? {
        Backup();
        return Some(Scanned(params, Cursor())), params;
      }
      var g := ScanParam();
      if g.Stuck? {
        return Some(Stuck(g.expected, g.found, g.next)), params;
      }
      ParamsGroup(items, k, params, g.result, g.next);
      return None, params[g.result.0 := Param(g.result.1)];
    }

    /** One pass of `scanParams`'s loop after the `;` (parser.go:287-297):
        the parameter's name, `=` and its values. */
    method ScanParam() returns (s: Scan<(string, seq<string>)>)
      requires Valid() && Cursor() >= 0
      modifies this, token
      ensures Valid()
      ensures s == ScanParamSpec(items, old(Cursor())) && Cursor() == s.next
      ensures peekCount == (if s.Scanned? then 1 else 0)
      ensures scope == old(scope) && v == old(v) && a == old(a)
    {
      var n := Next();
      if !n.typ.ItemParamName? {
        return Stuck(ExpectParamName, n, Cursor());
      }
      var e := Next();
      if !e.typ.ItemEqual? {
        return Stuck(ExpectEqual, e, Cursor());
      }
      var vs := ScanValues();
      if vs.Stuck? {
        return Stuck(vs.expected, vs.found, vs.next);
      }
      return Scanned((e.val, vs.result), vs.next);
    }

    /** `validateCalendar` (parser.go:317-339): the header fields take the
        last value of their properties, and the check passes when PRODID and
        VERSION properties number two together. */
    method ValidateCalendar(cal: Calendar) returns (err: Option<Violation>)
      modifies cal
      ensures cal.Header() == HeaderAfter(cal.properties, old(cal.Header()))
      ensures err == (if CalendarAccepts(cal.properties) then None else Some(MissingProdidOrVersion))
      ensures cal.properties == old(cal.properties) && cal.events == old(cal.events)
    {
      var props := cal.properties;
      var propertyCount := 0;
      var i := 0;
      while i < |props|
        invariant i <= |props| && cal.properties == props && cal.events == old(cal.events)
        invariant propertyCount == Count(props[..i], "PRODID") + Count(props[..i], "VERSION")
        invariant cal.Header() == HeaderAfter(props[..i], old(cal.Header()))
      {
        var property := props[i];
        var n := HeaderPass(cal, property);
        propertyCount := propertyCount + n;
        assert props[..i + 1][..i] == props[..i];
        CountAt(props, i, "PRODID");
        CountAt(props, i, "VERSION");
        i := i + 1;
      }
      assert props[..i] == props;
      if propertyCount != 2 {
        return Some(MissingProdidOrVersion);
      }
      return None;
    }

    /** The body of `validateCalendar`'s loop for one property. */
    method HeaderPass(cal: Calendar, property: Property) returns (n: int)
      modifies cal
      ensures cal.Header() == HeaderStep(old(cal.Header()), property)
      ensures n == (if property.name == "PRODID" then 1 else 0) + (if property.name == "VERSION" then 1 else 0)
      ensures cal.properties == old(cal.properties) && cal.events == old(cal.events)
    {
      n := 0;
      if property.name == "PRODID" {
        cal.prodid := property.value;
        n := n + 1;
      }
      if property.name == "VERSION" {
        cal.version := property.value;
        n := n + 1;
      }
      if property.name == "CALSCALE" {
        cal.calscale := property.value;
      }
      if property.name == "METHOD" {
        cal.calMethod := property.value;
      }
    }

    /** `validateEvent` (parser.go:342-392): the fields and the verdict are
        those `EventCheck` specifies for the event's properties, its fields
        before the call and the calendar's METHOD. */
    method ValidateEvent(ev: Event) returns (err: Option<Violation>)
      requires AllWellFormed(ev.properties)
      modifies ev
      ensures (ev.Fields(), err) == EventCheck(old(ev.properties), old(ev.Fields()), c.calMethod, env)
      ensures ev.properties == old(ev.properties) && ev.alarms == old(ev.alarms)
    {
      var props := ev.properties;
      var propertyCount: map<string, int> := map[];
      ghost var both := HasProperty("DTEND", props) && HasProperty("DURATION", props);
      var i := 0;
      while i < |props|
        invariant i <= |props| && ev.properties == props && ev.alarms == old(ev.alarms)
        invariant ev.Fields() == Absorbed(props[..i], old(ev.Fields()), env)
        invariant propertyCount == Tally(props[..i], EventNames)
        invariant both ==> i <= FirstBound(props)
      {
        var property := props[i];
        var conflict;
        propertyCount, conflict := EventPass(ev, property, propertyCount, props);
        assert props[..i + 1][..i] == props[..i];
        if conflict {
          assert props[i].name == property.name && IsBound(property.name);
          assert both && i == FirstBound(props);
          return Some(BothDtendAndDuration);
        }
        i := i + 1;
      }
      assert props[..i] == props;
      if c.calMethod == "" && ev.timestamp.IsZero() {
        return Some(MissingDtstamp);
      }
      if ev.uid == "" {
        return Some(MissingUid);
      }
      if ev.startDate.IsZero() {
        return Some(MissingDtstart);
      }
      RepeatsTally(props, EventNames);
      err := FindRepeated(propertyCount);
      if err.Some? {
        return;
      }
      if !HasProperty("DTEND", props) {
        ev.endDate := ev.startDate.Add(Day);
      }
    }

    /** The `switch` in `validateEvent`'s loop for one property of `props`;
        `conflict` is the DTEND/DURATION exclusion firing. */
    method EventPass(ev: Event, property: Property, counts: map<string, int>, props: seq<Property>)
      returns (r: map<string, int>, conflict: bool)
      requires WellFormed(property)
      modifies ev
      ensures conflict == ((property.name == "DTEND" && HasProperty("DURATION", props))
        || (property.name == "DURATION" && HasProperty("DTEND", props)))
      ensures ev.Fields() == if conflict then old(ev.Fields()) else Absorb(old(ev.Fields()), property, env)
      ensures !conflict ==> r == if property.name in EventNames then Increment(counts, property.name) else counts
      ensures ev.properties == old(ev.properties) && ev.alarms == old(ev.alarms)
    {
      r := counts;
      conflict := false;
      match property.name {
        case "UID" =>
          ev.uid := property.value;
          r := Increment(r, "UID");
        case "DTSTAMP" =>
          ev.timestamp := ParseDate(property, env);
          r := Increment(r, "DTSTAMP");
        case "DTSTART" =>
          ev.startDate := ParseDate(property, env);
          r := Increment(r, "DTSTART");
        case "DTEND" =>
          if HasProperty("DURATION", props) {
            return r, true;
          }
          ev.endDate := ParseDate(property, env);
          r := Increment(r, "DTEND");
        case "DURATION" =>
          if HasProperty("DTEND", props) {
            return r, true;
          }
          r := Increment(r, "DURATION");
        case "SUMMARY" =>
          ev.summary := property.value;
          r := Increment(r, "SUMMARY");
        case "DESCRIPTION" =>
          ev.description := property.value;
          r := Increment(r, "DESCRIPTION");
        case _ =>
      }
    }

    /** The `switch` in `validateAlarm`'s loop for one property. */
    method AlarmPass(al: Alarm, property: Property, counts: map<string, int>) returns (r: map<string, int>)
      modifies al
      ensures al.action == (if property.name == "ACTION" then property.value else old(al.action))
      ensures al.trigger == (if property.name == "TRIGGER" then property.value else old(al.trigger))
      ensures r == if property.name in AlarmNames then Increment(counts, property.name) else counts
      ensures al.properties == old(al.properties)
    {
      r := counts;
      match property.name {
        case "ACTION" =>
          al.action := property.value;
          r := Increment(r, "ACTION");
        case "TRIGGER" =>
          al.trigger := property.value;
          r := Increment(r, "TRIGGER");
        case _ =>
      }
    }

    /** `validateAlarm` (parser.go:395-416): ACTION and TRIGGER take their
        last values, and the check fails only when one of them occurs more
        than once.  Each counter is created at one, so the `val < 1` branch
        never fires and an alarm without ACTION or TRIGGER passes. */
    method ValidateAlarm(al: Alarm) returns (err: Option<Violation>)
      modifies al
      ensures al.action == LastValue(al.properties, "ACTION", old(al.action))
      ensures al.trigger == LastValue(al.properties, "TRIGGER", old(al.trigger))
      ensures err == (if RepeatsIn(al.properties, AlarmNames) then Some(Repeated) else None)
      ensures err.None? <==> Count(al.properties, "ACTION") <= 1 && Count(al.properties, "TRIGGER") <= 1
      ensures al.properties == old(al.properties)
    {
      var props := al.properties;
      var propertyCount: map<string, int> := map[];
      var i := 0;
      while i < |props|
        invariant i <= |props| && al.properties == props
        invariant al.action == LastValue(props[..i], "ACTION", old(al.action))
        invariant al.trigger == LastValue(props[..i], "TRIGGER", old(al.trigger))
        invariant propertyCount == Tally(props[..i], AlarmNames)
      {
        var property := props[i];
        propertyCount := AlarmPass(al, property, propertyCount);
        LastValueAt(props, i, "ACTION", old(al.action));
        LastValueAt(props, i, "TRIGGER", old(al.trigger));
        assert props[..i + 1][..i] == props[..i];
        i := i + 1;
      }
      assert props[..i] == props;
      err := FindAlarmFault(propertyCount);
      AlarmVerdict(props, propertyCount, err);
    }
      /** The `next` that closes a delimiter line. */
    method LineEnd() returns (st: Status)
      requires Valid()
      modifies this, token
      ensures Valid() && peekCount == 0 && Cursor() == old(Cursor()) + 1
      ensures st == LineEndStatus(items, old(Cursor()))
      ensures st.Ok? ==> Cursor() <= |items|
      ensures scope == old(scope) && v == old(v) && a == old(a)
    {
      var item := Next();
      if !item.typ.ItemLineEnd? {
        return Failed(Unexpected(ExpectLineEnd, item));
      }
      return Ok;
    }

    /** The BEGIN:VEVENT case of `scanDelimiter` (parser.go:191-199): the
        calendar is checked, and only then is a new event opened. */
    method BeginEvent() returns (st: Status)
      requires Valid() && peekCount == 0 && Building()
      modifies this, token, c
      ensures Valid() && Building() && peekCount == 0 && old(Cursor()) <= Cursor() <= old(Cursor()) + 1
      ensures st.Ok? ==> Cursor() <= |items|
      ensures c.Header() == HeaderAfter(c.properties, old(c.Header()))
      ensures c.properties == old(c.properties) && c.events == old(c.events) && a == old(a)
      ensures !CalendarAccepts(c.properties) ==>
        st == Failed(Invalid(MissingProdidOrVersion)) && scope == old(scope) && v == old(v) && Cursor() == old(Cursor())
      ensures CalendarAccepts(c.properties) ==>
        && fresh(v) && v.Fields() == NewEventFields && v.properties == [] && v.alarms == []
        && scope == old(scope) + 1 && st == LineEndStatus(items, old(Cursor()))
    {
      var err := ValidateCalendar(c);
      if err.Some? {
        return Failed(Invalid(err.value));
      }
      v := new Event();
      EnterScope();
      st := LineEnd();
    }

    /** The END:VEVENT case (parser.go:200-211): refused inside an alarm;
        otherwise the event is checked and appended to the calendar. */
    method EndEvent(delimiter: Item) returns (st: Status)
      requires Valid() && peekCount == 0 && Building()
      modifies this, token, c, v
      ensures Valid() && Building() && peekCount == 0 && old(Cursor()) <= Cursor() <= old(Cursor()) + 1
      ensures st.Ok? ==> Cursor() <= |items|
      ensures c.Header() == old(c.Header()) && c.properties == old(c.properties) && v == old(v) && a == old(a)
      ensures old(scope) > ScopeEvent ==>
        st == Failed(Unexpected(ExpectEndVAlarm, delimiter)) && scope == old(scope) && c.events == old(c.events)
      ensures old(scope) <= ScopeEvent && old(v) == null ==> st == NilDereference
      ensures old(scope) <= ScopeEvent && old(v) != null ==>
        var r := EventCheck(old(v.properties), old(v.Fields()), c.calMethod, env);
        && v.Fields() == r.0 && v.properties == old(v.properties) && v.alarms == old(v.alarms)
        && (r.1.Some? ==> st == Failed(Invalid(r.1.value)) && scope == old(scope) && c.events == old(c.events))
        && (r.1.None? ==> c.events == old(c.events) + [v] && scope == old(scope) - 1 && st == LineEndStatus(items, old(Cursor())))
    {
      if scope > ScopeEvent {
        return Failed(Unexpected(ExpectEndVAlarm, delimiter));
      }
      if v == null {
        return NilDereference;
      }
      var err := ValidateEvent(v);
      if err.Some? {
        return Failed(Invalid(err.value));
      }
      c.events := c.events + [v];
      LeaveScope();
      st := LineEnd();
    }

    /** The BEGIN:VALARM case (parser.go:212-217): a new alarm, one scope in. */
    method BeginAlarm() returns (st: Status)
      requires Valid()
      modifies this, token
      ensures Valid() && peekCount == 0 && Cursor() == old(Cursor()) + 1
      ensures st.Ok? ==> Cursor() <= |items|
      ensures fresh(a) && a.action == "" && a.trigger == "" && a.properties == []
      ensures v == old(v) && scope == old(scope) + 1 && st == LineEndStatus(items, old(Cursor()))
    {
      a := new Alarm();
      EnterScope();
      st := LineEnd();
    }

    /** The END:VALARM case (parser.go:218-226): the alarm is checked, then
        attached. */
    method EndAlarm() returns (st: Status)
      requires Valid() && peekCount == 0 && Building()
      modifies this, token, v, a
      ensures Valid() && Building() && peekCount == 0 && old(Cursor()) <= Cursor() <= old(Cursor()) + 1
      ensures st.Ok? ==> Cursor() <= |items|
      ensures a == old(a) && v == old(v)
      ensures old(a) == null ==> st == NilDereference
      ensures old(a) != null ==>
        && a.properties == old(a.properties)
        && a.action == LastValue(a.properties, "ACTION", old(a.action))
        && a.trigger == LastValue(a.properties, "TRIGGER", old(a.trigger))
      ensures old(a) != null && RepeatsIn(a.properties, AlarmNames) ==> st == Failed(Invalid(Repeated)) && scope == old(scope)
      ensures old(a) != null && !RepeatsIn(a.properties, AlarmNames) && old(v) == null ==> st == NilDereference
      ensures old(a) != null && !RepeatsIn(a.properties, AlarmNames) && old(v) != null ==>
        && v.alarms == old(v.alarms) + [a] && scope == old(scope) - 1 && st == LineEndStatus(items, old(Cursor()))
    {
      if a == null {
        return NilDereference;
      }
      var err := ValidateAlarm(a);
      if err.Some? {
        return Failed(Invalid(err.value));
      }
      st := AttachAlarm();
    }

    /** Appending a checked alarm to the current event (parser.go:222-226). */
    method AttachAlarm() returns (st: Status)
      requires Valid() && peekCount == 0 && Building() && a != null
      modifies this, token, v
      ensures Valid() && Building() && peekCount == 0 && old(Cursor()) <= Cursor() <= old(Cursor()) + 1
      ensures st.Ok? ==> Cursor() <= |items|
      ensures a == old(a) && v == old(v)
      ensures old(v) == null ==> st == NilDereference
      ensures old(v) != null ==>
        && v.alarms == old(v.alarms) + [a] && v.properties == old(v.properties)
        && scope == old(scope) - 1 && st == LineEndStatus(items, old(Cursor()))
    {
      if v == null {
        return NilDereference;
      }
      v.alarms := v.alarms + [a];
      LeaveScope();
      st := LineEnd();
    }

    /** `scanDelimiter` (parser.go:189-234): dispatch on the delimiter.
        END:VCALENDAR ends the parse at calendar scope and is refused inside
        an event; BEGIN:VCALENDAR changes nothing. */
    method ScanDelimiter(delimiter: Item) returns (st: Status)
      requires Valid() && peekCount == 0 && 0 <= Cursor() <= |items| && Building()
      modifies this, token, c, v, a
      ensures Valid() && Building() && peekCount == 0 && old(Cursor()) <= Cursor() <= old(Cursor()) + 1
      ensures st.Ok? ==> Cursor() <= |items|
      ensures c.properties == old(c.properties)
      ensures !delimiter.typ.ItemBeginVEvent? ==> c.Header() == old(c.Header())
      ensures delimiter.typ.ItemEndVCalendar? ==>
        && st == (if old(scope) > ScopeCalendar then Failed(Unexpected(ExpectEndVEvent, delimiter)) else Done)
        && Cursor() == old(Cursor()) && scope == old(scope) && v == old(v) && a == old(a) && c.events == old(c.events)
      ensures st.Done? ==> delimiter.typ.ItemEndVCalendar? && scope <= ScopeCalendar
      ensures (v == old(v) || fresh(v)) && (a == old(a) || fresh(a))
      ensures delimiter.typ.ItemBeginVCalendar? ==>
        st == Ok && Cursor() == old(Cursor()) && scope == old(scope) && v == old(v) && a == old(a) && c.events == old(c.events)
    {
      match delimiter.typ {
        case ItemBeginVEvent =>
          st := BeginEvent();
        case ItemEndVEvent =>
          st := EndEvent(delimiter);
        case ItemBeginVAlarm =>
          st := BeginAlarm();
        case ItemEndVAlarm =>
          st := EndAlarm();
        case ItemEndVCalendar =>
          if scope > ScopeCalendar {
            return Failed(Unexpected(ExpectEndVEvent, delimiter));
          }
          return Done;
        case _ =>
          return Ok;
      }
    }

    /** The part of `scanContentLine` after the component name `name`
        (parser.go:248-265): parameters, `:`, the value and CRLF. */
    method ReadProperty(name: string) returns (s: Scan<Property>)
      requires Valid() && Cursor() >= 0
      modifies this, token
      ensures Valid() && peekCount == 0
      ensures s == ScanPropertySpec(items, old(Cursor()), name) && Cursor() == s.next
      ensures scope == old(scope) && v == old(v) && a == old(a)
    {
      var ps := ScanParams();
      if ps.Stuck? {
        return Stuck(ps.expected, ps.found, ps.next);
      }
      var colon := Next();
      if !colon.typ.ItemColon? {
        return Stuck(ExpectColon, colon, Cursor());
      }
      var value := Next();
      if !value.typ.ItemValue? {
        return Stuck(ExpectValue, value, Cursor());
      }
      var end := Next();
      if !end.typ.ItemLineEnd? {
        return Stuck(ExpectLineEnd, end, Cursor());
      }
      return Scanned(Property(name, value.val, ps.result), Cursor());
    }

    /** The `switch p.scope` that ends `scanContentLine` (parser.go:267-274):
        the property goes to the component of the current scope, a nil
        event or alarm panics, and any other scope drops it. */
    method AddProperty(prop: Property) returns (st: Status)
      requires Building() && WellFormed(prop)
      modifies c, v, a
      ensures Building()
      ensures c.properties == (if scope == ScopeCalendar then old(c.properties) + [prop] else old(c.properties))
      ensures scope == ScopeEvent && v == null ==> st == NilDereference
      ensures scope == ScopeAlarm && a == null ==> st == NilDereference
      ensures v != null ==> v.properties == (if scope == ScopeEvent then old(v.properties) + [prop] else old(v.properties))
      ensures a != null ==> a.properties == (if scope == ScopeAlarm then old(a.properties) + [prop] else old(a.properties))
      ensures st == NilDereference || st == Ok
      ensures st == NilDereference <==> (scope == ScopeEvent && v == null) || (scope == ScopeAlarm && a == null)
      ensures c.Header() == old(c.Header()) && c.events == old(c.events)
      ensures v != null ==> v.Fields() == old(v.Fields()) && v.alarms == old(v.alarms)
      ensures a != null ==> a.action == old(a.action) && a.trigger == old(a.trigger)
    {
      match scope {
        case 0 =>
          c.properties := c.properties + [prop];
        case 1 =>
          if v == null {
            return NilDereference;
          }
          v.properties := v.properties + [prop];
        case 2 =>
          if a == null {
            return NilDereference;
          }
          a.properties := a.properties + [prop];
        case _ =>
      }
      return Ok;
    }

    /** The property branch of `scanContentLine` (parser.go:245-276) for the
        line whose first token `name` has just been read. */
    method ScanProperty(name: Item) returns (st: Status)
      requires Valid() && peekCount == 0 && 0 <= Cursor() && Building()
      modifies this, token, c, v, a
      ensures Valid() && Building() && peekCount == 0 && Cursor() >= old(Cursor())
      ensures st.Ok? ==> Cursor() <= |items|
      ensures scope == old(scope) && v == old(v) && a == old(a)
      ensures c.Header() == old(c.Header()) && c.events == old(c.events)
      ensures v != null ==> v.Fields() == old(v.Fields()) && v.alarms == old(v.alarms)
      ensures a != null ==> a.action == old(a.action) && a.trigger == old(a.trigger)
      ensures st.Failed? ==>
        && c.properties == old(c.properties)
        && (v != null ==> v.properties == old(v.properties))
        && (a != null ==> a.properties == old(a.properties))
      ensures !IsItemComponent(name) ==> st == Failed(Unexpected(ExpectComponent, name))
      ensures old(scope) == ScopeCalendar && 1 <= old(Cursor()) && name == ItemAt(items, old(Cursor()) - 1) && !IsDelimiter(name.typ) ==>
        match CalendarLine(items, old(Cursor()) - 1)
        case PropertyLine(p, n) => st == Ok && Cursor() == n && c.properties == old(c.properties) + [p]
        case BadLine(e) => st == Failed(e)
        case _ => false
      ensures var s := ScanPropertySpec(items, old(Cursor()), name.val);
        IsItemComponent(name) ==>
          && Cursor() == s.next
          && (s.Stuck? ==> st == Failed(Unexpected(s.expected, s.found)) && c.properties == old(c.properties))
          && (s.Scanned? ==>
            && c.properties == (if scope == ScopeCalendar then old(c.properties) + [s.result] else old(c.properties))
            && (st == NilDereference <==> (scope == ScopeEvent && v == null) || (scope == ScopeAlarm && a == null))
            && (st == NilDereference || st == Ok)
            && (v != null ==> v.properties == (if scope == ScopeEvent then old(v.properties) + [s.result] else old(v.properties)))
            && (a != null ==> a.properties == (if scope == ScopeAlarm then old(a.properties) + [s.result] else old(a.properties))))
    {
      if !IsItemComponent(name) {
        return Failed(Unexpected(ExpectComponent, name));
      }
      var s := ReadProperty(name.val);
      if s.Stuck? {
        return Failed(Unexpected(s.expected, s.found));
      }
      PropertyWellFormed(items, old(Cursor()), name.val);
      st := AddProperty(s.result);
    }

    /** `scanContentLine` (parser.go:237-277): a delimiter is dispatched and
        scanning goes on with the next line until something other than nil
        comes back; any other line is a property, as `ScanProperty` states. */
    method ScanContentLine() returns (st: Status)
      requires Valid() && peekCount == 0 && 0 <= Cursor() <= |items| && Building()
      modifies this, token, c, v, a
      ensures Valid() && Building() && peekCount == 0 && Cursor() > old(Cursor())
      ensures st.Ok? ==> Cursor() <= |items|
      ensures (v == old(v) || fresh(v)) && (a == old(a) || fresh(a))
      ensures NoBeginVEvent(items, old(Cursor()), Cursor()) ==> c.Header() == old(c.Header())
      ensures st.Done? ==> scope <= ScopeCalendar && ItemAt(items, Cursor() - 1).typ == ItemEndVCalendar
      ensures !IsDelimiter(ItemAt(items, old(Cursor())).typ) ==> scope == old(scope) && v == old(v) && a == old(a)
      ensures old(scope) == ScopeCalendar ==>
        match CalendarLine(items, old(Cursor()))
        case PropertyLine(p, n) =>
          && st == Ok && Cursor() == n && c.properties == old(c.properties) + [p]
          && scope == old(scope) && c.Header() == old(c.Header()) && c.events == old(c.events)
        case EndLine(n) =>
          && st == Done && Cursor() == n && c.properties == old(c.properties)
          && scope == old(scope) && c.Header() == old(c.Header()) && c.events == old(c.events)
        case BadLine(e) => st == Failed(e)
        case ComponentLine => true
      decreases |items| - Cursor()
    {
      var name := Next();
      if name.typ.Ord() > ItemKeyword.Ord() {
        st := ScanDelimiter(name);
        if st != Ok {
          return;
        }
        st := ScanContentLine();
        return;
      }
      st := ScanProperty(name);
    }

    /** `parse` (parser.go:169-186): BEGIN:VCALENDAR and CRLF, then content
        lines until END:VCALENDAR at calendar scope or an error. */
    method Parse() returns (r: Verdict)
      requires Valid() && received == 0 && peekCount == 0 && v == null && a == null
      modifies this, token, c
      ensures peekCount == 0
      ensures !ItemAt(items, 0).typ.ItemBeginVCalendar? ==> r == Rejected(Unexpected(ExpectBeginVCalendar, ItemAt(items, 0)))
      ensures ItemAt(items, 0).typ.ItemBeginVCalendar? && !ItemAt(items, 1).typ.ItemLineEnd? ==>
        r == Rejected(Unexpected(ExpectLineEnd, ItemAt(items, 1)))
      ensures r.Accepted? ==>
        && ItemAt(items, 0).typ.ItemBeginVCalendar? && ItemAt(items, 1).typ.ItemLineEnd?
        && 2 <= Cursor() <= |items| && ItemAt(items, Cursor() - 1).typ == ItemEndVCalendar && scope <= ScopeCalendar
      ensures r.Accepted? && NoBeginVEvent(items, 2, Cursor()) ==> c.Header() == old(c.Header())
      ensures old(scope) == ScopeCalendar && ItemAt(items, 0).typ.ItemBeginVCalendar? && ItemAt(items, 1).typ.ItemLineEnd? ==>
        match CalendarLines(items, 2)
        case Finished(ps, n) =>
          && r == Accepted && Cursor() == n && c.properties == old(c.properties) + ps
          && c.Header() == old(c.Header()) && c.events == old(c.events)
        case Broken(e) => r == Rejected(e)
        case Opened => true
    {
      var item := Next();
      if !item.typ.ItemBeginVCalendar? {
        return Rejected(Unexpected(ExpectBeginVCalendar, item));
      }
      item := Next();
      if !item.typ.ItemLineEnd? {
        return Rejected(Unexpected(ExpectLineEnd, item));
      }
      ghost var header := c.Header();
      ghost var onPath := old(scope) == ScopeCalendar && !CalendarLines(items, 2).Opened?;
      ghost var read: seq<Property> := [];
      while true
        invariant Valid() && Building() && peekCount == 0 && 2 <= Cursor() <= |items|
        invariant v != null ==> fresh(v)
        invariant a != null ==> fresh(a)
        invariant NoBeginVEvent(items, 2, Cursor()) ==> c.Header() == header
        invariant onPath ==>
          && scope == ScopeCalendar && CalendarLines(items, 2) == Preceded(read, CalendarLines(items, Cursor()))
          && c.properties == old(c.properties) + read && c.Header() == header && c.events == old(c.events)
        decreases |items| - Cursor()
      {
        ghost var k := Cursor();
        var st := ScanContentLine();
        assert NoBeginVEvent(items, 2, Cursor()) ==> NoBeginVEvent(items, 2, k) && NoBeginVEvent(items, k, Cursor());
        if onPath {
          read := CalendarPass(items, k, read);
        }
        match st {
          case Done =>
            return Accepted;
          case Failed(err) =>
            return Rejected(err);
          case NilDereference =>
            return Panicked;
          case Ok =>
        }
      }
    }
  }
}
