# iCalendar lexer and parser, modelled in Dafny

A model of the Go package `ical` (lexer.go, parser.go). The package turns
iCalendar text into a `Calendar` tree in four steps:

1. **Unfold.** It removes every CRLF-space.
2. **Lex.** It runs a rune-level state machine that emits typed items:
   - delimiters such as `BEGIN:VEVENT` and `END:VALARM`;
   - component names;
   - `;`, `=`, `,` and `:`;
   - parameter names and values, property values, line ends and EOF.
3. **Parse.** A recursive-descent parser pulls the items through a one-item
   pushback buffer and keeps its depth in an integer scope. It builds the
   calendar, its events and their alarms out of properties and parameters.
4. **Validate.** It checks the calendar at every `BEGIN:VEVENT`, an event at
   `END:VEVENT` and an alarm at `END:VALARM`.

Modules:
- `Runes` (runes.dfy) holds the rune classes.
- `Lexer` (lexer.dfy) holds:
  - the item types;
  - the state functions, written twice: as functions on a configuration, and
    as methods of a `Lexer` class proved equal to those functions;
  - `run`.
- `LexerProps` (lexer_props.dfy) proves what the items look like.
- `Folding` (unfold.dfy) models `unfold`.
- `Properties`, `Dates` and `Validation` say what the validators compute over
  a property list.
- `Components` holds the `Calendar`, `Event` and `Alarm` objects.
- `Tokens` states as functions what each scanner reads from the item sequence.
- `IcalParser` (parser.dfy) holds the `Parser` class, with one method per Go
  method. Loop bodies and the cases of `scanDelimiter` and `scanContentLine`
  are split off into helper methods, each covering one stretch of the Go
  code: for example `ValuesPass`, `ParamsPass`, `HeaderPass`, `EventPass`,
  `BeginEvent`, `AttachAlarm`, `ReadProperty` and `AddProperty`. The module
  also defines `CalendarLines`, which states what `parse` reads at calendar
  scope.
- `Ical` (ical.dfy) composes the three steps into the package's `Parse`.

The goroutine that runs the lexer and the unbuffered channel become the
lexer's complete item sequence plus a count of the items the parser has
received. Once the sequence is exhausted, the parser receives Go's zero item,
which is what a closed channel yields. Two lexer faults are kept explicit:
- `Spins`: a parameter value that runs to the end of the input never ends,
  because `isSafeChar(eof)` and `isQSafeChar(eof)` are true.
- `SliceOutOfRange`: when only one rune is left where a CRLF should be,
  lexNewLine's two-position advance passes the end of the input and `emit`
  slices past it. Go advances two bytes, so it behaves this way only when
  that rune is one byte long (see "## Left out").

`ParseCalendar` turns these faults into a hang or a crash when the parser gets
that far. A nil `p.v` or `p.a` is dereferenced by `END:VEVENT` or `END:VALARM`
with nothing open, or by a property at event or alarm scope. That case is the
status `NilDereference`, which `Parse` reports as `Panicked`.

## Behaviour as written

The model follows the code as written. That includes these behaviours, some
of which depart from RFC 5545 and some from what the package evidently
intends:

- `unfold` removes the space along with the CRLF, as section 3.1 of RFC 5545
  prescribes, so `SUMMARY:Hello\r\n World` becomes `SUMMARY:HelloWorld`.
  Unfolding is not idempotent (`Folding.NotIdempotent`). A CRLF followed by a
  tab is not unfolded, although the RFC allows a tab there.
- The lexer discards the `errorf` results at lexer.go:213 and lexer.go:278.
  After a missing CRLF or a missing closing quote it emits an error item and
  goes on scanning. After a missing CRLF it also advances two runes and emits
  a line end. Error items are therefore not always the last ones.
- `scanParams` stores every parameter under the text of its `=` item, so
  every parsed property has at most the parameter key `"="`. The last group
  wins, and the TZID and VALUE branches of `parseDate` never fire on parsed
  input.
- `validateCalendar` counts PRODID and VERSION together: two PRODIDs and no
  VERSION also pass. It runs at every `BEGIN:VEVENT`, so a calendar without
  events keeps its blank PRODID and VERSION and is never checked
  (`IcalParser.UnvalidatedCalendar`). A PRODID added after the first event
  makes the next `BEGIN:VEVENT` fail.
- `validateAlarm` never fails for a missing ACTION or TRIGGER. Every counter
  it creates is at least one, so its `val < 1` branch is dead.
- The VALUE=DATE branch of `parseDate` cannot change the layout.
- `p.v` is not cleared at `END:VEVENT`. A second `END:VEVENT` validates the
  same event again, appends it a second time and takes the scope below
  calendar level, where properties are dropped.

## Model

| member | source | states |
|---|---|---|
| Runes.IsControl | lexer.go:314-324 | Every control code point is a control rune, and CR, LF and tab among them; `eof` is not one. |
| Runes.IsName | lexer.go:310-312 | No name rune is `;`, `:`, `,`, `=`, `"`, CR, LF or `eof`. |
| Runes.IsQSafeChar | lexer.go:314-316 | Any rune but a control rune or `"`; `eof` passes, CR and `"` do not. |
| Runes.IsSafeChar | lexer.go:318-320 | A safe rune is quote-safe; `;`, `:` and `,` are not safe; `eof` passes. |
| Runes.IsValueChar | lexer.go:322-324 | Tab, space and the punctuation runes are value runes; `eof`, CR and LF are not. |
| Runes.SpanMaximal | lexer.go:196-202 | The run a `for { if !p(l.next()) { l.backup(); ... } }` loop consumes is maximal: all of it satisfies `p`, and the rune after it does not. |
| Lexer.IsDelimiter | parser.go:239 | The parser's `typ > itemKeyword` test holds exactly for the six BEGIN/END delimiter types. |
| Lexer.IsItemComponent | lexer.go:327-329 | A component item, the only item `scanContentLine` takes as a property name, is never one of the delimiters it dispatches first. The zero item from a closed channel is not one. |
| Lexer.MatchDelimiter | lexer.go:166-195 | The literal found is a prefix of the input, has at least ten runes and carries a delimiter type. None is found exactly when no literal of the table is a prefix. |
| Lexer.MatchDelimiterChain | lexer.go:166-195 | The table search is lexComponent's chain of six `HasPrefix` tests in their order. |
| Lexer.Step | lexer.go:92-97 | One state function keeps the configuration good (`start <= pos`; only the slice fault leaves the input) and only appends items. It either consumes input or moves to a lower-ranked state, so `run` terminates. |
| Lexer.Drive | lexer.go:92-97 | `run` from any good configuration ends in the nil state, keeping every item already emitted. |
| Lexer.Lex | lexer.go:92-97 | The whole run ends in the nil state with `start <= pos`. It leaves the input exactly when the slice fault occurred. |
| Lexer.Lexer.constructor | lexer.go:81-89 | `lex`: cursors at zero, no items, no fault. |
| Lexer.Lexer.Next | lexer.go:123-133 | At or past the end: `eof`, width 0 and `pos` unchanged. Otherwise: the rune at `pos`, width 1, and `pos` one further. |
| Lexer.Lexer.Backup | lexer.go:111-113 | `pos` goes back by the width of the last `next`, so a backup after `eof` changes nothing. |
| Lexer.Lexer.Peek | lexer.go:116-120 | Returns the rune at `pos`, or `eof`, and leaves `pos` where it was. |
| Lexer.Lexer.Emit | lexer.go:100-103 | Appends an item whose text is exactly `input[start:pos]`, then sets `start` to `pos`. |
| Lexer.Lexer.Ignore | lexer.go:106-108 | `start` moves to `pos`. |
| Lexer.Lexer.Errorf | lexer.go:136-139 | Appends an error item at `start` and returns the nil state. |
| Lexer.Lexer.AcceptRun | lexer.go:196-202 | `pos` moves to the end of the maximal run. The loop spins exactly when the run reaches the end of the input and the predicate accepts `eof`. |
| Lexer.Lexer.StateComponent | lexer.go:164-204 | `lexComponent` does to the object exactly what `ComponentStep` describes. |
| Lexer.Lexer.TakeDelimiter | lexer.go:166-195 | Once a delimiter literal has matched, the cursor moves past it, one item of its type is emitted and lexNewLine follows, as `ComponentStep` says. |
| Lexer.Lexer.StateNewLine | lexer.go:207-223 | `lexNewLine`, including the discarded error and the unconditional two-rune advance, is `NewLineStep`. |
| Lexer.Lexer.StateContentLine | lexer.go:226-241 | `lexContentLine` is `ContentLineStep`. |
| Lexer.Lexer.StateParamName | lexer.go:244-259 | `lexParamName` is `ParamNameStep`. |
| Lexer.Lexer.StateParamValue | lexer.go:262-292 | `lexParamValue`, including the quoted and unquoted spins at the end of the input, is `ParamValueStep`. |
| Lexer.Lexer.StateValue | lexer.go:295-306 | `lexValue` is `ValueStep`. |
| Lexer.Lexer.Run | lexer.go:92-97 | The state-function loop leaves the object in the configuration `Lex(input)`. |
| LexerProps.StepShaped | lexer.go:100-103 | Every state function keeps the items well shaped and ordered by position. |
| LexerProps.LexShaped | lexer.go:100-103 | Every item `run` emits is well shaped, and positions never decrease. Well shaped means: the text of a non-error item is the input from its position on; names are name runes; parameter values are quote-safe; values are value runes; a delimiter is its literal; a line end is two runes; EOF is empty and at the end. |
| LexerProps.LexEqualItems | lexer.go:253-256 | Every `=` item's text is exactly `"="`. |
| LexerProps.DelimitersExclusive | lexer.go:166-195 | No text starts with two different delimiter literals, so the order of the tests does not matter. |
| LexerProps.ComponentDelimiter | lexer.go:166-195 | On a line starting with one of the six literals, lexComponent consumes exactly that literal, emits its delimiter item and goes to lexNewLine. |
| LexerProps.ComponentName | lexer.go:196-203 | Otherwise lexComponent emits the maximal, possibly empty, run of name runes as a component item and goes to lexContentLine. |
| LexerProps.NameWord | lexer.go:196-203 | A name that is not a delimiter literal, followed by a non-name rune, is emitted as one component item. |
| LexerProps.ContentLineDispatch | lexer.go:226-241 | `;` leads to lexParamName, `:` to lexValue and `,` to lexParamValue, each iff that rune comes next. Any other rune, or the end, emits one error item and stops. |
| LexerProps.ParamNameEqual | lexer.go:244-259 | The maximal name run is emitted. lexParamValue follows iff `=` comes next, with an Equal item `"="`. Otherwise an error item and the nil state follow. |
| LexerProps.QuotedParamValue | lexer.go:264-279 | A quoted value gives one item holding what lies between the quotes, commas, semicolons and colons included, and scanning resumes after the closing quote. |
| LexerProps.UnclosedQuote | lexer.go:264-279 | A quoted value cut off by a control rune emits the value and an error item, and scanning goes on in lexContentLine. A quoted value that reaches the end of the input spins. |
| LexerProps.UnquotedParamValue | lexer.go:281-291 | An unquoted value stops before the first control rune, `"`, `;`, `:` or `,`. If there is none before the end of the input, the loop spins. |
| LexerProps.ValueRun | lexer.go:295-306 | The value item never contains CR or LF and is followed by a rune it cannot take, or by the end; then lexNewLine. |
| LexerProps.ValueWord | lexer.go:295-306 | A run of value runes ended by a non-value rune is emitted as one value item. |
| LexerProps.LineEndWord | lexer.go:207-223 | On a CRLF: a line-end item, then an EOF item and the nil state if nothing follows, else lexComponent. |
| LexerProps.NewLineCases | lexer.go:207-223 | At the end of the input, the nil state and no EOF item. Without a CRLF: an error item and a two-rune advance. That advance either leaves the input (the slice fault) or is followed by a line-end item. |
| Folding.Unfold | parser.go:116-118 | Never longer than its input. It is exactly as long iff the text holds no CRLF-space, and such text comes through unchanged. |
| Folding.UnfoldKeepsPrefix | parser.go:116-118 | A prefix in which no fold starts is kept unchanged. |
| Folding.JoinsFoldedLine | parser.go:116-118 | `SUMMARY:Hello` CRLF-space `World` unfolds to `SUMMARY:HelloWorld`. |
| Folding.NotIdempotent | parser.go:116-118 | Unfolding twice can remove more than unfolding once. |
| Folding.KeepsTabFolds | parser.go:116-118 | CRLF followed by a tab is left alone. |
| Properties.HasProperty | parser.go:419-426 | True exactly when some property has the name. |
| Properties.CountPositive | parser.go:419-426 | A name has a positive count iff `hasProperty` finds it. |
| Properties.LastValue | parser.go:319-331 | A field assigned at every property with a name ends with the last such value, or keeps its default when there is none. |
| Dates.DateChoice | parser.go:435-458 | A `Z` suffix selects UTC. Then TZID selects the localized layout in the loaded zone, or in UTC if the lookup fails. Then an eight-rune value selects the date layout. Anything else selects the localized layout in the caller's location, so the date layout is chosen iff the third test fires. |
| Dates.ParseDate | parser.go:349-359 | `parseDate` as `validateEvent` calls it, with the error discarded: a value the `time` package rejects gives the zero time, and an accepted one gives the parsed time. |
| Dates.ValueParamIgnored | parser.go:449-456 | Removing a VALUE parameter never changes the layout or the location. |
| Dates.NoZoneLookup | parser.go:439-445 | Without TZID no zone is loaded, and the zone lookup function plays no part. |
| Validation.AggregateCount | parser.go:317-339 | Two PRODIDs pass; a lone PRODID fails; PRODID with two VERSIONs fails. |
| Validation.HeaderFields | parser.go:319-331 | After the loop, PRODID, VERSION, CALSCALE and METHOD each hold the last value of their property, or what they had before. |
| Validation.TallyCounts | parser.go:343-372 | The counter map has a key for exactly the counted names that occur, holding their number of occurrences. |
| Validation.RepeatsTally | parser.go:383-387 | A counted name occurs twice iff some counter exceeds one. |
| Validation.AlarmRepeats | parser.go:407-414 | An alarm repeats a name iff it has two ACTIONs or two TRIGGERs. |
| Validation.AbsorbedFields | parser.go:344-372 | After the loop, UID, SUMMARY and DESCRIPTION hold the last value of their property. Each date holds the parsed value of its last property. A field without a property keeps what it had. |
| Validation.BothBoundsRefused | parser.go:356-365 | An event with both DTEND and DURATION fails, in either order. |
| Validation.EventAccepted | parser.go:342-392 | A fresh event that passes has exactly one UID and one DTSTART, both set, and no name repeated. It has a DTSTAMP unless the calendar has a METHOD. Without DTEND it ends 24 hours after its start. |
| Components.Alarm.constructor | parser.go:102-106 | `NewAlarm`: empty action, trigger and properties. |
| Components.Event.constructor | parser.go:94-99 | `NewEvent`: zero fields and no properties or alarms. |
| Components.Calendar.constructor | parser.go:79-84 | `NewCalendar`: CALSCALE is GREGORIAN, all else empty. |
| Tokens.ItemAt | lexer.go:142-148 | The item `next` receives at a cursor: the lexer's item there, or, once the closed channel is drained, Go's zero item (an error type, position 0, empty text). |
| Tokens.ScanValuesSpec | parser.go:302-314 | What `scanValues` reads, with the cursor it leaves. A success holds at least one value, stays in the item sequence and stops before a non-comma. |
| Tokens.ValuesRead | parser.go:302-314 | The values read are the texts of the ParamValue items at every other position, in order. |
| Tokens.CommasRead | parser.go:302-314 | The items between them are commas. |
| Tokens.ScanParamSpec | parser.go:286-297 | One `NAME=values` group always advances, and a success holds at least one value. |
| Tokens.ScanParamsSpec | parser.go:280-299 | A success stops before a non-semicolon item. |
| Tokens.ScanPropertySpec | parser.go:248-265 | A scanned property keeps the line's name and stays in the item sequence. |
| Tokens.ParamsShape | parser.go:297 | Every stored parameter has a value, and every key is the text of some `=` item. |
| Tokens.PropertyWellFormed | parser.go:248-265 | Every property the parser builds has a value for each of its parameters. |
| Tokens.PropertyShape | parser.go:297 | When `=` items read `"="`, a parsed property's only possible key is `"="`. |
| Tokens.LastKeyAt | parser.go:297 | The last position in a range where a group with the key was read, or -1 when there is none. |
| Tokens.ParamsLastGroup | parser.go:280-299 | For every key and every successful scan: the key is stored iff it was already present or some group read it. The last such group's values are stored, or the old entry when no group has the key. |
| Tokens.SecondGroupOverwrites | parser.go:280-299 | `;A=x;B=y` before `:` leaves exactly one entry: key `"="` with the single value `y`. |
| IcalParser.CalendarLine | parser.go:237-277 | One `scanContentLine` at calendar scope. BEGIN:VCALENDAR lines are skipped and END:VCALENDAR ends the parse. Any other non-delimiter line is a well-formed property, or the error it is refused with. An event or alarm delimiter is left to the other methods. |
| IcalParser.CalendarLines | parser.go:169-186 | `parse`'s loop while nothing is open. It gives the well-formed properties read up to an END:VCALENDAR inside the item sequence, or the first line's error. |
| IcalParser.UnvalidatedCalendar | parser.go:169-186 | A calendar with one line `X:y` and no event is read to the end with that property kept, although `validateCalendar` would refuse that property list. |
| IcalParser.FindRepeated | parser.go:383-387 | Reports a repeat iff some counter exceeds one, whatever the iteration order. |
| IcalParser.FindAlarmFault | parser.go:407-414 | Passes iff every counter is one. A repeat needs a counter above one, a missing property a counter below one. |
| IcalParser.AlarmVerdict | parser.go:395-416 | Over a tally of ACTION and TRIGGER, the verdict is a repeat exactly when one of them occurs more than once and none otherwise, so a missing property passes. |
| IcalParser.Parser.constructor | parser.go:62-64 | A fresh parser: calendar scope, a new calendar, nothing received or pushed back. |
| IcalParser.Parser.Next | parser.go:121-131 | Returns the item at the cursor. It receives from the lexer only when nothing is pushed back, and leaves nothing pushed back. |
| IcalParser.Parser.Backup | parser.go:134-136 | The cursor steps back one item without receiving. |
| IcalParser.Parser.NextBackupNext | parser.go:121-136 | After `next` and `backup`, `next` returns the same item again, and at most one item has been received. |
| IcalParser.Parser.EnterScope | parser.go:151-153 | The scope goes up by one; nothing else changes. |
| IcalParser.Parser.LeaveScope | parser.go:156-158 | The scope goes down by one; nothing else changes. |
| IcalParser.Parser.ScanValues | parser.go:302-314 | Reads what `ScanValuesSpec` describes and leaves the cursor there. The terminating non-comma is pushed back exactly on success. |
| IcalParser.Parser.ValuesPass | parser.go:305-313 | One pass reads a value and either ends the list (pushing back the non-comma) or leaves a later cursor from which the rest of the list is read the same way. |
| IcalParser.Parser.ScanParams | parser.go:280-299 | Reads what `ScanParamsSpec` describes from an empty map. The terminating non-semicolon is pushed back exactly on success. |
| IcalParser.Parser.ParamsPass | parser.go:281-298 | One pass either ends the list at a non-semicolon, stops at a malformed parameter, or stores the group under its key and moves the cursor forward. |
| IcalParser.Parser.ScanParam | parser.go:286-297 | Reads one group as `ScanParamSpec` describes. |
| IcalParser.Parser.ValidateCalendar | parser.go:317-339 | The header fields become `HeaderAfter` of the properties. It fails iff PRODID and VERSION do not number two together. |
| IcalParser.Parser.HeaderPass | parser.go:319-331 | One pass: the four field updates, and the counter grows by one for PRODID or VERSION. |
| IcalParser.Parser.ValidateEvent | parser.go:342-392 | The fields written and the error match `EventCheck`: stop at the first of DTEND or DURATION when both occur; then the DTSTAMP, UID, DTSTART and repeat checks in order; then the 24-hour default end. |
| IcalParser.Parser.EventPass | parser.go:345-371 | One pass of the switch: the conflict fires iff DTEND meets a DURATION or DURATION meets a DTEND. Otherwise one field and one counter change. |
| IcalParser.Parser.AlarmPass | parser.go:398-405 | One pass: ACTION or TRIGGER is written and counted. |
| IcalParser.Parser.ValidateAlarm | parser.go:395-416 | ACTION and TRIGGER take their last values. It fails iff one of them occurs twice, so a missing one passes. |
| IcalParser.Parser.LineEnd | parser.go:197-199 | Consumes one item and fails unless it is a line end. |
| IcalParser.Parser.BeginEvent | parser.go:191-199 | The calendar is validated first. On failure nothing is opened. On success a new event is open, one scope in. |
| IcalParser.Parser.EndEvent | parser.go:200-211 | Refused above event scope; panics with no event. Otherwise the event's fields and error are `EventCheck`'s; on success it is appended to the calendar and the scope goes down. |
| IcalParser.Parser.BeginAlarm | parser.go:212-217 | A new empty alarm, one scope in. |
| IcalParser.Parser.EndAlarm | parser.go:218-226 | Panics with no alarm. Otherwise ACTION and TRIGGER take their last values, and a repeat fails. A checked alarm is attached to the event, which panics when there is none. |
| IcalParser.Parser.AttachAlarm | parser.go:222-226 | The alarm is appended to the current event and the scope goes down; a nil event panics. |
| IcalParser.Parser.ScanDelimiter | parser.go:189-234 | END:VCALENDAR finishes at calendar scope and is refused above it. BEGIN:VCALENDAR changes nothing. Only BEGIN:VEVENT touches the header. Calendar properties never change. |
| IcalParser.Parser.ReadProperty | parser.go:248-265 | Parameters, `:`, value and CRLF are read as `ScanPropertySpec` describes. |
| IcalParser.Parser.AddProperty | parser.go:267-274 | The property goes to the calendar, the event or the alarm of the current scope, and is dropped at any other scope. It panics iff that event or alarm is nil. |
| IcalParser.Parser.ScanProperty | parser.go:245-276 | A non-component first item fails. Otherwise a stuck scan fails with its expected and found items, and a scanned property is appended by scope. A failure appends nothing. The header, the events, the event's fields and alarms, and the alarm's action and trigger never change. At calendar scope the line is what `CalendarLine` says. |
| IcalParser.Parser.ScanContentLine | parser.go:237-277 | Always advances, and `Done` only comes after END:VCALENDAR at calendar scope or below. At calendar scope it reads what `CalendarLine` says. A property line appends its property and returns nil; END:VCALENDAR returns `Done`; a refused line returns its error; nothing else changes. |
| IcalParser.Parser.Parse | parser.go:169-186 | Fails unless BEGIN:VCALENDAR and CRLF come first. Every success ends on END:VCALENDAR. When the lines after the first two are `CalendarLines`, the result is success exactly when they finish. The calendar then holds their properties in order, with its header unvalidated and no events; otherwise the result is the first refused line's error. |
| Ical.ParseCalendar | parser.go:61-76 | Unfold, lex and parse. It hangs iff the lexer spins and the parser asks past its last item, and it crashes when the parser takes the item before the slice fault. When the lexed lines finish at calendar scope, the result is a calendar holding exactly those properties, no events and the default header, unless the lexer panicked on the last item. A refused line gives its error when the lexer had no fault. |

## Left out

- The goroutine and the unbuffered channel (lexer.go:81-97, 100-101, 136-148) are replaced by the complete item sequence and a received count. The timing of a panic in the lexer goroutine against the parser's return is not modelled: the slice fault is a crash as soon as the parser has taken the error item before it.
- Item positions are rune indices, not byte offsets, and UTF-8 decoding is not modelled: the input is a sequence of runes, and `next` always has width one.
- `Runes.IsLetter` and `Runes.IsDigit` are exact only up to U+00FF. Beyond Latin-1 they answer false, which is not what Go's Unicode tables give.
- Message texts (`fmt.Errorf`, `errorf` formats, `item.String`) are left out. Errors are tags with the item found, and error items carry no text.
- `fmt.Printf` in `nextItem` (lexer.go:146), `io.ReadAll` and `time.Local` (parser.go:65-70) are I/O; `ParseCalendar` takes the text and a `DateEnv` instead.
- The `time` package is abstract. A time is a count of seconds whose zero is Go's zero time. `DateEnv` supplies `time.LoadLocation` (whether a zone name is known) and `time.Parse`/`ParseInLocation` (an optional time).
- `Dates.DateChoice` requires every parameter of the property to have a value, which Go does not check. Every property the parser builds meets this (`Tokens.PropertyWellFormed`).
- The name reported with "occurs more than once" depends on Go's map iteration order, so it is not modelled.
- The commented-out `parser.peek` (parser.go:139-148) is not compiled and is not modelled.
- `IcalParser.Parser.Backup` requires that nothing is pushed back already, as at every call site; a second `backup` in a row is not modelled.
- `IcalParser.Parser.ScanDelimiter`'s contract states general facts. The per-delimiter behaviour is in the contracts of `BeginEvent`, `EndEvent`, `BeginAlarm`, `EndAlarm` and `AttachAlarm`.
- `IcalParser.Parser.ScanContentLine` is characterised line by line only at calendar scope and only up to the first event or alarm delimiter (`CalendarLine`'s `ComponentLine`). Inside events and alarms, only the per-delimiter methods and `ScanProperty` state what one line does.
- `IcalParser.Parser.Parse` and `Ical.ParseCalendar` state the whole outcome only for calendars whose lines contain no event or alarm delimiter (`CalendarLines` is `Opened` otherwise). For a calendar with events, they state only what every success has in common. The events would need a value-level description of the objects `p.v` and `p.a` still point to after they have been appended.
- `Lexer.NewLineStep` and `Lexer.Lexer.StateNewLine` advance two runes where Go's `pos += len(crlf)` (lexer.go:215) advances two bytes, comparing against the byte length at lexer.go:124. They agree only when no CRLF is missing, or when the runes skipped are one byte each. On `BEGIN:VCALENDAR` followed by `é`, Go emits an error item, a line end holding `é` and an EOF item, and the parser rejects the line end. The model reports the slice fault instead, and `Ical.ParseCalendar` answers `Crashed`.
- `Dates.DateChoice` tests for an eight-rune value where Go's `len(p.Value) == 8` (parser.go:446, 452) counts bytes. For a value with a multi-byte rune, the two can choose different layouts.
- No lemma lexes a whole multi-line example. The lexer is described state by state, and one run by `LexShaped`.
- The test files are not modelled. They only check that the fixture files they read parse without error.
