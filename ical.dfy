/** The package's entry point `Parse` (parser.go:61-76): the text is
    unfolded, lexed and parsed.  In Go the lexer runs in its own goroutine
    and hands each item over an unbuffered channel, so it reaches the end of
    its item list, and with it any fault, only after the parser has received
    every item before that point. */
module Ical {
  import opened Lexer
  import opened Dates
  import opened Folding
  import opened Tokens
  import opened Components
  import opened IcalParser

  /** What a caller of `Parse` observes: the calendar, the error, a crash
      (a panic in either goroutine takes the process down), or a call that
      never returns. */
  datatype Outcome = Parsed(cal: Calendar) | Refused(error: ParseError) | Crashed | Hung

  /** `Parse` for the bytes read from the reader, `env` standing for the
      location and the `time` package.  `received` is how many items the
      parser took from the channel.  The lexer's spin at the end of a
      parameter value blocks a parser that asks for one more item; its slice
      panic fires as soon as the parser has taken the error item before it. */
  method ParseCalendar(text: string, env: DateEnv) returns (o: Outcome, ghost received: nat)
    ensures var d := Lex(Unfold(text));
      && (o.Hung? <==> d.fault == Spins && received > |d.items|)
      && (d.fault == SliceOutOfRange && received >= |d.items| ==> o.Crashed?)
      && (d.fault == NoFault && !ItemAt(d.items, 0).typ.ItemBeginVCalendar? ==>
            o == Refused(Unexpected(ExpectBeginVCalendar, ItemAt(d.items, 0))))
      && (o.Parsed? ==>
            && fresh(o.cal) && 2 <= received <= |d.items|
            && ItemAt(d.items, 0).typ.ItemBeginVCalendar? && ItemAt(d.items, 1).typ.ItemLineEnd?
            && ItemAt(d.items, received - 1).typ.ItemEndVCalendar?)
      && (o.Parsed? && NoBeginVEvent(d.items, 2, received) ==> o.cal.Header() == ("", "", "GREGORIAN", ""))
      && (ItemAt(d.items, 0).typ.ItemBeginVCalendar? && ItemAt(d.items, 1).typ.ItemLineEnd? ==>
            match CalendarLines(d.items, 2)
            case Finished(ps, n) =>
              if d.fault == SliceOutOfRange && n >= |d.items| then o.Crashed?
              else
                && o.Parsed? && received == n
                && o.cal.properties == ps && o.cal.events == [] && o.cal.Header() == ("", "", "GREGORIAN", "")
            case Broken(e) => d.fault == NoFault ==> o == Refused(e)
            case Opened => true)
  {
    var unfolded := Unfold(text);
    var lx := new Lexer(unfolded);
    lx.Run();
    var items, fault := lx.items, lx.fault;
    var p := new Parser(items, env);
    var r := p.Parse();
    received := p.received;
    o := Observe(fault, |items|, p.received, r, p.c);
  }

  /** What the caller sees once the parser has given its verdict after
      receiving `received` of the lexer's `n` items: a lexer that spins
      blocks a parser waiting for more, a lexer that panics takes the
      process down once the parser has drained it, and otherwise the
      parser's own verdict stands. */
  method Observe(fault: Fault, n: nat, received: nat, r: Verdict, cal: Calendar) returns (o: Outcome)
    ensures o.Hung? <==> fault == Spins && received > n
    ensures fault == SliceOutOfRange && received >= n ==> o.Crashed?
    ensures o.Parsed? <==> r.Accepted? && !(fault == Spins && received > n) && !(fault == SliceOutOfRange && received >= n)
    ensures o.Parsed? ==> o.cal == cal
    ensures o.Refused? <==> r.Rejected? && !(fault == Spins && received > n) && !(fault == SliceOutOfRange && received >= n)
    ensures o.Refused? ==> o.error == r.error
  {
    if fault == Spins && received > n {
      return Hung;
    }
    if fault == SliceOutOfRange && received >= n {
      return Crashed;
    }
    match r {
      case Accepted => o := Parsed(cal);
      case Rejected(e) => o := Refused(e);
      case Panicked => o := Crashed;
    }
  }
}
