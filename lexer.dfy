/** The content-line lexer: a state machine over the runes of an unfolded
    iCalendar text that emits typed items.  The Go original runs it in a
    goroutine and hands items over an unbuffered channel; here `Run` executes
    the same state functions synchronously and collects the items in a
    sequence.  Positions are rune indices. */
module Lexer {
  import opened Wrappers
  import opened Runes

  /** Why an error item was emitted (the Go message text is not modelled). */
  datatype LexError =
    | MissingLineEnd           // lexNewLine: no CRLF where one is required
    | UnrecognizedChar(r: int) // lexContentLine: neither `;`, `:` nor `,`
    | MissingEqual(r: int)     // lexParamName: the rune after the name is not `=`
    | MissingQuote             // lexParamValue: unterminated quoted value
    | NoItem                   // the zero item a closed channel delivers

  /** `itemType`; `Ord` is the constant's value in the Go `iota` block. */
  datatype ItemType =
    | ItemError(err: LexError)
    | ItemEOF
    | ItemLineEnd
    | ItemComponent
    | ItemParamName
    | ItemParamValue
    | ItemValue
    | ItemColon
    | ItemSemiColon
    | ItemEqual
    | ItemComma
    | ItemKeyword
    | ItemBeginVCalendar
    | ItemEndVCalendar
    | ItemBeginVEvent
    | ItemEndVEvent
    | ItemBeginVAlarm
    | ItemEndVAlarm
  {
    function Ord(): nat
    {
      match this
      case ItemError(_) => 0
      case ItemEOF => 1
      case ItemLineEnd => 2
      case ItemComponent => 3
      case ItemParamName => 4
      case ItemParamValue => 5
      case ItemValue => 6
      case ItemColon => 7
      case ItemSemiColon => 8
      case ItemEqual => 9
      case ItemComma => 10
      case ItemKeyword => 11
      case ItemBeginVCalendar => 12
      case ItemEndVCalendar => 13
      case ItemBeginVEvent => 14
      case ItemEndVEvent => 15
      case ItemBeginVAlarm => 16
      case ItemEndVAlarm => 17
    }
  }

  /** The parser's `typ > itemKeyword` test singles out exactly the six
      BEGIN/END delimiter kinds. */
  function IsDelimiter(t: ItemType): (b: bool)
    ensures b <==> t.Ord() > ItemKeyword.Ord()
  {
    t.ItemBeginVCalendar? || t.ItemEndVCalendar? || t.ItemBeginVEvent?
    || t.ItemEndVEvent? || t.ItemBeginVAlarm? || t.ItemEndVAlarm?
  }

  /** A token: its type, the position where it starts and its text. */
  datatype Item = Item(typ: ItemType, pos: int, val: string)

  /** What receiving from the closed item channel yields: Go's `item{}`. */
  const ZeroItem: Item := Item(ItemError(NoItem), 0, "")

  /** `isItemComponent`: what `scanContentLine` accepts as a property name
      once the delimiters have been dispatched.  A component item is never
      taken for a delimiter, and the zero item is not one. */
  function IsItemComponent(i: Item): (b: bool)
    ensures b ==> !IsDelimiter(i.typ) && i.typ.Ord() < ItemKeyword.Ord()
    ensures b ==> i != ZeroItem
  {
    i.typ == ItemComponent
  }

  const BeginVCalendar: string := "BEGIN:VCALENDAR"
  const EndVCalendar: string := "END:VCALENDAR"
  const BeginVEvent: string := "BEGIN:VEVENT"
  const EndVEvent: string := "END:VEVENT"
  const BeginVAlarm: string := "BEGIN:VALARM"
  const EndVAlarm: string := "END:VALARM"
  const CRLF: string := "\r\n"

  /** The six delimiter literals in the order lexComponent tries them. */
  const Delimiters: seq<(string, ItemType)> :=
    [ (BeginVCalendar, ItemBeginVCalendar), (EndVCalendar, ItemEndVCalendar),
      (BeginVEvent, ItemBeginVEvent), (EndVEvent, ItemEndVEvent),
      (BeginVAlarm, ItemBeginVAlarm), (EndVAlarm, ItemEndVAlarm) ]

  /** `strings.HasPrefix`. */
  predicate HasPrefix(s: string, p: string)
  {
    |p| <= |s| && s[..|p|] == p
  }

  /** The first delimiter literal, from index `k` of the table on, that the
      rest of the input starts with. */
  function MatchDelimiter(rest: string, k: nat): (m: Option<(string, ItemType)>)
    requires k <= |Delimiters|
    ensures m.Some? ==> HasPrefix(rest, m.value.0) && IsDelimiter(m.value.1) && |m.value.0| >= 10
    ensures m.None? <==> forall j :: k <= j < |Delimiters| ==> !HasPrefix(rest, Delimiters[j].0)
    decreases |Delimiters| - k
  {
    if k == |Delimiters| then None
    else if HasPrefix(rest, Delimiters[k].0) then Some(Delimiters[k])
    else MatchDelimiter(rest, k + 1)
  }

  /** The table search spelled out as lexComponent's chain of tests. */
  lemma MatchDelimiterChain(rest: string)
    ensures MatchDelimiter(rest, 0) ==
      if HasPrefix(rest, BeginVCalendar) then Some((BeginVCalendar, ItemBeginVCalendar))
      else if HasPrefix(rest, EndVCalendar) then Some((EndVCalendar, ItemEndVCalendar))
      else if HasPrefix(rest, BeginVEvent) then Some((BeginVEvent, ItemBeginVEvent))
      else if HasPrefix(rest, EndVEvent) then Some((EndVEvent, ItemEndVEvent))
      else if HasPrefix(rest, BeginVAlarm) then Some((BeginVAlarm, ItemBeginVAlarm))
      else if HasPrefix(rest, EndVAlarm) then Some((EndVAlarm, ItemEndVAlarm))
      else None
  {
    assert MatchDelimiter(rest, 5) == if HasPrefix(rest, EndVAlarm) then Some((EndVAlarm, ItemEndVAlarm)) else None;
    assert MatchDelimiter(rest, 4) == if HasPrefix(rest, BeginVAlarm) then Some((BeginVAlarm, ItemBeginVAlarm)) else MatchDelimiter(rest, 5);
    assert MatchDelimiter(rest, 3) == if HasPrefix(rest, EndVEvent) then Some((EndVEvent, ItemEndVEvent)) else MatchDelimiter(rest, 4);
    assert MatchDelimiter(rest, 2) == if HasPrefix(rest, BeginVEvent) then Some((BeginVEvent, ItemBeginVEvent)) else MatchDelimiter(rest, 3);
    assert MatchDelimiter(rest, 1) == if HasPrefix(rest, EndVCalendar) then Some((EndVCalendar, ItemEndVCalendar)) else MatchDelimiter(rest, 2);
  }

  /** The state functions; `Stop` is the nil state that ends `run`. */
  datatype StateFn =
    | LexComponent | LexNewLine | LexContentLine | LexParamName | LexParamValue | LexValue
    | Stop

  /** How the machine ended when it did not simply reach the nil state.
      `SliceOutOfRange`: lexNewLine advanced past the end of the input and the
      following `emit` panics.  `Spins`: a parameter-value loop reached the end
      of the input, where `next` keeps answering `EOF` without moving and the
      loop's predicate accepts `EOF`, so the Go loop never exits. */
  datatype Fault = NoFault | SliceOutOfRange | Spins

  /** The lexer's cursors, its output so far, its fault and its state
      (the rune width of the last `next` is irrelevant between states). */
  datatype Config = Config(start: nat, pos: nat, items: seq<Item>, fault: Fault, state: StateFn)

  /** The configuration `run` starts from. */
  const Initial: Config := Config(0, 0, [], NoFault, LexComponent)

  /** What every reachable configuration satisfies: `start <= pos`; a running
      machine is inside the input, has no fault, and has `start == pos` except
      on entry to lexContentLine; only the slice panic leaves the input. */
  ghost predicate Good(input: string, c: Config)
  {
    c.start <= c.pos
    && (c.state != Stop ==> c.pos <= |input| && c.fault == NoFault)
    && (c.state != Stop && c.state != LexContentLine ==> c.start == c.pos)
    && (c.pos > |input| <==> c.fault == SliceOutOfRange)
  }

  /** Termination measure of `run`: remaining input, then the state's rank. */
  function Measure(input: string, c: Config): nat
  {
    if c.pos <= |input| then |input| - c.pos else 0
  }

  function Rank(s: StateFn): nat
  {
    match s
    case Stop => 0
    case LexNewLine => 1
    case LexContentLine => 1
    case LexParamName => 1
    case LexComponent => 2
    case LexParamValue => 2
    case LexValue => 2
  }

  /** `emit`'s item: the input between `start` and `p`. */
  function Emitted(input: string, t: ItemType, start: nat, p: nat): Item
    requires start <= p <= |input|
  {
    Item(t, start, input[start..p])
  }

  /** `errorf`'s item, positioned at `start`. */
  function ErrorItem(e: LexError, start: nat): Item
  {
    Item(ItemError(e), start, "")
  }

  /** lexComponent (lexer.go:164-204). */
  function ComponentStep(input: string, c: Config): (d: Config)
    requires Good(input, c) && c.state == LexComponent
  {
    match MatchDelimiter(input[c.pos..], 0)
    case Some((lit, t)) =>
      var p := c.pos + |lit|;
      Config(p, p, c.items + [Emitted(input, t, c.start, p)], c.fault, LexNewLine)
    case None =>
      var e := Span(input, c.pos, IsName);
      Config(e, e, c.items + [Emitted(input, ItemComponent, c.start, e)], c.fault, LexContentLine)
  }

  /** lexNewLine (lexer.go:207-223), including the discarded `errorf` result
      and the unconditional two-rune advance. */
  function NewLineStep(input: string, c: Config): (d: Config)
    requires Good(input, c) && c.state == LexNewLine
  {
    if c.pos >= |input| then c.(state := Stop)
    else
      var items1 := if HasPrefix(input[c.pos..], CRLF) then c.items
                    else c.items + [ErrorItem(MissingLineEnd, c.start)];
      var p := c.pos + |CRLF|;
      if p > |input| then Config(c.start, p, items1, SliceOutOfRange, Stop)
      else
        var items2 := items1 + [Emitted(input, ItemLineEnd, c.start, p)];
        if p == |input| then Config(p, p, items2 + [Emitted(input, ItemEOF, p, p)], c.fault, Stop)
        else Config(p, p, items2, c.fault, LexComponent)
  }

  /** lexContentLine (lexer.go:226-241). */
  function ContentLineStep(input: string, c: Config): (d: Config)
    requires Good(input, c) && c.state == LexContentLine
  {
    if c.pos >= |input| then
      Config(c.start, c.pos, c.items + [ErrorItem(UnrecognizedChar(EOF), c.start)], c.fault, Stop)
    else
      var r := input[c.pos];
      var p := c.pos + 1;
      if r == ';' then Config(p, p, c.items + [Emitted(input, ItemSemiColon, c.start, p)], c.fault, LexParamName)
      else if r == ':' then Config(p, p, c.items + [Emitted(input, ItemColon, c.start, p)], c.fault, LexValue)
      else if r == ',' then Config(p, p, c.items + [Emitted(input, ItemComma, c.start, p)], c.fault, LexParamValue)
      else Config(c.start, p, c.items + [ErrorItem(UnrecognizedChar(r as int), c.start)], c.fault, Stop)
  }

  /** lexParamName (lexer.go:244-259). */
  function ParamNameStep(input: string, c: Config): (d: Config)
    requires Good(input, c) && c.state == LexParamName
  {
    var e := Span(input, c.pos, IsName);
    var items1 := c.items + [Emitted(input, ItemParamName, c.start, e)];
    if e < |input| && input[e] == '=' then
      Config(e + 1, e + 1, items1 + [Emitted(input, ItemEqual, e, e + 1)], c.fault, LexParamValue)
    else if e < |input| then
      Config(e, e + 1, items1 + [ErrorItem(MissingEqual(input[e] as int), e)], c.fault, Stop)
    else
      Config(e, e, items1 + [ErrorItem(MissingEqual(EOF), e)], c.fault, Stop)
  }

  /** lexParamValue (lexer.go:262-292): a quoted value drops both quotes and
      may contain `,`, `;` and `:`; a missing closing quote emits an error
      item and scanning goes on, since that `errorf` result is discarded. */
  function ParamValueStep(input: string, c: Config): (d: Config)
    requires Good(input, c) && c.state == LexParamValue
  {
    if c.pos < |input| && input[c.pos] == '"' then
      var q := c.pos + 1;
      var e := Span(input, q, IsQSafeChar);
      if e == |input| && IsQSafeChar(EOF) then Config(q, e, c.items, Spins, Stop)
      else
        var items1 := c.items + [Emitted(input, ItemParamValue, q, e)];
        if e < |input| && input[e] == '"' then Config(e + 1, e + 1, items1, c.fault, LexContentLine)
        else if e < |input| then Config(e, e + 1, items1 + [ErrorItem(MissingQuote, e)], c.fault, LexContentLine)
        else Config(e, e, items1 + [ErrorItem(MissingQuote, e)], c.fault, LexContentLine)
    else
      var e := Span(input, c.pos, IsSafeChar);
      if e == |input| && IsSafeChar(EOF) then Config(c.start, e, c.items, Spins, Stop)
      else Config(e, e, c.items + [Emitted(input, ItemParamValue, c.start, e)], c.fault, LexContentLine)
  }

  /** lexValue (lexer.go:295-306). */
  function ValueStep(input: string, c: Config): (d: Config)
    requires Good(input, c) && c.state == LexValue
  {
    var e := Span(input, c.pos, IsValueChar);
    Config(e, e, c.items + [Emitted(input, ItemValue, c.start, e)], c.fault, LexNewLine)
  }

  /** One iteration of `run`: items are only ever appended, the machine stays
      in a good configuration, and it makes progress. */
  function Step(input: string, c: Config): (d: Config)
    requires Good(input, c)
    ensures Good(input, d)
    ensures c.items <= d.items
    ensures c.state == Stop ==> d == c
    ensures c.state != Stop ==>
      Measure(input, d) < Measure(input, c)
      || (Measure(input, d) == Measure(input, c) && Rank(d.state) < Rank(c.state))
  {
    match c.state
    case Stop => c
    case LexComponent => ComponentStep(input, c)
    case LexNewLine => NewLineStep(input, c)
    case LexContentLine => ContentLineStep(input, c)
    case LexParamName => ParamNameStep(input, c)
    case LexParamValue => ParamValueStep(input, c)
    case LexValue => ValueStep(input, c)
  }

  /** `run` from configuration `c` until the nil state. */
  function Drive(input: string, c: Config): (d: Config)
    requires Good(input, c)
    ensures d.state == Stop && Good(input, d) && c.items <= d.items
    decreases Measure(input, c), Rank(c.state)
  {
    if c.state == Stop then c else Drive(input, Step(input, c))
  }

  /** The complete lexer output for `input`. */
  function Lex(input: string): (d: Config)
    ensures d.state == Stop && d.start <= d.pos
    ensures d.pos > |input| <==> d.fault == SliceOutOfRange
  {
    Drive(input, Initial)
  }

  /** The Go lexer object: cursors, state and the items emitted so far. */
  class Lexer {
    const input: string
    var start: nat
    var pos: nat
    var width: nat
    var state: StateFn
    var items: seq<Item>
    var fault: Fault

    function Conf(): Config
      reads this
    {
      Config(start, pos, items, fault, state)
    }

    /** `lex` without starting `run`: the state is still nil. */
    constructor (input: string)
      ensures this.input == input && width == 0
      ensures Conf() == Initial.(state := Stop)
    {
      this.input := input;
      start, pos, width := 0, 0, 0;
      state := Stop;
      items := [];
      fault := NoFault;
    }

    /** `next`: at or past the end it answers `EOF`, sets the width to 0 and
        leaves `pos` alone, so a following `backup` changes nothing. */
    method Next() returns (r: int)
      modifies this`pos, this`width
      ensures old(pos) >= |input| ==> r == EOF && width == 0 && pos == old(pos)
      ensures old(pos) < |input| ==> r == input[old(pos)] as int && width == 1 && pos == old(pos) + 1
    {
      if pos >= |input| {
        width := 0;
        return EOF;
      }
      r := input[pos] as int;
      width := 1;
      pos := pos + width;
    }

    /** `backup`: one rune back, at most once per `next`. */
    method Backup()
      requires width <= pos
      modifies this`pos
      ensures pos == old(pos) - width
    {
      pos := pos - width;
    }

    /** `peek`: the next rune, with `pos` unchanged. */
    method Peek() returns (r: int)
      modifies this`pos, this`width
      ensures pos == old(pos)
      ensures r == if pos < |input| then input[pos] as int else EOF
      ensures width == if pos < |input| then 1 else 0
    {
      r := Next();
      Backup();
    }

    /** `emit`: the item holds exactly `input[start..pos]`; then `start := pos`. */
    method Emit(t: ItemType)
      requires start <= pos <= |input|
      modifies this`start, this`items
      ensures items == old(items) + [Emitted(input, t, old(start), pos)]
      ensures start == pos
    {
      items := items + [Item(t, start, input[start..pos])];
      start := pos;
    }

    /** `ignore`: skip the input before `pos`. */
    method Ignore()
      modifies this`start
      ensures start == pos
    {
      start := pos;
    }

    /** `errorf`: an error item at `start`, and the nil state. */
    method Errorf(e: LexError) returns (next: StateFn)
      modifies this`items
      ensures items == old(items) + [ErrorItem(e, start)] && next == Stop
    {
      items := items + [Item(ItemError(e), start, "")];
      return Stop;
    }

    /** The loop `for { if !p(l.next()) { l.backup(); ...; break } }` that the
        state functions share: it moves `pos` to the end of the maximal run of
        runes satisfying `p`.  When the run reaches the end of the input and
        `p(EOF)` holds, `next` keeps answering `EOF` from the same place and
        the Go loop never exits: that is reported as `spins`. */
    method AcceptRun(p: int -> bool) returns (spins: bool)
      requires pos <= |input|
      modifies this`pos, this`width
      ensures spins <==> Span(input, old(pos), p) == |input| && p(EOF)
      ensures pos == Span(input, old(pos), p)
    {
      ghost var p0 := pos;
      while true
        invariant p0 <= pos <= |input|
        invariant Span(input, pos, p) == Span(input, p0, p)
        decreases |input| - pos
      {
        var r := Next();
        if width == 0 && p(r) {
          return true;
        }
        if !p(r) {
          Backup();
          return false;
        }
      }
    }

    method StateComponent() returns (next: StateFn)
      requires Good(input, Conf()) && state == LexComponent
      modifies this`start, this`pos, this`width, this`items
      ensures Config(start, pos, items, fault, next) == ComponentStep(input, old(Conf()))
    {
      ghost var c := Conf();
      MatchDelimiterChain(input[pos..]);
      ghost var m := MatchDelimiter(input[pos..], 0);
      if HasPrefix(input[pos..], BeginVCalendar) {
        assert m == Some((BeginVCalendar, ItemBeginVCalendar));
        next := TakeDelimiter(BeginVCalendar, ItemBeginVCalendar);
        return;
      }
      if HasPrefix(input[pos..], EndVCalendar) {
        assert m == Some((EndVCalendar, ItemEndVCalendar));
        next := TakeDelimiter(EndVCalendar, ItemEndVCalendar);
        return;
      }
      if HasPrefix(input[pos..], BeginVEvent) {
        assert m == Some((BeginVEvent, ItemBeginVEvent));
        next := TakeDelimiter(BeginVEvent, ItemBeginVEvent);
        return;
      }
      if HasPrefix(input[pos..], EndVEvent) {
        assert m == Some((EndVEvent, ItemEndVEvent));
        next := TakeDelimiter(EndVEvent, ItemEndVEvent);
        return;
      }
      if HasPrefix(input[pos..], BeginVAlarm) {
        assert m == Some((BeginVAlarm, ItemBeginVAlarm));
        next := TakeDelimiter(BeginVAlarm, ItemBeginVAlarm);
        return;
      }
      if HasPrefix(input[pos..], EndVAlarm) {
        assert m == Some((EndVAlarm, ItemEndVAlarm));
        next := TakeDelimiter(EndVAlarm, ItemEndVAlarm);
        return;
      }
      assert m == None;
      var spins := AcceptRun(IsName);
      Emit(ItemComponent);
      return LexContentLine;
    }

    /** One delimiter branch of lexComponent: the literal is consumed and
        emitted, and lexNewLine follows. */
    method TakeDelimiter(lit: string, t: ItemType) returns (next: StateFn)
      requires Good(input, Conf()) && state == LexComponent
      requires MatchDelimiter(input[pos..], 0) == Some((lit, t))
      modifies this`start, this`pos, this`items
      ensures Config(start, pos, items, fault, next) == ComponentStep(input, old(Conf()))
    {
      pos := pos + |lit|;
      Emit(t);
      return LexNewLine;
    }

    method StateNewLine() returns (next: StateFn)
      requires Good(input, Conf()) && state == LexNewLine
      modifies this`start, this`pos, this`width, this`items, this`fault
      ensures Config(start, pos, items, fault, next) == NewLineStep(input, old(Conf()))
    {
      var r := Peek();
      if r == EOF {
        return Stop;
      }
      if !HasPrefix(input[pos..], CRLF) {
        var ignored := Errorf(MissingLineEnd);
      }
      pos := pos + |CRLF|;
      if pos > |input| {
        // `emit` slices `input[start:pos]` out of range: the goroutine panics.
        fault := SliceOutOfRange;
        return Stop;
      }
      Emit(ItemLineEnd);
      r := Next();
      if r == EOF {
        Emit(ItemEOF);
        return Stop;
      }
      Backup();
      return LexComponent;
    }

    method StateContentLine() returns (next: StateFn)
      requires Good(input, Conf()) && state == LexContentLine
      modifies this`start, this`pos, this`width, this`items
      ensures Config(start, pos, items, fault, next) == ContentLineStep(input, old(Conf()))
    {
      var r := Next();
      if r == ';' as int {
        Emit(ItemSemiColon);
        return LexParamName;
      } else if r == ':' as int {
        Emit(ItemColon);
        return LexValue;
      } else if r == ',' as int {
        Emit(ItemComma);
        return LexParamValue;
      } else {
        next := Errorf(UnrecognizedChar(r));
      }
    }

    method StateParamName() returns (next: StateFn)
      requires Good(input, Conf()) && state == LexParamName
      modifies this`start, this`pos, this`width, this`items
      ensures Config(start, pos, items, fault, next) == ParamNameStep(input, old(Conf()))
    {
      var spins := AcceptRun(IsName);
      Emit(ItemParamName);
      var r := Next();
      if r == '=' as int {
        Emit(ItemEqual);
        return LexParamValue;
      }
      next := Errorf(MissingEqual(r));
    }

    method StateParamValue() returns (next: StateFn)
      requires Good(input, Conf()) && state == LexParamValue
      modifies this`start, this`pos, this`width, this`items, this`fault
      ensures Config(start, pos, items, fault, next) == ParamValueStep(input, old(Conf()))
    {
      var r := Next();
      if r == '"' as int {
        Ignore();
        var spins := AcceptRun(IsQSafeChar);
        if spins {
          fault := Spins;
          return Stop;
        }
        Emit(ItemParamValue);
        r := Next();
        if r == '"' as int {
          Ignore();
        } else {
          var ignored := Errorf(MissingQuote);
        }
      } else {
        Backup();
        var spins := AcceptRun(IsSafeChar);
        if spins {
          fault := Spins;
          return Stop;
        }
        Emit(ItemParamValue);
      }
      return LexContentLine;
    }

    method StateValue() returns (next: StateFn)
      requires Good(input, Conf()) && state == LexValue
      modifies this`start, this`pos, this`width, this`items
      ensures Config(start, pos, items, fault, next) == ValueStep(input, old(Conf()))
    {
      var spins := AcceptRun(IsValueChar);
      Emit(ItemValue);
      return LexNewLine;
    }

    /** `run`: execute state functions from lexComponent until the nil state.
        The items it leaves are exactly those of `Lex(input)`. */
    method Run()
      requires Conf() == Initial.(state := Stop)
      modifies this
      ensures Conf() == Lex(input)
    {
      state := LexComponent;
      while state != Stop
        invariant Good(input, Conf())
        invariant Drive(input, Conf()) == Lex(input)
        decreases Measure(input, Conf()), Rank(state)
      {
        ghost var c := Conf();
        var next;
        match state {
          case LexComponent => next := StateComponent();
          case LexNewLine => next := StateNewLine();
          case LexContentLine => next := StateContentLine();
          case LexParamName => next := StateParamName();
          case LexParamValue => next := StateParamValue();
          case LexValue => next := StateValue();
        }
        state := next;
        assert Conf() == Step(input, c);
      }
    }
  }
}
