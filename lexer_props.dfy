/** Properties of the lexer's output, proved about `Lexer.Lex`. */
module LexerProps {
  import opened Runes
  import opened Lexer
  import Wrappers

  /** The text a delimiter item carries. */
  function Literal(t: ItemType): string
    requires IsDelimiter(t)
  {
    match t
    case ItemBeginVCalendar => BeginVCalendar
    case ItemEndVCalendar => EndVCalendar
    case ItemBeginVEvent => BeginVEvent
    case ItemEndVEvent => EndVEvent
    case ItemBeginVAlarm => BeginVAlarm
    case ItemEndVAlarm => EndVAlarm
  }

  ghost predicate AllRunes(s: string, p: int -> bool)
  {
    forall k :: 0 <= k < |s| ==> p(s[k] as int)
  }

  /** What an emitted item looks like, by type.  Error items carry no text and
      sit inside the input; every other item's text is the slice of the input
      that starts at its position, and: a name is made of name runes, a
      parameter value of quote-safe runes, a property value of value runes,
      `=` is exactly "=", a line end is two runes, a punctuation item ends
      with its rune, a delimiter is its literal, EOF is empty and at the end. */
  ghost predicate ItemShape(input: string, it: Item)
  {
    if it.typ.ItemError? then it.val == "" && 0 <= it.pos <= |input|
    else
      0 <= it.pos && it.pos + |it.val| <= |input| && input[it.pos..it.pos + |it.val|] == it.val
      && match it.typ
         case ItemEOF => it.val == "" && it.pos == |input|
         case ItemLineEnd => |it.val| == 2
         case ItemComponent => AllRunes(it.val, IsName)
         case ItemParamName => AllRunes(it.val, IsName)
         case ItemParamValue => AllRunes(it.val, IsQSafeChar)
         case ItemValue => AllRunes(it.val, IsValueChar)
         case ItemColon => |it.val| >= 1 && it.val[|it.val| - 1] == ':'
         case ItemSemiColon => |it.val| >= 1 && it.val[|it.val| - 1] == ';'
         case ItemComma => |it.val| >= 1 && it.val[|it.val| - 1] == ','
         case ItemEqual => it.val == "="
         case ItemKeyword => false
         case _ => IsDelimiter(it.typ) && it.val == Literal(it.typ)
  }

  /** Every item is well shaped, positions never decrease, and no item starts
      after the current `start` cursor. */
  ghost predicate Shaped(input: string, c: Config)
  {
    (forall i :: 0 <= i < |c.items| ==> ItemShape(input, c.items[i]))
    && (forall i, j :: 0 <= i < j < |c.items| ==> c.items[i].pos <= c.items[j].pos)
    && (forall i :: 0 <= i < |c.items| ==> c.items[i].pos <= c.start)
  }

  /** Appending items that are well shaped, ordered and between the old and
      the new `start` keeps a configuration shaped. */
  lemma ShapedAppend(input: string, c: Config, extra: seq<Item>, d: Config)
    requires Shaped(input, c)
    requires d.items == c.items + extra && c.start <= d.start
    requires forall i :: 0 <= i < |extra| ==> ItemShape(input, extra[i])
    requires forall i :: 0 <= i < |extra| ==> c.start <= extra[i].pos <= d.start
    requires forall i, j :: 0 <= i < j < |extra| ==> extra[i].pos <= extra[j].pos
    ensures Shaped(input, d)
  {
    forall i | 0 <= i < |d.items|
      ensures ItemShape(input, d.items[i]) && d.items[i].pos <= d.start
    {
      if i >= |c.items| {
        assert d.items[i] == extra[i - |c.items|];
      }
    }
    forall i, j | 0 <= i < j < |d.items|
      ensures d.items[i].pos <= d.items[j].pos
    {
      if j >= |c.items| {
        assert d.items[j] == extra[j - |c.items|];
        if i >= |c.items| {
          assert d.items[i] == extra[i - |c.items|];
        }
      }
    }
  }

  lemma EmittedRun(input: string, t: ItemType, start: nat, p: int -> bool)
    requires start <= |input|
    requires t == ItemComponent || t == ItemParamName || t == ItemParamValue || t == ItemValue
    requires t == ItemComponent || t == ItemParamName ==> p == IsName
    requires t == ItemParamValue ==> p == IsQSafeChar || p == IsSafeChar
    requires t == ItemValue ==> p == IsValueChar
    ensures ItemShape(input, Emitted(input, t, start, Span(input, start, p)))
  {
    var e := Span(input, start, p);
    SpanMaximal(input, start, p);
    var it := Emitted(input, t, start, e);
    assert |it.val| == e - start;
    forall k | 0 <= k < |it.val| ensures p(it.val[k] as int) {
      assert it.val[k] == input[start + k];
    }
  }

  lemma ComponentShaped(input: string, c: Config)
    requires Good(input, c) && Shaped(input, c) && c.state == LexComponent
    ensures Shaped(input, ComponentStep(input, c))
  {
    match MatchDelimiter(input[c.pos..], 0) {
      case Some((lit, t)) => DelimiterShaped(input, c, lit, t);
      case None =>
        var d := ComponentStep(input, c);
        EmittedRun(input, ItemComponent, c.start, IsName);
        ShapedAppend(input, c, [d.items[|d.items| - 1]], d);
    }
  }

  /** A delimiter item carries its literal. */
  lemma DelimiterShaped(input: string, c: Config, lit: string, t: ItemType)
    requires Good(input, c) && Shaped(input, c) && c.state == LexComponent
    requires MatchDelimiter(input[c.pos..], 0) == Wrappers.Some((lit, t))
    ensures Shaped(input, ComponentStep(input, c))
  {
    MatchLiteral(input[c.pos..], 0);
    var it := Emitted(input, t, c.start, c.pos + |lit|);
    assert input[c.pos..][..|lit|] == input[c.pos..c.pos + |lit|];
    assert ItemShape(input, it);
    ShapedAppend(input, c, [it], ComponentStep(input, c));
  }

  /** The literal found in the table is the one its item type stands for. */
  lemma {:induction false} MatchLiteral(rest: string, k: nat)
    requires k <= |Delimiters|
    ensures var m := MatchDelimiter(rest, k);
      m.Some? ==> Literal(m.value.1) == m.value.0
    decreases |Delimiters| - k
  {
    if k < |Delimiters| && !HasPrefix(rest, Delimiters[k].0) {
      MatchLiteral(rest, k + 1);
    }
  }

  lemma NewLineShaped(input: string, c: Config)
    requires Good(input, c) && Shaped(input, c) && c.state == LexNewLine
    ensures Shaped(input, NewLineStep(input, c))
  {
    if c.pos < |input| {
      var errs := if HasPrefix(input[c.pos..], CRLF) then [] else [ErrorItem(MissingLineEnd, c.start)];
      if c.pos + 2 > |input| {
        ShapedAppend(input, c, errs, NewLineStep(input, c));
      } else {
        LineEndShaped(input, c, errs);
      }
    }
  }

  /** The two-rune advance stays inside the input: a line end item, and an
      end-of-file item when the input is used up. */
  lemma LineEndShaped(input: string, c: Config, errs: seq<Item>)
    requires Good(input, c) && Shaped(input, c) && c.state == LexNewLine && c.pos + 2 <= |input|
    requires errs == if HasPrefix(input[c.pos..], CRLF) then [] else [ErrorItem(MissingLineEnd, c.start)]
    ensures Shaped(input, NewLineStep(input, c))
  {
    var p := c.pos + 2;
    var le := Emitted(input, ItemLineEnd, c.start, p);
    var eofs := if p == |input| then [Emitted(input, ItemEOF, p, p)] else [];
    var d := Config(p, p, c.items + (errs + [le] + eofs), c.fault, if p == |input| then Stop else LexComponent);
    assert NewLineStep(input, c) == d;
    ShapedAppend(input, c, errs + [le] + eofs, d);
  }

  lemma ContentLineShaped(input: string, c: Config)
    requires Good(input, c) && Shaped(input, c) && c.state == LexContentLine
    ensures Shaped(input, ContentLineStep(input, c))
  {
    var d := ContentLineStep(input, c);
    var extra := d.items[|c.items|..];
    assert d.items == c.items + extra;
    ShapedAppend(input, c, extra, d);
  }

  lemma ParamNameShaped(input: string, c: Config)
    requires Good(input, c) && Shaped(input, c) && c.state == LexParamName
    ensures Shaped(input, ParamNameStep(input, c))
  {
    var e := Span(input, c.pos, IsName);
    EmittedRun(input, ItemParamName, c.start, IsName);
    var name := Emitted(input, ItemParamName, c.start, e);
    var last := if e < |input| && input[e] == '=' then Emitted(input, ItemEqual, e, e + 1)
                else ErrorItem(MissingEqual(if e < |input| then input[e] as int else EOF), e);
    ParamNameAppend(input, c, name, last, ParamNameStep(input, c));
  }

  /** The name item and the item after it (the `=` or the error), both
      starting no later than the new `start`. */
  lemma ParamNameAppend(input: string, c: Config, name: Item, last: Item, d: Config)
    requires Shaped(input, c) && ItemShape(input, name) && ItemShape(input, last)
    requires d.items == c.items + [name, last] && c.start <= name.pos <= last.pos <= d.start
    ensures Shaped(input, d)
  {
    ShapedAppend(input, c, [name, last], d);
  }

  lemma QuotedValueShaped(input: string, c: Config)
    requires Good(input, c) && Shaped(input, c) && c.state == LexParamValue
    requires c.pos < |input| && input[c.pos] == '"'
    ensures Shaped(input, ParamValueStep(input, c))
  {
    var q := c.pos + 1;
    var e := Span(input, q, IsQSafeChar);
    if e < |input| {
      EmittedRun(input, ItemParamValue, q, IsQSafeChar);
      var it := Emitted(input, ItemParamValue, q, e);
      if input[e] == '"' {
        var d := Config(e + 1, e + 1, c.items + [it], c.fault, LexContentLine);
        assert ParamValueStep(input, c) == d;
        ShapedAppend(input, c, [it], d);
      } else {
        var d := Config(e, e + 1, c.items + [it, ErrorItem(MissingQuote, e)], c.fault, LexContentLine);
        assert ParamValueStep(input, c) == d;
        ShapedAppend(input, c, [it, ErrorItem(MissingQuote, e)], d);
      }
    }
  }

  lemma UnquotedValueShaped(input: string, c: Config)
    requires Good(input, c) && Shaped(input, c) && c.state == LexParamValue
    requires !(c.pos < |input| && input[c.pos] == '"')
    ensures Shaped(input, ParamValueStep(input, c))
  {
    var d := ParamValueStep(input, c);
    var e := Span(input, c.start, IsSafeChar);
    if e < |input| {
      EmittedRun(input, ItemParamValue, c.start, IsSafeChar);
      var it := Emitted(input, ItemParamValue, c.start, e);
      ShapedAppend(input, c, [it], d);
    }
  }

  lemma ParamValueShaped(input: string, c: Config)
    requires Good(input, c) && Shaped(input, c) && c.state == LexParamValue
    ensures Shaped(input, ParamValueStep(input, c))
  {
    if c.pos < |input| && input[c.pos] == '"' {
      QuotedValueShaped(input, c);
    } else {
      UnquotedValueShaped(input, c);
    }
  }

  lemma ValueShaped(input: string, c: Config)
    requires Good(input, c) && Shaped(input, c) && c.state == LexValue
    ensures Shaped(input, ValueStep(input, c))
  {
    var d := ValueStep(input, c);
    EmittedRun(input, ItemValue, c.start, IsValueChar);
    ShapedAppend(input, c, [d.items[|d.items| - 1]], d);
  }

  /** Each state function keeps the configuration shaped. */
  lemma StepShaped(input: string, c: Config)
    requires Good(input, c) && Shaped(input, c)
    ensures Shaped(input, Step(input, c))
  {
    match c.state
    case Stop =>
    case LexComponent => ComponentShaped(input, c);
    case LexNewLine => NewLineShaped(input, c);
    case LexContentLine => ContentLineShaped(input, c);
    case LexParamName => ParamNameShaped(input, c);
    case LexParamValue => ParamValueShaped(input, c);
    case LexValue => ValueShaped(input, c);
  }

  lemma {:induction false} DriveShaped(input: string, c: Config)
    requires Good(input, c) && Shaped(input, c)
    ensures Shaped(input, Drive(input, c))
    decreases Measure(input, c), Rank(c.state)
  {
    if c.state != Stop {
      StepShaped(input, c);
      DriveShaped(input, Step(input, c));
    }
  }

  /** Every item `run` emits is well shaped (in particular every non-error
      item's text is exactly the input from its position on), and the
      positions of successive items never decrease. */
  lemma LexShaped(input: string)
    ensures forall i :: 0 <= i < |Lex(input).items| ==> ItemShape(input, Lex(input).items[i])
    ensures forall i, j :: 0 <= i < j < |Lex(input).items| ==> Lex(input).items[i].pos <= Lex(input).items[j].pos
  {
    DriveShaped(input, Initial);
  }

  /** The parameter map key the parser uses is the text of an `=` item, which
      is always exactly "=". */
  lemma LexEqualItems(input: string)
    ensures forall i :: 0 <= i < |Lex(input).items| && Lex(input).items[i].typ == ItemEqual ==>
      Lex(input).items[i].val == "="
  {
    LexShaped(input);
  }

  /** A run `w` found in the input at `i` and not followed by a rune that
      satisfies `p` is exactly the run `Span` finds. */
  lemma SpanOfWord(input: string, i: nat, w: string, p: int -> bool)
    requires i + |w| <= |input| && input[i..i + |w|] == w && AllRunes(w, p)
    requires i + |w| == |input| || !p(input[i + |w|] as int)
    ensures Span(input, i, p) == i + |w|
  {
    forall k | i <= k < i + |w| ensures p(input[k] as int) {
      assert input[k] == w[k - i];
    }
    SpanUnique(input, i, p, i + |w|);
  }

  /** No text starts with two different delimiter literals, so the order in
      which lexComponent tries them does not matter. */
  lemma DelimitersExclusive(rest: string, j: nat, k: nat)
    requires j < k < |Delimiters|
    requires HasPrefix(rest, Delimiters[j].0)
    ensures !HasPrefix(rest, Delimiters[k].0)
  {
    var a, b := Delimiters[j].0, Delimiters[k].0;
    // BEGIN and END differ at once; after "BEGIN:V" or "END:V" the names do.
    var n := if j % 2 != k % 2 then 0 else if j % 2 == 0 then 7 else 5;
    assert n < |a| && n < |b| && a[n] != b[n];
    assert rest[n] == rest[..|a|][n] == a[n];
  }

  /** lexComponent on a line that starts with one of the six literals consumes
      exactly that literal and emits its delimiter item, in either order. */
  lemma ComponentDelimiter(input: string, c: Config, k: nat)
    requires Good(input, c) && c.state == LexComponent && k < |Delimiters|
    requires HasPrefix(input[c.pos..], Delimiters[k].0)
    ensures var p := c.pos + |Delimiters[k].0|;
      ComponentStep(input, c) ==
        Config(p, p, c.items + [Item(Delimiters[k].1, c.pos, Delimiters[k].0)], NoFault, LexNewLine)
  {
    var rest := input[c.pos..];
    forall j | 0 <= j < k ensures !HasPrefix(rest, Delimiters[j].0) {
      if HasPrefix(rest, Delimiters[j].0) {
        DelimitersExclusive(rest, j, k);
      }
    }
    FirstMatch(rest, 0, k);
    var lit := Delimiters[k].0;
    assert input[c.pos..c.pos + |lit|] == rest[..|lit|];
  }

  lemma {:induction false} FirstMatch(rest: string, i: nat, k: nat)
    requires i <= k < |Delimiters| && HasPrefix(rest, Delimiters[k].0)
    requires forall j :: i <= j < k ==> !HasPrefix(rest, Delimiters[j].0)
    ensures MatchDelimiter(rest, i) == Wrappers.Some(Delimiters[k])
    decreases k - i
  {
    if i < k {
      FirstMatch(rest, i + 1, k);
    }
  }

  /** Otherwise lexComponent emits the maximal run of name runes (possibly
      empty) as a component item and moves on to lexContentLine. */
  lemma ComponentName(input: string, c: Config)
    requires Good(input, c) && c.state == LexComponent
    requires forall k :: 0 <= k < |Delimiters| ==> !HasPrefix(input[c.pos..], Delimiters[k].0)
    ensures var e := Span(input, c.pos, IsName);
      ComponentStep(input, c) == Config(e, e, c.items + [Item(ItemComponent, c.pos, input[c.pos..e])], NoFault, LexContentLine)
      && AllRunes(input[c.pos..e], IsName) && (e == |input| || !IsName(input[e] as int))
  {
    assert MatchDelimiter(input[c.pos..], 0).None?;
    RunOf(input, c.pos, IsName);
  }

  /** The run `Span` finds, as a slice of the input. */
  lemma RunOf(input: string, i: nat, p: int -> bool)
    requires i <= |input|
    ensures var e := Span(input, i, p);
      AllRunes(input[i..e], p) && (e == |input| || !p(input[e] as int))
  {
    var e := Span(input, i, p);
    SpanMaximal(input, i, p);
    forall k | 0 <= k < e - i ensures p(input[i..e][k] as int) {
      assert input[i..e][k] == input[i + k];
    }
  }

  /** A quoted parameter value: the item holds what lies between the quotes,
      commas, semicolons and colons included, and scanning resumes after the
      closing quote in lexContentLine. */
  lemma QuotedParamValue(input: string, c: Config, t: string)
    requires Good(input, c) && c.state == LexParamValue
    requires c.pos + |t| + 2 <= |input| && input[c.pos..c.pos + |t| + 2] == "\"" + t + "\""
    requires AllRunes(t, IsQSafeChar)
    ensures var p := c.pos + |t| + 2;
      ParamValueStep(input, c) == Config(p, p, c.items + [Item(ItemParamValue, c.pos + 1, t)], NoFault, LexContentLine)
  {
    assert input[c.pos] == input[c.pos..c.pos + |t| + 2][0];
    var q := c.pos + 1;
    assert input[q..q + |t|] == input[c.pos..c.pos + |t| + 2][1..|t| + 1];
    assert input[q + |t|] == input[c.pos..c.pos + |t| + 2][|t| + 1];
    SpanOfWord(input, q, t, IsQSafeChar);
  }

  /** An unquoted parameter value stops before the first control rune, `"`,
      `;`, `:` or `,`; if there is none before the end of the input the Go
      loop never terminates. */
  lemma UnquotedParamValue(input: string, c: Config)
    requires Good(input, c) && c.state == LexParamValue
    requires !(c.pos < |input| && input[c.pos] == '"')
    ensures var e := Span(input, c.pos, IsSafeChar);
      && AllRunes(input[c.pos..e], IsSafeChar)
      && (e < |input| ==> (!IsSafeChar(input[e] as int)
            && ParamValueStep(input, c) == Config(e, e, c.items + [Item(ItemParamValue, c.pos, input[c.pos..e])], NoFault, LexContentLine)))
      && (e == |input| ==> ParamValueStep(input, c).fault == Spins && ParamValueStep(input, c).items == c.items)
  {
    var e := Span(input, c.pos, IsSafeChar);
    SpanMaximal(input, c.pos, IsSafeChar);
    forall k | 0 <= k < e - c.pos ensures IsSafeChar(input[c.pos..e][k] as int) {
      assert input[c.pos..e][k] == input[c.pos + k];
    }
  }

  /** lexValue's item never contains a line-end rune and is followed by one
      that it cannot take (a control rune other than tab, or the end). */
  lemma ValueRun(input: string, c: Config)
    requires Good(input, c) && c.state == LexValue
    ensures var e := Span(input, c.pos, IsValueChar);
      && ValueStep(input, c) == Config(e, e, c.items + [Item(ItemValue, c.pos, input[c.pos..e])], NoFault, LexNewLine)
      && (forall k :: c.pos <= k < e ==> input[k] != '\r' && input[k] != '\n')
      && (e == |input| || !IsValueChar(input[e] as int))
  {
    SpanMaximal(input, c.pos, IsValueChar);
  }

  /** lexNewLine on a CRLF: the line-end item, then EOF if nothing follows. */
  lemma LineEndWord(input: string, c: Config)
    requires Good(input, c) && c.state == LexNewLine
    requires c.pos + 2 <= |input| && input[c.pos..c.pos + 2] == CRLF
    ensures var p := c.pos + 2; var items := c.items + [Item(ItemLineEnd, c.pos, CRLF)];
      Step(input, c) ==
        if p == |input| then Config(p, p, items + [Item(ItemEOF, p, "")], NoFault, Stop)
        else Config(p, p, items, NoFault, LexComponent)
  {
    assert input[c.pos..][..2] == CRLF;
    assert input[c.pos + 2..c.pos + 2] == "";
  }

  /** lexComponent on a name that is not a delimiter literal. */
  lemma NameWord(input: string, c: Config, name: string)
    requires Good(input, c) && c.state == LexComponent
    requires forall k :: 0 <= k < |Delimiters| ==> !HasPrefix(input[c.pos..], Delimiters[k].0)
    requires AllRunes(name, IsName)
    requires c.pos + |name| < |input| && input[c.pos..c.pos + |name|] == name
    requires !IsName(input[c.pos + |name|] as int)
    ensures var p := c.pos + |name|;
      Step(input, c) == Config(p, p, c.items + [Item(ItemComponent, c.pos, name)], NoFault, LexContentLine)
  {
    SpanOfWord(input, c.pos, name, IsName);
    ComponentName(input, c);
  }

  /** lexValue on a run of value runes ended by one it cannot take. */
  lemma ValueWord(input: string, c: Config, value: string)
    requires Good(input, c) && c.state == LexValue
    requires AllRunes(value, IsValueChar)
    requires c.pos + |value| < |input| && input[c.pos..c.pos + |value|] == value
    requires !IsValueChar(input[c.pos + |value|] as int)
    ensures var p := c.pos + |value|;
      Step(input, c) == Config(p, p, c.items + [Item(ItemValue, c.pos, value)], NoFault, LexNewLine)
  {
    SpanOfWord(input, c.pos, value, IsValueChar);
  }

  /** lexContentLine: `;`, `:` and `,` each emit one punctuation item and pick
      the next state; any other rune, or the end of the input, emits an error
      item and stops the machine. */
  lemma ContentLineDispatch(input: string, c: Config)
    requires Good(input, c) && c.state == LexContentLine
    ensures var d := Step(input, c); var r := if c.pos < |input| then input[c.pos] as int else EOF;
      && |d.items| == |c.items| + 1 && c.items <= d.items
      && (d.state == LexParamName <==> r == ';' as int)
      && (d.state == LexValue <==> r == ':' as int)
      && (d.state == LexParamValue <==> r == ',' as int)
      && (d.state == Stop <==> d.items[|c.items|] == ErrorItem(UnrecognizedChar(r), c.start))
  {
  }

  /** lexParamName: the maximal name run is emitted; an `=` after it gives an
      Equal item and lexParamValue, anything else an error item and the nil
      state. */
  lemma ParamNameEqual(input: string, c: Config)
    requires Good(input, c) && c.state == LexParamName
    ensures var e := Span(input, c.pos, IsName); var d := Step(input, c);
      && |d.items| == |c.items| + 2 && c.items <= d.items
      && d.items[|c.items|] == Item(ItemParamName, c.pos, input[c.pos..e])
      && (d.state == LexParamValue <==> e < |input| && input[e] == '=')
      && (d.state == LexParamValue ==> d.items[|c.items| + 1] == Item(ItemEqual, e, "="))
      && (d.state != LexParamValue ==>
            d.state == Stop && d.items[|c.items| + 1] == ErrorItem(MissingEqual(if e < |input| then input[e] as int else EOF), e))
  {
    var e := Span(input, c.pos, IsName);
    if e < |input| && input[e] == '=' {
      assert input[e..e + 1] == "=";
    }
  }

  /** A quoted value ended by a control rune instead of a quote: the value
      item, an error item, and scanning goes on in lexContentLine from the
      rune after the control rune, since that `errorf` result is discarded. */
  lemma UnclosedQuote(input: string, c: Config)
    requires Good(input, c) && c.state == LexParamValue
    requires c.pos < |input| && input[c.pos] == '"'
    ensures var e := Span(input, c.pos + 1, IsQSafeChar); var d := ParamValueStep(input, c);
      && (e < |input| && input[e] != '"' ==>
            && IsControl(input[e] as int)
            && d == Config(e, e + 1, c.items + [Item(ItemParamValue, c.pos + 1, input[c.pos + 1..e]), ErrorItem(MissingQuote, e)], NoFault, LexContentLine))
      && (e == |input| ==> d.fault == Spins && d.items == c.items)
  {
    SpanMaximal(input, c.pos + 1, IsQSafeChar);
  }

  /** lexNewLine at the end of the input stops without an EOF item; without
      a CRLF it emits an error item, still advances two runes and, if that
      stays inside the input, emits the line end. */
  lemma NewLineCases(input: string, c: Config)
    requires Good(input, c) && c.state == LexNewLine
    ensures var d := Step(input, c); var p := c.pos + 2;
      && (c.pos == |input| ==> d.items == c.items && d.state == Stop && d.fault == NoFault)
      && (c.pos < |input| && !HasPrefix(input[c.pos..], CRLF) ==>
            && |d.items| > |c.items| && d.items[|c.items|] == ErrorItem(MissingLineEnd, c.pos)
            && (p > |input| ==> d.fault == SliceOutOfRange && d.state == Stop && |d.items| == |c.items| + 1)
            && (p <= |input| ==>
                  && |d.items| >= |c.items| + 2 && d.items[|c.items| + 1] == Item(ItemLineEnd, c.pos, input[c.pos..p])
                  && d.state == (if p == |input| then Stop else LexComponent)))
  {
  }
}
