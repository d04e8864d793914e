/** What the parser's scanners read from the item stream (parser.go:236-314),
    as functions of the lexer's item sequence and a cursor into it. */
module Tokens {
  import opened Lexer
  import opened Properties

  /** The item the parser receives at cursor `k`: the lexer's `k`-th item, or
      the zero item once the channel has been drained and closed. */
  function ItemAt(items: seq<Item>, k: int): (t: Item)
    ensures 0 <= k < |items| ==> t == items[k]
    ensures !(0 <= k < |items|) ==> t.typ == ItemError(NoItem) && t.pos == 0 && t.val == ""
  {
    if 0 <= k < |items| then items[k] else ZeroItem
  }

  /** The token a "found %s, expected ..." error names as expected. */
  datatype Expectation =
    | ExpectBeginVCalendar
    | ExpectLineEnd
    | ExpectEndVAlarm
    | ExpectEndVEvent
    | ExpectComponent
    | ExpectColon
    | ExpectValue
    | ExpectParamName
    | ExpectEqual
    | ExpectParamValue

  /** The outcome of a scanner started at some cursor: what it read and the
      cursor it leaves (a pushed-back token counts as unread), or the token it
      stopped at and the cursor just past that token. */
  datatype Scan<T> = Scanned(result: T, next: nat) | Stuck(expected: Expectation, found: Item, next: nat)

  /** `scanValues` from cursor `k`: one or more parameter values separated by
      commas; the first token that is not a comma is pushed back. */
  function ScanValuesSpec(items: seq<Item>, k: nat): (s: Scan<seq<string>>)
    ensures s.next > k
    ensures s.Scanned? ==> s.next <= |items| && |s.result| > 0 && s.next == k + 2 * |s.result| - 1
    ensures s.Scanned? ==> !ItemAt(items, s.next).typ.ItemComma?
    decreases |items| - k
  {
    var t := ItemAt(items, k);
    if !t.typ.ItemParamValue? then Stuck(ExpectParamValue, t, k + 1)
    else if !ItemAt(items, k + 1).typ.ItemComma? then Scanned([t.val], k + 1)
    else
      match ScanValuesSpec(items, k + 2)
      case Scanned(vs, n) => Scanned([t.val] + vs, n)
      case stuck => stuck
  }

  /** What `scanValues` has read when it succeeds: the tokens from `k` on
      are parameter values, whose texts are the result in order, ... */
  lemma {:induction false} ValuesRead(items: seq<Item>, k: nat)
    ensures var s := ScanValuesSpec(items, k);
      s.Scanned? ==> forall i :: 0 <= i < |s.result| ==>
        ItemAt(items, k + 2 * i).typ.ItemParamValue? && ItemAt(items, k + 2 * i).val == s.result[i]
    decreases |items| - k
  {
    var t := ItemAt(items, k);
    if t.typ.ItemParamValue? && ItemAt(items, k + 1).typ.ItemComma? {
      var r := ScanValuesSpec(items, k + 2);
      if r.Scanned? {
        ValuesRead(items, k + 2);
        var vs := [t.val] + r.result;
        forall i | 1 <= i < |vs| ensures ItemAt(items, k + 2 * i).typ.ItemParamValue? && ItemAt(items, k + 2 * i).val == vs[i] {
          assert k + 2 * i == (k + 2) + 2 * (i - 1);
          assert vs[i] == r.result[i - 1];
        }
      }
    }
  }

  /** ... separated by commas. */
  lemma {:induction false} CommasRead(items: seq<Item>, k: nat)
    ensures var s := ScanValuesSpec(items, k);
      s.Scanned? ==> forall i :: 0 <= i < |s.result| - 1 ==> ItemAt(items, k + 2 * i + 1).typ.ItemComma?
    decreases |items| - k
  {
    var t := ItemAt(items, k);
    if t.typ.ItemParamValue? && ItemAt(items, k + 1).typ.ItemComma? {
      var r := ScanValuesSpec(items, k + 2);
      if r.Scanned? {
        CommasRead(items, k + 2);
        forall i | 1 <= i < |r.result| ensures ItemAt(items, k + 2 * i + 1).typ.ItemComma? {
          assert k + 2 * i + 1 == (k + 2) + 2 * (i - 1) + 1;
        }
      }
    }
  }

  /** One parameter after its `;`, from cursor `k`: NAME `=` values.  The
      result pairs the text of the `=` token, under which `scanParams` stores
      the group, with the values. */
  function ScanParamSpec(items: seq<Item>, k: nat): (s: Scan<(string, seq<string>)>)
    ensures s.next > k
    ensures s.Scanned? ==> s.next <= |items| && |s.result.1| > 0
  {
    var n := ItemAt(items, k);
    if !n.typ.ItemParamName? then Stuck(ExpectParamName, n, k + 1)
    else
      var e := ItemAt(items, k + 1);
      if !e.typ.ItemEqual? then Stuck(ExpectEqual, e, k + 2)
      else
        match ScanValuesSpec(items, k + 2)
        case Scanned(vs, j) => Scanned((e.val, vs), j)
        case Stuck(x, f, j) => Stuck(x, f, j)
  }

  /** `scanParams` from cursor `k` with the parameters `m` read so far:
      `;` and a parameter, repeated, each group stored under its key; the
      first token that is not `;` is pushed back. */
  function ScanParamsSpec(items: seq<Item>, k: nat, m: map<string, Param>): (s: Scan<map<string, Param>>)
    ensures s.next >= k
    ensures s.Scanned? ==> (s.next == k || s.next <= |items|) && !ItemAt(items, s.next).typ.ItemSemiColon?
    decreases |items| - k
  {
    var t := ItemAt(items, k);
    if !t.typ.ItemSemiColon? then Scanned(m, k)
    else
      match ScanParamSpec(items, k + 1)
      case Scanned(g, j) => ScanParamsSpec(items, j, m[g.0 := Param(g.1)])
      case Stuck(x, f, j) => Stuck(x, f, j)
  }

  /** One `;`-group of `scanParams` read at cursor `k`: the scan goes on
      after it with the group stored under its key. */
  lemma ParamsGroup(items: seq<Item>, k: nat, m: map<string, Param>, g: (string, seq<string>), j: nat)
    requires ItemAt(items, k).typ.ItemSemiColon? && ScanParamSpec(items, k + 1) == Scanned(g, j)
    ensures ScanParamsSpec(items, k, m) == ScanParamsSpec(items, j, m[g.0 := Param(g.1)])
  {
  }

  /** The rest of `scanContentLine` once the component `name` has been read at
      cursor `k - 1`: the parameters, `:`, the value and the line end. */
  function ScanPropertySpec(items: seq<Item>, k: nat, name: string): (s: Scan<Property>)
    ensures s.next > k
    ensures s.Scanned? ==> s.next <= |items| && s.result.name == name
  {
    match ScanParamsSpec(items, k, map[])
    case Stuck(x, f, j) => Stuck(x, f, j)
    case Scanned(ps, j) =>
      var colon := ItemAt(items, j);
      if !colon.typ.ItemColon? then Stuck(ExpectColon, colon, j + 1)
      else
        var value := ItemAt(items, j + 1);
        if !value.typ.ItemValue? then Stuck(ExpectValue, value, j + 2)
        else
          var end := ItemAt(items, j + 2);
          if !end.typ.ItemLineEnd? then Stuck(ExpectLineEnd, end, j + 3)
          else Scanned(Property(name, value.val, ps), j + 3)
  }

  /** The values of every parameter that `ScanParamsSpec` stores are
      non-empty, and its keys are texts of `=` items. */
  lemma {:induction false} ParamsShape(items: seq<Item>, k: nat, m: map<string, Param>)
    requires forall key :: key in m ==> |m[key].values| > 0
    ensures var s := ScanParamsSpec(items, k, m);
      s.Scanned? ==>
        && (forall key :: key in s.result ==> |s.result[key].values| > 0)
        && (forall key :: key in s.result ==> key in m || exists i :: 0 <= i < |items| && items[i].typ == ItemEqual && items[i].val == key)
    decreases |items| - k
  {
    if ItemAt(items, k).typ.ItemSemiColon? {
      match ScanParamSpec(items, k + 1)
      case Scanned(g, j) =>
        ParamsShape(items, j, m[g.0 := Param(g.1)]);
        assert items[k + 2].typ == ItemEqual && items[k + 2].val == g.0;
      case Stuck(_, _, _) =>
    }
  }

  /** A property the parser reads has a value for every parameter, whatever
      the lexer sent. */
  lemma PropertyWellFormed(items: seq<Item>, k: nat, name: string)
    ensures var s := ScanPropertySpec(items, k, name);
      s.Scanned? ==> WellFormed(s.result)
  {
    ParamsShape(items, k, map[]);
  }

  /** Every well-formed parameter the parser can build from lexer output:
      when every `=` item reads "=", as `LexerProps.LexEqualItems` shows for
      the lexer, each property's only possible parameter key is "=", so the
      TZID and VALUE branches of `parseDate` never fire. */
  lemma PropertyShape(items: seq<Item>, k: nat, name: string)
    requires forall i :: 0 <= i < |items| && items[i].typ == ItemEqual ==> items[i].val == "="
    ensures var s := ScanPropertySpec(items, k, name);
      s.Scanned? ==> WellFormed(s.result) && s.result.params.Keys <= {"="}
  {
    ParamsShape(items, k, map[]);
  }

  /** The `=` item of a group stored under `key` sits at index `i`. */
  predicate KeyAt(items: seq<Item>, i: int, key: string)
  {
    0 <= i < |items| && items[i].typ.ItemEqual? && items[i].val == key
  }

  /** The last index in `[lo, hi)` at which a group with key `key` is read,
      or -1 when there is none. */
  function LastKeyAt(items: seq<Item>, lo: int, hi: int, key: string): (i: int)
    ensures i == -1 || (lo <= i < hi && KeyAt(items, i, key))
    ensures i == -1 <==> (forall j :: lo <= j < hi ==> !KeyAt(items, j, key))
    ensures i >= 0 ==> (forall j :: i < j < hi ==> !KeyAt(items, j, key))
    decreases hi - lo
  {
    if hi <= lo then -1
    else if KeyAt(items, hi - 1, key) then hi - 1
    else LastKeyAt(items, lo, hi - 1, key)
  }

  /** A key read after `mid` wins over one read before it. */
  lemma LastKeySplit(items: seq<Item>, lo: int, mid: int, hi: int, key: string)
    requires lo <= mid <= hi
    ensures LastKeyAt(items, lo, hi, key) ==
      if LastKeyAt(items, mid, hi, key) >= 0 then LastKeyAt(items, mid, hi, key) else LastKeyAt(items, lo, mid, key)
  {
    var i, hi, lo := LastKeyAt(items, lo, hi, key), LastKeyAt(items, mid, hi, key), LastKeyAt(items, lo, mid, key);
    if hi < 0 && lo >= 0 {
      assert KeyAt(items, lo, key);
    }
  }

  /** A value list holds no `=` item. */
  lemma {:induction false} NoKeyInValues(items: seq<Item>, k: nat)
    ensures var s := ScanValuesSpec(items, k);
      s.Scanned? ==> forall j :: k <= j < s.next ==> !items[j].typ.ItemEqual?
    decreases |items| - k
  {
    if ItemAt(items, k).typ.ItemParamValue? && ItemAt(items, k + 1).typ.ItemComma? {
      NoKeyInValues(items, k + 2);
    }
  }

  /** How the map `r` that `scanParams` leaves at cursor `n`, having
      started at `k` with `m`, holds `key`: stored iff it was already there
      or some group read it, with the values of the last group that read it,
      or its old entry when none did. */
  ghost predicate StoredLast(items: seq<Item>, k: nat, n: nat, m: map<string, Param>, r: map<string, Param>, key: string)
  {
    var i := LastKeyAt(items, k, n, key);
    && (key in r <==> key in m || i >= 0)
    && (i >= 0 ==> key in r && ScanValuesSpec(items, i + 1).Scanned? && r[key] == Param(ScanValuesSpec(items, i + 1).result))
    && (i < 0 && key in m ==> r[key] == m[key])
  }

  /** The map `scanParams` builds (parser.go:297): the last group wins. */
  lemma {:induction false} ParamsLastGroup(items: seq<Item>, k: nat, m: map<string, Param>, key: string)
    ensures var s := ScanParamsSpec(items, k, m);
      s.Scanned? ==> StoredLast(items, k, s.next, m, s.result, key)
    decreases |items| - k
  {
    if ItemAt(items, k).typ.ItemSemiColon? {
      match ScanParamSpec(items, k + 1)
      case Scanned(g, j) =>
        var m' := m[g.0 := Param(g.1)];
        ParamsLastGroup(items, j, m', key);
        var s := ScanParamsSpec(items, j, m');
        if s.Scanned? {
          GroupStored(items, k, j, s.next, g, m, s.result, key);
        }
      case Stuck(_, _, _) =>
    }
  }

  /** Within one group `;NAME=values`, the only `=` item is the third. */
  lemma GroupKey(items: seq<Item>, k: nat, g: (string, seq<string>), j: nat, key: string)
    requires ItemAt(items, k).typ.ItemSemiColon? && ScanParamSpec(items, k + 1) == Scanned(g, j)
    ensures LastKeyAt(items, k, j, key) == if key == g.0 then k + 2 else -1
  {
    NoKeyInValues(items, k + 3);
    assert ScanValuesSpec(items, k + 3).next == j;
    assert KeyAt(items, k + 2, key) <==> key == g.0;
    assert forall i :: k <= i < j && i != k + 2 ==> !KeyAt(items, i, key);
  }

  /** One group, stored before the groups after it. */
  lemma GroupStored(items: seq<Item>, k: nat, j: nat, n: nat, g: (string, seq<string>),
                    m: map<string, Param>, r: map<string, Param>, key: string)
    requires ItemAt(items, k).typ.ItemSemiColon? && ScanParamSpec(items, k + 1) == Scanned(g, j) && j <= n
    requires StoredLast(items, j, n, m[g.0 := Param(g.1)], r, key)
    ensures StoredLast(items, k, n, m, r, key)
  {
    LastKeySplit(items, k, j, n, key);
    GroupKey(items, k, g, j, key);
    assert ScanValuesSpec(items, k + 3) == Scanned(g.1, j);
  }

  /** Two groups whose `=` items both read "=", as every `=` item the lexer
      emits does: `;A=x;B=y` before `:` leaves one entry, holding only the
      second group's value. */
  lemma SecondGroupOverwrites()
    ensures var items := [
        Item(ItemSemiColon, 0, ";"), Item(ItemParamName, 1, "A"), Item(ItemEqual, 2, "="), Item(ItemParamValue, 3, "x"),
        Item(ItemSemiColon, 4, ";"), Item(ItemParamName, 5, "B"), Item(ItemEqual, 6, "="), Item(ItemParamValue, 7, "y"),
        Item(ItemColon, 8, ":")];
      ScanParamsSpec(items, 0, map[]) == Scanned(map["=" := Param(["y"])], 8)
  {
    var items := [
        Item(ItemSemiColon, 0, ";"), Item(ItemParamName, 1, "A"), Item(ItemEqual, 2, "="), Item(ItemParamValue, 3, "x"),
        Item(ItemSemiColon, 4, ";"), Item(ItemParamName, 5, "B"), Item(ItemEqual, 6, "="), Item(ItemParamValue, 7, "y"),
        Item(ItemColon, 8, ":")];
    assert ScanValuesSpec(items, 7) == Scanned(["y"], 8);
    assert ScanParamSpec(items, 5) == Scanned(("=", ["y"]), 8);
    assert ScanValuesSpec(items, 3) == Scanned(["x"], 4);
    assert ScanParamSpec(items, 1) == Scanned(("=", ["x"]), 4);
    assert map[]["=" := Param(["x"])]["=" := Param(["y"])] == map["=" := Param(["y"])];
  }
}
