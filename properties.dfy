/** Properties and parameters of a calendar component (parser.go:37-45) and
    the searches the validators run over a component's property list. */
module Properties {

  /** A parameter's list of values; `NewParam` is `Param([])`. */
  datatype Param = Param(values: seq<string>)

  /** A content line once parsed; `NewProperty` is `Property("", "", map[])`.
      The parser builds each one locally and never shares it before appending
      it, so a value models the Go pointer faithfully. */
  datatype Property = Property(name: string, value: string, params: map<string, Param>)

  /** Every parameter holds at least one value, as `scanValues` guarantees;
      `parseDate` reads `Values[0]` of the parameters it looks at. */
  predicate WellFormed(p: Property)
  {
    forall key :: key in p.params ==> |p.params[key].values| > 0
  }

  predicate AllWellFormed(props: seq<Property>)
  {
    forall i :: 0 <= i < |props| ==> WellFormed(props[i])
  }

  /** `hasProperty` (parser.go:419-426): the search loop answers true exactly
      when some property carries the name. */
  function HasProperty(name: string, props: seq<Property>): (b: bool)
    ensures b <==> exists i :: 0 <= i < |props| && props[i].name == name
  {
    if |props| == 0 then false
    else if props[0].name == name then true
    else
      var b := HasProperty(name, props[1..]);
      assert b ==> exists i :: 0 <= i < |props| && props[i].name == name by {
        if b {
          var j :| 0 <= j < |props[1..]| && props[1..][j].name == name;
          assert props[j + 1].name == name;
        }
      }
      assert (exists i :: 0 <= i < |props| && props[i].name == name) ==> b by {
        if exists i :: 0 <= i < |props| && props[i].name == name {
          var i :| 0 <= i < |props| && props[i].name == name;
          assert props[1..][i - 1].name == name;
        }
      }
      b
  }

  /** How many properties carry the name: what a validator's counter reaches
      after the loop over the list.  Defined on the last element, the step a
      `range` loop takes. */
  function Count(props: seq<Property>, name: string): (n: nat)
    ensures n <= |props|
  {
    if |props| == 0 then 0
    else Count(props[..|props| - 1], name) + (if props[|props| - 1].name == name then 1 else 0)
  }

  /** A name is counted exactly when some property carries it. */
  lemma {:induction false} CountPositive(props: seq<Property>, name: string)
    ensures Count(props, name) > 0 <==> HasProperty(name, props)
  {
    if |props| > 0 {
      var init := props[..|props| - 1];
      CountPositive(init, name);
      if HasProperty(name, props) && props[|props| - 1].name != name {
        var i :| 0 <= i < |props| && props[i].name == name;
        assert init[i].name == name;
      }
      if HasProperty(name, init) {
        var i :| 0 <= i < |init| && init[i].name == name;
        assert props[i].name == name;
      }
    }
  }

  /** The value a field ends up with when a loop assigns it at every property
      carrying the name: the last such value, or `dflt` when there is none. */
  function LastValue(props: seq<Property>, name: string, dflt: string): (s: string)
    ensures !HasProperty(name, props) ==> s == dflt
    ensures HasProperty(name, props) ==>
      exists i :: 0 <= i < |props| && props[i].name == name && s == props[i].value
        && forall j :: i < j < |props| ==> props[j].name != name
  {
    if |props| == 0 then dflt
    else if props[|props| - 1].name == name then props[|props| - 1].value
    else
      var init := props[..|props| - 1];
      var s := LastValue(init, name, dflt);
      assert !HasProperty(name, props) ==> !HasProperty(name, init) by {
        if HasProperty(name, init) {
          var i :| 0 <= i < |init| && init[i].name == name;
          assert props[i].name == name;
        }
      }
      assert HasProperty(name, props) ==> HasProperty(name, init) by {
        if HasProperty(name, props) {
          var i :| 0 <= i < |props| && props[i].name == name;
          assert init[i].name == name;
        }
      }
      assert HasProperty(name, init) ==>
        exists i :: 0 <= i < |props| && props[i].name == name && s == props[i].value
          && forall j :: i < j < |props| ==> props[j].name != name by {
        if HasProperty(name, init) {
          var i :| 0 <= i < |init| && init[i].name == name && s == init[i].value
            && forall j :: i < j < |init| ==> init[j].name != name;
          assert props[i] == init[i];
          forall j | i < j < |props| ensures props[j].name != name {
            if j < |init| {
              assert props[j] == init[j];
            }
          }
        }
      }
      s
  }

  /** The last property carrying the name (one exists). */
  function LastProp(props: seq<Property>, name: string): (p: Property)
    requires HasProperty(name, props)
    ensures p.name == name && p.value == LastValue(props, name, "")
    ensures exists i :: 0 <= i < |props| && props[i] == p
  {
    if props[|props| - 1].name == name then props[|props| - 1]
    else
      var init := props[..|props| - 1];
      assert HasProperty(name, init) by {
        var i :| 0 <= i < |props| && props[i].name == name;
        assert init[i].name == name;
      }
      var p := LastProp(init, name);
      assert exists i :: 0 <= i < |props| && props[i] == p by {
        var i :| 0 <= i < |init| && init[i] == p;
        assert props[i] == p;
      }
      p
  }

  /** An appended property moves the count by one exactly when its name matches. */
  lemma CountSnoc(props: seq<Property>, p: Property, name: string)
    ensures Count(props + [p], name) == Count(props, name) + (if p.name == name then 1 else 0)
  {
    assert (props + [p])[..|props|] == props;
  }

  /** Appending a property makes its value the last one for its name and
      leaves every other name's last value alone. */
  lemma LastValueSnoc(props: seq<Property>, p: Property, name: string, dflt: string)
    ensures LastValue(props + [p], name, dflt) ==
      if p.name == name then p.value else LastValue(props, name, dflt)
  {
    assert (props + [p])[..|props|] == props;
  }
}
