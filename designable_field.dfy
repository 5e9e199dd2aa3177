/**
 * The pure core of the designable field factory: recognising `{{...}}` expression
 * strings, stripping them out of JSON-like values (`filterExpression`), copying schema
 * keys to field-state keys (the `SchemaStateMap` loop of `toDesignableFieldProps`) and
 * the drop-restriction predicates of the designer.
 */
module DesignableField {
  import opened Wrappers

  /** A JSON-like value as the designer holds it in a schema. */
  datatype Json =
    | Undefined
    | Null
    | Bool(b: bool)
    | Num(n: int)
    | Str(s: string)
    | Arr(items: seq<Json>)
    | Object(members: seq<Member>)

  /** An own enumerable property, in enumeration order. */
  datatype Member = Member(key: string, value: Json)

  /** No key occurs twice, as in any object JavaScript builds. */
  predicate DistinctKeys(members: seq<Member>)
  {
    forall i, j :: 0 <= i < j < |members| ==> members[i].key != members[j].key
  }

  /** ToBoolean. */
  predicate Truthy(v: Json)
  {
    match v
    case Undefined => false
    case Null => false
    case Bool(b) => b
    case Num(n) => n != 0
    case Str(s) => s != ""
    case _ => true
  }

  // ---------------------------------------------------------------------------
  // isExpression: /^\{\{.*\}\}$/
  // ---------------------------------------------------------------------------

  /** The characters ECMAScript's `.` does not match without the `s` flag. */
  predicate IsLineTerminator(c: char)
  {
    c == '\n' || c == '\r' || c == '\U{2028}' || c == '\U{2029}'
  }

  /** Matching `.*\}\}$` from position `i`: `.*` takes characters other than line
      terminators, and some choice of its extent leaves exactly `}}` at the end. */
  predicate MatchesTail(s: string, i: nat)
    requires i <= |s|
    ensures MatchesTail(s, i) <==>
              && |s| - i >= 2
              && s[|s| - 2..] == "}}"
              && forall k :: i <= k < |s| - 2 ==> !IsLineTerminator(s[k])
    decreases |s| - i
  {
    s[i..] == "}}" || (i < |s| && !IsLineTerminator(s[i]) && MatchesTail(s, i + 1))
  }

  /** `isExpression`: a string matching `^\{\{.*\}\}$`. */
  predicate IsExpression(v: Json)
    ensures IsExpression(v) <==>
              && v.Str?
              && |v.s| >= 4
              && v.s[..2] == "{{"
              && v.s[|v.s| - 2..] == "}}"
              && forall k :: 2 <= k < |v.s| - 2 ==> !IsLineTerminator(v.s[k])
  {
    v.Str? && |v.s| >= 2 && v.s[..2] == "{{" && MatchesTail(v.s, 2)
  }

  /** The middle part may be empty; a line break inside it defeats the match. */
  lemma ExpressionExamples()
    ensures IsExpression(Str("{{}}"))
    ensures IsExpression(Str("{{a}}}"))
    ensures !IsExpression(Str("{{a\nb}}"))
    ensures !IsExpression(Str("{{}"))
  {
    assert "{{a\nb}}"[3] == '\n';
  }

  // ---------------------------------------------------------------------------
  // filterExpression: the specification
  // ---------------------------------------------------------------------------

  /** What `filterExpression` returns. Arrays, objects and null (`typeof` "object")
      go through `reduce`; the model takes `reduce` over null to visit nothing, which
      leaves the initial accumulator `{}`. */
  function Filtered(v: Json): (r: Json)
    ensures !r.Null?
    ensures r.Arr? <==> v.Arr?
    ensures r.Object? <==> v.Object? || v.Null?
    ensures r.Undefined? <==> v.Undefined? || IsExpression(v)
    ensures !v.Arr? && !v.Object? && !v.Null? && !IsExpression(v) ==> r == v
    decreases v, 1
  {
    match v
    case Arr(items) => Arr(FilterItems(items))
    case Object(members) => Object(FilterMembers(members))
    case Null => Object([])
    case _ => if IsExpression(v) then Undefined else v
  }

  /** The reducer drops an entry whose value is an expression, or whose filtered
      value is undefined or null. */
  predicate Drops(value: Json)
    ensures Drops(value) <==> value.Undefined? || IsExpression(value)
    decreases value, 2
  {
    IsExpression(value) || Filtered(value).Undefined? || Filtered(value).Null?
  }

  /** A value `filterExpression` leaves inside an array or object: no hole, no null. */
  predicate Present(v: Json)
  {
    !v.Undefined? && !v.Null?
  }

  /** The array reduction: `buf.concat([results])` for each kept element. */
  function FilterItems(items: seq<Json>): (r: seq<Json>)
    ensures |r| <= |items|
    ensures forall i :: 0 <= i < |r| ==> Present(r[i])
    decreases items, 0
  {
    if items == [] then []
    else
      var last := items[|items| - 1];
      FilterItems(items[..|items| - 1]) + (if Drops(last) then [] else [Filtered(last)])
  }

  /** The object reduction: `buf[key] = results` for each kept property. */
  function FilterMembers(members: seq<Member>): (r: seq<Member>)
    ensures |r| <= |members|
    ensures forall i :: 0 <= i < |r| ==> Present(r[i].value)
    decreases members, 0
  {
    if members == [] then []
    else
      var last := members[|members| - 1];
      FilterMembers(members[..|members| - 1])
        + (if Drops(last.value) then [] else [Member(last.key, Filtered(last.value))])
  }

  // ---------------------------------------------------------------------------
  // filterExpression: properties
  // ---------------------------------------------------------------------------

  /** No expression string occurs anywhere in the value, at any depth. */
  predicate ExpressionFree(v: Json)
    decreases v
  {
    && !IsExpression(v)
    && (v.Arr? ==> forall i :: 0 <= i < |v.items| ==> ExpressionFree(v.items[i]))
    && (v.Object? ==> forall i :: 0 <= i < |v.members| ==> ExpressionFree(v.members[i].value))
  }

  /** A scalar: an expression string becomes undefined, anything else is returned unchanged. */
  lemma FilterScalar(v: Json)
    requires !v.Arr? && !v.Object? && !v.Null?
    ensures IsExpression(v) ==> Filtered(v) == Undefined
    ensures !IsExpression(v) ==> Filtered(v) == v
  {
  }

  /** `filterExpression` leaves no expression string anywhere in its result. */
  lemma {:induction false} FilteredIsExpressionFree(v: Json)
    ensures ExpressionFree(Filtered(v))
    decreases v, 1
  {
    match v
    case Arr(items) => FilterItemsExpressionFree(items);
    case Object(members) => FilterMembersExpressionFree(members);
    case _ =>
  }

  lemma {:induction false} FilterItemsExpressionFree(items: seq<Json>)
    ensures forall i :: 0 <= i < |FilterItems(items)| ==> ExpressionFree(FilterItems(items)[i])
    decreases items, 0
  {
    if items != [] {
      var last := items[|items| - 1];
      FilterItemsExpressionFree(items[..|items| - 1]);
      FilteredIsExpressionFree(last);
    }
  }

  lemma {:induction false} FilterMembersExpressionFree(members: seq<Member>)
    ensures forall i :: 0 <= i < |FilterMembers(members)| ==> ExpressionFree(FilterMembers(members)[i].value)
    decreases members, 0
  {
    if members != [] {
      var last := members[|members| - 1];
      FilterMembersExpressionFree(members[..|members| - 1]);
      FilteredIsExpressionFree(last.value);
    }
  }

  /** The filtered array keeps, in order, the filtered value of every element the
      reducer does not drop, compacted: no holes and no nulls are left. */
  lemma {:induction false} FilterItemsCompacts(items: seq<Json>)
    ensures |FilterItems(items)| <= |items|
    ensures forall i :: 0 <= i < |FilterItems(items)| ==> Present(FilterItems(items)[i])
    ensures forall i :: 0 <= i < |items| && !Drops(items[i]) ==> Filtered(items[i]) in FilterItems(items)
    ensures forall x :: x in FilterItems(items) ==>
              exists i :: 0 <= i < |items| && !Drops(items[i]) && x == Filtered(items[i])
  {
    if items != [] {
      var init := items[..|items| - 1];
      FilterItemsCompacts(init);
      forall i | 0 <= i < |items| - 1
        ensures items[i] == init[i]
      {
      }
    }
  }

  /** The filtered object's keys are a subset of the input's: a key is dropped exactly
      when its value is an expression or filters to undefined or null, and every kept
      key maps to the filtered value. */
  lemma {:induction false} FilterMembersKeys(members: seq<Member>)
    ensures |FilterMembers(members)| <= |members|
    ensures forall i :: 0 <= i < |members| && !Drops(members[i].value) ==>
              Member(members[i].key, Filtered(members[i].value)) in FilterMembers(members)
    ensures forall m :: m in FilterMembers(members) ==>
              exists i :: 0 <= i < |members| && !Drops(members[i].value)
                          && m == Member(members[i].key, Filtered(members[i].value))
  {
    if members != [] {
      var init := members[..|members| - 1];
      FilterMembersKeys(init);
      forall i | 0 <= i < |members| - 1
        ensures members[i] == init[i]
      {
      }
    }
  }

  /** The filtered object has distinct keys when the input has. */
  lemma {:induction false} FilterMembersKeepsDistinct(members: seq<Member>)
    requires DistinctKeys(members)
    ensures DistinctKeys(FilterMembers(members))
  {
    if members != [] {
      var n := |members| - 1;
      var init := members[..n];
      assert DistinctKeys(init);
      FilterMembersKeepsDistinct(init);
      FilterMembersKeys(init);
      var last := members[n];
      if !Drops(last.value) {
        var prev := FilterMembers(init);
        forall i | 0 <= i < |prev|
          ensures prev[i].key != last.key
        {
          var m := prev[i];
          assert m in prev;
          var j :| 0 <= j < |init| && !Drops(init[j].value) && m == Member(init[j].key, Filtered(init[j].value));
          assert init[j] == members[j];
        }
      }
    }
  }

  /** Filtering twice is filtering once. */
  lemma {:induction false} FilterIdempotent(v: Json)
    ensures Filtered(Filtered(v)) == Filtered(v)
    decreases v, 1
  {
    match v
    case Arr(items) => FilterItemsIdempotent(items);
    case Object(members) => FilterMembersIdempotent(members);
    case Null =>
    case _ =>
  }

  /** A value the reducer keeps is kept again, unchanged, on a second pass. */
  lemma {:induction false} KeptStaysKept(value: Json)
    requires !Drops(value)
    ensures !Drops(Filtered(value)) && Filtered(Filtered(value)) == Filtered(value)
    decreases value, 2
  {
    FilterIdempotent(value);
    FilteredIsExpressionFree(value);
  }

  lemma {:induction false} FilterItemsIdempotent(items: seq<Json>)
    ensures FilterItems(FilterItems(items)) == FilterItems(items)
    decreases items, 0
  {
    if items != [] {
      var init := items[..|items| - 1];
      var last := items[|items| - 1];
      FilterItemsIdempotent(init);
      if !Drops(last) {
        KeptStaysKept(last);
        var out := FilterItems(init) + [Filtered(last)];
        assert FilterItems(items) == out;
        assert out[..|out| - 1] == FilterItems(init) && out[|out| - 1] == Filtered(last);
      } else {
        assert FilterItems(items) == FilterItems(init);
      }
    }
  }

  lemma {:induction false} FilterMembersIdempotent(members: seq<Member>)
    ensures FilterMembers(FilterMembers(members)) == FilterMembers(members)
    decreases members, 0
  {
    if members != [] {
      var init := members[..|members| - 1];
      var last := members[|members| - 1];
      FilterMembersIdempotent(init);
      if !Drops(last.value) {
        KeptStaysKept(last.value);
        var out := FilterMembers(init) + [Member(last.key, Filtered(last.value))];
        assert FilterMembers(members) == out;
        assert out[..|out| - 1] == FilterMembers(init) && out[|out| - 1].value == Filtered(last.value);
      } else {
        assert FilterMembers(members) == FilterMembers(init);
      }
    }
  }

  // ---------------------------------------------------------------------------
  // filterExpression: the algorithm
  // ---------------------------------------------------------------------------

  /** `filterExpression`. */
  method FilterExpression(val: Json) returns (r: Json)
    ensures r == Filtered(val)
    decreases val
  {
    match val
    case Arr(items) =>
      var buf: seq<Json> := [];
      var i := 0;
      while i < |items|
        invariant 0 <= i <= |items|
        invariant buf == FilterItems(items[..i])
      {
        var value := items[i];
        assert items[..i + 1][..i] == items[..i];
        if !IsExpression(value) {
          var results := FilterExpression(value);
          if !(results.Undefined? || results.Null?) {
            buf := buf + [results];
          }
        }
        i := i + 1;
      }
      assert items[..|items|] == items;
      r := Arr(buf);
    case Object(members) =>
      var buf: seq<Member> := [];
      var i := 0;
      while i < |members|
        invariant 0 <= i <= |members|
        invariant buf == FilterMembers(members[..i])
      {
        var m := members[i];
        assert members[..i + 1][..i] == members[..i];
        if !IsExpression(m.value) {
          var results := FilterExpression(m.value);
          if !(results.Undefined? || results.Null?) {
            buf := buf + [Member(m.key, results)];
          }
        }
        i := i + 1;
      }
      assert members[..|members|] == members;
      r := Object(buf);
    case Null =>
      r := Object([]);
    case _ =>
      if IsExpression(val) {
        r := Undefined;
      } else {
        r := val;
      }
  }

  /** The array reduction respects concatenation, so it keeps the original order. */
  lemma {:induction false} FilterItemsAppend(a: seq<Json>, b: seq<Json>)
    ensures FilterItems(a + b) == FilterItems(a) + FilterItems(b)
    decreases |b|
  {
    if b == [] {
      assert a + b == a;
    } else {
      var init, last := b[..|b| - 1], b[|b| - 1];
      FilterItemsAppend(a, init);
      assert (a + b)[..|a + b| - 1] == a + init;
      assert (a + b)[|a + b| - 1] == last;
      var kept := if Drops(last) then [] else [Filtered(last)];
      assert FilterItems(a + b) == FilterItems(a + init) + kept;
      assert FilterItems(b) == FilterItems(init) + kept;
    }
  }

  /** The object reduction respects concatenation, so it keeps enumeration order. */
  lemma {:induction false} FilterMembersAppend(a: seq<Member>, b: seq<Member>)
    ensures FilterMembers(a + b) == FilterMembers(a) + FilterMembers(b)
    decreases |b|
  {
    if b == [] {
      assert a + b == a;
    } else {
      var init, last := b[..|b| - 1], b[|b| - 1];
      FilterMembersAppend(a, init);
      assert (a + b)[..|a + b| - 1] == a + init;
      assert (a + b)[|a + b| - 1] == last;
      var kept := if Drops(last.value) then [] else [Member(last.key, Filtered(last.value))];
      assert FilterMembers(a + b) == FilterMembers(a + init) + kept;
      assert FilterMembers(b) == FilterMembers(init) + kept;
    }
  }

  // ---------------------------------------------------------------------------
  // toDesignableFieldProps: schema keys to field state
  // ---------------------------------------------------------------------------

  /** One entry of `SchemaStateMap`: a schema key and the field-state key it feeds. */
  datatype StatePair = StatePair(schemaKey: string, fieldKey: string)

  /** `SchemaStateMap`, in its enumeration order. */
  const SchemaStateMap: seq<StatePair> := [
    StatePair("title", "title"),
    StatePair("description", "description"),
    StatePair("default", "value"),
    StatePair("enum", "dataSource"),
    StatePair("readOnly", "readOnly"),
    StatePair("writeOnly", "editable"),
    StatePair("required", "required"),
    StatePair("x-content", "content"),
    StatePair("x-value", "value"),
    StatePair("x-editable", "editable"),
    StatePair("x-disabled", "disabled"),
    StatePair("x-read-pretty", "readPretty"),
    StatePair("x-read-only", "readOnly"),
    StatePair("x-visible", "visible"),
    StatePair("x-hidden", "hidden"),
    StatePair("x-display", "display"),
    StatePair("x-pattern", "pattern")
  ]

  /** `NeedShownExpression`: the schema keys whose expression strings are shown as they are. */
  const NeedShownExpression: set<string> := {"title", "description", "default", "x-content", "x-value"}

  /** A schema: its string-keyed properties. */
  type Schema = map<string, Json>

  /** `schema[key]`. */
  function SchemaValue(schema: Schema, key: string): Json
  {
    if key in schema then schema[key] else Undefined
  }

  /** What one step of the `each` callback writes under the field key, if anything.
      An expression string is always truthy, so the inner `if (value)` never falls through. */
  function StateValue(schemaKey: string, value: Json): (r: Option<Json>)
    ensures IsExpression(value) ==> (r.Some? <==> schemaKey in NeedShownExpression)
    ensures IsExpression(value) && r.Some? ==> r.value == value
    ensures !IsExpression(value) ==> (r.Some? <==> Truthy(value))
    ensures !IsExpression(value) && r.Some? ==> r.value == Filtered(value)
  {
    if IsExpression(value) then
      if schemaKey !in NeedShownExpression then None
      else if Truthy(value) then Some(value)
      else None
    else if Truthy(value) then Some(Filtered(value))
    else None
  }

  /** The pair at index `i` of `table` writes a field for `schema`. */
  predicate Writes(schema: Schema, table: seq<StatePair>, i: nat)
    requires i < |table|
  {
    StateValue(table[i].schemaKey, SchemaValue(schema, table[i].schemaKey)).Some?
  }

  /** The field state after `each` has visited the pairs of `table` in order. */
  function MapState(schema: Schema, table: seq<StatePair>): (r: map<string, Json>)
    ensures |r| <= |table|
  {
    if table == [] then map[]
    else
      var p := table[|table| - 1];
      var acc := MapState(schema, table[..|table| - 1]);
      match StateValue(p.schemaKey, SchemaValue(schema, p.schemaKey))
      case Some(v) => acc[p.fieldKey := v]
      case None => acc
  }

  /** A field key is set exactly when some pair for it writes. */
  lemma {:induction false} MapStateDomain(schema: Schema, table: seq<StatePair>, f: string)
    ensures f in MapState(schema, table) <==>
              exists i :: 0 <= i < |table| && table[i].fieldKey == f && Writes(schema, table, i)
  {
    if table != [] {
      var n := |table| - 1;
      var init := table[..n];
      MapStateDomain(schema, init, f);
      forall i | 0 <= i < n
        ensures table[i] == init[i] && (Writes(schema, table, i) <==> Writes(schema, init, i))
      {
      }
    }
  }

  /** A field key holds what the last writing pair for it wrote: later schema keys
      overwrite earlier ones. */
  lemma {:induction false} MapStateLastWriterWins(schema: Schema, table: seq<StatePair>, i: nat)
    requires i < |table| && Writes(schema, table, i)
    requires forall j :: i < j < |table| && table[j].fieldKey == table[i].fieldKey ==> !Writes(schema, table, j)
    ensures table[i].fieldKey in MapState(schema, table)
    ensures MapState(schema, table)[table[i].fieldKey]
            == StateValue(table[i].schemaKey, SchemaValue(schema, table[i].schemaKey)).value
  {
    var n := |table| - 1;
    var init := table[..n];
    if i < n {
      assert init[i] == table[i];
      forall j | i < j < |init| && init[j].fieldKey == init[i].fieldKey
        ensures !Writes(schema, init, j)
      {
        assert init[j] == table[j];
      }
      MapStateLastWriterWins(schema, init, i);
    }
  }

  /** With a truthy non-expression `x-value`, the field value comes from it, not from `default`. */
  lemma XValueOverridesDefault(schema: Schema)
    requires "x-value" in schema && Truthy(schema["x-value"]) && !IsExpression(schema["x-value"])
    ensures "value" in MapState(schema, SchemaStateMap)
    ensures MapState(schema, SchemaStateMap)["value"] == Filtered(schema["x-value"])
  {
    MapStateLastWriterWins(schema, SchemaStateMap, 8);
  }

  /** With no `x-value` and a truthy non-expression `default`, the field value is the filtered default. */
  lemma DefaultBecomesValue(schema: Schema)
    requires "x-value" !in schema
    requires "default" in schema && Truthy(schema["default"]) && !IsExpression(schema["default"])
    ensures "value" in MapState(schema, SchemaStateMap)
    ensures MapState(schema, SchemaStateMap)["value"] == Filtered(schema["default"])
  {
    assert !Writes(schema, SchemaStateMap, 8);
    MapStateLastWriterWins(schema, SchemaStateMap, 2);
  }

  /** `required: false` (any falsy value) produces no field. */
  lemma FalsyRequiredIsNotCopied(schema: Schema)
    requires "required" in schema && !Truthy(schema["required"])
    ensures "required" !in MapState(schema, SchemaStateMap)
  {
    MapStateDomain(schema, SchemaStateMap, "required");
  }

  /** An expression under a schema key outside `NeedShownExpression` produces no field:
      an expression-valued `x-visible` leaves `visible` unset. */
  lemma HiddenExpressionIsNotCopied(schema: Schema)
    requires "x-visible" in schema && IsExpression(schema["x-visible"])
    ensures "visible" !in MapState(schema, SchemaStateMap)
  {
    MapStateDomain(schema, SchemaStateMap, "visible");
  }

  /** An expression string reaches the field state only under a field key fed by a key
      of `NeedShownExpression`; every other value written is expression-free. */
  lemma {:induction false} OnlyShownExpressions(schema: Schema, table: seq<StatePair>)
    ensures forall f :: f in MapState(schema, table) && IsExpression(MapState(schema, table)[f]) ==>
              exists i :: 0 <= i < |table| && table[i].fieldKey == f && table[i].schemaKey in NeedShownExpression
                          && MapState(schema, table)[f] == SchemaValue(schema, table[i].schemaKey)
    ensures forall f :: f in MapState(schema, table) && !IsExpression(MapState(schema, table)[f]) ==>
              ExpressionFree(MapState(schema, table)[f])
  {
    if table != [] {
      var n := |table| - 1;
      var p := table[n];
      var init := table[..n];
      OnlyShownExpressions(schema, init);
      var value := SchemaValue(schema, p.schemaKey);
      if !IsExpression(value) {
        FilteredIsExpressionFree(value);
      }
      forall f | f in MapState(schema, table) && IsExpression(MapState(schema, table)[f])
        ensures exists i :: 0 <= i < |table| && table[i].fieldKey == f && table[i].schemaKey in NeedShownExpression
                          && MapState(schema, table)[f] == SchemaValue(schema, table[i].schemaKey)
      {
        if f == p.fieldKey && StateValue(p.schemaKey, value).Some? {
          assert table[n].fieldKey == f;
        } else {
          assert table[..n] == init;
          assert f in MapState(schema, init) && MapState(schema, table)[f] == MapState(schema, init)[f];
          var i :| 0 <= i < |init| && init[i].fieldKey == f && init[i].schemaKey in NeedShownExpression
                   && MapState(schema, init)[f] == SchemaValue(schema, init[i].schemaKey);
          assert table[i] == init[i];
        }
      }
    }
  }

  /** Visiting one more pair of the table. */
  lemma MapStatePrefixStep(schema: Schema, table: seq<StatePair>, i: nat)
    requires i < |table|
    ensures MapState(schema, table[..i + 1]) ==
            match StateValue(table[i].schemaKey, SchemaValue(schema, table[i].schemaKey))
            case Some(v) => MapState(schema, table[..i])[table[i].fieldKey := v]
            case None => MapState(schema, table[..i])
  {
    assert table[..i + 1][..i] == table[..i];
  }

  /** The `each(SchemaStateMap, ...)` loop of `toDesignableFieldProps`. */
  method MapSchemaState(schema: Schema) returns (results: map<string, Json>)
    ensures results == MapState(schema, SchemaStateMap)
  {
    results := map[];
    var i := 0;
    while i < |SchemaStateMap|
      invariant 0 <= i <= |SchemaStateMap|
      invariant results == MapState(schema, SchemaStateMap[..i])
    {
      var p := SchemaStateMap[i];
      MapStatePrefixStep(schema, SchemaStateMap, i);
      var value := SchemaValue(schema, p.schemaKey);
      if IsExpression(value) {
        if p.schemaKey in NeedShownExpression && Truthy(value) {
          results := results[p.fieldKey := value];
        }
      } else if Truthy(value) {
        var filtered := FilterExpression(value);
        results := results[p.fieldKey := filtered];
      }
      i := i + 1;
    }
    assert SchemaStateMap[..|SchemaStateMap|] == SchemaStateMap;
  }

  /** An entry of the `components` registry, as far as the factory looks at it. */
  datatype Component = FalsyEntry | Component(name: string)

  /** The `FormItem` decorator the factory registers when none is present. */
  const FormItem: Component := Component("FormItem")

  /** The `components` object the factory receives and fills in. */
  class Components {
    var entries: map<string, Component>

    constructor (entries: map<string, Component>)
      ensures this.entries == entries
    {
      this.entries := entries;
    }

    /** `components['FormItem']` is truthy. */
    predicate HasFormItem()
      reads this
    {
      "FormItem" in entries && entries["FormItem"].Component?
    }
  }

  /** The part of `toDesignableFieldProps` before the decorator and component lookups:
      the mapped field state, and `FormItem` registered when the registry lacks a truthy one. */
  method ToDesignableFieldProps(schema: Schema, components: Components) returns (results: map<string, Json>)
    modifies components
    ensures results == MapState(schema, SchemaStateMap)
    ensures components.HasFormItem()
    ensures old(components.HasFormItem()) ==> components.entries == old(components.entries)
    ensures !old(components.HasFormItem()) ==> components.entries == old(components.entries)["FormItem" := FormItem]
  {
    results := MapSchemaState(schema);
    if !components.HasFormItem() {
      components.entries := components.entries["FormItem" := FormItem];
    }
  }

  // ---------------------------------------------------------------------------
  // Drop restrictions
  // ---------------------------------------------------------------------------

  /** A designer tree node, as far as the restriction predicates read its props:
      `props['x-component']` and `props.type`. */
  datatype TreeNode = TreeNode(component: Option<string>, fieldType: Option<string>)

  /** The restriction tables of the factory options, keyed by target component name. */
  datatype Restrictions = Restrictions(
    restrictChildrenComponents: Option<map<string, seq<string>>>,
    restrictSiblingComponents: Option<map<string, seq<string>>>)

  /** The property key `targetComponent` becomes when it indexes a table: an absent
      `x-component` is the value undefined, whose key is the string "undefined". */
  function PropertyKey(component: Option<string>): string
  {
    match component
    case Some(name) => name
    case None => "undefined"
  }

  /** `table?.[targetComponent]`: the list for the target's component, if any. */
  function RestrictionList(table: Option<map<string, seq<string>>>, target: TreeNode): Option<seq<string>>
  {
    if table.Some? && PropertyKey(target.component) in table.value then
      Some(table.value[PropertyKey(target.component)])
    else None
  }

  /** `source.every((node) => includesComponent(node, list, target))`. */
  predicate Every(source: seq<TreeNode>, list: seq<string>, target: TreeNode,
                  includes: (TreeNode, seq<string>, TreeNode) -> bool)
  {
    if source == [] then true
    else includes(source[0], list, target) && Every(source[1..], list, target, includes)
  }

  /** `every` holds exactly when every node satisfies the test. */
  lemma {:induction false} EveryMeansAll(source: seq<TreeNode>, list: seq<string>, target: TreeNode,
                                          includes: (TreeNode, seq<string>, TreeNode) -> bool)
    ensures Every(source, list, target, includes) <==>
              forall i :: 0 <= i < |source| ==> includes(source[i], list, target)
  {
    if source != [] {
      EveryMeansAll(source[1..], list, target, includes);
      assert forall i :: 1 <= i < |source| ==> source[i] == source[1..][i - 1];
    }
  }

  /** The shared body of `calculateChildrenRestricts` and `calculateSiblingsRestricts`:
      no list, or an empty one, allows everything; otherwise every source node must
      pass `includesComponent`, which is not part of this model and is a parameter. */
  function Restricts(table: Option<map<string, seq<string>>>, target: TreeNode, source: seq<TreeNode>,
                     includes: (TreeNode, seq<string>, TreeNode) -> bool): (r: bool)
    ensures RestrictionList(table, target).None? ==> r
    ensures RestrictionList(table, target).Some? && RestrictionList(table, target).value == [] ==> r
    ensures RestrictionList(table, target).Some? && RestrictionList(table, target).value != [] ==>
              (r <==> forall i :: 0 <= i < |source| ==> includes(source[i], RestrictionList(table, target).value, target))
  {
    var list := RestrictionList(table, target);
    if list.Some? && |list.value| > 0 then
      EveryMeansAll(source, list.value, target, includes);
      Every(source, list.value, target, includes)
    else true
  }

  /** `calculateChildrenRestricts`. */
  function CalculateChildrenRestricts(options: Restrictions, target: TreeNode, source: seq<TreeNode>,
                                      includes: (TreeNode, seq<string>, TreeNode) -> bool): (r: bool)
    ensures RestrictionList(options.restrictChildrenComponents, target).None? ==> r
    ensures r <==>
              || RestrictionList(options.restrictChildrenComponents, target).None?
              || RestrictionList(options.restrictChildrenComponents, target).value == []
              || forall i :: 0 <= i < |source| ==>
                   includes(source[i], RestrictionList(options.restrictChildrenComponents, target).value, target)
  {
    Restricts(options.restrictChildrenComponents, target, source, includes)
  }

  /** `calculateSiblingsRestricts`. */
  function CalculateSiblingsRestricts(options: Restrictions, target: TreeNode, source: seq<TreeNode>,
                                      includes: (TreeNode, seq<string>, TreeNode) -> bool): (r: bool)
    ensures RestrictionList(options.restrictSiblingComponents, target).None? ==> r
    ensures r <==>
              || RestrictionList(options.restrictSiblingComponents, target).None?
              || RestrictionList(options.restrictSiblingComponents, target).value == []
              || forall i :: 0 <= i < |source| ==>
                   includes(source[i], RestrictionList(options.restrictSiblingComponents, target).value, target)
  {
    Restricts(options.restrictSiblingComponents, target, source, includes)
  }

  /** The node types that take children. */
  predicate IsContainerType(fieldType: Option<string>)
  {
    fieldType == Some("void") || fieldType == Some("array") || fieldType == Some("object")
  }

  /** `allowAppend`: a container target whose children restrictions admit the source. */
  function AllowAppend(options: Restrictions, target: TreeNode, source: seq<TreeNode>,
                       includes: (TreeNode, seq<string>, TreeNode) -> bool): (r: bool)
    ensures r <==> IsContainerType(target.fieldType) && CalculateChildrenRestricts(options, target, source, includes)
    ensures !IsContainerType(target.fieldType) ==> !r
  {
    IsContainerType(target.fieldType) && CalculateChildrenRestricts(options, target, source, includes)
  }

  /** Dropping several nodes at once is allowed exactly when dropping each part is. */
  lemma {:induction false} RestrictsSplits(table: Option<map<string, seq<string>>>, target: TreeNode,
                                           a: seq<TreeNode>, b: seq<TreeNode>,
                                           includes: (TreeNode, seq<string>, TreeNode) -> bool)
    ensures Restricts(table, target, a + b, includes) <==>
              Restricts(table, target, a, includes) && Restricts(table, target, b, includes)
  {
    var list := RestrictionList(table, target);
    if list.Some? && |list.value| > 0 {
      forall i | 0 <= i < |a + b|
        ensures (a + b)[i] == if i < |a| then a[i] else b[i - |a|]
      {
      }
      if Restricts(table, target, a, includes) && Restricts(table, target, b, includes) {
        forall i | 0 <= i < |a + b|
          ensures includes((a + b)[i], list.value, target)
        {
          if i >= |a| {
            assert (a + b)[i] == b[i - |a|];
          }
        }
      }
      if Restricts(table, target, a + b, includes) {
        forall i | 0 <= i < |b|
          ensures includes(b[i], list.value, target)
        {
          assert (a + b)[|a| + i] == b[i];
        }
      }
    }
  }
}
