/**
 * The reactive externals layer: registry queries, the annotation test, the
 * wrap-eligibility classifier, in-place raw/observable marking, the deep converter
 * `toJS` and the dependency-collection probe `hasCollected`.
 */
module Externals {
  import opened JsHeap
  import opened Wrappers

  // ---------------------------------------------------------------------------
  // Value-kind checkers (the `./checkers` predicates, as kind tags)
  // ---------------------------------------------------------------------------

  /** `isValid`: neither undefined nor null. */
  predicate IsValid(v: Value)
  {
    !v.Undef? && !v.Null?
  }

  predicate IsArr(v: Value)
  {
    v.Ref? && v.obj.kind == ArrayObj
  }

  predicate IsPlainObj(v: Value)
  {
    v.Ref? && v.obj.kind == PlainObj
  }

  /** `isMap || isWeakMap || isSet || isWeakSet`. */
  predicate IsCollection(v: Value)
  {
    v.Ref? && v.obj.kind in {MapObj, WeakMapObj, SetObj, WeakSetObj}
  }

  // ---------------------------------------------------------------------------
  // Shapes owned by foreign code
  // ---------------------------------------------------------------------------

  /** A React element (`$$typeof` and `_owner`), a moment object or a JSON Schema object. */
  predicate IsForeignShape(o: Obj)
    ensures (forall i :: 0 <= i < |Chain(o)| ==>
               && "$$typeof" !in Chain(o)[i].props
               && "_isAMomentObject" !in Chain(o)[i].props
               && "_isJSONSchemaObject" !in Chain(o)[i].props)
            ==> !IsForeignShape(o)
  {
    || (Has(o, "$$typeof") && Has(o, "_owner"))
    || Truthy(Get(o, "_isAMomentObject"))
    || Truthy(Get(o, "_isJSONSchemaObject"))
  }

  /** A `toJS` or `toJSON` method is reachable on the object, own or inherited. */
  predicate HasConversionMethod(o: Obj)
    ensures (forall i :: 0 <= i < |Chain(o)| ==> "toJS" !in Chain(o)[i].props && "toJSON" !in Chain(o)[i].props)
            ==> !HasConversionMethod(o)
  {
    IsFn(Get(o, "toJS")) || IsFn(Get(o, "toJSON"))
  }

  /** The structural exclusions the classifier applies to untagged plain objects. */
  predicate Excluded(o: Obj)
  {
    IsForeignShape(o) || HasConversionMethod(o)
  }

  // ---------------------------------------------------------------------------
  // Wrap-eligibility classifier
  // ---------------------------------------------------------------------------

  /** `isSupportObservable`: an ordered, first-match-wins decision. A raw tag beats an
      observable tag, which beats the structural exclusions. */
  function IsSupportObservable(target: Value): (r: bool)
    reads Footprint(target)
    ensures !IsValid(target) ==> !r
    ensures IsArr(target) ==> r
    ensures IsCollection(target) ==> r
    ensures IsPlainObj(target) && RawTagged(target.obj) ==> !r
    ensures IsPlainObj(target) && !RawTagged(target.obj) && ObservableTagged(target.obj) ==> r
    ensures IsPlainObj(target) && !RawTagged(target.obj) && !ObservableTagged(target.obj) ==>
              (r <==> !Excluded(target.obj))
    ensures r ==> IsArr(target) || IsPlainObj(target) || IsCollection(target)
  {
    if !IsValid(target) then false
    else if IsArr(target) then true
    else if IsPlainObj(target) then
      var o := target.obj;
      if RawTagged(o) then false
      else if ObservableTagged(o) then true
      else if Has(o, "$$typeof") && Has(o, "_owner") then false
      else if Truthy(Get(o, "_isAMomentObject")) then false
      else if Truthy(Get(o, "_isJSONSchemaObject")) then false
      else if IsFn(Get(o, "toJS")) then false
      else if IsFn(Get(o, "toJSON")) then false
      else true
    else if IsCollection(target) then true
    else false
  }

  /** After `markRaw(Ctor)`, an instance whose chain reaches `Ctor.prototype` is never
      eligible, even when the instance itself carries an observable tag. */
  lemma {:induction false} MarkedPrototypeMakesInstancesRaw(ctor: Obj, o: Obj)
    requires ctor.kind == FunctionObj && ctor.prototype != null && ctor.prototype.rawTag
    requires o.kind == PlainObj && ctor.prototype in o.protos
    ensures !IsSupportObservable(Ref(o))
  {
    var i :| 0 <= i < |o.protos| && o.protos[i] == ctor.prototype;
    assert Chain(o)[i + 1] == ctor.prototype;
  }

  // ---------------------------------------------------------------------------
  // Annotation test
  // ---------------------------------------------------------------------------

  /** `isAnnotation`: the target itself when it is falsy, otherwise whether its
      MakeObservableSymbol property is truthy. */
  function IsAnnotation(target: Value): (r: Value)
    reads Footprint(target)
    ensures !Truthy(target) ==> r == target
    ensures Truthy(target) ==> r.Bool?
    ensures Truthy(r) <==> target.Ref? && AnnotationTagged(target.obj)
  {
    if !Truthy(target) then target
    else Bool(target.Ref? && AnnotationTagged(target.obj))
  }

  // ---------------------------------------------------------------------------
  // In-place marking
  // ---------------------------------------------------------------------------

  /** How a marking call ends: it returns a value or throws a TypeError (a property
      write on a primitive or on an undefined `prototype`, in strict mode). */
  datatype Completion = Return(value: Value) | TypeError

  /** The object a marking call writes its tag on: a function's `prototype`, or the
      target itself. Null when there is no such object. */
  function TagTarget(target: Value): Obj?
  {
    if !target.Ref? then null
    else if target.obj.kind == FunctionObj then target.obj.prototype
    else target.obj
  }

  function TagFrame(target: Value): set<Obj>
  {
    if TagTarget(target) == null then {} else {TagTarget(target)}
  }

  /** `markRaw`. */
  method MarkRaw(target: Value) returns (c: Completion)
    modifies TagFrame(target)
    ensures !Truthy(target) ==> c == Return(Undef)
    ensures Truthy(target) && TagTarget(target) == null ==> c == TypeError
    ensures TagTarget(target) != null ==> c == Return(target)
    ensures var t := TagTarget(target);
            t != null ==>
              && t.rawTag
              && t.observableTag == old(t.observableTag) && t.annotationTag == old(t.annotationTag)
    // idempotence: marking an already-marked target changes nothing
    ensures var t := TagTarget(target); t != null && old(t.rawTag) ==> unchanged(t)
  {
    if !Truthy(target) {
      return Return(Undef);
    }
    var t := TagTarget(target);
    if t == null {
      return TypeError;
    }
    t.rawTag := true;
    c := Return(target);
  }

  /** `markObservable`. */
  method MarkObservable(target: Value) returns (c: Completion)
    modifies TagFrame(target)
    ensures !Truthy(target) ==> c == Return(Undef)
    ensures Truthy(target) && TagTarget(target) == null ==> c == TypeError
    ensures TagTarget(target) != null ==> c == Return(target)
    ensures var t := TagTarget(target);
            t != null ==>
              && t.observableTag
              && t.rawTag == old(t.rawTag) && t.annotationTag == old(t.annotationTag)
    // idempotence: marking an already-marked target changes nothing
    ensures var t := TagTarget(target); t != null && old(t.observableTag) ==> unchanged(t)
  {
    if !Truthy(target) {
      return Return(Undef);
    }
    var t := TagTarget(target);
    if t == null {
      return TypeError;
    }
    t.observableTag := true;
    c := Return(target);
  }

  // ---------------------------------------------------------------------------
  // Deep converter: the specification
  // ---------------------------------------------------------------------------

  /** What `toJS` produces: the same reference, a fresh array, a fresh object, or the
      result of calling the object's own `toJS`/`toJSON` method (foreign code). */
  datatype Out =
    | Keep(v: Value)
    | NewArray(items: seq<Out>)
    | NewObject(entries: seq<Entry>)
    | Invoked(target: Obj, name: string)

  datatype Entry = Entry(key: string, value: Out)

  ghost predicate ValueIn(v: Value, u: set<Obj>)
  {
    v.Ref? ==> v.obj in u
  }

  /** `u` holds every object reachable through elements, properties, prototypes and
      the registry, and every object in it is well formed. A proxy has the kind of its
      raw object, since `Array.isArray` and `Object.prototype.toString` see through it. */
  ghost predicate Closed(u: set<Obj>, reg: map<Obj, Obj>)
  {
    && (forall p :: p in reg && p in u ==> reg[p] in u && p.kind == reg[p].kind)
    && forall o :: o in u ==>
         && o.Valid()
         && (forall i :: 0 <= i < |o.protos| ==> o.protos[i] in u)
         && (forall i :: 0 <= i < |o.elems| ==> ValueIn(o.elems[i], u))
         && (forall k :: k in o.props ==> ValueIn(o.props[k], u))
  }

  /** Unwrapping through the registry: the raw object of a proxy, or the object itself. */
  function Unwrap(reg: map<Obj, Obj>, o: Obj): (r: Obj)
    ensures o in reg ==> r == reg[o]
    ensures o !in reg ==> r == o
  {
    if o in reg then reg[o] else o
  }

  /** The identities `toJS` records as visited: arrays, and plain objects whose
      unwrapped form is not excluded. */
  ghost predicate Expandable(reg: map<Obj, Obj>, o: Obj)
  {
    o.kind == ArrayObj || (o.kind == PlainObj && !Excluded(Unwrap(reg, o)))
  }

  /** `_toJS` with the shared visited set threaded through: the result and the visited
      set afterwards. Termination: every expansion adds a not-yet-visited identity of `u`. */
  ghost function Convert(u: set<Obj>, reg: map<Obj, Obj>, v: Value, visited: set<Obj>): (res: (Out, set<Obj>))
    requires Closed(u, reg) && ValueIn(v, u) && visited <= u
    ensures visited <= res.1 <= u
    decreases u - visited, 0
  {
    if IsArr(v) then
      var o := v.obj;
      if o in visited then (Keep(v), visited)
      else
        var src := Unwrap(reg, o);
        var (items, vis) := ConvertItems(u, reg, src.elems, 0, visited + {o});
        (NewArray(items), vis)
    else if IsPlainObj(v) then
      var o := v.obj;
      if o in visited then (Keep(v), visited)
      else
        var src := Unwrap(reg, o);
        if IsForeignShape(src) then (Keep(Ref(src)), visited)
        else if IsFn(Get(src, "toJS")) then (Invoked(src, "toJS"), visited)
        else if IsFn(Get(src, "toJSON")) then (Invoked(src, "toJSON"), visited)
        else
          var (entries, vis) := ConvertEntries(u, reg, src, 0, visited + {o});
          (NewObject(entries), vis)
    else (Keep(v), visited)
  }

  /** The `forEach` over an array's elements from index `i` on. */
  ghost function ConvertItems(u: set<Obj>, reg: map<Obj, Obj>, items: seq<Value>, i: nat, visited: set<Obj>): (res: (seq<Out>, set<Obj>))
    requires Closed(u, reg) && visited <= u && i <= |items|
    requires forall j :: 0 <= j < |items| ==> ValueIn(items[j], u)
    ensures |res.0| == |items| - i
    ensures visited <= res.1 <= u
    decreases u - visited, 1, |items| - i
  {
    if i == |items| then ([], visited)
    else
      var (x, vis1) := Convert(u, reg, items[i], visited);
      var (rest, vis2) := ConvertItems(u, reg, items, i + 1, vis1);
      ([x] + rest, vis2)
  }

  /** The `for…in` over an object's own enumerable keys from position `i` on. */
  ghost function ConvertEntries(u: set<Obj>, reg: map<Obj, Obj>, src: Obj, i: nat, visited: set<Obj>): (res: (seq<Entry>, set<Obj>))
    requires Closed(u, reg) && visited <= u && src in u && i <= |src.keys|
    ensures |res.0| == |src.keys| - i
    ensures visited <= res.1 <= u
    decreases u - visited, 1, |src.keys| - i
  {
    if i == |src.keys| then ([], visited)
    else
      var key := src.keys[i];
      var (x, vis1) := Convert(u, reg, src.props[key], visited);
      var (rest, vis2) := ConvertEntries(u, reg, src, i + 1, vis1);
      ([Entry(key, x)] + rest, vis2)
  }

  // ---------------------------------------------------------------------------
  // Deep converter: properties of the specification
  // ---------------------------------------------------------------------------

  /** Values that are neither arrays nor plain objects come back as the same
      reference, registered proxies of Maps and Sets included. */
  lemma PassThrough(u: set<Obj>, reg: map<Obj, Obj>, v: Value, visited: set<Obj>)
    requires Closed(u, reg) && ValueIn(v, u) && visited <= u
    requires !IsArr(v) && !IsPlainObj(v)
    ensures Convert(u, reg, v, visited) == (Keep(v), visited)
  {
  }

  /** An array or plain object reached a second time, through a cycle or a shared
      sibling, comes back as the original reference and changes nothing. */
  lemma RevisitKeepsOriginal(u: set<Obj>, reg: map<Obj, Obj>, v: Value, visited: set<Obj>)
    requires Closed(u, reg) && ValueIn(v, u) && visited <= u
    requires (IsArr(v) || IsPlainObj(v)) && v.obj in visited
    ensures Convert(u, reg, v, visited) == (Keep(v), visited)
  {
  }

  /** A React element, moment or JSON Schema object comes back as its unwrapped raw
      object, and is not recorded as visited. */
  lemma ForeignShapeReturnsRaw(u: set<Obj>, reg: map<Obj, Obj>, o: Obj, visited: set<Obj>)
    requires Closed(u, reg) && o in u && visited <= u
    requires o.kind == PlainObj && o !in visited && IsForeignShape(Unwrap(reg, o))
    ensures Convert(u, reg, Ref(o), visited) == (Keep(Ref(Unwrap(reg, o))), visited)
  {
  }

  /** A `toJS` method, own or inherited, is preferred over a `toJSON` method. */
  lemma ToJSMethodPreferred(u: set<Obj>, reg: map<Obj, Obj>, o: Obj, visited: set<Obj>)
    requires Closed(u, reg) && o in u && visited <= u
    requires o.kind == PlainObj && o !in visited && !IsForeignShape(Unwrap(reg, o))
    requires IsFn(Get(Unwrap(reg, o), "toJS"))
    ensures Convert(u, reg, Ref(o), visited) == (Invoked(Unwrap(reg, o), "toJS"), visited)
  {
  }

  /** `toJS` has no OBSERVABLE_TYPE check: an observably-tagged object with a `toJSON`
      method is classified eligible, yet `toJS` still calls its `toJSON`. */
  lemma ObservableTagDoesNotStopToJSON(u: set<Obj>, reg: map<Obj, Obj>, o: Obj)
    requires Closed(u, reg) && o in u && o !in reg
    requires o.kind == PlainObj && o.observableTag && !RawTagged(o)
    requires !IsForeignShape(o) && !IsFn(Get(o, "toJS")) && IsFn(Get(o, "toJSON"))
    ensures IsSupportObservable(Ref(o))
    ensures Convert(u, reg, Ref(o), {}).0 == Invoked(o, "toJSON")
  {
    assert Chain(o)[0] == o;
  }

  /** An unvisited array becomes a fresh array as long as the unwrapped array, and the
      identity recorded as visited is the original one (the proxy, if given one). */
  lemma {:induction false} ArrayExpands(u: set<Obj>, reg: map<Obj, Obj>, o: Obj, visited: set<Obj>)
    requires Closed(u, reg) && o in u && visited <= u
    requires o.kind == ArrayObj && o !in visited
    ensures var res := Convert(u, reg, Ref(o), visited);
            && res.0.NewArray?
            && |res.0.items| == |Unwrap(reg, o).elems|
            && o in res.1
  {
  }

  /** An ordinary unvisited plain object becomes a fresh object whose keys are exactly
      the unwrapped object's own enumerable keys, in order. */
  lemma {:induction false} ObjectExpands(u: set<Obj>, reg: map<Obj, Obj>, o: Obj, visited: set<Obj>)
    requires Closed(u, reg) && o in u && visited <= u
    requires o.kind == PlainObj && o !in visited && !Excluded(Unwrap(reg, o))
    ensures var res := Convert(u, reg, Ref(o), visited);
            && res.0.NewObject?
            && |res.0.entries| == |Unwrap(reg, o).keys|
            && (forall j :: 0 <= j < |res.0.entries| ==> res.0.entries[j].key == Unwrap(reg, o).keys[j])
            && o in res.1
  {
    var src := Unwrap(reg, o);
    var conv := ConvertEntries(u, reg, src, 0, visited + {o});
    assert Convert(u, reg, Ref(o), visited) == (NewObject(conv.0), conv.1);
    EntriesFollowKeys(u, reg, src, 0, visited + {o});
  }

  /** The j-th converted element is the conversion of the j-th element under the
      visited set its predecessors left behind. */
  lemma {:induction false} ConvertItemsAt(u: set<Obj>, reg: map<Obj, Obj>, items: seq<Value>, i: nat, j: nat, visited: set<Obj>)
    requires Closed(u, reg) && visited <= u && i <= j < |items|
    requires forall k :: 0 <= k < |items| ==> ValueIn(items[k], u)
    ensures ConvertItems(u, reg, items, i, visited).0[j - i]
         == Convert(u, reg, items[j], ConvertItems(u, reg, items[..j], i, visited).1).0
    decreases j - i
  {
    var prefix := items[..j];
    assert forall k :: 0 <= k < |prefix| ==> ValueIn(prefix[k], u);
    if i < j {
      var vis1 := Convert(u, reg, items[i], visited).1;
      assert prefix[i] == items[i];
      ConvertItemsAt(u, reg, items, i + 1, j, vis1);
    }
  }

  /** Only arrays and ordinary plain objects are ever recorded as visited: the
      excluded shapes, and everything else, never are. */
  lemma {:induction false} VisitedOnlyExpandable(u: set<Obj>, reg: map<Obj, Obj>, v: Value, visited: set<Obj>)
    requires Closed(u, reg) && ValueIn(v, u) && visited <= u
    ensures forall o :: o in Convert(u, reg, v, visited).1 - visited ==> Expandable(reg, o)
    decreases u - visited, 0
  {
    if (IsArr(v) || IsPlainObj(v)) && v.obj !in visited {
      var o := v.obj;
      var src := Unwrap(reg, o);
      if IsArr(v) {
        ItemsVisitedOnlyExpandable(u, reg, src.elems, 0, visited + {o});
      } else if !Excluded(src) {
        EntriesVisitedOnlyExpandable(u, reg, src, 0, visited + {o});
      }
    }
  }

  lemma {:induction false} ItemsVisitedOnlyExpandable(u: set<Obj>, reg: map<Obj, Obj>, items: seq<Value>, i: nat, visited: set<Obj>)
    requires Closed(u, reg) && visited <= u && i <= |items|
    requires forall j :: 0 <= j < |items| ==> ValueIn(items[j], u)
    ensures forall o :: o in ConvertItems(u, reg, items, i, visited).1 - visited ==> Expandable(reg, o)
    decreases u - visited, 1, |items| - i
  {
    if i < |items| {
      var vis1 := Convert(u, reg, items[i], visited).1;
      VisitedOnlyExpandable(u, reg, items[i], visited);
      ItemsVisitedOnlyExpandable(u, reg, items, i + 1, vis1);
    }
  }

  lemma {:induction false} EntriesVisitedOnlyExpandable(u: set<Obj>, reg: map<Obj, Obj>, src: Obj, i: nat, visited: set<Obj>)
    requires Closed(u, reg) && visited <= u && src in u && i <= |src.keys|
    ensures forall o :: o in ConvertEntries(u, reg, src, i, visited).1 - visited ==> Expandable(reg, o)
    decreases u - visited, 1, |src.keys| - i
  {
    if i < |src.keys| {
      var value := src.props[src.keys[i]];
      var vis1 := Convert(u, reg, value, visited).1;
      VisitedOnlyExpandable(u, reg, value, visited);
      EntriesVisitedOnlyExpandable(u, reg, src, i + 1, vis1);
    }
  }

  /** A cycle back to an array (`a[k] = a`) leaves that slot pointing at the original array. */
  lemma SelfReferenceKeepsOriginal(u: set<Obj>, reg: map<Obj, Obj>, a: Obj, k: nat)
    requires Closed(u, reg) && a in u && a !in reg
    requires a.kind == ArrayObj && k < |a.elems| && a.elems[k] == Ref(a)
    ensures var res := Convert(u, reg, Ref(a), {}).0;
            res.NewArray? && k < |res.items| && res.items[k] == Keep(Ref(a))
  {
    var items := a.elems;
    var none: set<Obj> := {};
    assert none + {a} == {a};
    var conv := ConvertItems(u, reg, items, 0, {a});
    assert Convert(u, reg, Ref(a), {}) == (NewArray(conv.0), conv.1);
    ConvertItemsAt(u, reg, items, 0, k, {a});
    assert forall j :: 0 <= j < |items[..k]| ==> ValueIn(items[..k][j], u);
    var before := ConvertItems(u, reg, items[..k], 0, {a}).1;
    assert a in before;
    RevisitKeepsOriginal(u, reg, Ref(a), before);
  }

  /** The converted entries carry the object's own keys, in enumeration order. */
  lemma {:induction false} EntriesFollowKeys(u: set<Obj>, reg: map<Obj, Obj>, src: Obj, i: nat, visited: set<Obj>)
    requires Closed(u, reg) && visited <= u && src in u && i <= |src.keys|
    ensures forall j :: 0 <= j < |src.keys| - i ==> ConvertEntries(u, reg, src, i, visited).0[j].key == src.keys[i + j]
    decreases |src.keys| - i
  {
    if i < |src.keys| {
      var key := src.keys[i];
      var (x, vis1) := Convert(u, reg, src.props[key], visited);
      var rest := ConvertEntries(u, reg, src, i + 1, vis1).0;
      var res := ConvertEntries(u, reg, src, i, visited).0;
      assert res == [Entry(key, x)] + rest;
      EntriesFollowKeys(u, reg, src, i + 1, vis1);
      forall j | 0 <= j < |res|
        ensures res[j].key == src.keys[i + j]
      {
        if j > 0 {
          assert res[j] == rest[j - 1];
          assert rest[j - 1].key == src.keys[i + 1 + (j - 1)];
        }
      }
    }
  }

  // ---------------------------------------------------------------------------
  // Deep converter: the algorithm
  // ---------------------------------------------------------------------------

  /** `_toJS`. The visited set the closure holds is threaded through: it comes in as
      `visited` and goes out, grown, as `visitedOut`. */
  method ConvertValue(ghost u: set<Obj>, reg: map<Obj, Obj>, values: Value, visited: set<Obj>)
    returns (r: Out, visitedOut: set<Obj>)
    requires Closed(u, reg) && ValueIn(values, u) && visited <= u
    ensures (r, visitedOut) == Convert(u, reg, values, visited)
    decreases u - visited, 1
  {
    if IsArr(values) {
      var origin := values.obj;
      if origin in visited {
        return Keep(values), visited;
      }
      var src := Unwrap(reg, origin);
      var items;
      items, visitedOut := CopyElements(u, reg, src, visited + {origin});
      r := NewArray(items);
    } else if IsPlainObj(values) {
      var origin := values.obj;
      if origin in visited {
        return Keep(values), visited;
      }
      var src := Unwrap(reg, origin);
      if IsForeignShape(src) {
        return Keep(Ref(src)), visited;
      } else if IsFn(Get(src, "toJS")) {
        return Invoked(src, "toJS"), visited;
      } else if IsFn(Get(src, "toJSON")) {
        return Invoked(src, "toJSON"), visited;
      }
      var entries;
      entries, visitedOut := CopyProperties(u, reg, src, visited + {origin});
      r := NewObject(entries);
    } else {
      r, visitedOut := Keep(values), visited;
    }
  }

  /** One step of the element loop: the element at `i`, then the rest. */
  lemma ConvertItemsStep(u: set<Obj>, reg: map<Obj, Obj>, src: Obj, i: nat, visited: set<Obj>)
    requires Closed(u, reg) && src in u && visited <= u && i < |src.elems|
    ensures forall j :: 0 <= j < |src.elems| ==> ValueIn(src.elems[j], u)
    ensures var (x, vis1) := Convert(u, reg, src.elems[i], visited);
            ConvertItems(u, reg, src.elems, i, visited)
            == ([x] + ConvertItems(u, reg, src.elems, i + 1, vis1).0, ConvertItems(u, reg, src.elems, i + 1, vis1).1)
  {
  }

  /** One step of the property loop: the key at `i`, then the rest. */
  lemma ConvertEntriesStep(u: set<Obj>, reg: map<Obj, Obj>, src: Obj, i: nat, visited: set<Obj>)
    requires Closed(u, reg) && src in u && visited <= u && i < |src.keys|
    ensures src.keys[i] in src.props && ValueIn(src.props[src.keys[i]], u)
    ensures var (x, vis1) := Convert(u, reg, src.props[src.keys[i]], visited);
            ConvertEntries(u, reg, src, i, visited)
            == ([Entry(src.keys[i], x)] + ConvertEntries(u, reg, src, i + 1, vis1).0, ConvertEntries(u, reg, src, i + 1, vis1).1)
  {
  }

  /** One iteration of the `forEach`: the conversion of the element at `i`. */
  method CopyElement(ghost u: set<Obj>, reg: map<Obj, Obj>, src: Obj, i: nat, visited: set<Obj>)
    returns (x: Out, visitedOut: set<Obj>)
    requires Closed(u, reg) && src in u && visited <= u && i < |src.elems|
    ensures visited <= visitedOut <= u
    ensures ConvertItems(u, reg, src.elems, i, visited)
         == ([x] + ConvertItems(u, reg, src.elems, i + 1, visitedOut).0, ConvertItems(u, reg, src.elems, i + 1, visitedOut).1)
    decreases u - visited, 2
  {
    ConvertItemsStep(u, reg, src, i, visited);
    x, visitedOut := ConvertValue(u, reg, src.elems[i], visited);
  }

  /** The `forEach` that pushes the conversion of each element of `src` onto `res`. */
  method CopyElements(ghost u: set<Obj>, reg: map<Obj, Obj>, src: Obj, visited: set<Obj>)
    returns (res: seq<Out>, visitedOut: set<Obj>)
    requires Closed(u, reg) && src in u && visited <= u
    ensures (res, visitedOut) == ConvertItems(u, reg, src.elems, 0, visited)
    decreases u - visited, 3
  {
    ghost var whole := ConvertItems(u, reg, src.elems, 0, visited);
    ghost var rest := whole;
    res, visitedOut := [], visited;
    var i := 0;
    while i < |src.elems|
      invariant 0 <= i <= |src.elems|
      invariant visited <= visitedOut <= u
      invariant rest == ConvertItems(u, reg, src.elems, i, visitedOut)
      invariant whole.0 == res + rest.0 && whole.1 == rest.1
    {
      var x;
      x, visitedOut := CopyElement(u, reg, src, i, visitedOut);
      rest := ConvertItems(u, reg, src.elems, i + 1, visitedOut);
      res := res + [x];
      i := i + 1;
    }
    assert rest == ConvertItems(u, reg, src.elems, |src.elems|, visitedOut) == ([], visitedOut);
    assert res + rest.0 == res;
  }

  /** One iteration of the `for…in`: `res[key]` for the key at `i`. */
  method CopyProperty(ghost u: set<Obj>, reg: map<Obj, Obj>, src: Obj, i: nat, visited: set<Obj>)
    returns (e: Entry, visitedOut: set<Obj>)
    requires Closed(u, reg) && src in u && visited <= u && i < |src.keys|
    ensures visited <= visitedOut <= u
    ensures ConvertEntries(u, reg, src, i, visited)
         == ([e] + ConvertEntries(u, reg, src, i + 1, visitedOut).0, ConvertEntries(u, reg, src, i + 1, visitedOut).1)
    decreases u - visited, 2
  {
    ConvertEntriesStep(u, reg, src, i, visited);
    var key := src.keys[i];
    var x;
    x, visitedOut := ConvertValue(u, reg, src.props[key], visited);
    e := Entry(key, x);
  }

  /** The `for…in` that sets `res[key]` to the conversion of each own enumerable property of `src`. */
  method CopyProperties(ghost u: set<Obj>, reg: map<Obj, Obj>, src: Obj, visited: set<Obj>)
    returns (res: seq<Entry>, visitedOut: set<Obj>)
    requires Closed(u, reg) && src in u && visited <= u
    ensures (res, visitedOut) == ConvertEntries(u, reg, src, 0, visited)
    decreases u - visited, 3
  {
    ghost var whole := ConvertEntries(u, reg, src, 0, visited);
    ghost var rest := whole;
    res, visitedOut := [], visited;
    var i := 0;
    while i < |src.keys|
      invariant 0 <= i <= |src.keys|
      invariant visited <= visitedOut <= u
      invariant rest == ConvertEntries(u, reg, src, i, visitedOut)
      invariant whole.0 == res + rest.0 && whole.1 == rest.1
    {
      var e;
      e, visitedOut := CopyProperty(u, reg, src, i, visitedOut);
      rest := ConvertEntries(u, reg, src, i + 1, visitedOut);
      res := res + [e];
      i := i + 1;
    }
    assert rest == ConvertEntries(u, reg, src, |src.keys|, visitedOut) == ([], visitedOut);
    assert res + rest.0 == res;
  }

  // ---------------------------------------------------------------------------
  // The registry, the collection flag and the probe
  // ---------------------------------------------------------------------------

  /** What a probed callback does, step by step, as far as the collection flag can
      tell: a read of a tracked observable property, other work, or a nested probe. */
  datatype Step = TrackedRead | Untracked | Probe(inner: Option<Callback>)
  datatype Callback = Done | Then(step: Step, rest: Callback)

  /** The flag after running `cb` from flag value `flag`. */
  function FlagAfter(cb: Callback, flag: bool): (r: bool)
    ensures NoProbe(cb) ==> (r <==> flag || MakesTrackedRead(cb))
    decreases cb
  {
    match cb
    case Done => flag
    case Then(s, rest) => FlagAfter(rest, StepFlag(s, flag))
  }

  function StepFlag(s: Step, flag: bool): bool
    decreases s
  {
    match s
    case TrackedRead => true
    case Untracked => flag
    case Probe(inner) => Collected(inner)
  }

  /** What `hasCollected(callback)` returns. */
  function Collected(callback: Option<Callback>): (r: bool)
    ensures callback.None? ==> !r
    ensures callback.Some? && NoProbe(callback.value) ==> (r <==> MakesTrackedRead(callback.value))
    decreases callback
  {
    callback.Some? && FlagAfter(callback.value, false)
  }

  /** The process-wide state the layer reads: the proxy→raw registry `ProxyRaw` and
      the flag `DependencyCollected.value`. */
  class Environment {
    var proxyRaw: map<Obj, Obj>
    var dependencyCollected: bool

    constructor (proxyRaw: map<Obj, Obj>)
      ensures this.proxyRaw == proxyRaw && !dependencyCollected
    {
      this.proxyRaw := proxyRaw;
      dependencyCollected := false;
    }

    /** No raw object is itself a registered proxy. */
    ghost predicate Separated()
      reads this
    {
      forall p :: p in proxyRaw ==> proxyRaw[p] !in proxyRaw
    }

    /** `raw`: the registered raw object of a proxy, otherwise undefined. */
    function Raw(target: Value): (r: Value)
      reads this
      ensures r == Undef || r.Ref?
      ensures r.Ref? ==> target.Ref? && target.obj in proxyRaw && r.obj == proxyRaw[target.obj]
      ensures target.Ref? && target.obj in proxyRaw ==> r == Ref(proxyRaw[target.obj])
    {
      if target.Ref? && target.obj in proxyRaw then Ref(proxyRaw[target.obj]) else Undef
    }

    /** `isObservable`: the target is a registered proxy, exactly when `raw` finds it. */
    function IsObservable(target: Value): (r: bool)
      reads this
      ensures r <==> target.Ref? && target.obj in proxyRaw
      ensures r <==> Raw(target).Ref?
    {
      target.Ref? && target.obj in proxyRaw
    }

    /** Unwrapping an already-raw value gives undefined, and the raw value is not observable. */
    lemma RawOfRawIsUndefined(target: Value)
      requires Separated() && IsObservable(target)
      ensures !IsObservable(Raw(target))
      ensures Raw(Raw(target)) == Undef
    {
    }

    /** `toJS`. The method has no modifies clause: the input graph and the registry
        are left untouched. */
    method ToJS(ghost u: set<Obj>, values: Value) returns (r: Out)
      requires Closed(u, proxyRaw) && ValueIn(values, u)
      ensures r == Convert(u, proxyRaw, values, {}).0
    {
      var visited;
      r, visited := ConvertValue(u, proxyRaw, values, {});
    }

    /** `hasCollected`: resets the flag, runs the callback if there is one, and returns
        the flag, which is left as the callback set it. */
    method HasCollected(callback: Option<Callback>) returns (r: bool)
      modifies this
      ensures r == Collected(callback)
      ensures dependencyCollected == r && proxyRaw == old(proxyRaw)
      decreases callback, 1
    {
      dependencyCollected := false;
      if callback.Some? {
        RunCallback(callback.value);
      }
      r := dependencyCollected;
    }

    /** Runs a callback's steps against the flag. */
    method RunCallback(cb: Callback)
      modifies this
      ensures dependencyCollected == FlagAfter(cb, old(dependencyCollected))
      ensures proxyRaw == old(proxyRaw)
      decreases cb, 0
    {
      match cb
      case Done =>
      case Then(s, rest) =>
        match s {
          case TrackedRead => dependencyCollected := true;
          case Untracked =>
          case Probe(inner) => var _ := HasCollected(inner);
        }
        RunCallback(rest);
    }
  }

  /** A callback that reads no tracked property, at any depth, leaves the flag false. */
  ghost predicate ReadsNothing(cb: Callback)
    decreases cb
  {
    match cb
    case Done => true
    case Then(s, rest) =>
      && (s.Probe? && s.inner.Some? ==> ReadsNothing(s.inner.value))
      && !s.TrackedRead?
      && ReadsNothing(rest)
  }

  lemma {:induction false} QuietCallbackNotCollected(cb: Callback, flag: bool)
    requires ReadsNothing(cb)
    ensures FlagAfter(cb, flag) == (flag && NoProbe(cb))
    decreases cb
  {
    match cb
    case Done =>
    case Then(s, rest) =>
      if s.Probe? && s.inner.Some? {
        QuietCallbackNotCollected(s.inner.value, false);
      }
      QuietCallbackNotCollected(rest, StepFlag(s, flag));
  }

  /** The callback makes no nested probe at its top level. */
  predicate NoProbe(cb: Callback)
    decreases cb
  {
    cb.Done? || (!cb.step.Probe? && NoProbe(cb.rest))
  }

  /** With no callback, or one that reads no tracked property, the probe returns false. */
  lemma QuietProbeIsFalse(callback: Option<Callback>)
    requires callback.Some? ==> ReadsNothing(callback.value)
    ensures !Collected(callback)
  {
    if callback.Some? {
      QuietCallbackNotCollected(callback.value, false);
    }
  }

  /** The callback makes a tracked read at its top level. */
  predicate MakesTrackedRead(cb: Callback)
    decreases cb
  {
    cb.Then? && (cb.step.TrackedRead? || MakesTrackedRead(cb.rest))
  }

  /** Some top-level step is a tracked read with no nested probe after it. */
  predicate ReadAfterLastProbe(cb: Callback)
    decreases cb
  {
    cb.Then? && ((cb.step.TrackedRead? && NoProbe(cb.rest)) || ReadAfterLastProbe(cb.rest))
  }

  /** A tracked read at any position, with no nested probe after it, leaves the flag
      true whatever it was before. */
  lemma {:induction false} ReadAfterLastProbeCollected(cb: Callback, flag: bool)
    requires ReadAfterLastProbe(cb)
    ensures FlagAfter(cb, flag)
    decreases cb
  {
    if !(cb.step.TrackedRead? && NoProbe(cb.rest)) {
      ReadAfterLastProbeCollected(cb.rest, StepFlag(cb.step, flag));
    }
  }

  /** So `hasCollected` returns true for such a callback. */
  lemma ReadAfterLastProbeMeansCollected(cb: Callback)
    requires ReadAfterLastProbe(cb)
    ensures Collected(Some(cb))
  {
    ReadAfterLastProbeCollected(cb, false);
  }

  /** Probes are not reentrant: a nested probe resets the shared flag and hides a
      tracked read the outer callback made before it. */
  lemma NestedProbeHidesEarlierRead()
    ensures !Collected(Some(Then(TrackedRead, Then(Probe(None), Done))))
  {
  }
}
