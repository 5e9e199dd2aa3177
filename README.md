# Reactive externals and the designable field core, in Dafny

This project models two small cores of the formily/designable code base and proves
what they promise.

**The reactive externals layer** is `packages/reactive/src/externals.ts`. It covers:

- the registry queries `isObservable` and `raw` over the proxy→raw registry `ProxyRaw`;
- the annotation test `isAnnotation`;
- the wrap-eligibility classifier `isSupportObservable`;
- the in-place markers `markRaw` and `markObservable`;
- the deep converter `toJS`, with its shared `visited` set;
- the dependency-collection probe `hasCollected`.

JavaScript objects are a class `JsHeap.Obj`. Each has a fixed kind, a fixed prototype
chain, array elements, own enumerable string-keyed properties and the three symbol tags.
The marking methods write those tags in place. The registry and the collection flag are
the fields of `Externals.Environment`. `toJS` is split in two:

- a ghost specification, `Externals.Convert`, which threads the visited set through the
  recursion and terminates because every expansion adds an identity not yet visited;
- the methods `ConvertValue`, `CopyElements` and `CopyProperties`, which have the
  source's loops and are proved equal to that specification.

**The designable field core** is `designable/antd/src/components/DesignableField/index.tsx`.
It covers:

- the expression recogniser `isExpression` (`/^\{\{.*\}\}$/`);
- the expression stripper `filterExpression`;
- the `SchemaStateMap` loop of `toDesignableFieldProps`, which copies schema keys to
  field-state keys;
- the drop-restriction predicates `calculateChildrenRestricts`,
  `calculateSiblingsRestricts` and `allowAppend`.

`filterExpression` is a pure specification, `Filtered`, together with an imperative
`FilterExpression` that has the source's reduction loops.

Three behaviours of the code are worth stating on their own:

- `toJS` has no OBSERVABLE_TYPE check. An object tagged by `markObservable` that carries
  a `toJSON` method is eligible for wrapping, and `toJS` still calls its `toJSON`
  (`Externals.ObservableTagDoesNotStopToJSON`).
- A registered proxy of a Map or a Set passes through `toJS` unchanged, so the result
  can still hold a wrapper (`Externals.PassThrough`).
- RAW_TYPE is read first, through the prototype chain, so a raw tag on a prototype beats
  an observable tag on the instance (`Externals.MarkedPrototypeMakesInstancesRaw`).

## Model

| member | source | states |
|---|---|---|
| Externals.IsSupportObservable | packages/reactive/src/externals.ts:30-60 | invalid → false; any array → true; Map/WeakMap/Set/WeakSet → true; on plain objects a raw tag (own or inherited) → false even with an observable tag; otherwise an observable tag → true; otherwise false iff a React element, moment, JSON Schema object or has a `toJS`/`toJSON` function on its chain; true only for arrays, plain objects and collections |
| Externals.MarkedPrototypeMakesInstancesRaw | packages/reactive/src/externals.ts:34-36 | after `markRaw(Ctor)`, any plain object whose chain reaches `Ctor.prototype` is ineligible |
| Externals.IsAnnotation | packages/reactive/src/externals.ts:26-28 | a falsy target is returned as is; a truthy one gives a boolean, true exactly when the MakeObservableSymbol property is truthy along its chain |
| Externals.MarkRaw | packages/reactive/src/externals.ts:62-70 | falsy → undefined and no write; a function's `prototype` is tagged, otherwise the target itself; the same reference is returned; nothing else on the tagged object changes; re-marking changes nothing; a truthy primitive or a function without `prototype` throws TypeError |
| Externals.MarkObservable | packages/reactive/src/externals.ts:72-80 | the same as `MarkRaw`, with the observable tag |
| Externals.Environment.Raw | packages/reactive/src/externals.ts:82 | a registered proxy gives exactly its registered raw object; anything else gives undefined |
| Externals.Environment.IsObservable | packages/reactive/src/externals.ts:22-24 | true iff the target is a key of the registry, that is exactly when `raw` finds it |
| Externals.Environment.RawOfRawIsUndefined | packages/reactive/src/externals.ts:82 | when no raw object is itself a proxy, `raw` of an already-raw value is undefined and that value is not observable |
| Externals.Unwrap | packages/reactive/src/externals.ts:92-94 | a registered proxy gives its raw object; any other object is itself |
| Externals.IsForeignShape | packages/reactive/src/externals.ts:109-114 | an object with none of `$$typeof`, `_isAMomentObject`, `_isJSONSchemaObject` on its chain is not a foreign shape |
| Externals.HasConversionMethod | packages/reactive/src/externals.ts:115-118 | an object with neither `toJS` nor `toJSON` on its chain has no conversion method |
| Externals.Convert | packages/reactive/src/externals.ts:86-132 | the conversion only adds identities of the closed universe to the visited set |
| Externals.ConvertItems | packages/reactive/src/externals.ts:96-99 | one converted item per remaining element; the visited set only grows |
| Externals.ConvertEntries | packages/reactive/src/externals.ts:121-126 | one converted entry per remaining own key; the visited set only grows |
| Externals.PassThrough | packages/reactive/src/externals.ts:129-131 | values that are neither arrays nor plain objects come back as the same reference, registered Map and Set proxies included, and nothing is visited |
| Externals.RevisitKeepsOriginal | packages/reactive/src/externals.ts:88-90 | an array or plain object reached again comes back as the original reference |
| Externals.ForeignShapeReturnsRaw | packages/reactive/src/externals.ts:102-114 | a React element, moment or JSON Schema object comes back as its unwrapped raw object and is not recorded as visited |
| Externals.ToJSMethodPreferred | packages/reactive/src/externals.ts:115-118 | a `toJS` method, own or inherited, is called in preference to `toJSON` |
| Externals.ObservableTagDoesNotStopToJSON | packages/reactive/src/externals.ts:37-39 | an observably-tagged object with `toJSON` is eligible, yet `toJS` calls its `toJSON` |
| Externals.ArrayExpands | packages/reactive/src/externals.ts:87-100 | an unvisited array becomes a fresh array as long as the unwrapped array, and the original identity is recorded as visited |
| Externals.ObjectExpands | packages/reactive/src/externals.ts:119-127 | an ordinary unvisited object becomes a fresh object whose keys are the unwrapped object's own enumerable keys, in order; the original identity is recorded |
| Externals.ConvertItemsAt | packages/reactive/src/externals.ts:97-99 | the j-th result element is the conversion of the j-th element under the visited set left by its predecessors |
| Externals.VisitedOnlyExpandable | packages/reactive/src/externals.ts:95-120 | only arrays and non-excluded plain objects are ever added to the visited set |
| Externals.ItemsVisitedOnlyExpandable | packages/reactive/src/externals.ts:97-99 | the same for an element loop |
| Externals.EntriesVisitedOnlyExpandable | packages/reactive/src/externals.ts:122-126 | the same for a property loop |
| Externals.SelfReferenceKeepsOriginal | packages/reactive/src/externals.ts:88-99 | an array that contains itself at index k converts to a fresh array whose slot k is the original array |
| Externals.EntriesFollowKeys | packages/reactive/src/externals.ts:122-124 | the converted entries carry the object's own keys in enumeration order |
| Externals.ConvertValue | packages/reactive/src/externals.ts:86-132 | `_toJS` returns what `Convert` specifies, and leaves the visited set that `Convert` specifies |
| Externals.CopyElement | packages/reactive/src/externals.ts:97-99 | one `forEach` iteration yields the first item of what `ConvertItems` specifies from index i, and leaves the visited set the rest starts from |
| Externals.ConvertItemsStep | packages/reactive/src/externals.ts:97-99 | the element loop from index i is the conversion of element i followed by the loop from i + 1 |
| Externals.CopyElements | packages/reactive/src/externals.ts:96-99 | the `forEach` loop produces what `ConvertItems` specifies |
| Externals.CopyProperty | packages/reactive/src/externals.ts:122-125 | one `for…in` iteration yields the entry for the key at i, as `ConvertEntries` specifies, and leaves the visited set the rest starts from |
| Externals.ConvertEntriesStep | packages/reactive/src/externals.ts:122-125 | the key at i is an own property; the property loop from i is its entry followed by the loop from i + 1 |
| Externals.CopyProperties | packages/reactive/src/externals.ts:121-126 | the `for…in` loop produces what `ConvertEntries` specifies |
| Externals.Environment.ToJS | packages/reactive/src/externals.ts:84-135 | `toJS` starts from an empty visited set, returns what `Convert` specifies and modifies nothing |
| Externals.Environment.constructor | packages/reactive/src/externals.ts:11-15 | an environment over a given registry, with the flag down |
| Externals.Environment.HasCollected | packages/reactive/src/externals.ts:137-141 | returns what `Collected` specifies; the flag is left at the returned value; the registry is unchanged |
| Externals.Environment.RunCallback | packages/reactive/src/externals.ts:139 | running the callback sets the flag as `FlagAfter` specifies |
| Externals.QuietCallbackNotCollected | packages/reactive/src/externals.ts:137-141 | a callback that reads nothing tracked ends with the flag true only if it was true and no nested probe reset it |
| Externals.QuietProbeIsFalse | packages/reactive/src/externals.ts:137-141 | with no callback, or one that reads nothing tracked, `hasCollected` returns false |
| Externals.ReadAfterLastProbeCollected | packages/reactive/src/externals.ts:137-141 | a tracked read at any position with no nested probe after it leaves the flag true, whatever it started as |
| Externals.ReadAfterLastProbeMeansCollected | packages/reactive/src/externals.ts:137-141 | such a callback makes `hasCollected` return true |
| Externals.FlagAfter | packages/reactive/src/externals.ts:137-141 | for a callback with no nested probe, the flag ends true iff it started true or the callback makes a tracked read |
| Externals.Collected | packages/reactive/src/externals.ts:137-141 | no callback → false; a callback with no nested probe → true iff it makes a tracked read |
| Externals.NestedProbeHidesEarlierRead | packages/reactive/src/externals.ts:138 | the flag is shared and reset by each probe, so a nested probe hides an earlier read |
| DesignableField.MatchesTail | designable/antd/src/components/DesignableField/index.tsx:58 | `.*\}\}$` matches from position i iff the rest ends in `}}` and holds no line terminator before it |
| DesignableField.IsExpression | designable/antd/src/components/DesignableField/index.tsx:58 | a string of length at least 4 that starts with `{{`, ends with `}}` and has no line terminator in between |
| DesignableField.ExpressionExamples | designable/antd/src/components/DesignableField/index.tsx:58 | `{{}}` and `{{a}}}` match; a line break inside, or a missing brace, does not |
| DesignableField.FilterScalar | designable/antd/src/components/DesignableField/index.tsx:82-85 | an expression string gives undefined; any other non-object value is returned unchanged |
| DesignableField.Filtered | designable/antd/src/components/DesignableField/index.tsx:60-86 | the result is never null; arrays stay arrays; objects and null give objects; undefined comes exactly from undefined or an expression string; any other scalar is returned unchanged |
| DesignableField.Drops | designable/antd/src/components/DesignableField/index.tsx:66-70 | an entry is dropped iff its value is undefined or an expression string |
| DesignableField.FilterItems | designable/antd/src/components/DesignableField/index.tsx:71-73 | the filtered array is no longer than the input and holds no undefined or null |
| DesignableField.FilterMembers | designable/antd/src/components/DesignableField/index.tsx:74-75 | the filtered object has no more members than the input and no undefined or null value |
| DesignableField.FilterMembersKeepsDistinct | designable/antd/src/components/DesignableField/index.tsx:74-75 | filtering an object with distinct keys gives an object with distinct keys |
| DesignableField.FilterItemsCompacts | designable/antd/src/components/DesignableField/index.tsx:66-78 | the filtered array holds no undefined and no null; it is no longer than the input; it holds the filtered value of every kept element and nothing else |
| DesignableField.FilterItemsAppend | designable/antd/src/components/DesignableField/index.tsx:71-73 | filtering respects concatenation, so kept elements stay in their original order |
| DesignableField.FilterMembersKeys | designable/antd/src/components/DesignableField/index.tsx:66-78 | each input key not dropped appears with its filtered value; every output member is such a key with its filtered value, so the keys are a subset of the input's |
| DesignableField.FilterMembersAppend | designable/antd/src/components/DesignableField/index.tsx:74-75 | filtering respects concatenation, so kept keys stay in enumeration order |
| DesignableField.FilteredIsExpressionFree | designable/antd/src/components/DesignableField/index.tsx:60-86 | no expression string appears anywhere in the result, at any depth |
| DesignableField.FilterItemsExpressionFree | designable/antd/src/components/DesignableField/index.tsx:66-72 | no element of a filtered array holds an expression at any depth |
| DesignableField.FilterMembersExpressionFree | designable/antd/src/components/DesignableField/index.tsx:66-75 | no value of a filtered object holds an expression at any depth |
| DesignableField.FilterIdempotent | designable/antd/src/components/DesignableField/index.tsx:60-86 | filtering a filtered value changes nothing |
| DesignableField.KeptStaysKept | designable/antd/src/components/DesignableField/index.tsx:66-70 | a value the reducer keeps is kept, unchanged, by a second pass |
| DesignableField.FilterItemsIdempotent | designable/antd/src/components/DesignableField/index.tsx:66-72 | the array reduction is idempotent |
| DesignableField.FilterMembersIdempotent | designable/antd/src/components/DesignableField/index.tsx:66-75 | the object reduction is idempotent |
| DesignableField.FilterExpression | designable/antd/src/components/DesignableField/index.tsx:60-86 | the reduction loops compute `Filtered` |
| DesignableField.StateValue | designable/antd/src/components/DesignableField/index.tsx:96-105 | an expression is copied verbatim iff its schema key is in `NeedShownExpression`; any other value is copied, filtered, iff truthy |
| DesignableField.MapState | designable/antd/src/components/DesignableField/index.tsx:95-106 | the state has at most one field per visited pair |
| DesignableField.MapStateDomain | designable/antd/src/components/DesignableField/index.tsx:95-106 | a field key is set iff some pair for it writes |
| DesignableField.MapStateLastWriterWins | designable/antd/src/components/DesignableField/index.tsx:95-106 | a field key holds what the last writing pair for it wrote |
| DesignableField.XValueOverridesDefault | designable/antd/src/components/DesignableField/index.tsx:30-48 | a truthy non-expression `x-value` overrides `default` for the field's value |
| DesignableField.DefaultBecomesValue | designable/antd/src/components/DesignableField/index.tsx:94-106 | without `x-value`, a truthy non-expression `default` becomes the filtered field value |
| DesignableField.FalsyRequiredIsNotCopied | designable/antd/src/components/DesignableField/index.tsx:103-105 | a falsy `required` produces no field |
| DesignableField.HiddenExpressionIsNotCopied | designable/antd/src/components/DesignableField/index.tsx:97-98 | an expression `x-visible` produces no `visible` field |
| DesignableField.OnlyShownExpressions | designable/antd/src/components/DesignableField/index.tsx:50-106 | an expression in the field state comes verbatim from a `NeedShownExpression` key mapped to that field; every other value is expression-free |
| DesignableField.MapStatePrefixStep | designable/antd/src/components/DesignableField/index.tsx:95-106 | visiting one more pair writes its state value under its field key, or leaves the state as it was |
| DesignableField.MapSchemaState | designable/antd/src/components/DesignableField/index.tsx:94-106 | the `each` loop over `SchemaStateMap` computes `MapState` |
| DesignableField.Components.constructor | designable/antd/src/components/DesignableField/index.tsx:90 | a registry over the given entries |
| DesignableField.ToDesignableFieldProps | designable/antd/src/components/DesignableField/index.tsx:88-109 | the field state is `MapState`; afterwards a truthy `FormItem` is registered; an existing one is left alone and nothing else changes |
| DesignableField.EveryMeansAll | designable/antd/src/components/DesignableField/index.tsx:325-327 | `every` holds iff every source node passes the test |
| DesignableField.Restricts | designable/antd/src/components/DesignableField/index.tsx:319-334 | no list or an empty list → true; otherwise true iff every source node passes `includesComponent` |
| DesignableField.CalculateChildrenRestricts | designable/antd/src/components/DesignableField/index.tsx:319-334 | true iff the target's children list is absent or empty, or every source node passes `includesComponent` |
| DesignableField.CalculateSiblingsRestricts | designable/antd/src/components/DesignableField/index.tsx:336-351 | the same over the sibling list |
| DesignableField.AllowAppend | designable/antd/src/components/DesignableField/index.tsx:393-400 | true iff the target type is void, array or object and the children restrictions allow the source |
| DesignableField.RestrictsSplits | designable/antd/src/components/DesignableField/index.tsx:323-331 | a drop of a + b is allowed iff a drop of a and a drop of b are each allowed |

## Left out

- Proxy construction, `ProxyRaw` population and the setting of `DependencyCollected` by tracked reads happen in `./environment` and the tracker, which are not part of this model. The registry is a given map and the flag a field.
- An object's kind, prototype chain, elements, keys and properties are fixed when it is built. Nothing in this layer writes them; only the three tags are mutable. Writes by other code are not modelled.
- WeakMap/WeakSet garbage collection cannot be expressed; the registry is an ordinary finite map and the visited set an ordinary set.
- The `./checkers` predicates (`isValid`, `isArr`, `isPlainObj`, `isMap`, `isFn`, ...) are not part of this model; each object carries the kind they would report.
- Objects' own `toJS()`/`toJSON()` methods are foreign code: `toJS` records the call as `Invoked(object, name)` and does not model its result or its side effects.
- Externals.Environment.HasCollected: the callback is a list of steps (tracked read, other work, nested probe), not arbitrary code. Any writes it makes to the registry or the heap are not modelled.
- Externals.Environment.ToJS: needs a closed universe holding every object reachable from the input, in which a registered proxy has its raw object's kind; this is a ghost parameter and adds no requirement on callers. `toJS(toJS(v)) == toJS(v)` is not stated, because results of foreign `toJS`/`toJSON` calls are opaque.
- Getters, non-enumerable properties, array holes, the `__proto__` key and boxed strings are not modelled. Property reads along the prototype chain are modelled; `in` and truthiness of `$$typeof`, `_owner`, `_isAMomentObject` and `_isJSONSchemaObject` are evaluated along that chain.
- Externals.IsSupportObservable, Externals.IsAnnotation, Externals.MarkRaw and Externals.MarkObservable: a registered proxy given as input is classified, read and tagged as an object of its own, not through its raw target; proxy traps are not part of this model.
- Externals.MarkRaw and Externals.MarkObservable: a frozen, sealed or non-extensible target, on which the tag write throws TypeError in strict mode, is not modelled; every object accepts the write.
- Numbers are integers: NaN and -0 are not modelled, and 0 is the only falsy number.
- DesignableField.Filtered: `reduce` and `each` from `@formily/shared` are not part of this model. `filterExpression(null)` reaches `reduce` because `typeof null` is "object". It is modelled as visiting nothing, which returns the initial accumulator `{}`. A `null` inside an array or object therefore becomes `{}` rather than being dropped. Functions and other non-JSON values are not modelled. Object members are taken to have distinct keys (`DistinctKeys`); `FilterMembersKeepsDistinct` shows filtering keeps them distinct.
- DesignableField.ToDesignableFieldProps: the decorator/component lookups and prop copying with `FormPath.getIn`/`setIn` (lines 110-127) and the JSX wrapping of title and description (lines 128-133) are UI glue and are not modelled. Components are a name or a falsy entry.
- DesignableField.Restricts: `includesComponent` (from `../../shared`) is not part of this model and is a parameter. A restriction entry that is not an array is not modelled. `?.length` is taken to be the list's length.
- The `DesignableField` React component, `getFieldPropsSchema`, `GlobalRegistry` registration and messages, `createOptions` and `FormTab` caching are designer wiring and are not modelled.
