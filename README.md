# CodeFreeze freezing engine in Dafny

CodeFreeze turns a mutable Java object graph into a deeply immutable view.
`CGLIBCodeFreeze.freeze` looks at the runtime shape of a value in a fixed
order: null, then List, then Set, then Map, then bean.

- Lists, sets and maps are rebuilt eagerly as Guava immutable containers of
  frozen elements.
- A bean whose class cannot be subclassed and built without arguments is
  returned as it is.
- Any other bean is wrapped in a CGLIB proxy. The proxy's class is built
  once per type and cached.
- Every method the proxy class overrides (every method that is not final)
  is routed by `ImmutabilityCallbackFilter` to one of four callbacks; a
  final method keeps its inherited body and no callback sees it:
  - the equality callback, which compares the argument with the delegate;
  - the mutation guard, which forwards calls until the engine switches it
    on and rejects every call afterwards;
  - a plain forward to the delegate;
  - the freezing callback, which freezes an accessor's result and memoises
    it per method.

The model has six modules:

- `Descriptors` (`descriptors.dfy`): classes and methods as descriptors,
  the enhanceability verdict, failures and results.
- `Values` (`values.dfy`): the object graph as a datatype, the dispatch
  order, and what "deeply frozen" means.
- `CallbackFilter` (`callback_filter.dfy`): `accept`, `equals` and
  `hashCode` of the filter, as pure functions.
- `ExceptionInterceptor` (`exception_interceptor.dfy`):
  - the mutation guard, as a class with its `active` flag;
  - a reference state machine for that flag;
  - the rejection message.
- `EqualsInterceptor` (`equals_interceptor.dfy`): the equality callback,
  as pure functions over values.
- `Engine` (`engine.dfy`):
  - the engine as a class with its two write-once caches;
  - the freezing callback as a class with its memo;
  - the proxy object and the dispatch of a call on it;
  - the recursive `freeze` as mutually recursive methods, proved against
    the ghost specification `FreezesTo`.

`Scenarios` (`scenarios.dfy`) states properties that span several calls.

The model follows the code where the code is narrower than its documented
intent:

- Only the boxed `java.lang.Void` counts as "returns nothing", so a
  primitive-`void` method without a mutator prefix (`void clear()`) is
  forwarded, not blocked.
- A wrapper's `equals(x)` evaluates `x.equals(delegate)`. It agrees with
  `delegate.equals(x)` only when the objects' `equals` is symmetric (see
  `SwapIsObservable`).
- The equality route is chosen by the name `equals` alone. A zero-argument
  `equals` therefore fails on `args[0]`.
- A null accessor result is not memoised.
- The guard's rejection message is the same text for every class: the
  pattern uses `%s`, which `MessageFormat` does not replace (see Findings).

## Model

| member | source | states |
|---|---|---|
| Descriptors.ProxyClass | src/main/java/com/autsia/codefreeze/impl/CGLIBCodeFreeze.java:144-156 | the class CGLIB generates for `t` is a non-final subclass distinct from `t` |
| Descriptors.HasParameterlessConstructor | src/main/java/com/autsia/codefreeze/impl/CGLIBCodeFreeze.java:83-87 | every Collection or Map passes whatever constructors it has; any other class passes exactly when it has a public no-argument constructor |
| Descriptors.Enhanceable | src/main/java/com/autsia/codefreeze/impl/CGLIBCodeFreeze.java:78 | a final class (every primitive class included) is never enhanceable; a non-final collection or map always is; any other non-final class is exactly when it has a public no-argument constructor |
| Descriptors.ProxyClassEnhanceable | src/main/java/com/autsia/codefreeze/impl/CGLIBCodeFreeze.java:78-87 | a generated proxy class is enhanceable exactly when its superclass is a collection, a map or has a no-argument constructor |
| Values.Dispatch | src/main/java/com/autsia/codefreeze/impl/CGLIBCodeFreeze.java:53-65 | the branch taken is List iff the value is a List; Set iff it is a Set and not a List; Map iff a Map and neither; bean otherwise, so List wins over Set |
| Values.BranchOf | src/main/java/com/autsia/codefreeze/impl/CGLIBCodeFreeze.java:53-65 | which shapes of value each branch can receive: a wrapper or a Boolean is always a bean |
| CallbackFilter.Filter.Accept | src/main/java/com/autsia/codefreeze/impl/filters/ImmutabilityCallbackFilter.java:50-71 | the index is in 0..3; 0 iff the name is `equals`; 1 iff not `equals` and (boxed Void return or set/add/remove prefix); 3 iff not `equals`, not boxed Void, no mutator prefix, an enhanceable return type, not declared by `Object`, and a get/is prefix; 2 in every other case |
| CallbackFilter.Filter.HashCode | src/main/java/com/autsia/codefreeze/impl/filters/ImmutabilityCallbackFilter.java:84-87 | the hash is the proxied class's hash; the engine plays no part |
| CallbackFilter.Filter.Equals | src/main/java/com/autsia/codefreeze/impl/filters/ImmutabilityCallbackFilter.java:73-82 | never equal to null or to an object of another class; equal to another filter exactly when both proxy the same class, whatever their engines |
| CallbackFilter.FinalReturnIsDelegated | src/main/java/com/autsia/codefreeze/impl/filters/ImmutabilityCallbackFilter.java:62-64 | any method with a final return type (every primitive included) that is not `equals`, not a mutator and does not return the boxed Void is forwarded, not frozen |
| CallbackFilter.PrimitiveVoidIsNotBlocked | src/main/java/com/autsia/codefreeze/impl/filters/ImmutabilityCallbackFilter.java:57-64 | a method returning primitive `void` (other than `equals`) goes to the guard exactly when it has a mutator prefix, and is forwarded to the mutable delegate otherwise (`void clear()`), because only the boxed Void is compared |
| CallbackFilter.SettersAreBlocked | src/main/java/com/autsia/codefreeze/impl/filters/ImmutabilityCallbackFilter.java:57-60 | every method whose name starts with `set` goes to the guard, whatever it returns |
| CallbackFilter.AcceptIgnoresFilter | src/main/java/com/autsia/codefreeze/impl/filters/ImmutabilityCallbackFilter.java:50-71 | the route depends on the method only, not on the filter's class or engine |
| CallbackFilter.EqualsIsConsistentWithHashCode | src/main/java/com/autsia/codefreeze/impl/filters/ImmutabilityCallbackFilter.java:73-87 | filter equality is reflexive, symmetric and transitive, holds iff the proxied classes are equal, and equal filters hash alike |
| ExceptionInterceptor.RunStaysActive | src/main/java/com/autsia/codefreeze/impl/callbacks/ExceptionMethodInterceptor.java:69-73 | once active, no sequence of calls makes the guard inactive |
| ExceptionInterceptor.RunFromInactive | src/main/java/com/autsia/codefreeze/impl/callbacks/ExceptionMethodInterceptor.java:69-73 | from inactive, the guard ends active iff some call was `setActive(true)` |
| ExceptionInterceptor.ExceptionMethodInterceptor.constructor | src/main/java/com/autsia/codefreeze/impl/callbacks/ExceptionMethodInterceptor.java:39-42 | a new guard is bound to its delegate and inactive |
| ExceptionInterceptor.ExceptionMethodInterceptor.Intercept | src/main/java/com/autsia/codefreeze/impl/callbacks/ExceptionMethodInterceptor.java:50-56 | active: throws UnsupportedOperation with the fixed text `"%s class is immutable: mutators execution is not allowed."`, whatever the class, and never calls the delegate; inactive: returns the delegate's result for the same method and arguments |
| ExceptionInterceptor.ExceptionMethodInterceptor.IsActive | src/main/java/com/autsia/codefreeze/impl/callbacks/ExceptionMethodInterceptor.java:59-61 | reports the flag exactly |
| ExceptionInterceptor.ExceptionMethodInterceptor.SetActive | src/main/java/com/autsia/codefreeze/impl/callbacks/ExceptionMethodInterceptor.java:69-73 | the flag becomes `Step(old, setActive(b))`: unchanged when already active, `b` otherwise |
| ExceptionInterceptor.FormatWithoutPlaceholder | src/main/java/com/autsia/codefreeze/impl/callbacks/ExceptionMethodInterceptor.java:53 | a pattern without quotes and without a `{` is one `MessageFormat` accepts, and it formats to itself, whatever the argument |
| ExceptionInterceptor.MessageAsWrittenOmitsClass | src/main/java/com/autsia/codefreeze/impl/callbacks/ExceptionMethodInterceptor.java:53 | the message as built is the same for every class and keeps a literal `%s` |
| ExceptionInterceptor.MessageNamesClass | src/main/java/com/autsia/codefreeze/impl/callbacks/ExceptionMethodInterceptor.java:53 | the corrected message is the class name followed by the fixed text, so different classes give different messages |
| EqualsInterceptor.Intercept | src/main/java/com/autsia/codefreeze/impl/callbacks/EqualsMethodInterceptor.java:44-50 | fails iff there is no argument; a null argument gives "delegate is null" |
| EqualsInterceptor.Equals | src/main/java/com/autsia/codefreeze/impl/callbacks/EqualsMethodInterceptor.java:46-49 | an object that is not a wrapper answers by its own `equals`; a wrapper equals null exactly when it wraps null |
| EqualsInterceptor.OnlyFirstArgumentCounts | src/main/java/com/autsia/codefreeze/impl/callbacks/EqualsMethodInterceptor.java:44-50 | two calls that agree on `args[0]` give the same answer |
| EqualsInterceptor.WrapperAsksArgument | src/main/java/com/autsia/codefreeze/impl/callbacks/EqualsMethodInterceptor.java:49 | a wrapper compared with an ordinary object answers `x.equals(delegate)`: the receiver is swapped |
| EqualsInterceptor.SwapIsObservable | src/main/java/com/autsia/codefreeze/impl/callbacks/EqualsMethodInterceptor.java:49 | with an asymmetric `equals`, a wrapper and its delegate answer differently for the same argument |
| EqualsInterceptor.WrapperEqualsLikeSource | src/main/java/com/autsia/codefreeze/impl/callbacks/EqualsMethodInterceptor.java:44-50 | with a symmetric `equals`, a wrapper compares with an ordinary object exactly as its delegate does |
| EqualsInterceptor.SameDepthWrappersCompareDelegates | src/test/java/com/autsia/codefreeze/CodeFreezeTest.java:335-338 | two values wrapped equally deep compare as their innermost delegates do, so a frozen root equals its frozen inner entity when the sources are equal |
| Engine.ProxyInstance.constructor | src/main/java/com/autsia/codefreeze/impl/CGLIBCodeFreeze.java:116-119 | `newInstance` accepts exactly one callback of each kind in registration order; the guard is `callbacks[1]` |
| Engine.ProxyInstance.Invoke | src/main/java/com/autsia/codefreeze/impl/CGLIBCodeFreeze.java:126-133 | a final method runs its inherited body on the wrapper itself; any other goes to the callback at the filter's index: boxed equality, the guard (rejecting with the fixed message once active), a plain forward, or the freezing memo, whose table after the call is the old one plus the non-null result of a miss, with the engine's verdict and factory caches only extended |
| Engine.FreezingMethodInterceptor.constructor | src/main/java/com/autsia/codefreeze/impl/callbacks/FreezingMethodInterceptor.java:41-44 | a new freezing callback has an empty memo |
| Engine.FreezingMethodInterceptor.Intercept | src/main/java/com/autsia/codefreeze/impl/callbacks/FreezingMethodInterceptor.java:50-59 | hit: the stored value, without calling the delegate; miss: `freeze` of the delegate's result, cached under the method (name, parameter types, return type, declaring class) but not its arguments, and only when non-null; entries are never replaced or removed, and the engine's verdict and factory caches only gain entries |
| Engine.CodeFreeze.constructor | src/main/java/com/autsia/codefreeze/impl/CGLIBCodeFreeze.java:41-42 | both caches start empty |
| Engine.CodeFreeze.FactoryFor | src/main/java/com/autsia/codefreeze/impl/CGLIBCodeFreeze.java:144-156 | the factory for `t` carries a filter for `t` owned by this engine |
| Engine.CodeFreeze.FrozenIsDeeplyFrozen | src/main/java/com/autsia/codefreeze/impl/CGLIBCodeFreeze.java:47-69 | `freeze` returns null iff given null, and its result exposes no unwrapped List, Set or Map and no unwrapped enhanceable bean |
| Engine.CodeFreeze.FreezeIsDeterministic | src/main/java/com/autsia/codefreeze/impl/CGLIBCodeFreeze.java:47-69 | two results of freezing one value differ only in the identity of the wrappers |
| Engine.CodeFreeze.FrozenSetMembers | src/main/java/com/autsia/codefreeze/impl/CGLIBCodeFreeze.java:98-102 | a frozen set holds a frozen form of every source element and nothing else |
| Engine.CodeFreeze.FrozenMapEntries | src/main/java/com/autsia/codefreeze/impl/CGLIBCodeFreeze.java:105-109 | a frozen map holds `freeze(k) -> freeze(v)` for every source entry and nothing else |
| Engine.CodeFreeze.RefreezeWrapsAgain | src/main/java/com/autsia/codefreeze/impl/CGLIBCodeFreeze.java:112-124 | freezing a frozen bean wraps the wrapper once more |
| Engine.CodeFreeze.IsEnhanceable | src/main/java/com/autsia/codefreeze/impl/CGLIBCodeFreeze.java:74-81 | the answer is not-final and (collection or map or no-argument constructor), cached or not; an absent verdict is inserted, a present one kept |
| Engine.CodeFreeze.CreateFactory | src/main/java/com/autsia/codefreeze/impl/CGLIBCodeFreeze.java:144-156 | the filter is asked for the route of every method CGLIB overrides, so the verdict cache gains exactly the return types `accept` asks about and keeps its old entries; then CGLIB either yields the factory for `t` with the four callback types in order, or a construction failure |
| Engine.CodeFreeze.GetFactory | src/main/java/com/autsia/codefreeze/impl/CGLIBCodeFreeze.java:135-142 | the factory for `t`; the factory cache gains `t` only on success and only if absent; on a miss the verdict cache gains what building the class asked |
| Engine.CodeFreeze.GetCallbacks | src/main/java/com/autsia/codefreeze/impl/CGLIBCodeFreeze.java:126-133 | four new callbacks bound to the bean in the order equals, guard, forward, freezing; the guard is inactive and the memo empty |
| Engine.CodeFreeze.AcceptFor | src/main/java/com/autsia/codefreeze/impl/filters/ImmutabilityCallbackFilter.java:50-71 | the filter's route, where the return type's verdict is asked of the engine's cache exactly when the first two rules did not decide |
| Engine.CodeFreeze.NewProxy | src/main/java/com/autsia/codefreeze/impl/CGLIBCodeFreeze.java:116-123 | a new wrapper bound to the bean, whose guard is already on |
| Engine.CodeFreeze.ProxifyBean | src/main/java/com/autsia/codefreeze/impl/CGLIBCodeFreeze.java:112-124 | a non-enhanceable bean is returned identically; otherwise a new wrapper with its guard on, or the construction failure |
| Engine.CodeFreeze.FreezeEach | src/main/java/com/autsia/codefreeze/impl/CGLIBCodeFreeze.java:91-102 | each element in order is frozen; the loop succeeds iff every element can be frozen, and element `i` of the result is then the frozen element `i`; otherwise it returns a construction failure |
| Engine.CodeFreeze.ProxifyList | src/main/java/com/autsia/codefreeze/impl/CGLIBCodeFreeze.java:91-95 | an immutable list of the source's length whose element `i` is the frozen element `i` |
| Engine.CodeFreeze.ProxifySet | src/main/java/com/autsia/codefreeze/impl/CGLIBCodeFreeze.java:98-102 | an immutable set of the frozen elements, in iteration order |
| Engine.CodeFreeze.FreezeEntry | src/main/java/com/autsia/codefreeze/impl/CGLIBCodeFreeze.java:107 | the key is frozen, then the value |
| Engine.CodeFreeze.MapFrozen | src/main/java/com/autsia/codefreeze/impl/CGLIBCodeFreeze.java:105-109 | freezing every entry of a map freezes the map |
| Engine.CodeFreeze.MapWrappers | src/main/java/com/autsia/codefreeze/impl/CGLIBCodeFreeze.java:105-109 | every wrapper in a frozen map was already in the source map or is newly made |
| Engine.CodeFreeze.ProxifyMap | src/main/java/com/autsia/codefreeze/impl/CGLIBCodeFreeze.java:105-109 | an immutable map with one frozen entry per source entry, in key-set order |
| Engine.CodeFreeze.Freeze | src/main/java/com/autsia/codefreeze/impl/CGLIBCodeFreeze.java:47-69 | the outcome satisfies `FreezesTo` when every wrapped class can be proxied, else a construction failure; null gives null and touches neither cache; both caches are write-once; every wrapper handed out has its guard on |
| Scenarios.RepeatedAccessorCall | src/main/java/com/autsia/codefreeze/impl/callbacks/FreezingMethodInterceptor.java:50-59 | after a non-null first result, a second call of the same accessor returns the same object without calling the delegate, whatever its arguments; a null first result is fetched again |
| Scenarios.RepeatedGetterOnWrapper | src/main/java/com/autsia/codefreeze/impl/callbacks/FreezingMethodInterceptor.java:50-59 | on one wrapper, a second call of the same non-final getter (enhanceable return type, not declared by `Object`) returns the very object the first call returned when that was non-null, whatever the arguments |
| Scenarios.OverloadsAreCachedApart | src/main/java/com/autsia/codefreeze/impl/callbacks/FreezingMethodInterceptor.java:50-59 | two overloads of an accessor (same name, other parameter types) are memoised apart: the second call reaches the delegate and freezes its own result |
| Scenarios.GetterIsFrozen | src/main/java/com/autsia/codefreeze/impl/filters/ImmutabilityCallbackFilter.java:66-68 | a getter with an enhanceable return type, not declared by `Object`, goes to the freezing callback |
| Scenarios.CallSetter | src/test/java/com/autsia/codefreeze/CodeFreezeTest.java:133-166 | a non-final setter on a wrapper whose guard is on throws UnsupportedOperation with the fixed message; a final setter is not intercepted: its result is what its inherited body returns, on the given arguments, with the wrapper as `this` |
| Scenarios.CallGetter | src/main/java/com/autsia/codefreeze/impl/callbacks/FreezingMethodInterceptor.java:50-59 | a non-final getter on a frozen bean whose result is an enhanceable bean returns a sealed wrapper built by the engine for that result, whose class is the proxy of that result's class |
| Scenarios.NestedSettersThrow | src/test/java/com/autsia/codefreeze/CodeFreezeTest.java:265-298 | non-final setters throw, with the fixed message, on a frozen bean and on the frozen bean its non-final getter returns |

## Left out

- CGLIB bytecode generation is not modelled. Whether CGLIB can build and instantiate a proxy class for a type is the engine's `creatable` parameter, and a factory is a value determined by its filter and callback types.
- Java reflection is not modelled. `getConstructors`, `getModifiers` and the collection interfaces are fields of a class descriptor. `Method.invoke` is the `invoke` function parameter, so delegate methods have no side effects in the model.
- The user's `equals` is the `objEquals` function parameter.
- Guava's builders are not modelled. Frozen containers are sequences in source order. Duplicate elements in a set, duplicate keys and null rejection are not modelled.
- `iterator.remove` throwing on a frozen container belongs to Guava and is not modelled.
- `map.get(key)` is taken to be the value stored with that key in the entry sequence.
- Concurrency is not modelled. The `ConcurrentHashMap` caches and `putIfAbsent` are sequential maps with insert-if-absent updates.
- Object graphs are finite datatypes, so cyclic graphs (a list that contains itself) cannot be expressed.
- The laziness of wrapping is kept: a wrapper's sub-objects are frozen only through `Invoke`. `FreezesTo` speaks only of the eager container recursion.
- DelegatingMethodInterceptor, a CGLIB `LazyLoader`, is modelled as a plain forward to the delegate.
- The `obj` and `proxy` arguments of the callbacks are not modelled. Only the guard reads `obj`, for its class's simple name, and `MessageFormat` drops that name (see Findings).
- Engine.ProxyInstance.Invoke: the guard is handed the generated class's full name, not its simple name. The message as written contains neither.
- Engine.ProxyInstance.Invoke: an exception thrown by a delegate method is not modelled, because `invoke` is a total function. In the source, `Method.invoke` wraps it in InvocationTargetException on the guard and freezing routes (ExceptionMethodInterceptor.java:55, FreezingMethodInterceptor.java:54), and the `LazyLoader` forward lets it through unwrapped.
- ExceptionInterceptor.Format: only patterns without quotes whose every `{` opens `{0}` are modelled. Both message patterns are such. Other argument indices, format types and quoting are not modelled.
- Scenarios.CallSetter: the calls a final method's inherited body makes on `this` are not modelled. They are routed by the filter like any other call on the wrapper, so a final setter that calls an overridable setter is rejected by the active guard. The same holds for `Engine.ProxyInstance.Invoke`, which gives a final method's result as one call of `invoke` on the wrapper.
- EqualsInterceptor.Equals: a wrapper's `equals` is assumed to be overridable. A wrapper whose class declares a final `equals` would run that body on its own fields instead of the equality callback. `EqualsInterceptor.WrapperAsksArgument`, `EqualsInterceptor.WrapperEqualsLikeSource` and `EqualsInterceptor.SameDepthWrappersCompareDelegates` rest on the same assumption.
- Engine.CodeFreeze.NewProxy: the proxied class's constructor is not modelled. `newInstance` runs it with the callbacks already installed and the guard off, so a setter it calls mutates the source object, and a getter it calls goes through the freezing callback.
- Engine.CodeFreeze.RefreezeWrapsAgain: this holds only for classes whose constructor calls no intercepted method. Refreezing a wrapper of a class whose constructor calls a setter (TestEntity calls `setSuperId`) sends that setter to the first wrapper, whose guard is on, and `freeze` throws.
- Engine.CodeFreeze.CreateFactory: CGLIB's own cache of generated classes is not modelled. That cache can let `createClass` reuse a class built for an equal filter, for instance by another engine, without calling `accept`. The model calls `accept` on every overridden method each time a factory is built.
- The `CodeFreeze` interface adds no logic and is not part of this model. Neither are TestEntity and the test harness.

## Findings

| source | as written | input that shows it | evidently intended | confidence | as-written member | corrected member |
|---|---|---|---|---|---|---|
| src/main/java/com/autsia/codefreeze/impl/callbacks/ExceptionMethodInterceptor.java:53 | the pattern `"%s class is immutable: ..."` is passed to `MessageFormat.format`, whose placeholder syntax is `{0}`, so the text keeps a literal `%s` | classes with simple names `A` and `B` get the identical message | the message begins with the simple name of the wrapper's class | high (not executed) | ExceptionInterceptor.MessageAsWrittenOmitsClass | ExceptionInterceptor.MessageNamesClass |
