/**
 * The freezing engine: the per-type caches (enhanceability verdicts and
 * proxy factories), the recursive `freeze`, the proxies it builds and the
 * per-proxy memo of frozen accessor results.
 */
module Engine {
  import opened Descriptors
  import opened Values
  import opened CallbackFilter
  import opened ExceptionInterceptor
  import EqualsInterceptor

  /** A Java object; a wrapper's identity is its proxy instance. */
  type Object = Value<ProxyInstance>

  /** What `Method.invoke(target, args)` returns for method `m`. */
  type Invoker = (Object, MethodDesc, seq<Object>) -> Object

  /** What CGLIB's `Enhancer` is configured with for one class: the callback
      filter and the callback types, in registration order. */
  datatype Factory = Factory(filter: Filter<CodeFreeze>, callbackTypes: seq<CallbackKind>)

  /** One slot of the callback array handed to `Factory.newInstance`. */
  datatype Callback =
    | EqualsCallback(delegate: Object)
    | ExceptionCallback(guard: ExceptionMethodInterceptor<Object>)
    | DelegatingCallback(delegate: Object)
    | FreezingCallback(interceptor: FreezingMethodInterceptor)

  function KindOf(c: Callback): CallbackKind {
    match c
    case EqualsCallback(_) => EqualsKind
    case ExceptionCallback(_) => ExceptionKind
    case DelegatingCallback(_) => DelegatingKind
    case FreezingCallback(_) => FreezingKind
  }

  /** `getClass()` of a non-null object. */
  function ClassOf(v: Object): TypeDesc
    requires !v.Null?
  {
    match v
    case BoolV(_) => BooleanClass
    case Obj(cls, _, _, _) => cls
    case ImmList(_) => ImmutableListClass
    case ImmSet(_) => ImmutableSetClass
    case ImmMap(_) => ImmutableMapClass
    case Proxy(_, h) => ProxyClass(h.factory.filter.typeToProxify)
  }

  /** Two sequences whose elements erase alike erase alike. */
  lemma ErasedItemsAgree(a: seq<Object>, b: seq<Object>)
    requires |a| == |b| && forall i :: 0 <= i < |a| ==> Erase(a[i]) == Erase(b[i])
    ensures Erase(ImmList(a)) == Erase(ImmList(b)) && Erase(ImmSet(a)) == Erase(ImmSet(b))
  {
  }

  /** A cache only ever gains keys and never replaces an entry. */
  ghost predicate Extends<K, V>(before: map<K, V>, after: map<K, V>) {
    forall k :: k in before ==> k in after && after[k] == before[k]
  }

  /** The wrappers reachable from `v` without calling an accessor. */
  ghost function Proxies(v: Object): set<ProxyInstance> {
    match v
    case Proxy(_, h) => {h}
    case Obj(_, _, items, entries) =>
      (set i, p | 0 <= i < |items| && p in Proxies(items[i]) :: p) +
      (set i, p | 0 <= i < |entries| && p in Proxies(entries[i].0) :: p) +
      (set i, p | 0 <= i < |entries| && p in Proxies(entries[i].1) :: p)
    case ImmList(items) => set i, p | 0 <= i < |items| && p in Proxies(items[i]) :: p
    case ImmSet(items) => set i, p | 0 <= i < |items| && p in Proxies(items[i]) :: p
    case ImmMap(entries) =>
      (set i, p | 0 <= i < |entries| && p in Proxies(entries[i].0) :: p) +
      (set i, p | 0 <= i < |entries| && p in Proxies(entries[i].1) :: p)
    case _ => {}
  }

  /** The Boolean an intercepted `equals` returns, as an object. */
  function Box(r: Result<bool>): (o: Result<Object>)
    ensures o.Ok? <==> r.Ok?
    ensures o.Ok? ==> o.value == BoolV(r.value)
    ensures o.Thrown? ==> o.failure == r.failure
  {
    match r
    case Ok(b) => Ok(BoolV(b))
    case Thrown(f) => Thrown(f)
  }

  /** The object `Factory.newInstance(callbacks)` returns: an instance of the
      generated subclass whose methods dispatch to `callbacks` as the
      factory's filter routes them. */
  class ProxyInstance {
    const factory: Factory
    const callbacks: seq<Callback>
    const guard: ExceptionMethodInterceptor<Object>
    const freezing: FreezingMethodInterceptor

    /** CGLIB accepts only a callback array that matches the registered
        callback types. */
    constructor (factory: Factory, callbacks: seq<Callback>)
      requires factory.callbackTypes == CallbackTypes
      requires |callbacks| == |CallbackTypes|
      requires forall i :: 0 <= i < |callbacks| ==> KindOf(callbacks[i]) == CallbackTypes[i]
      ensures this.factory == factory && this.callbacks == callbacks
      ensures Shaped()
    {
      assert KindOf(callbacks[1]) == ExceptionKind && KindOf(callbacks[3]) == FreezingKind;
      this.factory := factory;
      this.callbacks := callbacks;
      this.guard := callbacks[1].guard;
      this.freezing := callbacks[3].interceptor;
    }

    /** One callback of each kind, in registration order; the guard and
        the freezing callback are the ones in the array. */
    ghost predicate Shaped() {
      && |callbacks| == |CallbackTypes|
      && callbacks[EQUALS_CALLBACK_INDEX].EqualsCallback?
      && callbacks[EXCEPTION_CALLBACK_INDEX] == ExceptionCallback(guard)
      && callbacks[DELEGATING_CALLBACK_INDEX].DelegatingCallback?
      && callbacks[FREEZING_CALLBACK_INDEX] == FreezingCallback(freezing)
    }

    /** The class of this wrapper: CGLIB's subclass of the proxied class. */
    function ProxyType(): TypeDesc {
      ProxyClass(factory.filter.typeToProxify)
    }

    /** This wrapper as an object: what `this` denotes inside its methods. */
    function Self(): Object
      requires Shaped()
    {
      Proxy(callbacks[DELEGATING_CALLBACK_INDEX].delegate, this)
    }

    /** A call of `m(args)` on this wrapper. The generated subclass hands
        a method it overrides to the callback its filter chose for `m`: the
        equality callback (whose Boolean answer is boxed), the guard, a
        plain forward to the delegate, or the freezing callback. A final
        method is not overridden: its inherited body runs with the wrapper
        as `this` (`invoke` applied to the wrapper itself) and no callback
        sees that call. */
    method Invoke(m: MethodDesc, args: seq<Object>, invoke: Invoker, objEquals: (Object, Object) -> bool)
      returns (r: Result<Object>)
      requires Shaped()
      requires !m.isFinal && factory.filter.Accept(Enhanceable, m) == FREEZING_CALLBACK_INDEX ==>
                 freezing.Valid() && freezing.codeFreeze.Valid()
      modifies if !m.isFinal && factory.filter.Accept(Enhanceable, m) == FREEZING_CALLBACK_INDEX
               then {freezing, freezing.codeFreeze} else {}
      ensures m.isFinal ==> r == Ok(invoke(Self(), m, args))
      ensures !m.isFinal && factory.filter.Accept(Enhanceable, m) == EQUALS_CALLBACK_INDEX ==>
                r == Box(EqualsInterceptor.Intercept(callbacks[EQUALS_CALLBACK_INDEX].delegate, args, objEquals))
      ensures !m.isFinal && factory.filter.Accept(Enhanceable, m) == EXCEPTION_CALLBACK_INDEX ==>
                r == (if guard.active then Thrown(UnsupportedOperation(PATTERN_AS_WRITTEN))
                      else Ok(invoke(guard.delegate, m, args)))
      ensures !m.isFinal && factory.filter.Accept(Enhanceable, m) == DELEGATING_CALLBACK_INDEX ==>
                r == Ok(invoke(callbacks[DELEGATING_CALLBACK_INDEX].delegate, m, args))
      ensures !m.isFinal && factory.filter.Accept(Enhanceable, m) == FREEZING_CALLBACK_INDEX ==>
                && freezing.Valid() && freezing.codeFreeze.Valid()
                && old(freezing.codeFreeze.made) <= freezing.codeFreeze.made
                && Extends(old(freezing.codeFreeze.enhanceableMap), freezing.codeFreeze.enhanceableMap)
                && Extends(old(freezing.codeFreeze.factories), freezing.codeFreeze.factories)
                && freezing.immutableBeans ==
                     (if m !in old(freezing.immutableBeans) && r.Ok? && !r.value.Null?
                      then old(freezing.immutableBeans)[m := r.value] else old(freezing.immutableBeans))
                && (m in old(freezing.immutableBeans) ==> r == Ok(old(freezing.immutableBeans)[m]))
                && (m !in old(freezing.immutableBeans) ==>
                      && freezing.codeFreeze.Froze(invoke(freezing.delegate, m, args), r)
                      && (r.Ok? ==> Proxies(r.value) <= Proxies(invoke(freezing.delegate, m, args)) + freezing.codeFreeze.made))
    {
      if m.isFinal {
        return Ok(invoke(Self(), m, args));
      }
      var route := factory.filter.Accept(Enhanceable, m);
      if route == EQUALS_CALLBACK_INDEX {
        r := Box(EqualsInterceptor.Intercept(callbacks[EQUALS_CALLBACK_INDEX].delegate, args, objEquals));
      } else if route == EXCEPTION_CALLBACK_INDEX {
        var invoked;
        r, invoked := guard.Intercept(ProxyType(), m, args, invoke);
      } else if route == DELEGATING_CALLBACK_INDEX {
        r := Ok(invoke(callbacks[DELEGATING_CALLBACK_INDEX].delegate, m, args));
      } else {
        var invoked;
        r, invoked := freezing.Intercept(m, args, invoke);
      }
    }

    /** This proxy was built by `engine` for the object `d`: the factory of
        `d`'s class, and all four callbacks bound to `d`. */
    ghost predicate Wired(engine: CodeFreeze, d: Object) {
      && !d.Null?
      && factory == engine.FactoryFor(ClassOf(d))
      && callbacks == [EqualsCallback(d), ExceptionCallback(guard), DelegatingCallback(d), FreezingCallback(freezing)]
      && guard.delegate == d
      && freezing.delegate == d
      && freezing.codeFreeze == engine
    }

    /** The mutation guard has been switched on. */
    ghost predicate Sealed()
      reads guard
    {
      guard.active
    }
  }

  /** The callback that freezes what an accessor returns, once per method. */
  class FreezingMethodInterceptor {
    const codeFreeze: CodeFreeze
    const delegate: Object
    var immutableBeans: map<MethodDesc, Object>

    /** Null is never cached. */
    ghost predicate Valid()
      reads this
    {
      forall m :: m in immutableBeans ==> !immutableBeans[m].Null?
    }

    constructor (codeFreeze: CodeFreeze, delegate: Object)
      ensures this.codeFreeze == codeFreeze && this.delegate == delegate
      ensures immutableBeans == map[] && Valid()
    {
      this.codeFreeze := codeFreeze;
      this.delegate := delegate;
      immutableBeans := map[];
    }

    /** Intercept accessor `m(args)`. A cached result is returned without
        calling the delegate; otherwise the delegate's result is frozen and,
        unless null, cached under the method `m` (its name, parameter types,
        return type and declaring class; the argument values are not part
        of the key). */
    method Intercept(m: MethodDesc, args: seq<Object>, invoke: Invoker) returns (r: Result<Object>, invoked: bool)
      requires Valid() && codeFreeze.Valid()
      modifies this, codeFreeze
      ensures Valid() && codeFreeze.Valid()
      ensures Extends(old(immutableBeans), immutableBeans) && old(codeFreeze.made) <= codeFreeze.made
      ensures Extends(old(codeFreeze.enhanceableMap), codeFreeze.enhanceableMap)
      ensures Extends(old(codeFreeze.factories), codeFreeze.factories)
      ensures m in old(immutableBeans) ==>
                && r == Ok(old(immutableBeans)[m]) && !invoked
                && immutableBeans == old(immutableBeans)
                && unchanged(codeFreeze)
      ensures m !in old(immutableBeans) ==>
                && invoked
                && codeFreeze.Froze(invoke(delegate, m, args), r)
                && (r.Ok? ==> Proxies(r.value) <= Proxies(invoke(delegate, m, args)) + codeFreeze.made)
                && immutableBeans == (if r.Ok? && !r.value.Null? then old(immutableBeans)[m := r.value]
                                      else old(immutableBeans))
    {
      if m in immutableBeans {
        return Ok(immutableBeans[m]), false;
      }
      invoked := true;
      r := codeFreeze.Freeze(invoke(delegate, m, args));
      if r.Ok? && !r.value.Null? && m !in immutableBeans {
        immutableBeans := immutableBeans[m := r.value];
      }
    }
  }

  /** `accept` asks the engine's oracle about `m`'s return type exactly
      when neither the name nor the return type has decided the route. */
  predicate AsksOracle(m: MethodDesc) {
    m.name != "equals" && m.returnType != BoxedVoid && !MutatorName(m.name)
  }

  /** The return types `accept` asks the oracle about, over the methods `ms`. */
  ghost function Consulted(ms: seq<MethodDesc>): set<TypeDesc> {
    set m | m in ms && AsksOracle(m) :: m.returnType
  }

  /** The engine. `creatable(t)` says whether CGLIB manages to generate and
      instantiate a proxy class for `t`; `methodsOf(t)` lists the methods
      CGLIB overrides in that class, in the order it visits them. */
  class CodeFreeze {
    var factories: map<TypeDesc, Factory>
    var enhanceableMap: map<TypeDesc, bool>
    const creatable: TypeDesc -> bool
    const methodsOf: TypeDesc -> seq<MethodDesc>
    /** The wrappers this engine has handed out. */
    ghost var made: set<ProxyInstance>

    /** Every cached verdict is the right one, every cached factory is the
        one built for its class, and every wrapper handed out rejects
        mutators. */
    ghost predicate Valid()
      reads this, set p | p in made :: p.guard
    {
      && (forall t :: t in enhanceableMap ==> enhanceableMap[t] == Enhanceable(t))
      && (forall t :: t in factories ==> creatable(t) && factories[t] == FactoryFor(t))
      && (forall p :: p in made ==> p.Sealed())
    }

    constructor (creatable: TypeDesc -> bool, methodsOf: TypeDesc -> seq<MethodDesc>)
      ensures Valid() && this.creatable == creatable && this.methodsOf == methodsOf
      ensures factories == map[] && enhanceableMap == map[] && made == {}
    {
      factories := map[];
      enhanceableMap := map[];
      made := {};
      this.creatable := creatable;
      this.methodsOf := methodsOf;
    }

    /** The Enhancer configuration for `t`. */
    function FactoryFor(t: TypeDesc): (f: Factory)
      ensures f.filter.codeFreeze == this && f.filter.typeToProxify == t
    {
      Factory(Filter(this, t), CallbackTypes)
    }

    /** The failures `freeze` lets escape: CGLIB could not proxy a class that
        the oracle calls enhanceable. */
    ghost predicate Fatal(f: Failure) {
      f.ConstructionFailure? && Enhanceable(f.cls) && !creatable(f.cls)
    }

    /** `out` is what `freeze(src)` returns: null for null, a Guava container
        of frozen elements (in the source's iteration order) for a List, a
        Set or a Map, the object itself for a non-enhanceable bean, and a
        proxy wired to the bean otherwise. */
    ghost predicate FreezesTo(src: Object, out: Object)
      decreases src
    {
      if src.Null? then out.Null?
      else match BranchOf(src)
        case ListBranch =>
          && out.ImmList? && |out.items| == |src.items|
          && forall i :: 0 <= i < |src.items| ==> FreezesTo(src.items[i], out.items[i])
        case SetBranch =>
          && out.ImmSet? && |out.items| == |src.items|
          && forall i :: 0 <= i < |src.items| ==> FreezesTo(src.items[i], out.items[i])
        case MapBranch =>
          && out.ImmMap? && |out.entries| == |src.entries|
          && forall i :: 0 <= i < |src.entries| ==>
               FreezesTo(src.entries[i].0, out.entries[i].0) && FreezesTo(src.entries[i].1, out.entries[i].1)
        case BeanBranch =>
          if !Enhanceable(ClassOf(src)) then out == src
          else out.Proxy? && out.delegate == src && out.handle.Wired(this, src)
    }

    /** `freeze(src)` succeeds: every bean it wraps eagerly has a class CGLIB
        can proxy. */
    ghost predicate CanFreeze(src: Object)
      decreases src
    {
      if src.Null? then true
      else match BranchOf(src)
        case ListBranch => forall i :: 0 <= i < |src.items| ==> CanFreeze(src.items[i])
        case SetBranch => forall i :: 0 <= i < |src.items| ==> CanFreeze(src.items[i])
        case MapBranch =>
          forall i :: 0 <= i < |src.entries| ==> CanFreeze(src.entries[i].0) && CanFreeze(src.entries[i].1)
        case BeanBranch => Enhanceable(ClassOf(src)) ==> creatable(ClassOf(src))
    }

    /** Freezing maps null, and only null, to null, and what it returns
        exposes no unwrapped List, Set or Map and no unwrapped enhanceable
        bean. */
    lemma {:induction false} FrozenIsDeeplyFrozen(src: Object, out: Object)
      requires FreezesTo(src, out)
      ensures out.Null? <==> src.Null?
      ensures DeeplyFrozen(out)
      decreases src
    {
      if !src.Null? {
        match BranchOf(src)
        case ListBranch =>
          forall i | 0 <= i < |out.items| ensures DeeplyFrozen(out.items[i]) {
            FrozenIsDeeplyFrozen(src.items[i], out.items[i]);
          }
        case SetBranch =>
          forall i | 0 <= i < |out.items| ensures DeeplyFrozen(out.items[i]) {
            FrozenIsDeeplyFrozen(src.items[i], out.items[i]);
          }
        case MapBranch =>
          forall i | 0 <= i < |out.entries| ensures DeeplyFrozen(out.entries[i].0) && DeeplyFrozen(out.entries[i].1) {
            FrozenIsDeeplyFrozen(src.entries[i].0, out.entries[i].0);
            FrozenIsDeeplyFrozen(src.entries[i].1, out.entries[i].1);
          }
        case BeanBranch =>
      }
    }

    /** `freeze` is a function of its argument up to the identity of the
        wrappers it creates. */
    lemma {:induction false} FreezeIsDeterministic(src: Object, o1: Object, o2: Object)
      requires FreezesTo(src, o1) && FreezesTo(src, o2)
      ensures Erase(o1) == Erase(o2)
      decreases src
    {
      if !src.Null? {
        match BranchOf(src)
        case ListBranch =>
          forall i | 0 <= i < |src.items| ensures Erase(o1.items[i]) == Erase(o2.items[i]) {
            FreezeIsDeterministic(src.items[i], o1.items[i], o2.items[i]);
          }
          ErasedItemsAgree(o1.items, o2.items);
        case SetBranch =>
          forall i | 0 <= i < |src.items| ensures Erase(o1.items[i]) == Erase(o2.items[i]) {
            FreezeIsDeterministic(src.items[i], o1.items[i], o2.items[i]);
          }
          ErasedItemsAgree(o1.items, o2.items);
        case MapBranch =>
          forall i | 0 <= i < |src.entries|
            ensures Erase(o1.entries[i].0) == Erase(o2.entries[i].0) && Erase(o1.entries[i].1) == Erase(o2.entries[i].1)
          {
            FreezeIsDeterministic(src.entries[i].0, o1.entries[i].0, o2.entries[i].0);
            FreezeIsDeterministic(src.entries[i].1, o1.entries[i].1, o2.entries[i].1);
          }
          assert Erase(o1).entries == Erase(o2).entries;
        case BeanBranch =>
      }
    }

    /** A frozen set holds the frozen form of every source element and
        nothing else. */
    lemma FrozenSetMembers(src: Object, out: Object)
      requires !src.Null? && BranchOf(src) == SetBranch && FreezesTo(src, out)
      ensures out.ImmSet?
      ensures forall e :: e in src.items ==> exists f :: f in out.items && FreezesTo(e, f)
      ensures forall f :: f in out.items ==> exists e :: e in src.items && FreezesTo(e, f)
    {
      forall e | e in src.items ensures exists f :: f in out.items && FreezesTo(e, f) {
        var i :| 0 <= i < |src.items| && src.items[i] == e;
        assert out.items[i] in out.items;
      }
      forall f | f in out.items ensures exists e :: e in src.items && FreezesTo(e, f) {
        var i :| 0 <= i < |out.items| && out.items[i] == f;
        assert src.items[i] in src.items;
      }
    }

    /** In a frozen map every source entry `k -> v` becomes
        `freeze(k) -> freeze(v)`, and there are no other entries. */
    lemma FrozenMapEntries(src: Object, out: Object)
      requires !src.Null? && BranchOf(src) == MapBranch && FreezesTo(src, out)
      ensures out.ImmMap?
      ensures forall e :: e in src.entries ==> exists f :: f in out.entries && EntryFreezesTo(e, f)
      ensures forall f :: f in out.entries ==> exists e :: e in src.entries && EntryFreezesTo(e, f)
    {
      forall e | e in src.entries ensures exists f :: f in out.entries && EntryFreezesTo(e, f) {
        var i :| 0 <= i < |src.entries| && src.entries[i] == e;
        assert EntryFreezesTo(e, out.entries[i]);
      }
      forall f | f in out.entries ensures exists e :: e in src.entries && EntryFreezesTo(e, f) {
        var i :| 0 <= i < |out.entries| && out.entries[i] == f;
        assert EntryFreezesTo(src.entries[i], f);
      }
    }

    /** `f` is the frozen form of map entry `e`, key and value alike. */
    ghost predicate EntryFreezesTo(e: (Object, Object), f: (Object, Object)) {
      FreezesTo(e.0, f.0) && FreezesTo(e.1, f.1)
    }

    /** `freeze` does not recognise its own wrappers: freezing a frozen
        bean wraps the wrapper once more, since CGLIB's subclass is neither
        final nor without a no-argument constructor. */
    lemma RefreezeWrapsAgain(src: Object, once: Object, twice: Object)
      requires !src.Null? && BranchOf(src) == BeanBranch && Enhanceable(ClassOf(src))
      requires FreezesTo(src, once) && FreezesTo(once, twice)
      ensures once.Proxy? && once.delegate == src
      ensures twice.Proxy? && twice.delegate == once
    {
      ProxyClassEnhanceable(ClassOf(src));
    }

    /** `r` is a possible outcome of `freeze(src)`. */
    ghost predicate Froze(src: Object, r: Result<Object>) {
      && (r.Ok? <==> CanFreeze(src))
      && (r.Ok? ==> FreezesTo(src, r.value))
      && (r.Thrown? ==> Fatal(r.failure))
    }

    /** `isEnhanceable`: answered from the cache when present, computed and
        inserted if absent otherwise; the answer is the same either way. */
    method IsEnhanceable(t: TypeDesc) returns (b: bool)
      requires Valid()
      modifies this
      ensures Valid()
      ensures b == Enhanceable(t)
      ensures factories == old(factories) && made == old(made)
      ensures enhanceableMap == if t in old(enhanceableMap) then old(enhanceableMap) else old(enhanceableMap)[t := b]
    {
      if t in enhanceableMap {
        return enhanceableMap[t];
      }
      b := !t.isFinal && HasParameterlessConstructor(t);
      if t !in enhanceableMap {
        enhanceableMap := enhanceableMap[t := b];
      }
    }

    /** `createFactory`: `createClass` asks the new filter for the route of
        each method CGLIB overrides, which records every verdict `accept`
        asks for; then CGLIB either instantiates the class or fails. */
    method CreateFactory(t: TypeDesc) returns (r: Result<Factory>)
      requires Valid()
      modifies this
      ensures Valid()
      ensures r.Ok? <==> creatable(t)
      ensures r.Ok? ==> r.value == FactoryFor(t) && r.value.callbackTypes == CallbackTypes
      ensures r.Thrown? ==> r.failure == ConstructionFailure(t)
      ensures factories == old(factories) && made == old(made)
      ensures Extends(old(enhanceableMap), enhanceableMap)
      ensures enhanceableMap.Keys == old(enhanceableMap).Keys + Consulted(methodsOf(t))
    {
      var filter := Filter(this, t);
      var methods := methodsOf(t);
      var i := 0;
      while i < |methods|
        invariant 0 <= i <= |methods|
        invariant Valid()
        invariant factories == old(factories) && made == old(made)
        invariant Extends(old(enhanceableMap), enhanceableMap)
        invariant enhanceableMap.Keys == old(enhanceableMap).Keys + Consulted(methods[..i])
      {
        var route := AcceptFor(filter, methods[i]);
        assert methods[..i + 1] == methods[..i] + [methods[i]];
        i := i + 1;
      }
      assert methods[..i] == methods;
      if creatable(t) {
        r := Ok(Factory(Filter(this, t), CallbackTypes));
      } else {
        r := Thrown(ConstructionFailure(t));
      }
    }

    /** `getFactory`: the cached factory of `t`, or a new one inserted if
        absent. */
    method GetFactory(t: TypeDesc) returns (r: Result<Factory>)
      requires Valid()
      modifies this
      ensures Valid()
      ensures r.Ok? <==> creatable(t)
      ensures r.Ok? ==> r.value == FactoryFor(t)
      ensures r.Thrown? ==> r.failure == ConstructionFailure(t)
      ensures made == old(made) && Extends(old(enhanceableMap), enhanceableMap)
      ensures enhanceableMap.Keys ==
                if t in old(factories) then old(enhanceableMap).Keys
                else old(enhanceableMap).Keys + Consulted(methodsOf(t))
      ensures factories == if t in old(factories) || r.Thrown? then old(factories) else old(factories)[t := r.value]
    {
      if t in factories {
        return Ok(factories[t]);
      }
      r := CreateFactory(t);
      if r.Ok? && t !in factories {
        factories := factories[t := r.value];
      }
    }

    /** `getCallbacks`: fresh callbacks bound to `bean`, in the order of
        the callback types; the guard starts inactive. */
    method GetCallbacks(bean: Object) returns (callbacks: seq<Callback>)
      ensures |callbacks| == |CallbackTypes|
      ensures forall i :: 0 <= i < |callbacks| ==> KindOf(callbacks[i]) == CallbackTypes[i]
      ensures callbacks[EQUALS_CALLBACK_INDEX] == EqualsCallback(bean)
      ensures callbacks[DELEGATING_CALLBACK_INDEX] == DelegatingCallback(bean)
      ensures callbacks[EXCEPTION_CALLBACK_INDEX].ExceptionCallback?
      ensures callbacks[FREEZING_CALLBACK_INDEX].FreezingCallback?
      ensures fresh(callbacks[EXCEPTION_CALLBACK_INDEX].guard)
      ensures callbacks[EXCEPTION_CALLBACK_INDEX].guard.delegate == bean
      ensures !callbacks[EXCEPTION_CALLBACK_INDEX].guard.active
      ensures fresh(callbacks[FREEZING_CALLBACK_INDEX].interceptor)
      ensures callbacks[FREEZING_CALLBACK_INDEX].interceptor.delegate == bean
      ensures callbacks[FREEZING_CALLBACK_INDEX].interceptor.codeFreeze == this
      ensures callbacks[FREEZING_CALLBACK_INDEX].interceptor.immutableBeans == map[]
    {
      var guard := new ExceptionMethodInterceptor(bean);
      var freezing := new FreezingMethodInterceptor(this, bean);
      callbacks := [EqualsCallback(bean), ExceptionCallback(guard), DelegatingCallback(bean), FreezingCallback(freezing)];
    }

    /** `accept` of `filter` as CGLIB runs it against this engine: once the
        name and the return type have not decided the route, the return
        type's verdict is asked of `isEnhanceable`, which may cache it. */
    method AcceptFor(filter: Filter<CodeFreeze>, m: MethodDesc) returns (index: int)
      requires Valid()
      modifies this
      ensures Valid()
      ensures index == filter.Accept(Enhanceable, m)
      ensures factories == old(factories) && made == old(made)
      ensures enhanceableMap ==
                if !AsksOracle(m) || m.returnType in old(enhanceableMap) then old(enhanceableMap)
                else old(enhanceableMap)[m.returnType := Enhanceable(m.returnType)]
    {
      if m.name == "equals" {
        return EQUALS_CALLBACK_INDEX;
      }
      if m.returnType == BoxedVoid || MutatorName(m.name) {
        return EXCEPTION_CALLBACK_INDEX;
      }
      var enhanceable := IsEnhanceable(m.returnType);
      if !enhanceable || m.declaringClass == ObjectClass {
        return DELEGATING_CALLBACK_INDEX;
      }
      if AccessorName(m.name) {
        return FREEZING_CALLBACK_INDEX;
      }
      return DELEGATING_CALLBACK_INDEX;
    }

    /** The part of `proxifyBean` after the factory lookup:
        `factory.newInstance(getCallbacks(bean))`, then `setActive(true)` on
        the new wrapper's guard. */
    method NewProxy(bean: Object, factory: Factory) returns (instance: ProxyInstance)
      requires !bean.Null? && factory == FactoryFor(ClassOf(bean))
      ensures fresh(instance) && instance.Wired(this, bean) && instance.Sealed()
      ensures fresh(instance.freezing) && instance.freezing.immutableBeans == map[]
    {
      var callbacks := GetCallbacks(bean);
      instance := new ProxyInstance(factory, callbacks);
      callbacks[EXCEPTION_CALLBACK_INDEX].guard.SetActive(true);
    }

    /** `proxifyBean`: a non-enhanceable bean is returned as it is; any
        other is wrapped, and its guard is switched on before the wrapper is
        returned. */
    method ProxifyBean(bean: Object) returns (r: Result<Object>)
      requires Valid() && !bean.Null? && BranchOf(bean) == BeanBranch
      modifies this
      ensures Valid()
      ensures Extends(old(enhanceableMap), enhanceableMap) && Extends(old(factories), factories)
      ensures old(made) <= made
      ensures Froze(bean, r)
      ensures r.Ok? ==> Proxies(r.value) <= Proxies(bean) + made
      ensures !Enhanceable(ClassOf(bean)) ==> r == Ok(bean)
      ensures r.Ok? && Enhanceable(ClassOf(bean)) ==>
                && r.value.Proxy? && r.value.handle in made
                && fresh(r.value.handle.freezing) && r.value.handle.freezing.immutableBeans == map[]
    {
      var enhanceable := IsEnhanceable(ClassOf(bean));
      if !enhanceable {
        return Ok(bean);
      }
      var factory := GetFactory(ClassOf(bean));
      if factory.Thrown? {
        return Thrown(factory.failure);
      }
      var instance := NewProxy(bean, factory.value);
      made := made + {instance};
      r := Ok(Proxy(bean, instance));
      assert Proxies(r.value) == {instance};
    }

    /** One element of a list or a set and its frozen counterpart. */
    ghost predicate ItemFrozen(e: Object, f: Object, wrappers: set<ProxyInstance>) {
      CanFreeze(e) && FreezesTo(e, f) && Proxies(f) <= Proxies(e) + wrappers
    }

    /** The loop `forEach(e -> builder.add(freeze(e)))` shared by
        `proxifyList` and `proxifySet`; an exception stops it. */
    method FreezeEach(owner: Object, items: seq<Object>) returns (r: Result<seq<Object>>)
      requires Valid() && (owner.Obj? || owner.ImmList? || owner.ImmSet?) && items == owner.items
      modifies this
      decreases owner, 0
      ensures Valid()
      ensures Extends(old(enhanceableMap), enhanceableMap) && Extends(old(factories), factories)
      ensures old(made) <= made
      ensures r.Ok? <==> forall i :: 0 <= i < |items| ==> CanFreeze(items[i])
      ensures r.Ok? ==> |r.value| == |items|
      ensures r.Ok? ==> forall i :: 0 <= i < |items| ==> ItemFrozen(items[i], r.value[i], made)
      ensures r.Thrown? ==> Fatal(r.failure)
    {
      var built: seq<Object> := [];
      var i := 0;
      while i < |items|
        invariant 0 <= i <= |items| && |built| == i
        invariant Valid()
        invariant Extends(old(enhanceableMap), enhanceableMap) && Extends(old(factories), factories)
        invariant old(made) <= made
        invariant forall j :: 0 <= j < i ==> ItemFrozen(items[j], built[j], made)
      {
        var e := Freeze(items[i]);
        if e.Thrown? {
          return Thrown(e.failure);
        }
        built := built + [e.value];
        i := i + 1;
      }
      r := Ok(built);
    }

    /** `proxifyList`: an ImmutableList of the frozen elements, in order. */
    method ProxifyList(list: Object) returns (r: Result<Object>)
      requires Valid() && !list.Null? && BranchOf(list) == ListBranch
      modifies this
      decreases list, 1
      ensures Valid()
      ensures Extends(old(enhanceableMap), enhanceableMap) && Extends(old(factories), factories)
      ensures old(made) <= made
      ensures Froze(list, r)
      ensures r.Ok? ==> Proxies(r.value) <= Proxies(list) + made
    {
      var elements := FreezeEach(list, list.items);
      if elements.Thrown? {
        return Thrown(elements.failure);
      }
      r := Ok(ImmList(elements.value));
      forall p | p in Proxies(r.value) ensures p in Proxies(list) + made {
        var k :| 0 <= k < |elements.value| && p in Proxies(elements.value[k]);
      }
    }

    /** `proxifySet`: an ImmutableSet of the frozen elements, in the source's
        iteration order. */
    method ProxifySet(set_: Object) returns (r: Result<Object>)
      requires Valid() && !set_.Null? && BranchOf(set_) == SetBranch
      modifies this
      decreases set_, 1
      ensures Valid()
      ensures Extends(old(enhanceableMap), enhanceableMap) && Extends(old(factories), factories)
      ensures old(made) <= made
      ensures Froze(set_, r)
      ensures r.Ok? ==> Proxies(r.value) <= Proxies(set_) + made
    {
      var elements := FreezeEach(set_, set_.items);
      if elements.Thrown? {
        return Thrown(elements.failure);
      }
      r := Ok(ImmSet(elements.value));
      forall p | p in Proxies(r.value) ensures p in Proxies(set_) + made {
        var k :| 0 <= k < |elements.value| && p in Proxies(elements.value[k]);
      }
    }

    /** One step of `proxifyMap`: freeze the key, then the value it maps to. */
    method FreezeEntry(owner: Object, i: nat) returns (r: Result<(Object, Object)>)
      requires Valid() && (owner.Obj? || owner.ImmMap?) && i < |owner.entries|
      modifies this
      decreases owner, 0
      ensures Valid()
      ensures Extends(old(enhanceableMap), enhanceableMap) && Extends(old(factories), factories)
      ensures old(made) <= made
      ensures r.Ok? <==> CanFreeze(owner.entries[i].0) && CanFreeze(owner.entries[i].1)
      ensures r.Ok? ==> FreezesTo(owner.entries[i].0, r.value.0) && FreezesTo(owner.entries[i].1, r.value.1)
      ensures r.Ok? ==> Proxies(r.value.0) <= Proxies(owner.entries[i].0) + made
      ensures r.Ok? ==> Proxies(r.value.1) <= Proxies(owner.entries[i].1) + made
      ensures r.Thrown? ==> Fatal(r.failure)
    {
      var key := Freeze(owner.entries[i].0);
      if key.Thrown? {
        return Thrown(key.failure);
      }
      var value := Freeze(owner.entries[i].1);
      if value.Thrown? {
        return Thrown(value.failure);
      }
      r := Ok((key.value, value.value));
    }

    /** One entry of a map and its frozen counterpart. */
    ghost predicate EntryFrozen(e: (Object, Object), f: (Object, Object), wrappers: set<ProxyInstance>) {
      && CanFreeze(e.0) && CanFreeze(e.1)
      && FreezesTo(e.0, f.0) && FreezesTo(e.1, f.1)
      && Proxies(f.0) <= Proxies(e.0) + wrappers
      && Proxies(f.1) <= Proxies(e.1) + wrappers
    }

    /** Freezing every entry freezes the map. */
    lemma MapFrozen(map_: Object, built: seq<(Object, Object)>, wrappers: set<ProxyInstance>)
      requires !map_.Null? && BranchOf(map_) == MapBranch && |built| == |map_.entries|
      requires forall j :: 0 <= j < |built| ==> EntryFrozen(map_.entries[j], built[j], wrappers)
      ensures CanFreeze(map_) && FreezesTo(map_, ImmMap(built))
    {
      forall j | 0 <= j < |built|
        ensures CanFreeze(map_.entries[j].0) && CanFreeze(map_.entries[j].1)
        ensures FreezesTo(map_.entries[j].0, built[j].0) && FreezesTo(map_.entries[j].1, built[j].1)
      {
        assert EntryFrozen(map_.entries[j], built[j], wrappers);
      }
    }

    /** The wrappers in a frozen map come from the source map or are new. */
    lemma MapWrappers(map_: Object, built: seq<(Object, Object)>, wrappers: set<ProxyInstance>)
      requires !map_.Null? && BranchOf(map_) == MapBranch && |built| == |map_.entries|
      requires forall j :: 0 <= j < |built| ==> EntryFrozen(map_.entries[j], built[j], wrappers)
      ensures Proxies(ImmMap(built)) <= Proxies(map_) + wrappers
    {
      forall p | p in Proxies(ImmMap(built)) ensures p in Proxies(map_) + wrappers {
        if k :| 0 <= k < |built| && p in Proxies(built[k].0) {
          EntryWrappers(map_, built[k], wrappers, k);
        } else {
          var k :| 0 <= k < |built| && p in Proxies(built[k].1);
          EntryWrappers(map_, built[k], wrappers, k);
        }
      }
    }

    /** The wrappers in one frozen entry come from the map or are new. */
    lemma EntryWrappers(map_: Object, f: (Object, Object), wrappers: set<ProxyInstance>, k: nat)
      requires !map_.Null? && BranchOf(map_) == MapBranch && k < |map_.entries|
      requires EntryFrozen(map_.entries[k], f, wrappers)
      ensures Proxies(f.0) <= Proxies(map_) + wrappers && Proxies(f.1) <= Proxies(map_) + wrappers
    {
      assert Proxies(map_.entries[k].0) <= Proxies(map_);
      assert Proxies(map_.entries[k].1) <= Proxies(map_);
    }

    /** `proxifyMap`: for each key, in key-set order, the entry
        `freeze(key) -> freeze(map.get(key))`. */
    method ProxifyMap(map_: Object) returns (r: Result<Object>)
      requires Valid() && !map_.Null? && BranchOf(map_) == MapBranch
      modifies this
      decreases map_, 1
      ensures Valid()
      ensures Extends(old(enhanceableMap), enhanceableMap) && Extends(old(factories), factories)
      ensures old(made) <= made
      ensures Froze(map_, r)
      ensures r.Ok? ==> Proxies(r.value) <= Proxies(map_) + made
    {
      var built: seq<(Object, Object)> := [];
      var i := 0;
      while i < |map_.entries|
        invariant 0 <= i <= |map_.entries| && |built| == i
        invariant Valid()
        invariant Extends(old(enhanceableMap), enhanceableMap) && Extends(old(factories), factories)
        invariant old(made) <= made
        invariant forall j :: 0 <= j < i ==> EntryFrozen(map_.entries[j], built[j], made)
      {
        var entry := FreezeEntry(map_, i);
        if entry.Thrown? {
          return Thrown(entry.failure);
        }
        built := built + [entry.value];
        i := i + 1;
      }
      r := Ok(ImmMap(built));
      MapFrozen(map_, built, made);
      MapWrappers(map_, built, made);
    }

    /** `freeze`: null, then List, then Set, then Map, then bean. */
    method Freeze(bean: Object) returns (r: Result<Object>)
      requires Valid()
      modifies this
      decreases bean, 2
      ensures Valid()
      ensures Extends(old(enhanceableMap), enhanceableMap) && Extends(old(factories), factories)
      ensures old(made) <= made
      ensures Froze(bean, r)
      ensures r.Ok? ==> Proxies(r.value) <= Proxies(bean) + made
      ensures bean.Null? ==> r == Ok(Null) && unchanged(this)
      ensures !bean.Null? && BranchOf(bean) == BeanBranch && r.Ok? && Enhanceable(ClassOf(bean)) ==>
                && r.value.Proxy? && r.value.handle in made
                && fresh(r.value.handle.freezing) && r.value.handle.freezing.immutableBeans == map[]
    {
      if bean.Null? {
        return Ok(Null);
      }
      match BranchOf(bean)
      case ListBranch => r := ProxifyList(bean);
      case SetBranch => r := ProxifySet(bean);
      case MapBranch => r := ProxifyMap(bean);
      case BeanBranch => r := ProxifyBean(bean);
    }
  }
}
