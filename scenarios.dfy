/**
 * Properties that relate several calls on wrappers built by the engine:
 * the memo answers a repeated accessor call, whatever its arguments, and
 * setters are rejected on a frozen bean and on the frozen bean that one of
 * its getters returns.
 */
module Scenarios {
  import opened Descriptors
  import opened Values
  import opened CallbackFilter
  import opened ExceptionInterceptor
  import opened Engine

  /** Two calls of the same accessor (the same `Method`: name, parameter
      types, return type and declaring class) on one freezing callback:
      once the first has produced a non-null result, the second returns
      that same object without calling the delegate, even with other
      arguments. */
  method RepeatedAccessorCall(
    interceptor: FreezingMethodInterceptor, m: MethodDesc, args1: seq<Object>, args2: seq<Object>, invoke: Invoker)
    returns (first: Result<Object>, second: Result<Object>, secondInvoked: bool)
    requires interceptor.Valid() && interceptor.codeFreeze.Valid()
    modifies interceptor, interceptor.codeFreeze
    ensures first.Ok? && !first.value.Null? ==> second == first && !secondInvoked
    ensures first.Ok? && first.value.Null? && m !in old(interceptor.immutableBeans) ==> secondInvoked
  {
    var firstInvoked;
    first, firstInvoked := interceptor.Intercept(m, args1, invoke);
    second, secondInvoked := interceptor.Intercept(m, args2, invoke);
  }

  /** Two overloads of an accessor (same name, other parameter types) on a
      fresh freezing callback are cached apart: the second call reaches the
      delegate and freezes its own result. */
  method OverloadsAreCachedApart(
    interceptor: FreezingMethodInterceptor, m1: MethodDesc, m2: MethodDesc,
    args1: seq<Object>, args2: seq<Object>, invoke: Invoker)
    returns (first: Result<Object>, second: Result<Object>, secondInvoked: bool)
    requires interceptor.Valid() && interceptor.codeFreeze.Valid() && interceptor.immutableBeans == map[]
    requires m1.name == m2.name && m1.paramTypes != m2.paramTypes
    modifies interceptor, interceptor.codeFreeze
    ensures secondInvoked
    ensures interceptor.codeFreeze.Froze(invoke(interceptor.delegate, m2, args2), second)
  {
    var firstInvoked;
    first, firstInvoked := interceptor.Intercept(m1, args1, invoke);
    second, secondInvoked := interceptor.Intercept(m2, args2, invoke);
  }

  /** A getter whose result type is enhanceable is routed to the freezing
      callback. */
  lemma GetterIsFrozen<E>(f: Filter<E>, m: MethodDesc)
    requires StartsWith(m.name, "get") && Enhanceable(m.returnType) && m.declaringClass != ObjectClass
    ensures f.Accept(Enhanceable, m) == FREEZING_CALLBACK_INDEX
  {
    assert m.name[..3] == "get";
    assert m.name[0] == 'g';
    assert m.name != "equals";
    assert m.returnType != BoxedVoid;
  }

  /** The same getter called twice on one wrapper: once the first call has
      produced a non-null result, the second returns that same object,
      whatever its arguments. */
  method RepeatedGetterOnWrapper(
    wrapper: ProxyInstance, getter: MethodDesc, args1: seq<Object>, args2: seq<Object>,
    invoke: Invoker, objEquals: (Object, Object) -> bool)
    returns (first: Result<Object>, second: Result<Object>)
    requires wrapper.Shaped() && wrapper.freezing.Valid() && wrapper.freezing.codeFreeze.Valid()
    requires StartsWith(getter.name, "get") && Enhanceable(getter.returnType) && getter.declaringClass != ObjectClass
    requires !getter.isFinal
    modifies wrapper.freezing, wrapper.freezing.codeFreeze
    ensures first.Ok? && !first.value.Null? ==> second == first
  {
    GetterIsFrozen(wrapper.factory.filter, getter);
    first := wrapper.Invoke(getter, args1, invoke, objEquals);
    second := wrapper.Invoke(getter, args2, invoke, objEquals);
  }

  /** A setter called on a wrapper whose guard is on is rejected, with the
      same message whatever the class; a final setter is not intercepted:
      its result is what its inherited body returns when run with the
      wrapper as `this`. */
  method CallSetter(
    wrapper: ProxyInstance, setter: MethodDesc, args: seq<Object>, invoke: Invoker, objEquals: (Object, Object) -> bool)
    returns (r: Result<Object>)
    requires wrapper.Shaped() && wrapper.Sealed() && StartsWith(setter.name, "set")
    ensures !setter.isFinal ==> r == Thrown(UnsupportedOperation(PATTERN_AS_WRITTEN))
    ensures setter.isFinal ==> r == Ok(invoke(wrapper.Self(), setter, args))
  {
    SettersAreBlocked(wrapper.factory.filter, Enhanceable, setter);
    r := wrapper.Invoke(setter, args, invoke, objEquals);
  }

  /** A getter (not final, so overridden) called on the frozen `bean`,
      whose result is an enhanceable bean holding no wrappers: the answer
      is a sealed wrapper of that result. */
  method CallGetter(
    engine: CodeFreeze, wrapper: ProxyInstance, bean: Object, getter: MethodDesc, args: seq<Object>,
    invoke: Invoker, objEquals: (Object, Object) -> bool)
    returns (nested: ProxyInstance)
    requires engine.Valid() && wrapper.Wired(engine, bean)
    requires wrapper.freezing.Valid() && wrapper.freezing.immutableBeans == map[]
    requires StartsWith(getter.name, "get") && Enhanceable(getter.returnType) && getter.declaringClass != ObjectClass
    requires !getter.isFinal
    requires invoke(bean, getter, args).Obj? && BranchOf(invoke(bean, getter, args)) == BeanBranch
    requires Enhanceable(invoke(bean, getter, args).cls) && engine.creatable(invoke(bean, getter, args).cls)
    requires Proxies(invoke(bean, getter, args)) == {}
    modifies wrapper.freezing, engine
    ensures nested.Shaped() && nested.Sealed() && nested.Wired(engine, invoke(bean, getter, args))
    ensures nested.ProxyType() == ProxyClass(invoke(bean, getter, args).cls)
  {
    GetterIsFrozen(wrapper.factory.filter, getter);
    var got := wrapper.Invoke(getter, args, invoke, objEquals);
    var child := invoke(bean, getter, args);
    assert engine.FreezesTo(child, got.value);
    nested := got.value.handle;
    assert nested in Proxies(got.value) && nested.Wired(engine, child);
  }

  /** Freezing an enhanceable bean, calling a setter on the result, then a
      getter, then a setter on what the getter returned: both setters are
      rejected with the same message, and the delegate never sees them.
      `invoke` is the reflective call on the unfrozen objects; the getter's
      result holds no wrappers; neither method is final, as in an ordinary
      entity class. */
  method NestedSettersThrow(
    engine: CodeFreeze, bean: Object, getter: MethodDesc, setter: MethodDesc, args: seq<Object>,
    setterArgs: seq<Object>, invoke: Invoker, objEquals: (Object, Object) -> bool)
    returns (outer: Result<Object>, inner: Result<Object>)
    requires engine.Valid()
    requires bean.Obj? && BranchOf(bean) == BeanBranch && Enhanceable(bean.cls) && engine.creatable(bean.cls)
    requires StartsWith(setter.name, "set") && !setter.isFinal
    requires StartsWith(getter.name, "get") && Enhanceable(getter.returnType) && getter.declaringClass != ObjectClass
    requires !getter.isFinal
    requires invoke(bean, getter, args).Obj? && BranchOf(invoke(bean, getter, args)) == BeanBranch
    requires Enhanceable(invoke(bean, getter, args).cls) && engine.creatable(invoke(bean, getter, args).cls)
    requires Proxies(invoke(bean, getter, args)) == {}
    modifies engine
    ensures outer == Thrown(UnsupportedOperation(PATTERN_AS_WRITTEN))
    ensures inner == Thrown(UnsupportedOperation(PATTERN_AS_WRITTEN))
  {
    var root := engine.Freeze(bean);
    var wrapper := root.value.handle;
    assert wrapper.Wired(engine, bean);
    outer := CallSetter(wrapper, setter, setterArgs, invoke, objEquals);
    var nested := CallGetter(engine, wrapper, bean, getter, args, invoke, objEquals);
    inner := CallSetter(nested, setter, setterArgs, invoke, objEquals);
  }
}
