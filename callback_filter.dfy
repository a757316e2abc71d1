/**
 * The CGLIB callback filter: which of the four callbacks intercepts a
 * method of the generated proxy class. CGLIB asks it once per method when
 * it builds the class, so the answer depends on the method alone.
 */
module CallbackFilter {
  import opened Descriptors

  const EQUALS_CALLBACK_INDEX := 0
  const EXCEPTION_CALLBACK_INDEX := 1
  const DELEGATING_CALLBACK_INDEX := 2
  const FREEZING_CALLBACK_INDEX := 3

  /** The callback classes, in the order the engine registers them with the
      Enhancer and fills the callback array. */
  datatype CallbackKind = EqualsKind | ExceptionKind | DelegatingKind | FreezingKind

  const CallbackTypes: seq<CallbackKind> := [EqualsKind, ExceptionKind, DelegatingKind, FreezingKind]

  /** The mutator naming convention the filter recognises. */
  predicate MutatorName(name: string) {
    StartsWith(name, "set") || StartsWith(name, "add") || StartsWith(name, "remove")
  }

  /** The accessor naming convention the filter recognises. */
  predicate AccessorName(name: string) {
    StartsWith(name, "get") || StartsWith(name, "is")
  }

  /** One filter per proxied class; `codeFreeze` is the engine that owns it. */
  datatype Filter<E> = Filter(codeFreeze: E, typeToProxify: TypeDesc)
  {
    /** The callback index for `m`. `isEnhanceable` is the engine's
        enhanceability oracle. Only the name is compared with "equals", and
        only the boxed `java.lang.Void` counts as "returns nothing". */
    function Accept(isEnhanceable: TypeDesc -> bool, m: MethodDesc): (index: int)
      ensures 0 <= index < |CallbackTypes|
      ensures index == EQUALS_CALLBACK_INDEX <==> m.name == "equals"
      ensures index == EXCEPTION_CALLBACK_INDEX <==>
                m.name != "equals" && (m.returnType == BoxedVoid || MutatorName(m.name))
      ensures index == FREEZING_CALLBACK_INDEX <==>
                && m.name != "equals"
                && m.returnType != BoxedVoid
                && !MutatorName(m.name)
                && isEnhanceable(m.returnType)
                && m.declaringClass != ObjectClass
                && AccessorName(m.name)
    {
      if m.name == "equals" then EQUALS_CALLBACK_INDEX
      else if m.returnType == BoxedVoid || MutatorName(m.name) then EXCEPTION_CALLBACK_INDEX
      else if !isEnhanceable(m.returnType) || m.declaringClass == ObjectClass then DELEGATING_CALLBACK_INDEX
      else if AccessorName(m.name) then FREEZING_CALLBACK_INDEX
      else DELEGATING_CALLBACK_INDEX
    }

    /** `hashCode`: the hash of the proxied class (`classHash` stands for
        `Class.hashCode`); the engine plays no part in it. */
    function HashCode(classHash: TypeDesc -> int): (h: int)
      ensures h == classHash(typeToProxify)
    {
      classHash(typeToProxify)
    }

    /** `equals`: another filter for the same class, whatever its engine;
        never null, never an object of another class. */
    predicate Equals(o: Other<E>): (b: bool)
      ensures b ==> o.AFilter?
      ensures o.AFilter? ==> (b <==> o.f.typeToProxify == typeToProxify)
    {
      match o
      case NullRef => false
      case NotAFilter => false
      case AFilter(that) => typeToProxify == that.typeToProxify
    }
  }

  /** The argument of `Filter.equals`: null, an object of another class, or
      a filter. */
  datatype Other<E> = NullRef | NotAFilter | AFilter(f: Filter<E>)

  /** A method with a final return type (every primitive, `String`,
      `BigInteger`) that is neither `equals`, nor a mutator, nor declared to
      return the boxed Void, is forwarded to the mutable delegate: its
      result is not frozen, whatever its name. */
  lemma FinalReturnIsDelegated<E>(f: Filter<E>, m: MethodDesc)
    requires m.returnType.isFinal && m.name != "equals" && m.returnType != BoxedVoid && !MutatorName(m.name)
    ensures f.Accept(Enhanceable, m) == DELEGATING_CALLBACK_INDEX
  {
  }

  /** A method returning primitive `void` is blocked exactly when its name
      follows the mutator convention; any other (`void clear()`) is
      forwarded to the mutable delegate, because the filter compares with
      the boxed Void only. */
  lemma PrimitiveVoidIsNotBlocked<E>(f: Filter<E>, m: MethodDesc)
    requires m.returnType == PrimitiveVoid && m.name != "equals"
    ensures f.Accept(Enhanceable, m) ==
              if MutatorName(m.name) then EXCEPTION_CALLBACK_INDEX else DELEGATING_CALLBACK_INDEX
  {
    assert PrimitiveVoid != BoxedVoid;
  }

  /** Every setter is blocked, whatever it returns and whoever declares it. */
  lemma SettersAreBlocked<E>(f: Filter<E>, isEnhanceable: TypeDesc -> bool, m: MethodDesc)
    requires StartsWith(m.name, "set")
    ensures f.Accept(isEnhanceable, m) == EXCEPTION_CALLBACK_INDEX
  {
    assert m.name[..3] == "set";
    assert m.name[0] == 's';
    assert m.name != "equals";
  }

  /** The routing depends on the method only: two filters, for any two
      classes, route every method alike. */
  lemma AcceptIgnoresFilter<E>(f: Filter<E>, g: Filter<E>, isEnhanceable: TypeDesc -> bool, m: MethodDesc)
    ensures f.Accept(isEnhanceable, m) == g.Accept(isEnhanceable, m)
  {
  }

  /** `equals` is an equivalence on filters, and equal filters hash alike. */
  lemma EqualsIsConsistentWithHashCode<E>(f: Filter<E>, g: Filter<E>, h: Filter<E>, classHash: TypeDesc -> int)
    ensures f.Equals(AFilter(f))
    ensures f.Equals(AFilter(g)) <==> g.Equals(AFilter(f))
    ensures f.Equals(AFilter(g)) && g.Equals(AFilter(h)) ==> f.Equals(AFilter(h))
    ensures f.Equals(AFilter(g)) ==> f.HashCode(classHash) == g.HashCode(classHash)
    ensures f.Equals(AFilter(g)) <==> f.typeToProxify == g.typeToProxify
  {
  }
}
