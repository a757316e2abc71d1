/**
 * Type and method descriptors that stand in for java.lang.Class and
 * java.lang.reflect.Method, the failures the engine can raise, and the
 * enhanceability verdict that the engine memoises per type.
 */
module Descriptors {

  /** A Java class as far as the engine inspects it: its final modifier,
      the collection interfaces it implements, and whether one of its public
      constructors takes no parameters. `isOtherCollection` marks a
      Collection that is neither a List nor a Set (a Queue, say). */
  datatype TypeDesc = TypeDesc(
    name: string,
    isFinal: bool,
    isList: bool,
    isSet: bool,
    isOtherCollection: bool,
    isMap: bool,
    hasPublicNoArgCtor: bool)
  {
    /** `Collection.class.isAssignableFrom(this)` */
    predicate IsCollection() {
      isList || isSet || isOtherCollection
    }
  }

  /** A method as `java.lang.reflect.Method` describes it: name, parameter
      types, return type and declaring class (the four parts
      `Method.equals` compares), and its final modifier. CGLIB overrides
      only methods that are not final. */
  datatype MethodDesc = MethodDesc(
    name: string,
    paramTypes: seq<TypeDesc>,
    returnType: TypeDesc,
    declaringClass: TypeDesc,
    isFinal: bool)

  // Well-known classes. Primitive classes report the final modifier.
  const ObjectClass := TypeDesc("java.lang.Object", false, false, false, false, false, true)
  const BoxedVoid := TypeDesc("java.lang.Void", true, false, false, false, false, false)
  const PrimitiveVoid := TypeDesc("void", true, false, false, false, false, false)
  const BooleanClass := TypeDesc("java.lang.Boolean", true, false, false, false, false, false)
  const ImmutableListClass := TypeDesc("com.google.common.collect.ImmutableList", false, true, false, false, false, false)
  const ImmutableSetClass := TypeDesc("com.google.common.collect.ImmutableSet", false, false, true, false, false, false)
  const ImmutableMapClass := TypeDesc("com.google.common.collect.ImmutableMap", false, false, false, false, true, false)

  /** The class CGLIB generates as a subclass of `t`: never final, and it
      implements what `t` implements. */
  function ProxyClass(t: TypeDesc): (p: TypeDesc)
    ensures !p.isFinal && p.name != t.name
  {
    t.(name := t.name + "$$EnhancerByCGLIB", isFinal := false)
  }

  /** The exceptions the modelled code raises. */
  datatype Failure =
    | UnsupportedOperation(message: string)    // a mutator on an active wrapper
    | IndexOutOfBounds                          // args[0] of an empty argument array
    | ConstructionFailure(cls: TypeDesc)        // CGLIB could not build the proxy class

  datatype Result<T> = Ok(value: T) | Thrown(failure: Failure)

  /** Java's `String.startsWith`. */
  predicate StartsWith(s: string, prefix: string) {
    |prefix| <= |s| && s[..|prefix|] == prefix
  }

  /** A Collection or a Map, or a class with a public zero-parameter
      constructor. Collections and maps pass whatever constructors they
      declare, and no other class passes without such a constructor. */
  predicate HasParameterlessConstructor(t: TypeDesc): (b: bool)
    ensures t.IsCollection() || t.isMap ==> b
    ensures !t.IsCollection() && !t.isMap ==> (b <==> t.hasPublicNoArgCtor)
  {
    t.IsCollection() || t.isMap || t.hasPublicNoArgCtor
  }

  /** The verdict the engine memoises: not final, and constructible without
      arguments. No final class (so no primitive) is enhanceable; every
      other collection or map is, whatever its constructors; any other
      class is exactly when it has a public no-argument constructor. */
  predicate Enhanceable(t: TypeDesc): (b: bool)
    ensures t.isFinal ==> !b
    ensures !t.isFinal && (t.IsCollection() || t.isMap) ==> b
    ensures !t.isFinal && !t.IsCollection() && !t.isMap ==> (b <==> t.hasPublicNoArgCtor)
  {
    !t.isFinal && HasParameterlessConstructor(t)
  }

  /** The subclass CGLIB generates is enhanceable exactly when its superclass
      was constructible without arguments. */
  lemma ProxyClassEnhanceable(t: TypeDesc)
    ensures Enhanceable(ProxyClass(t)) == HasParameterlessConstructor(t)
  {
  }
}
