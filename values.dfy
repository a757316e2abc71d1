/**
 * Java object graphs as the freezing engine sees them, and the order in
 * which `freeze` tests the runtime shape of a value.
 *
 * `H` is the type of a wrapper's identity (the proxy object CGLIB creates);
 * the engine instantiates it with its own class, the pure modules leave it
 * abstract.
 */
module Values {
  import opened Descriptors

  datatype Value<H> =
    | Null
    /** A `java.lang.Boolean`, the answer of an intercepted `equals`. */
    | BoolV(b: bool)
    /** A mutable object of class `cls` with identity `id`. When `cls` is a
        List or a Set, `items` are its elements in iteration order; when it
        is a Map, `entries` are its key/value pairs in key-set order. */
    | Obj(cls: TypeDesc, id: nat, items: seq<Value<H>>, entries: seq<(Value<H>, Value<H>)>)
    /** The Guava immutable containers the engine builds. */
    | ImmList(items: seq<Value<H>>)
    | ImmSet(items: seq<Value<H>>)
    | ImmMap(entries: seq<(Value<H>, Value<H>)>)
    /** A CGLIB wrapper around `delegate`; `handle` is the proxy object itself. */
    | Proxy(delegate: Value<H>, handle: H)

  /** The four ways `freeze` can treat a non-null value. */
  datatype Branch = ListBranch | SetBranch | MapBranch | BeanBranch

  /** `instanceof List`, then `instanceof Set`, then `instanceof Map`, else a bean. */
  function Dispatch(isList: bool, isSet: bool, isMap: bool): (b: Branch)
    ensures b == ListBranch <==> isList
    ensures b == SetBranch <==> !isList && isSet
    ensures b == MapBranch <==> !isList && !isSet && isMap
    ensures b == BeanBranch <==> !isList && !isSet && !isMap
  {
    if isList then ListBranch
    else if isSet then SetBranch
    else if isMap then MapBranch
    else BeanBranch
  }

  /** The branch `freeze` takes for a non-null value. A wrapper is a
      subclass of a bean class (freeze never wraps a List, a Set or a Map),
      and a Boolean is a final bean. */
  function BranchOf<H>(v: Value<H>): (b: Branch)
    requires !v.Null?
    ensures b == ListBranch ==> v.Obj? || v.ImmList?
    ensures b == SetBranch ==> v.Obj? || v.ImmSet?
    ensures b == MapBranch ==> v.Obj? || v.ImmMap?
    ensures b == BeanBranch ==> v.Obj? || v.Proxy? || v.BoolV?
  {
    match v
    case BoolV(_) => BeanBranch
    case Obj(cls, _, _, _) => Dispatch(cls.isList, cls.isSet, cls.isMap)
    case ImmList(_) => ListBranch
    case ImmSet(_) => SetBranch
    case ImmMap(_) => MapBranch
    case Proxy(_, _) => BeanBranch
  }

  /** A value with every wrapper identity forgotten. */
  function Erase<H>(v: Value<H>): (e: Value<()>)
    ensures e.Null? <==> v.Null?
    ensures e.Proxy? <==> v.Proxy?
  {
    match v
    case Null => Null
    case BoolV(b) => BoolV(b)
    case Obj(cls, id, items, entries) =>
      Obj(cls, id, seq(|items|, i requires 0 <= i < |items| => Erase(items[i])),
          seq(|entries|, i requires 0 <= i < |entries| => (Erase(entries[i].0), Erase(entries[i].1))))
    case ImmList(items) => ImmList(seq(|items|, i requires 0 <= i < |items| => Erase(items[i])))
    case ImmSet(items) => ImmSet(seq(|items|, i requires 0 <= i < |items| => Erase(items[i])))
    case ImmMap(entries) =>
      ImmMap(seq(|entries|, i requires 0 <= i < |entries| => (Erase(entries[i].0), Erase(entries[i].1))))
    case Proxy(d, _) => Proxy(Erase(d), ())
  }

  /** No unwrapped List, Set or Map and no unwrapped enhanceable bean is
      reachable without calling an accessor: those containers are Guava
      immutable ones whose contents are again deeply frozen, enhanceable
      beans (other collections included) are wrapped, and what remains is a
      final or otherwise non-enhanceable bean. */
  ghost predicate DeeplyFrozen<H>(v: Value<H>) {
    match v
    case Null => true
    case BoolV(_) => true
    case Obj(cls, _, _, _) =>
      Dispatch(cls.isList, cls.isSet, cls.isMap) == BeanBranch && !Enhanceable(cls)
    case ImmList(items) => forall i :: 0 <= i < |items| ==> DeeplyFrozen(items[i])
    case ImmSet(items) => forall i :: 0 <= i < |items| ==> DeeplyFrozen(items[i])
    case ImmMap(entries) =>
      forall i :: 0 <= i < |entries| ==> DeeplyFrozen(entries[i].0) && DeeplyFrozen(entries[i].1)
    case Proxy(_, _) => true
  }
}
