/**
 * The equality callback: a wrapper's `equals` compares the argument with
 * the wrapper's delegate, never with the wrapper itself, and asks the
 * argument (not the delegate) to do the comparison.
 */
module EqualsInterceptor {
  import opened Descriptors
  import opened Values

  /** How many wrappers are stacked on top of a value. */
  function ProxyDepth<H>(v: Value<H>): nat {
    if v.Proxy? then 1 + ProxyDepth(v.delegate) else 0
  }

  /** `intercept(obj, method, args, proxy)` of the callback bound to
      `delegate`. Only `args[0]` is consulted; `objEquals(a, b)` stands for
      `a.equals(b)` on an object that is not a wrapper. */
  function Intercept<H>(delegate: Value<H>, args: seq<Value<H>>, objEquals: (Value<H>, Value<H>) -> bool)
    : (r: Result<bool>)
    decreases if |args| == 0 then 0 else ProxyDepth(delegate) + ProxyDepth(args[0]), 2
    ensures r.Thrown? <==> |args| == 0
    ensures r.Thrown? ==> r.failure == IndexOutOfBounds
    ensures |args| > 0 && args[0].Null? ==> r == Ok(delegate.Null?)
  {
    if |args| == 0 then Thrown(IndexOutOfBounds)
    else if args[0].Null? then Ok(delegate.Null?)
    else Ok(Equals(args[0], delegate, objEquals))
  }

  /** `recv.equals(arg)` for a non-null receiver: a wrapper answers through
      its equality callback, any other object through `objEquals`. A
      wrapper equals null exactly when it wraps null. */
  function Equals<H>(recv: Value<H>, arg: Value<H>, objEquals: (Value<H>, Value<H>) -> bool): (b: bool)
    requires !recv.Null?
    ensures !recv.Proxy? ==> b == objEquals(recv, arg)
    ensures recv.Proxy? && arg.Null? ==> (b <==> recv.delegate.Null?)
    decreases ProxyDepth(recv) + ProxyDepth(arg), 1
  {
    match recv
    case Proxy(d, _) => Intercept(d, [arg], objEquals).value
    case _ => objEquals(recv, arg)
  }

  /** `d` wrapped once per handle in `hs`, the outermost handle first. */
  function Wrap<H>(d: Value<H>, hs: seq<H>): (w: Value<H>)
    ensures ProxyDepth(w) == ProxyDepth(d) + |hs|
  {
    if hs == [] then d else Proxy(Wrap(d, hs[1..]), hs[0])
  }

  /** A wrapper compared with an ordinary object answers what that object's
      own `equals` says about the delegate: the receiver is swapped. */
  lemma WrapperAsksArgument<H>(d: Value<H>, h: H, x: Value<H>, objEquals: (Value<H>, Value<H>) -> bool)
    requires !x.Null? && !x.Proxy?
    ensures Equals(Proxy(d, h), x, objEquals) == objEquals(x, d)
  {
    assert [x][0] == x;
    assert Intercept(d, [x], objEquals) == Ok(Equals(x, d, objEquals));
  }

  /** Only the first argument and the delegate decide the answer. */
  lemma OnlyFirstArgumentCounts<H>(
    delegate: Value<H>, args1: seq<Value<H>>, args2: seq<Value<H>>, objEquals: (Value<H>, Value<H>) -> bool)
    requires |args1| > 0 && |args2| > 0 && args1[0] == args2[0]
    ensures Intercept(delegate, args1, objEquals) == Intercept(delegate, args2, objEquals)
  {
  }

  /** The swap is observable when `equals` is not symmetric: here the
      argument's `equals` accepts everything and the delegate's accepts
      only itself, so the wrapper says yes where its delegate says no. */
  lemma SwapIsObservable<H>(h: H, c: TypeDesc)
    ensures var d: Value<H> := Obj(c, 0, [], []);
            var x: Value<H> := Obj(c, 1, [], []);
            var objEquals := (a: Value<H>, b: Value<H>) => a == x || a == b;
            Equals(Proxy(d, h), x, objEquals) && !Equals(d, x, objEquals)
  {
  }

  /** When the objects' equality is symmetric, a frozen object compares
      with anything that is not a wrapper exactly as its source does. */
  lemma WrapperEqualsLikeSource<H>(d: Value<H>, h: H, x: Value<H>, objEquals: (Value<H>, Value<H>) -> bool)
    requires !d.Null? && !d.Proxy? && !x.Null? && !x.Proxy?
    requires objEquals(x, d) == objEquals(d, x)
    ensures Equals(Proxy(d, h), x, objEquals) == Equals(d, x, objEquals)
  {
    WrapperAsksArgument(d, h, x, objEquals);
  }

  /** Two values wrapped equally deep compare as their innermost delegates
      do: a frozen root equals a frozen inner entity when the sources are
      equal. */
  lemma {:induction false} SameDepthWrappersCompareDelegates<H>(
    d1: Value<H>, hs1: seq<H>, d2: Value<H>, hs2: seq<H>, objEquals: (Value<H>, Value<H>) -> bool)
    requires !d1.Null? && !d1.Proxy? && !d2.Null? && !d2.Proxy?
    requires |hs1| == |hs2|
    ensures !Wrap(d1, hs1).Null?
    ensures Equals(Wrap(d1, hs1), Wrap(d2, hs2), objEquals) == objEquals(d1, d2)
    decreases |hs1|
  {
    if hs1 == [] {
      assert Wrap(d1, hs1) == d1 && Wrap(d2, hs2) == d2;
    } else {
      var inner1, inner2 := Wrap(d1, hs1[1..]), Wrap(d2, hs2[1..]);
      assert Wrap(d1, hs1) == Proxy(inner1, hs1[0]);
      assert Wrap(d2, hs2) == Proxy(inner2, hs2[0]);
      SameDepthWrappersCompareDelegates(d1, hs1[1..], d2, hs2[1..], objEquals);
      assert Equals(Wrap(d2, hs2), inner1, objEquals) == Equals(inner1, inner2, objEquals);
    }
  }
}
