/**
 * The mutation guard: the callback that intercepts mutators. It forwards
 * them while inactive (so that a proxy's constructor may call setters) and
 * rejects them once the engine has activated it; it never deactivates.
 */
module ExceptionInterceptor {
  import opened Descriptors

  /** What can happen to the guard's flag: `setActive(b)`, or a call that
      does not touch it (`intercept`, `isActive`). */
  datatype GuardOp = SetActiveOp(b: bool) | OtherOp

  /** Reference definition of one step of the flag. */
  function Step(active: bool, op: GuardOp): bool {
    match op
    case SetActiveOp(b) => if active then active else b
    case OtherOp => active
  }

  /** The flag after a sequence of operations. */
  function Run(active: bool, ops: seq<GuardOp>): bool
    decreases |ops|
  {
    if ops == [] then active else Run(Step(active, ops[0]), ops[1..])
  }

  /** Once active, always active. */
  lemma {:induction false} RunStaysActive(ops: seq<GuardOp>)
    ensures Run(true, ops)
    decreases |ops|
  {
    if ops != [] {
      RunStaysActive(ops[1..]);
    }
  }

  /** From inactive, the flag ends up active exactly when some operation
      was `setActive(true)`. */
  lemma {:induction false} RunFromInactive(ops: seq<GuardOp>)
    ensures Run(false, ops) <==> exists i :: 0 <= i < |ops| && ops[i] == SetActiveOp(true)
    decreases |ops|
  {
    if ops != [] {
      if ops[0] == SetActiveOp(true) {
        RunStaysActive(ops[1..]);
      } else {
        RunFromInactive(ops[1..]);
        if Run(false, ops) {
          var i :| 0 <= i < |ops[1..]| && ops[1..][i] == SetActiveOp(true);
          assert ops[i + 1] == SetActiveOp(true);
        } else {
          forall i | 0 <= i < |ops| ensures ops[i] != SetActiveOp(true) {
            if i > 0 { assert ops[i] == ops[1..][i - 1]; }
          }
        }
      }
    }
  }

  /** A pattern `MessageFormat` accepts and that this model formats: no
      quotes, and every `{` opens the placeholder `{0}` (an unmatched or
      malformed brace makes `MessageFormat` throw). */
  predicate PlainPattern(pattern: string) {
    && '\'' !in pattern
    && forall i :: 0 <= i < |pattern| && pattern[i] == '{' ==> i + 3 <= |pattern| && pattern[i..i + 3] == "{0}"
  }

  /** Every suffix of a plain pattern is plain. */
  lemma PlainSuffix(pattern: string, k: nat)
    requires k <= |pattern| && PlainPattern(pattern)
    ensures PlainPattern(pattern[k..])
  {
    assert forall c :: c in pattern[k..] ==> c in pattern;
    forall i | 0 <= i < |pattern[k..]| && pattern[k..][i] == '{'
      ensures i + 3 <= |pattern[k..]| && pattern[k..][i..i + 3] == "{0}"
    {
      assert pattern[k + i] == '{';
      assert pattern[k..][i..i + 3] == pattern[k + i..k + i + 3];
    }
  }

  /** `MessageFormat.format(pattern, arg)`: each `{0}` becomes `arg`, every
      other character is copied. */
  function Format(pattern: string, arg: string): string
    requires PlainPattern(pattern)
    decreases |pattern|
  {
    if |pattern| == 0 then ""
    else if |pattern| >= 3 && pattern[..3] == "{0}" then
      PlainSuffix(pattern, 3);
      arg + Format(pattern[3..], arg)
    else
      PlainSuffix(pattern, 1);
      [pattern[0]] + Format(pattern[1..], arg)
  }

  /** A pattern with no placeholder formats to itself, whatever the argument. */
  lemma {:induction false} FormatWithoutPlaceholder(pattern: string, arg: string)
    requires '\'' !in pattern && '{' !in pattern
    ensures PlainPattern(pattern) && Format(pattern, arg) == pattern
    decreases |pattern|
  {
    assert forall i :: 0 <= i < |pattern| ==> pattern[i] in pattern;
    if |pattern| > 0 {
      assert pattern[0] in pattern;
      assert forall c :: c in pattern[1..] ==> c in pattern;
      FormatWithoutPlaceholder(pattern[1..], arg);
      assert [pattern[0]] + pattern[1..] == pattern;
    }
  }

  /** The text after the class name, in three pieces short enough for the
      verifier to scan character by character. */
  const MESSAGE_TAIL := " class is immutable: " + "mutators execution " + "is not allowed."

  /** The tail holds no quote and no brace. */
  lemma TailIsPlain()
    ensures '\'' !in MESSAGE_TAIL && '{' !in MESSAGE_TAIL
  {
  }

  /** A plain pattern followed by text with no quote and no brace is plain. */
  lemma PlainConcat(p: string, tail: string)
    requires PlainPattern(p) && '\'' !in tail && '{' !in tail
    ensures PlainPattern(p + tail)
  {
    var q := p + tail;
    assert forall c :: c in q ==> c in p || c in tail;
    forall i | 0 <= i < |q| && q[i] == '{' ensures i + 3 <= |q| && q[i..i + 3] == "{0}" {
      assert i < |p| && p[i] == '{';
      assert q[i..i + 3] == p[i..i + 3];
    }
  }

  /** The pattern the guard passes to `MessageFormat`: `%s` is not a
      `MessageFormat` placeholder. */
  const PATTERN_AS_WRITTEN := "%s" + MESSAGE_TAIL

  /** The pattern that names the class. */
  const PATTERN := "{0}" + MESSAGE_TAIL

  /** Both patterns are plain. */
  lemma PatternsArePlain()
    ensures PlainPattern(PATTERN_AS_WRITTEN) && PlainPattern(PATTERN)
  {
    TailIsPlain();
    assert PlainPattern("%s");
    PlainConcat("%s", MESSAGE_TAIL);
    assert "{0}"[0..3] == "{0}";
    PlainConcat("{0}", MESSAGE_TAIL);
  }

  /** The rejection message as the guard builds it for a class with simple
      name `simpleName`. */
  function MessageAsWritten(simpleName: string): string {
    PatternsArePlain();
    Format(PATTERN_AS_WRITTEN, simpleName)
  }

  /** The rejection message with the class named, as the guard's message
      evidently means it to be. */
  function Message(simpleName: string): string {
    PatternsArePlain();
    Format(PATTERN, simpleName)
  }

  /** As written, the message is the same for every class: the `%s` stays
      in the text and no class name appears. */
  lemma MessageAsWrittenOmitsClass(a: string, b: string)
    ensures MessageAsWritten(a) == MessageAsWritten(b) == PATTERN_AS_WRITTEN
  {
    TailIsPlain();
    FormatWithoutPlaceholder(PATTERN_AS_WRITTEN, a);
    FormatWithoutPlaceholder(PATTERN_AS_WRITTEN, b);
  }

  /** The corrected message starts with the class name, so it tells
      classes apart. */
  lemma MessageNamesClass(a: string, b: string)
    ensures Message(a) == a + MESSAGE_TAIL
    ensures Message(a) == Message(b) ==> a == b
  {
    TailIsPlain();
    assert PATTERN[..3] == "{0}" && PATTERN[3..] == MESSAGE_TAIL;
    FormatWithoutPlaceholder(MESSAGE_TAIL, a);
    FormatWithoutPlaceholder(MESSAGE_TAIL, b);
    if Message(a) == Message(b) {
      assert a == Message(a)[..|a|];
    }
  }

  /** The guard of one wrapper, bound to that wrapper's delegate. */
  class ExceptionMethodInterceptor<V> {
    const delegate: V
    var active: bool

    /** A new guard is bound to `delegate` and inactive. */
    constructor (delegate: V)
      ensures this.delegate == delegate && !active
    {
      this.delegate := delegate;
      active := false;
    }

    /** Intercept `m(args)` on a proxy of class `proxyType`. `invoke` stands
        for reflective invocation on the delegate; `invoked` reports whether
        the delegate was called. The rejection carries the message as the
        guard builds it, which is the same text for every class. */
    method Intercept(proxyType: TypeDesc, m: MethodDesc, args: seq<V>, invoke: (V, MethodDesc, seq<V>) -> V)
      returns (r: Result<V>, invoked: bool)
      ensures active ==> r == Thrown(UnsupportedOperation(PATTERN_AS_WRITTEN)) && !invoked
      ensures !active ==> r == Ok(invoke(delegate, m, args)) && invoked
    {
      if active {
        MessageAsWrittenOmitsClass(proxyType.name, proxyType.name);
        return Thrown(UnsupportedOperation(MessageAsWritten(proxyType.name))), false;
      }
      r, invoked := Ok(invoke(delegate, m, args)), true;
    }

    method IsActive() returns (b: bool)
      ensures b == active
    {
      b := active;
    }

    /** Sets the flag to `b` unless it is already active. */
    method SetActive(b: bool)
      modifies this
      ensures active == Step(old(active), SetActiveOp(b))
      ensures old(active) ==> active
      ensures !old(active) ==> active == b
    {
      var current := IsActive();
      if !current {
        active := b;
      }
    }
  }
}
