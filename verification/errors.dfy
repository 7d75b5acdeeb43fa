/** The three kinds of error in a chain (eris.go): root errors, wrap errors and
    foreign ("external") errors, plus Go's nil error, and the walk along the chain
    by Unwrap. */
module Errors {
  import opened Stacks

  /** rootError: a message and a stack that `wrap` resets in place, so a root is an
      object whose identity is what Cause returns. */
  class RootError {
    const msg: string
    var stack: seq<StackFrame>

    constructor (msg: string, stack: seq<StackFrame>)
      ensures this.msg == msg && this.stack == stack
    {
      this.msg := msg;
      this.stack := stack;
    }
  }

  /** An error value not produced by this library, known only by its identity and
      the text its Error method returns. */
  class ForeignError {
    const text: string

    constructor (text: string)
      ensures this.text == text
    {
      this.text := text;
    }
  }

  /** A Go `error` value as seen by this library. A wrap node carries the frames
      captured at its wrap site, the site frame first. */
  datatype Error =
    | Nil
    | RootErr(root: RootError)
    | WrapErr(msg: string, next: Error, frames: seq<StackFrame>)
    | External(foreign: ForeignError)

  /** The root object at the end of the chain, if any: the only mutable state a
      chain's rendering depends on. */
  function Roots(e: Error): set<RootError>
  {
    match e
    case RootErr(r) => {r}
    case WrapErr(_, n, _) => Roots(n)
    case _ => {}
  }

  /** Unwrap: the cause of a wrap node; nil for everything else, since roots and
      foreign errors have no Unwrap method. */
  function Unwrap(e: Error): (u: Error)
    ensures u != Nil ==> e.WrapErr? && u == e.next
    ensures e.WrapErr? ==> u == e.next
  {
    match e
    case WrapErr(_, n, _) => n
    case _ => Nil
  }

  /** `k` successive Unwraps. */
  function UnwrapN(e: Error, k: nat): Error
    decreases k
  {
    if k == 0 then e else UnwrapN(Unwrap(e), k - 1)
  }

  /** The number of wrap layers in front of the chain's end. */
  function Depth(e: Error): nat
  {
    match e
    case WrapErr(_, n, _) => 1 + Depth(n)
    case _ => 0
  }

  /** Every wrap node has a non-nil cause (what Wrap guarantees). */
  predicate WellFormed(e: Error)
  {
    match e
    case WrapErr(_, n, _) => n != Nil && WellFormed(n)
    case _ => true
  }

  /** The chain ends in a root error. */
  predicate Rooted(e: Error)
  {
    match e
    case RootErr(_) => true
    case WrapErr(_, n, _) => Rooted(n)
    case _ => false
  }

  /** The last error reached by repeated Unwrap (what Cause returns). */
  function Terminal(e: Error): (c: Error)
    ensures Unwrap(c) == Nil
    ensures e != Nil ==> c != Nil
    ensures Rooted(e) ==> c.RootErr? && Roots(e) == {c.root}
  {
    match e
    case WrapErr(_, n, _) => if n == Nil then assert !Rooted(n); e else Terminal(n)
    case _ => e
  }

  /** The messages of the wrap layers, outermost first. */
  function LayerMessages(e: Error): (ms: seq<string>)
    ensures |ms| == Depth(e)
  {
    match e
    case WrapErr(m, n, _) => [m] + LayerMessages(n)
    case _ => []
  }

  /** The frames captured by the wrap layers, outermost first. */
  function Captures(e: Error): (cs: seq<seq<StackFrame>>)
    ensures |cs| == Depth(e)
  {
    match e
    case WrapErr(_, n, c) => [c] + Captures(n)
    case _ => []
  }

  /** A chain of k wraps needs k Unwraps to reach its end, which is not a wrap,
      and one more Unwrap gives nil. */
  lemma {:induction false} UnwrapReachesTerminal(e: Error)
    requires WellFormed(e) && e != Nil
    ensures UnwrapN(e, Depth(e)) == Terminal(e)
    ensures !Terminal(e).WrapErr? && Terminal(e) != Nil
    ensures UnwrapN(e, Depth(e) + 1) == Nil
  {
    match e
    case WrapErr(_, n, _) =>
      UnwrapReachesTerminal(n);
    case _ =>
  }

  /** A chain that ends in a root, as every chain built by Wrap does, unwraps to
      that root after one Unwrap per layer, and to nil after one more. */
  lemma UnwrapReachesRoot(e: Error)
    requires Rooted(e)
    ensures UnwrapN(e, Depth(e)) == Terminal(e) && Terminal(e).RootErr?
    ensures UnwrapN(e, Depth(e) + 1) == Nil
  {
    RootedWellFormed(e);
    UnwrapReachesTerminal(e);
  }

  /** A rooted chain is well formed. */
  lemma {:induction false} RootedWellFormed(e: Error)
    requires Rooted(e)
    ensures WellFormed(e) && e != Nil
  {
    match e
    case WrapErr(_, n, _) =>
      RootedWellFormed(n);
    case _ =>
  }
}
