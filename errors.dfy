/**
 * Error wrapping. A Go `error` is Some(e), `nil` is None; an error either
 * wraps nothing (Leaf) or wraps exactly one inner error, as one made by
 * `fmt.Errorf` with a single `%w` does. `msg` is the whole `Error()` text.
 */
module Errors {
  import opened Wrappers

  datatype Error = Leaf(msg: string) | Wrapped(msg: string, inner: Error)

  /** `err.Error()`. */
  function Message(e: Error): string
  {
    e.msg
  }

  /** `errors.Unwrap(err)`: the wrapped error, or nil (also for nil itself). */
  function Unwrap(err: Option<Error>): (u: Option<Error>)
    ensures err.None? ==> u.None?
    ensures err.Some? ==> Depth(err) == 1 + Depth(u)
  {
    match err
    case Some(Wrapped(_, inner)) => Some(inner)
    case _ => None
  }

  /** The length of the unwrap chain starting at `err`. */
  function Depth(err: Option<Error>): (d: nat)
    ensures d == 0 <==> err.None?
  {
    match err
    case None => 0
    case Some(e) => ErrorDepth(e)
  }

  function ErrorDepth(e: Error): (d: nat)
    ensures d >= 1
  {
    match e
    case Leaf(_) => 1
    case Wrapped(_, inner) => 1 + ErrorDepth(inner)
  }

  /** The chain `err, Unwrap(err), Unwrap(Unwrap(err)), ...` up to nil. */
  function Chain(err: Option<Error>): (c: seq<Error>)
    ensures |c| == Depth(err)
    decreases Depth(err)
  {
    match err
    case None => []
    case Some(e) => [e] + Chain(Unwrap(err))
  }

  /** `Wrap(err, msg)`: nil stays nil; otherwise msg, ": ", and the inner error's text, wrapping err. */
  function Wrap(err: Option<Error>, msg: string): (w: Option<Error>)
    ensures err.None? <==> w.None?
    ensures err.Some? ==> Unwrap(w) == err && Message(w.value) == msg + ": " + Message(err.value)
    ensures Depth(w) == if err.None? then 0 else 1 + Depth(err)
  {
    match err
    case None => None
    case Some(e) => Some(Wrapped(msg + ": " + Message(e), e))
  }

  /** The root of the unwrap chain: the last error on it, which wraps nothing. */
  function Root(err: Option<Error>): (r: Option<Error>)
    ensures Unwrap(r).None?
    ensures r.None? <==> err.None?
    ensures err.Some? ==> r.value == Chain(err)[|Chain(err)| - 1]
    decreases Depth(err)
  {
    if Unwrap(err).None? then err else Root(Unwrap(err))
  }

  /** `Cause(err)`: follow Unwrap until it yields nil. */
  method Cause(err: Option<Error>) returns (root: Option<Error>)
    ensures root == Root(err)
  {
    var cur := err;
    while true
      invariant Root(cur) == Root(err)
      decreases Depth(cur)
    {
      var unwrapped := Unwrap(cur);
      if unwrapped.None? {
        return cur;
      }
      cur := unwrapped;
    }
  }

  /** An error that wraps nothing is its own cause; the cause of nil is nil. */
  lemma RootOfUnwrapped(err: Option<Error>)
    requires Unwrap(err).None?
    ensures Root(err) == err
  {
  }

  /** Wrapping does not change the cause. */
  lemma RootOfWrap(err: Option<Error>, msg: string)
    ensures Root(Wrap(err, msg)) == Root(err)
  {
  }

  /** The cause of a cause is itself. */
  lemma RootIdempotent(err: Option<Error>)
    ensures Root(Root(err)) == Root(err)
  {
  }

  /** The cause is on the chain, and nothing after it is. */
  lemma {:induction false} RootOnChain(err: Option<Error>, i: nat)
    requires i < |Chain(err)|
    ensures Chain(err)[i] == Root(err).value <==> i == |Chain(err)| - 1
    decreases Depth(err)
  {
    if i > 0 {
      RootOnChain(Unwrap(err), i - 1);
    } else if |Chain(err)| > 1 {
      ChainShrinks(err);
    }
  }

  /** An error wrapping another error is strictly larger than it, so differs from its root. */
  lemma ChainShrinks(err: Option<Error>)
    requires Unwrap(err).Some?
    ensures err.value != Root(err).value
  {
    RootBelow(Unwrap(err).value);
  }

  lemma {:induction false} RootBelow(e: Error)
    ensures Root(Some(e)).value == e || Root(Some(e)).value < e
    decreases e
  {
    if e.Wrapped? {
      RootBelow(e.inner);
    }
  }
}
