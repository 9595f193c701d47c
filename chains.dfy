/**
 * The callable chain `receiver.c1(a1).c2(a2)…cn(an)` that every generator of
 * this repository builds from a list of calls `c(a)`.
 */
module Chains {
  import opened Base
  import opened Ast

  /** A call `name(args)` on a bare identifier, waiting to be put on a receiver. */
  datatype Invocation = Invocation(name: string, args: seq<Expr>)

  /** The call as an expression of its own: `name(args)`. */
  function AsCall(c: Invocation): Expr {
    Call(Ident(c.name), c.args)
  }

  /** `receiver.name(args)`. */
  function Apply(receiver: Expr, c: Invocation): Expr {
    Call(PropAccess(receiver, c.name), c.args)
  }

  /** `receiver.c1(a1)…cn(an)`: the receiver itself when there are no calls. */
  function Chain(receiver: Expr, calls: seq<Invocation>): Expr
    decreases |calls|
  {
    if calls == [] then receiver
    else Apply(Chain(receiver, calls[..|calls| - 1]), calls[|calls| - 1])
  }

  /** Reads back the receiver and the last `n` calls of a chain. */
  function Peel(e: Expr, n: nat): Option<(Expr, seq<Invocation>)>
  {
    if n == 0 then Some((e, []))
    else match e
      case Call(PropAccess(target, name), args) =>
        (match Peel(target, n - 1)
          case Some((r, cs)) => Some((r, cs + [Invocation(name, args)]))
          case None => None)
      case _ => None
  }

  /** A chain determines its receiver and its calls, in order and with their arguments. */
  lemma {:induction false} PeelChain(receiver: Expr, calls: seq<Invocation>)
    ensures Peel(Chain(receiver, calls), |calls|) == Some((receiver, calls))
    decreases |calls|
  {
    if calls != [] {
      var init := calls[..|calls| - 1];
      PeelChain(receiver, init);
      assert init + [calls[|calls| - 1]] == calls;
    }
  }

  /** Two chains of the same length are equal only when receivers and calls are. */
  lemma ChainInjective(r1: Expr, c1: seq<Invocation>, r2: Expr, c2: seq<Invocation>)
    requires |c1| == |c2| && Chain(r1, c1) == Chain(r2, c2)
    ensures r1 == r2 && c1 == c2
  {
    PeelChain(r1, c1);
    PeelChain(r2, c2);
  }

  /** Putting the first call on the receiver, then the rest, is the whole chain. */
  lemma {:induction false} ChainCons(receiver: Expr, c: Invocation, rest: seq<Invocation>)
    ensures Chain(Apply(receiver, c), rest) == Chain(receiver, [c] + rest)
    decreases |rest|
  {
    if rest != [] {
      var init := rest[..|rest| - 1];
      ChainCons(receiver, c, init);
      assert ([c] + rest)[..|rest|] == [c] + init;
    }
  }

  /** A chain extended by more calls is the longer chain. */
  lemma {:induction false} ChainAppend(receiver: Expr, a: seq<Invocation>, b: seq<Invocation>)
    ensures Chain(Chain(receiver, a), b) == Chain(receiver, a + b)
    decreases |b|
  {
    if b == [] {
      assert a + b == a;
    } else {
      var init := b[..|b| - 1];
      ChainAppend(receiver, a, init);
      assert (a + b)[..|a + b| - 1] == a + init;
      assert (a + b)[|a + b| - 1] == b[|b| - 1];
    }
  }

  function Reversed<T>(s: seq<T>): seq<T>
    decreases |s|
  {
    if s == [] then [] else Reversed(s[1..]) + [s[0]]
  }

  lemma {:induction false} ReversedAt<T>(s: seq<T>, k: nat)
    requires k < |s|
    ensures |Reversed(s)| == |s| && Reversed(s)[k] == s[|s| - 1 - k]
    decreases |s|
  {
    if |s| > 1 {
      ReversedAt(s[1..], if k < |s| - 1 then k else 0);
    }
  }

  /** `Array.prototype.reverse`: reverses the array in place. */
  method Reverse<T>(a: array<T>)
    modifies a
    ensures a[..] == Reversed(old(a[..]))
  {
    ghost var original := a[..];
    var n := a.Length;
    var i := 0;
    while i < n / 2
      invariant 0 <= i <= n / 2
      invariant forall k :: 0 <= k < i ==> a[k] == original[n - 1 - k] && a[n - 1 - k] == original[k]
      invariant forall k :: i <= k < n - i ==> a[k] == original[k]
    {
      a[i], a[n - 1 - i] := a[n - 1 - i], a[i];
      i := i + 1;
    }
    forall k | 0 <= k < n ensures |Reversed(original)| == n && a[..][k] == Reversed(original)[k] {
      ReversedAt(original, k);
    }
  }

  /**
   * `generateCallableChain(calls, receiver)`: reverses `calls` in place, then
   * reduces the reversed calls into a function that, given a receiver, puts
   * the calls on it in their original order, and applies that function.
   */
  method GenerateCallableChain(calls: array<Invocation>, receiver: Expr) returns (r: Expr)
    modifies calls
    ensures calls[..] == Reversed(old(calls[..]))
    ensures r == Chain(receiver, old(calls[..]))
  {
    ghost var original := calls[..];
    var n := calls.Length;
    Reverse(calls);
    // Fold the reversed calls into one function that builds the chain on its argument.
    var acc: Expr -> Expr := x => x;
    var j := 0;
    while j < n
      invariant 0 <= j <= n
      invariant calls[..] == Reversed(original)
      invariant forall x :: acc(x) == Chain(x, original[n - j..])
    {
      var call := calls[j];
      ReversedAt(original, j);
      var prev := acc;
      acc := x => prev(Apply(x, call));
      forall x ensures acc(x) == Chain(x, original[n - 1 - j..]) {
        ChainCons(x, call, original[n - j..]);
        assert [call] + original[n - j..] == original[n - 1 - j..];
      }
      j := j + 1;
    }
    assert original[0..] == original;
    r := acc(receiver);
  }
}
