/** The currying adapter `baker`: a function with some of its positional
    arguments fixed ahead of time and a span of slots filled at call time. */
module Baking {
  import opened Outcomes

  /** The `position_to_pass_through` argument: an int, a tuple (of ints), or
      any other value. */
  datatype Span = IntSpan(n: int) | TupleSpan(items: seq<int>) | OtherSpan

  /** The default span, the tuple (0, 0). */
  const DefaultSpan: Span := TupleSpan([0, 0])

  /** The closure `wrapped` that `baker` returns: the target function, the
      baked positional and keyword arguments, and the span as a tuple. */
  datatype Baked<!A, B> = Baked(fun: (seq<A>, map<string, A>) -> B,
                               args: seq<A>, kwargs: map<string, A>, span: seq<int>)

  /** Python's normalisation of a slice bound `n` on a list of length `len`:
      a negative bound counts from the end, and both ends are clamped. */
  function SliceBound(n: int, len: nat): (r: nat)
    ensures r <= len
  {
    if n < 0 then (if len + n < 0 then 0 else len + n)
    else if n > len then len
    else n
  }

  /** `args[:lo] + result + args[hi+1:]` with Python's slice semantics. */
  function Splice<A>(args: seq<A>, lo: int, hi: int, result: seq<A>): (r: seq<A>)
    ensures 0 <= lo <= |args| && -1 <= hi < |args| ==>
              r == args[..lo] + result + args[hi + 1..]
    ensures 0 <= lo <= hi < |args| ==>
              |r| == lo + |result| + (|args| - hi - 1)
    ensures -|args| <= lo < 0 ==>
              |args| + lo <= |r| && r[..|args| + lo] == args[..|args| + lo]
    ensures hi + 1 >= |args| ==> |result| <= |r| && r[|r| - |result|..] == result
  {
    args[..SliceBound(lo, |args|)] + result + args[SliceBound(hi + 1, |args|)..]
  }

  /** `baker(fun, args, kwargs, position_to_pass_through)`: missing `args` and
      `kwargs` default to empty, an int span `n` stands for (n, n), and any
      span that is neither an int nor a tuple raises TypeError. */
  function Baker<A, B>(fun: (seq<A>, map<string, A>) -> B, args: Option<seq<A>>,
                       kwargs: Option<map<string, A>>, span: Span): (r: Result<Baked<A, B>>)
    ensures r.Err? <==> span.OtherSpan?
    ensures r.Err? ==> r.error == TypeError
    ensures r.Ok? ==> r.value.fun == fun
    ensures r.Ok? ==> r.value.args == (if args.Some? then args.value else [])
    ensures r.Ok? ==> r.value.kwargs == (if kwargs.Some? then kwargs.value else map[])
    ensures span.IntSpan? ==> r.Ok? && r.value.span == [span.n, span.n]
    ensures span.TupleSpan? ==> r.Ok? && r.value.span == span.items
  {
    var a := if args.Some? then args.value else [];
    var k := if kwargs.Some? then kwargs.value else map[];
    match span
    case IntSpan(n) => Ok(Baked(fun, a, k, [n, n]))
    case TupleSpan(items) => Ok(Baked(fun, a, k, items))
    case OtherSpan => Err(TypeError)
  }

  /** `wrapped(*result)`: calls the target with the runtime arguments spliced
      into the span.  Indexing a span tuple with fewer than two items raises
      IndexError. */
  function Call<A, B>(b: Baked<A, B>, result: seq<A>): (r: Result<B>)
    ensures r.Err? <==> |b.span| < 2
    ensures r.Err? ==> r.error == IndexError
  {
    if |b.span| < 2 then Err(IndexError)
    else Ok(b.fun(Splice(b.args, b.span[0], b.span[1], result), b.kwargs))
  }

  /** Baking with a tuple span (lo, hi) inside the argument list and calling
      the closure calls the target with the slots lo..hi replaced. */
  lemma BakedTupleCall<A, B>(fun: (seq<A>, map<string, A>) -> B, args: seq<A>,
                             kwargs: map<string, A>, lo: int, hi: int, result: seq<A>)
    requires 0 <= lo <= |args| && -1 <= hi < |args|
    ensures Baker(fun, Some(args), Some(kwargs), TupleSpan([lo, hi])).Ok?
    ensures Call(Baker(fun, Some(args), Some(kwargs), TupleSpan([lo, hi])).value, result)
            == Ok(fun(args[..lo] + result + args[hi + 1..], kwargs))
  {
  }

  /** Baking with an int span n is baking with the tuple (n, n): exactly slot n
      is filled at call time, and the list of arguments grows by
      |result| - 1. */
  lemma BakedIntCall<A, B>(fun: (seq<A>, map<string, A>) -> B, args: seq<A>,
                           kwargs: Option<map<string, A>>, n: int, result: seq<A>)
    requires 0 <= n < |args|
    ensures Baker(fun, Some(args), kwargs, IntSpan(n))
            == Baker(fun, Some(args), kwargs, TupleSpan([n, n]))
    ensures |Splice(args, n, n, result)| == |args| - 1 + |result|
    ensures Call(Baker(fun, Some(args), kwargs, IntSpan(n)).value, result)
            == Ok(fun(args[..n] + result + args[n + 1..],
                      if kwargs.Some? then kwargs.value else map[]))
  {
  }

  /** With no arguments, no keyword arguments and the default span, the
      closure passes its runtime arguments straight to the target. */
  lemma BakedDefaultsCall<A, B>(fun: (seq<A>, map<string, A>) -> B, result: seq<A>)
    ensures Baker(fun, None, None, DefaultSpan).Ok?
    ensures Call(Baker(fun, None, None, DefaultSpan).value, result) == Ok(fun(result, map[]))
  {
  }
}
