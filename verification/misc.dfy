/** The sequencing combinator `chainPromises` and the `wait` timer of util/misc.js. */
module Misc {
  import opened Wrappers
  import opened Js
  import opened Effects

  /**
   * `chainPromises(providers, fn, accumulator)`: provider i is started only once
   * provider i - 1 has fulfilled; each result is folded into the accumulator
   * with `fn`; the first rejection rejects the chain and starts nothing more.
   */
  function Chain<A, T>(providers: seq<() -> Run<T>>, fn: (A, T) -> A, acc: A): Run<A>
    decreases |providers|
  {
    if |providers| == 0 then Pure(acc)
    else
      var first := providers[0]();
      match first.outcome
      case Err(e) => Run(first.trace, Err(e))
      case Ok(v) =>
        var rest := Chain(providers[1..], fn, fn(acc, v));
        Run(first.trace + rest.trace, rest.outcome)
  }

  /** One step of the chain: the first provider runs, then the rest from the folded accumulator. */
  lemma ChainCons<A, T>(p: () -> Run<T>, ps: seq<() -> Run<T>>, fn: (A, T) -> A, acc: A)
    ensures var first := p();
      Chain([p] + ps, fn, acc) ==
        if first.outcome.Err? then Run(first.trace, Err(first.outcome.error))
        else
          var rest := Chain(ps, fn, fn(acc, first.outcome.value));
          Run(first.trace + rest.trace, rest.outcome)
  {
    assert ([p] + ps)[1..] == ps;
  }

  /** The command settled; what a command resolves to is not used by any caller. */
  function Settle<T>(r: Run<T>): (s: Run<()>)
    ensures s.trace == r.trace && s.outcome.Ok? == r.outcome.Ok?
    ensures r.outcome.Err? ==> s.outcome == Err(r.outcome.error)
  {
    MapRun(r, (_: T) => ())
  }

  function Ignore(a: (), b: ()): () { () }

  /** `chainPromises([p])` */
  function ChainOne(p: () -> Run<()>): (r: Run<()>)
    ensures r == Run(p().trace, if p().outcome.Ok? then Ok(()) else Err(p().outcome.error))
  {
    ChainCons(p, [], Ignore, ());
    assert [p] + [] == [p];
    Chain([p], Ignore, ())
  }

  /** `chainPromises([p, q, s])`, for steps that settle without a value. */
  function ChainThree(p: () -> Run<()>, q: () -> Run<()>, s: () -> Run<()>): (r: Run<()>)
    ensures p().outcome.Err? ==> r == Run(p().trace, Err(p().outcome.error))
    ensures p().outcome.Ok? && q().outcome.Ok? ==>
      r == Run(p().trace + q().trace + s().trace, if s().outcome.Ok? then Ok(()) else Err(s().outcome.error))
  {
    ChainCons(s, [], Ignore, ());
    ChainCons(q, [s], Ignore, ());
    ChainCons(p, [q, s], Ignore, ());
    assert [s] + [] == [s] && [q] + [s] == [q, s] && [p] + [q, s] == [p, q, s];
    Chain([p, q, s], Ignore, ())
  }

  /** `chainPromises([p, q])`, for steps that settle without a value. */
  function ChainTwo(p: () -> Run<()>, q: () -> Run<()>): (r: Run<()>)
    ensures p().outcome.Err? ==> r == Run(p().trace, Err(p().outcome.error))
    ensures p().outcome.Ok? ==> r == Run(p().trace + q().trace, if q().outcome.Ok? then Ok(()) else Err(q().outcome.error))
  {
    ChainCons(q, [], Ignore, ());
    ChainCons(p, [q], Ignore, ());
    assert [q] + [] == [q] && [p] + [q] == [p, q];
    Chain([p, q], Ignore, ())
  }

  lemma Concat4(a: Event, b: Event, c: Event, d: Event)
    ensures [a] + [b] + [c] + [d] == [a, b, c, d]
    ensures [a] + [b] == [a, b]
  {
  }

  lemma Assoc<T>(a: seq<T>, b: seq<T>, c: seq<T>)
    ensures a + (b + c) == a + b + c
  {
  }

  lemma Concat2(a: Event, b: Event)
    ensures [a] + [b] == [a, b]
  {
  }

  /** The default `fn` for providers that resolve to arrays: `previous.concat(current)` splices them. */
  function Splice<T>(previous: seq<T>, current: seq<T>): seq<T> {
    previous + current
  }

  /** The default `fn` for providers that resolve to single values: `concat` appends them. */
  function Append<T>(previous: seq<T>, current: T): seq<T> {
    previous + [current]
  }

  // ---------------------------------------------------------------------------
  // Reference definitions the chain is compared with
  // ---------------------------------------------------------------------------

  function FoldLeft<A, T>(fn: (A, T) -> A, acc: A, vs: seq<T>): A
    decreases |vs|
  {
    if |vs| == 0 then acc else FoldLeft(fn, fn(acc, vs[0]), vs[1..])
  }

  /** Every provider, run on its own, fulfils. */
  predicate AllFulfil<T>(providers: seq<() -> Run<T>>) {
    forall i :: 0 <= i < |providers| ==> providers[i]().outcome.Ok?
  }

  function Results<T>(providers: seq<() -> Run<T>>): (vs: seq<T>)
    requires AllFulfil(providers)
    ensures |vs| == |providers|
    decreases |providers|
  {
    if |providers| == 0 then [] else [providers[0]().outcome.value] + Results(providers[1..])
  }

  /** The effects of running every provider, one after the other. */
  function Traces<T>(providers: seq<() -> Run<T>>): seq<Event>
    decreases |providers|
  {
    if |providers| == 0 then [] else providers[0]().trace + Traces(providers[1..])
  }

  /** When every provider fulfils, the chain issues all their effects in order and folds their results. */
  lemma {:induction false} ChainAllFulfil<A, T>(providers: seq<() -> Run<T>>, fn: (A, T) -> A, acc: A)
    requires AllFulfil(providers)
    ensures Chain(providers, fn, acc) == Run(Traces(providers), Ok(FoldLeft(fn, acc, Results(providers))))
    decreases |providers|
  {
    if |providers| > 0 {
      var v := providers[0]().outcome.value;
      assert AllFulfil(providers[1..]) by {
        forall i | 0 <= i < |providers[1..]|
          ensures providers[1..][i]().outcome.Ok?
        {
          assert providers[1..][i] == providers[i + 1];
        }
      }
      ChainAllFulfil(providers[1..], fn, fn(acc, v));
    }
  }

  /**
   * When provider k is the first to reject, the chain issues the effects of
   * providers 0..k only and rejects with provider k's error.
   */
  lemma {:induction false} ChainFirstRejection<A, T>(providers: seq<() -> Run<T>>, fn: (A, T) -> A, acc: A, k: nat)
    requires k < |providers|
    requires AllFulfil(providers[..k])
    requires providers[k]().outcome.Err?
    ensures Chain(providers, fn, acc).trace == Traces(providers[..k + 1])
    ensures Chain(providers, fn, acc).outcome == Err(providers[k]().outcome.error)
    decreases k
  {
    if k > 0 {
      var v := providers[0]().outcome.value;
      assert providers[0] == providers[..k][0];
      assert providers[1..][..k - 1] == providers[..k][1..];
      assert AllFulfil(providers[..k][1..]);
      assert providers[1..][k - 1] == providers[k];
      ChainFirstRejection(providers[1..], fn, fn(acc, v), k - 1);
      assert providers[1..][..k] == providers[..k + 1][1..];
    }
  }

  /** With the default `fn` and an empty accumulator, the chain resolves to the providers' results in order. */
  lemma {:induction false} ChainCollectsInOrder<T>(providers: seq<() -> Run<T>>, acc: seq<T>)
    requires AllFulfil(providers)
    ensures Chain(providers, Append, acc).outcome == Ok(acc + Results(providers))
    decreases |providers|
  {
    ChainAllFulfil(providers, Append, acc);
    FoldAppend(acc, Results(providers));
  }

  lemma {:induction false} FoldAppend<T>(acc: seq<T>, vs: seq<T>)
    ensures FoldLeft(Append, acc, vs) == acc + vs
    decreases |vs|
  {
    if |vs| > 0 {
      FoldAppend(acc + [vs[0]], vs[1..]);
      assert acc + [vs[0]] + vs[1..] == acc + vs;
    }
  }

  /** Array results are spliced in: the chain resolves to their concatenation. */
  lemma {:induction false} FoldSplice<T>(acc: seq<T>, vs: seq<seq<T>>)
    ensures FoldLeft(Splice, acc, vs) == acc + Flatten(vs)
    decreases |vs|
  {
    if |vs| > 0 {
      FoldSplice(acc + vs[0], vs[1..]);
      assert acc + vs[0] + Flatten(vs[1..]) == acc + (vs[0] + Flatten(vs[1..]));
    }
  }

  function Flatten<T>(vs: seq<seq<T>>): seq<T>
    decreases |vs|
  {
    if |vs| == 0 then [] else vs[0] + Flatten(vs[1..])
  }

  /** Flattening distributes over concatenation. */
  lemma {:induction false} FlattenConcat<T>(a: seq<seq<T>>, b: seq<seq<T>>)
    ensures Flatten(a + b) == Flatten(a) + Flatten(b)
    decreases |a|
  {
    if |a| > 0 {
      assert (a + b)[1..] == a[1..] + b;
      FlattenConcat(a[1..], b);
      Assoc(a[0], Flatten(a[1..]), Flatten(b));
    } else {
      assert a + b == b;
    }
  }

  /** The results the chain folds are the providers' own results, position by position. */
  lemma {:induction false} ResultsAt<T>(providers: seq<() -> Run<T>>)
    requires AllFulfil(providers)
    ensures forall i :: 0 <= i < |providers| ==> Results(providers)[i] == providers[i]().outcome.value
    decreases |providers|
  {
    if |providers| > 0 {
      assert AllFulfil(providers[1..]) by {
        forall i | 0 <= i < |providers[1..]|
          ensures providers[1..][i]().outcome.Ok?
        {
          assert providers[1..][i] == providers[i + 1];
        }
      }
      ResultsAt(providers[1..]);
      forall i | 0 < i < |providers|
        ensures Results(providers)[i] == providers[i]().outcome.value
      {
        assert providers[1..][i - 1] == providers[i];
      }
    }
  }

  /** The effects of all the providers, one after the other. */
  function TraceList<T>(providers: seq<() -> Run<T>>): (ts: seq<seq<Event>>)
    ensures |ts| == |providers|
    ensures forall i :: 0 <= i < |providers| ==> ts[i] == providers[i]().trace
  {
    seq(|providers|, i requires 0 <= i < |providers| => providers[i]().trace)
  }

  /**
   * A chain collecting the results of providers that each fulfil with a known
   * run issues their traces in order and resolves to their values in order.
   */
  lemma CollectRuns<T>(providers: seq<() -> Run<T>>, traces: seq<seq<Event>>, values: seq<T>)
    requires |providers| == |traces| == |values|
    requires forall i :: 0 <= i < |providers| ==> providers[i]() == Run(traces[i], Ok(values[i]))
    ensures Chain(providers, Append, []) == Run(Flatten(traces), Ok(values))
  {
    assert AllFulfil(providers);
    ChainAllFulfil(providers, Append, []);
    ChainCollectsInOrder(providers, []);
    ResultsAt(providers);
    assert Results(providers) == values;
    TracesFlatten(providers);
    assert TraceList(providers) == traces;
    assert [] + values == values;
  }

  lemma {:induction false} TracesFlatten<T>(providers: seq<() -> Run<T>>)
    ensures Traces(providers) == Flatten(TraceList(providers))
    decreases |providers|
  {
    if |providers| > 0 {
      TracesFlatten(providers[1..]);
      assert TraceList(providers)[1..] == TraceList(providers[1..]);
    }
  }

  /** Flattening a list of one-element lists keeps their elements, in order. */
  lemma {:induction false} FlattenSingletons<T>(vs: seq<seq<T>>)
    requires forall i :: 0 <= i < |vs| ==> |vs[i]| == 1
    ensures |Flatten(vs)| == |vs|
    ensures forall i :: 0 <= i < |vs| ==> Flatten(vs)[i] == vs[i][0]
    decreases |vs|
  {
    if |vs| > 0 {
      FlattenSingletons(vs[1..]);
      forall i | 0 < i < |vs|
        ensures Flatten(vs)[i] == vs[i][0]
      {
        assert vs[1..][i - 1] == vs[i];
      }
    }
  }

  /**
   * `wait(delay, res)`: a timer of 1000 * delay milliseconds, then `res`.
   */
  function WaitFor<T>(delay: Value, res: T): (r: Run<T>)
    ensures r.outcome == Ok(res) && |r.trace| == 1 && r.trace[0].Wait?
    ensures delay.Number? && delay.n.Finite? ==> r.trace[0].ms == Finite(1000.0 * delay.n.r)
  {
    Run([Wait(Mul(Finite(1000.0), ToNumber(delay)))], Ok(res))
  }
}
