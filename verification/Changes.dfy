/** A trace of values with the steps that change nothing left out. */
module Changes {
  /** The values of `trace` that differ from the one before them, `prev` being before the first. */
  function Of<T(==)>(prev: T, trace: seq<T>): seq<T>
    decreases |trace|
  {
    if trace == [] then []
    else if trace[0] == prev then Of(prev, trace[1..])
    else [trace[0]] + Of(trace[0], trace[1..])
  }

  function Last<T>(prev: T, s: seq<T>): T {
    if s == [] then prev else s[|s| - 1]
  }

  /** Each value sent differs from the one sent before it, and the last one is current. */
  lemma {:induction false} Shape<T>(prev: T, trace: seq<T>)
    ensures var c := Of(prev, trace);
            && (c != [] ==> c[0] != prev)
            && (forall i :: 0 < i < |c| ==> c[i] != c[i - 1])
            && Last(prev, c) == Last(prev, trace)
    decreases |trace|
  {
    if trace != [] {
      Shape(trace[0], trace[1..]);
      assert Last(trace[0], trace[1..]) == Last(prev, trace);
    }
  }
}
