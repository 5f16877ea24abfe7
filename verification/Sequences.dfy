/** What the other modules need of sequences in general. */
module Sequences {
  lemma Regroup<T>(a: seq<T>, b: seq<T>, c: seq<T>)
    ensures a + (b + c) == a + b + c
  {
  }

  lemma NothingMore<T>(a: seq<T>)
    ensures a + [] == a
  {
  }

  lemma EitherOrder<T>(a: seq<T>, b: seq<T>)
    requires a == [] || b == []
    ensures a + b == b + a
  {
  }

  /** Moving the head of a queue to what is done loses nothing. */
  lemma Dequeued<T>(done: seq<T>, queue: seq<T>)
    ensures queue != [] ==> done + queue == done + [queue[0]] + queue[1..]
  {
  }

  function Mapped<T, U>(s: seq<T>, f: T -> U): seq<U>
    decreases |s|
  {
    if s == [] then [] else [f(s[0])] + Mapped(s[1..], f)
  }

  lemma {:induction false} MappedAppend<T, U>(s: seq<T>, t: seq<T>, f: T -> U)
    ensures Mapped(s + t, f) == Mapped(s, f) + Mapped(t, f)
    decreases |s|
  {
    if s == [] {
      assert s + t == t;
    } else {
      assert (s + t)[1..] == s[1..] + t;
      MappedAppend(s[1..], t, f);
    }
  }

  lemma {:induction false} MappedAt<T, U>(s: seq<T>, f: T -> U)
    ensures |Mapped(s, f)| == |s| && forall i :: 0 <= i < |s| ==> Mapped(s, f)[i] == f(s[i])
    decreases |s|
  {
    if s != [] {
      MappedAt(s[1..], f);
    }
  }
}
