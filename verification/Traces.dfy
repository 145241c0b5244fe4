/** Runs of a transition system: its steps taken one after the other. */
module Traces {
  function Trace<S, E>(next: (S, E) -> S, s: S, events: seq<E>): S
    decreases |events|
  {
    if events == [] then s else Trace(next, next(s, events[0]), events[1..])
  }

  lemma {:induction false} TraceConcat<S, E>(next: (S, E) -> S, s: S, a: seq<E>, b: seq<E>)
    ensures Trace(next, s, a + b) == Trace(next, Trace(next, s, a), b)
    decreases |a|
  {
    if a == [] {
      assert a + b == b;
    } else {
      assert (a + b)[0] == a[0] && (a + b)[1..] == a[1..] + b;
      TraceConcat(next, next(s, a[0]), a[1..], b);
    }
  }

  lemma TraceOne<S, E>(next: (S, E) -> S, s: S, e: E)
    ensures Trace(next, s, [e]) == next(s, e)
  {
    assert [e][1..] == [];
    assert Trace(next, next(s, e), []) == next(s, e);
  }

  lemma TraceTwo<S, E>(next: (S, E) -> S, s: S, e1: E, e2: E)
    ensures Trace(next, s, [e1, e2]) == next(next(s, e1), e2)
  {
    assert [e1, e2][1..] == [e2];
    TraceOne(next, next(s, e1), e2);
  }

  lemma TraceThree<S, E>(next: (S, E) -> S, s: S, e1: E, e2: E, e3: E)
    ensures Trace(next, s, [e1, e2, e3]) == next(next(next(s, e1), e2), e3)
  {
    assert [e1, e2, e3][1..] == [e2, e3];
    TraceTwo(next, next(s, e1), e2, e3);
  }

  lemma TraceFour<S, E>(next: (S, E) -> S, s: S, e1: E, e2: E, e3: E, e4: E)
    ensures Trace(next, s, [e1, e2, e3, e4]) == next(next(next(next(s, e1), e2), e3), e4)
  {
    assert [e1, e2, e3, e4][1..] == [e2, e3, e4];
    TraceThree(next, next(s, e1), e2, e3, e4);
  }

  /** After one more event. */
  lemma TraceLast<S, E>(next: (S, E) -> S, s: S, events: seq<E>, n: nat)
    requires n < |events|
    ensures Trace(next, s, events[..n + 1]) == next(Trace(next, s, events[..n]), events[n])
  {
    assert events[..n + 1] == events[..n] + [events[n]];
    TraceConcat(next, s, events[..n], [events[n]]);
    TraceOne(next, Trace(next, s, events[..n]), events[n]);
  }
}
