/** Runs of a deterministic machine whose events carry all the choices. */
module Runs {

  function Fold<S, E>(s: S, events: seq<E>, next: (S, E) -> S): S
    decreases |events|
  {
    if |events| == 0 then s else Fold(next(s, events[0]), events[1..], next)
  }

  /** What holds at the start of a run and is kept by every event of it holds at its end. */
  lemma {:induction false} Induction<S(!new), E(!new)>(s: S, events: seq<E>, next: (S, E) -> S, p: S -> bool,
                                       q: E -> bool)
    requires p(s) && forall i :: 0 <= i < |events| ==> q(events[i])
    requires forall t, e :: p(t) && q(e) ==> p(next(t, e))
    ensures p(Fold(s, events, next))
    decreases |events|
  {
    if |events| > 0 {
      assert p(next(s, events[0]));
      Induction(next(s, events[0]), events[1..], next, p, q);
    }
  }

  function Gather<E, X>(events: seq<E>, g: E -> set<X>): set<X> {
    set i, x | 0 <= i < |events| && x in g(events[i]) :: x
  }

  /** A history that every event adds to is what all the events added. */
  lemma {:induction false} Accumulates<S(!new), E(!new), X>(
    s: S, events: seq<E>, next: (S, E) -> S, p: S -> bool, f: S -> set<X>, g: E -> set<X>)
    requires p(s)
    requires forall t, e :: p(t) ==> p(next(t, e)) && f(next(t, e)) == f(t) + g(e)
    ensures f(Fold(s, events, next)) == f(s) + Gather(events, g)
    decreases |events|
  {
    if |events| > 0 {
      Accumulates(next(s, events[0]), events[1..], next, p, f, g);
      assert Gather(events, g) == g(events[0]) + Gather(events[1..], g) by {
        forall x | x in Gather(events, g) ensures x in g(events[0]) + Gather(events[1..], g) {
          var i :| 0 <= i < |events| && x in g(events[i]);
          assert i > 0 ==> events[1..][i - 1] == events[i];
        }
      }
    }
  }

  lemma {:induction false} Split<S, E>(s: S, first: seq<E>, rest: seq<E>, next: (S, E) -> S)
    ensures Fold(s, first + rest, next) == Fold(Fold(s, first, next), rest, next)
    decreases |first|
  {
    if |first| == 0 {
      assert first + rest == rest;
    } else {
      assert (first + rest)[1..] == first[1..] + rest;
      Split(next(s, first[0]), first[1..], rest, next);
    }
  }

  /** A relation that every event steps along, and that composes, spans every run. */
  lemma {:induction false} Relates<S(!new), E(!new)>(s: S, events: seq<E>, next: (S, E) -> S, p: S -> bool,
                                     r: (S, S) -> bool)
    requires p(s)
    requires forall t :: r(t, t)
    requires forall t, u, v :: r(t, u) && r(u, v) ==> r(t, v)
    requires forall t, e :: p(t) ==> p(next(t, e)) && r(t, next(t, e))
    ensures r(s, Fold(s, events, next))
    decreases |events|
  {
    if |events| > 0 {
      Relates(next(s, events[0]), events[1..], next, p, r);
    }
  }
}
