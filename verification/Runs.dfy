/** Runs of a transition system: which lists of steps can happen, and where they lead. */
module Runs {

  /** `apply` matters only where `enabled` holds. */
  datatype System<!S, !A> = System(enabled: (S, A) -> bool, apply: (S, A) -> S)

  /** The steps can happen from `s` in this order. */
  predicate Legal<S, A>(m: System<S, A>, s: S, acts: seq<A>)
    decreases |acts|
  {
    acts == [] || (m.enabled(s, acts[0]) && Legal(m, m.apply(s, acts[0]), acts[1..]))
  }

  function After<S, A>(m: System<S, A>, s: S, acts: seq<A>): S
    requires Legal(m, s, acts)
    decreases |acts|
  {
    if acts == [] then s else After(m, m.apply(s, acts[0]), acts[1..])
  }

  lemma Prepend<S, A>(m: System<S, A>, s: S, a: A, rest: seq<A>) returns (acts: seq<A>)
    requires m.enabled(s, a) && Legal(m, m.apply(s, a), rest)
    ensures acts == [a] + rest
    ensures Legal(m, s, acts) && After(m, s, acts) == After(m, m.apply(s, a), rest)
  {
    acts := [a] + rest;
    assert acts[1..] == rest;
  }

  lemma {:induction false} LegalAppend<S, A>(m: System<S, A>, s: S, first: seq<A>, second: seq<A>)
    requires Legal(m, s, first) && Legal(m, After(m, s, first), second)
    ensures Legal(m, s, first + second) && After(m, s, first + second) == After(m, After(m, s, first), second)
    decreases |first|
  {
    if first == [] {
      assert first + second == second;
    } else {
      assert (first + second)[1..] == first[1..] + second;
      LegalAppend(m, m.apply(s, first[0]), first[1..], second);
    }
  }
}
