/** Runs of any machine, given by what one step may do. */
module Runs {
  // Each state follows from the one before by its event.
  ghost predicate Follows<S, E>(step: (S, E, S) -> bool, trace: seq<S>, events: seq<E>) {
    |trace| == |events| + 1 && forall n :: 0 <= n < |events| ==> step(trace[n], events[n], trace[n + 1])
  }

  lemma {:induction false} FollowsMore<S, E>(step: (S, E, S) -> bool, trace: seq<S>, events: seq<E>, e: E, u: S)
    requires Follows(step, trace, events) && step(trace[|events|], e, u)
    ensures Follows(step, trace + [u], events + [e])
  {
  }

  lemma {:induction false} FollowsFrom<S, E>(step: (S, E, S) -> bool, trace: seq<S>, events: seq<E>, k: nat)
    requires Follows(step, trace, events) && k <= |events|
    ensures Follows(step, trace[k..], events[k..])
  {
  }

  // And an answer goes with each event.
  ghost predicate Answers<S, E, A>(step: (S, E, S, A) -> bool, trace: seq<S>, events: seq<E>, answers: seq<A>) {
    && |trace| == |events| + 1 && |answers| == |events|
    && forall n :: 0 <= n < |events| ==> step(trace[n], events[n], trace[n + 1], answers[n])
  }

  lemma {:induction false} AnswersMore<S, E, A>(step: (S, E, S, A) -> bool, trace: seq<S>, events: seq<E>,
                                                answers: seq<A>, e: E, u: S, answer: A)
    requires Answers(step, trace, events, answers) && step(trace[|events|], e, u, answer)
    ensures Answers(step, trace + [u], events + [e], answers + [answer])
  {
  }
}
