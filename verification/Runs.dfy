/** Runs of a state machine whose step relation says which state an event leads to. */
module Runs {

  /** A run: one state more than events, and each event takes place. */
  ghost predicate IsRun<S, E>(took: (S, E, S) -> bool, trace: seq<S>, events: seq<E>) {
    && |trace| == |events| + 1
    && forall k: nat {:trigger TookAt(took, trace, events, k)} :: k < |events| ==> TookAt(took, trace, events, k)
  }

  ghost predicate TookAt<S, E>(took: (S, E, S) -> bool, trace: seq<S>, events: seq<E>, k: nat)
    requires k < |events| && |trace| == |events| + 1
  {
    took(trace[k], events[k], trace[k + 1])
  }

  lemma RunMore<S, E>(took: (S, E, S) -> bool, trace: seq<S>, events: seq<E>, k: nat, s: S)
    requires k < |events| && IsRun(took, trace, events[..k]) && took(trace[k], events[k], s)
    ensures IsRun(took, trace + [s], events[..k + 1])
  {
    var trace', events' := trace + [s], events[..k + 1];
    forall j: nat | j < |events'| ensures TookAt(took, trace', events', j) {
      assert j < k ==> TookAt(took, trace, events[..k], j);
    }
  }
}
