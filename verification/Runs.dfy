/** Runs of a state machine: the state after a sequence of events. */
module Runs {

  function Run<S, E>(next: (S, E) -> S, s: S, events: seq<E>): S
    decreases |events|
  {
    if events == [] then s else Run(next, next(s, events[0]), events[1..])
  }

  lemma {:induction false} RunInTwo<S, E>(next: (S, E) -> S, s: S, before: seq<E>, after: seq<E>)
    ensures Run(next, s, before + after) == Run(next, Run(next, s, before), after)
    decreases |before|
  {
    if before == [] {
      assert before + after == after;
    } else {
      assert (before + after)[1..] == before[1..] + after;
      RunInTwo(next, next(s, before[0]), before[1..], after);
    }
  }

  /** One more event at the end. */
  lemma Extend<S, E>(next: (S, E) -> S, s: S, events: seq<E>, e: E) returns (longer: seq<E>)
    ensures Run(next, s, longer) == next(Run(next, s, events), e)
  {
    longer := events + [e];
    RunInTwo(next, s, events, [e]);
    var t := Run(next, s, events);
    assert [e][1..] == [];
    assert Run(next, t, [e]) == Run(next, next(t, e), []);
  }

  lemma RunOfNothing<S, E>(next: (S, E) -> S, s: S)
    ensures Run(next, s, []) == s
  {
  }
}
