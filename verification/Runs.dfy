/** Runs put together from single steps. */
module Runs {
  import opened Protocol

  /** A run from s to t. */
  ghost predicate Path(states: seq<State>, events: seq<Event>, s: State, t: State) {
    IsRun(states, events) && states[0] == s && states[|events|] == t
  }

  /** One step. */
  ghost predicate Step(s: State, e: Event, t: State) { Enabled(s, e) && Next(s, e) == t }

  lemma Stay(s: State)
    ensures Path([s], [], s, s)
  {
  }

  /** A step in front of a run. */
  lemma Prepend(s: State, e: Event, states: seq<State>, events: seq<Event>, t: State)
    requires Enabled(s, e) && Path(states, events, Next(s, e), t)
    ensures Path([s] + states, [e] + events, s, t)
  {
    var ss, es := [s] + states, [e] + events;
    forall i | 0 <= i < |es| ensures Enabled(ss[i], es[i]) && ss[i + 1] == Next(ss[i], es[i]) {
      if i > 0 { assert es[i] == events[i - 1] && ss[i] == states[i - 1] && ss[i + 1] == states[i]; }
    }
  }

  lemma StepsMakeRun(states: seq<State>, events: seq<Event>)
    requires |states| == |events| + 1 && forall i :: 0 <= i < |events| ==> Step(states[i], events[i], states[i + 1])
    ensures IsRun(states, events)
  {
    forall i | 0 <= i < |events| ensures Enabled(states[i], events[i]) && states[i + 1] == Next(states[i], events[i]) {
      assert Step(states[i], events[i], states[i + 1]);
    }
  }

  /** The packet counter never falls. */
  lemma CounterGrows(states: seq<State>, events: seq<Event>, i: nat, j: nat)
    requires IsRun(states, events) && i <= j < |states|
    ensures states[i].current <= states[j].current
  {
    for k := i to j
      invariant states[i].current <= states[k].current
    {
      CounterStep(states[k], events[k]);
    }
  }

  lemma CounterStep(s: State, e: Event)
    requires Enabled(s, e)
    ensures s.current <= Next(s, e).current
  {
  }

  /** Further steps behind a run. */
  lemma Extend(states: seq<State>, events: seq<Event>, s: State, t: State, more: seq<State>, later: seq<Event>)
    requires Path(states, events, s, t) && |more| == |later| + 1 && more[0] == t
    requires forall i :: 0 <= i < |later| ==> Step(more[i], later[i], more[i + 1])
    ensures Path(states + more[1..], events + later, s, more[|later|])
  {
    var ss, es, n := states + more[1..], events + later, |events|;
    forall i | 0 <= i < |es| ensures Step(ss[i], es[i], ss[i + 1]) {
      if i < n {
        assert es[i] == events[i] && ss[i] == states[i] && ss[i + 1] == states[i + 1];
      } else {
        assert es[i] == later[i - n] && ss[i] == more[i - n] && ss[i + 1] == more[i - n + 1];
      }
    }
    StepsMakeRun(ss, es);
  }

  /** Every event of the run meets the condition. */
  ghost predicate All(events: seq<Event>, p: Event -> bool) { forall i :: 0 <= i < |events| ==> p(events[i]) }

  lemma AllPrepend(e: Event, events: seq<Event>, p: Event -> bool)
    requires p(e) && All(events, p)
    ensures All([e] + events, p)
  {
    forall i | 0 <= i < |events| + 1 ensures p(([e] + events)[i]) { if i > 0 { assert p(events[i - 1]); } }
  }
}
