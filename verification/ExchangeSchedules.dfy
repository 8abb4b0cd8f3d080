/** Schedules: joining them, extending them, and looking at the states they pass through. */
module ExchangeSchedules {
  import opened Prelude
  import opened ExchangeProtocol
  import opened ExchangeTheorems

  lemma {:induction false} ExecuteJoins(s: State, first: seq<Event>, rest: seq<Event>)
    requires Execute(s, first).Some?
    ensures Execute(s, first + rest) == Execute(Execute(s, first).value, rest)
    decreases |first|
  {
    if first == [] {
      assert first + rest == rest;
    } else {
      assert (first + rest)[1..] == first[1..] + rest;
      ExecuteJoins(Next(s, first[0].agent, first[0].step).value, first[1..], rest);
    }
  }

  lemma AppendedScheduleStaysReachable(s: State, schedule: seq<Event>, t: State)
    requires Reachable(s) && Execute(s, schedule) == Some(t)
    ensures Reachable(t)
  {
    var start, before :| Init(start) && Execute(start, before) == Some(s);
    ExecuteJoins(start, before, schedule);
    assert Execute(start, before + schedule) == Some(t);
  }

  lemma ExecuteStep(s: State, e: Event, rest: seq<Event>)
    requires Next(s, e.agent, e.step).Some?
    ensures Execute(s, [e] + rest) == Execute(Next(s, e.agent, e.step).value, rest)
  {
    assert ([e] + rest)[1..] == rest;
  }

  lemma ExecuteLast(s: State, e: Event)
    requires Next(s, e.agent, e.step).Some?
    ensures Execute(s, [e]) == Next(s, e.agent, e.step)
  {
    assert [e][1..] == [];
  }

  lemma OneStep(s: State, a: AgentId, step: Step, t: State)
    requires Next(s, a, step) == Some(t)
    ensures Execute(s, [Event(a, step)]) == Some(t)
  {
    ExecuteLast(s, Event(a, step));
  }

  lemma TwoSteps(s: State, a: AgentId, first: Step, mid: State, second: Step, t: State)
    requires Execute(s, [Event(a, first)]) == Some(mid) && Execute(mid, [Event(a, second)]) == Some(t)
    ensures Execute(s, [Event(a, first)] + [Event(a, second)]) == Some(t)
  {
    ExecuteJoins(s, [Event(a, first)], [Event(a, second)]);
  }

  /** One enabled step keeps a state reachable. */
  lemma StepTaken(s: State, a: AgentId, step: Step, t: State)
    requires Reachable(s) && Next(s, a, step) == Some(t)
    ensures Execute(s, [Event(a, step)]) == Some(t) && Reachable(t)
  {
    hide Reachable;
    OneStep(s, a, step, t);
    AppendedScheduleStaysReachable(s, [Event(a, step)], t);
  }

  /** Two schedules, one after the other. */
  lemma TwoParts(s: State, first: seq<Event>, t: State, second: seq<Event>, u: State)
    requires Execute(s, first) == Some(t) && Execute(t, second) == Some(u)
    ensures Execute(s, first + second) == Some(u)
  {
    ExecuteJoins(s, first, second);
  }

  lemma ThreeParts(s: State, first: seq<Event>, t: State, second: seq<Event>, u: State, third: seq<Event>, w: State)
    requires Execute(s, first) == Some(t) && Execute(t, second) == Some(u) && Execute(u, third) == Some(w)
    ensures Execute(s, first + (second + third)) == Some(w)
  {
    ExecuteJoins(t, second, third);
    ExecuteJoins(s, first, second + third);
  }

  /** The state a schedule has reached before its event `i`, from which that event was taken. */
  lemma {:induction false} EventWasEnabled(s: State, schedule: seq<Event>, i: nat) returns (before: State, after: State)
    requires Reachable(s) && Execute(s, schedule).Some? && i < |schedule|
    ensures Execute(s, schedule[..i]) == Some(before) && Reachable(before)
    ensures Next(before, schedule[i].agent, schedule[i].step) == Some(after)
    ensures Execute(s, schedule[..i + 1]) == Some(after)
  {
    hide Reachable;
    assert schedule == schedule[..i] + schedule[i..];
    SplitExecution(s, schedule[..i], schedule[i..]);
    before := Execute(s, schedule[..i]).value;
    AppendedScheduleStaysReachable(s, schedule[..i], before);
    after := Next(before, schedule[i].agent, schedule[i].step).value;
    OneStep(before, schedule[i].agent, schedule[i].step, after);
    TwoParts(s, schedule[..i], before, [schedule[i]], after);
    assert schedule[..i] + [schedule[i]] == schedule[..i + 1];
  }

  lemma {:induction false} SplitExecution(s: State, first: seq<Event>, rest: seq<Event>)
    requires Execute(s, first + rest).Some?
    ensures Execute(s, first).Some? && Execute(s, first + rest) == Execute(Execute(s, first).value, rest)
    decreases |first|
  {
    if first == [] {
      assert first + rest == rest;
    } else {
      assert (first + rest)[0] == first[0] && (first + rest)[1..] == first[1..] + rest;
      SplitExecution(Next(s, first[0].agent, first[0].step).value, first[1..], rest);
    }
  }
}
