/** The tool set object: its fields are updated call by call and step by step. */
module KimiToolset {
  import opened Basics
  import J = Json
  import T = Toolset

  /** What becomes of a call from the model. */
  datatype Result = NotFound | NotParsed | Done(outcome: T.Outcome)

  class KimiToolset {
    const tools: set<string>
    var previousStepCalls: seq<T.Key>
    var currentStepCalls: seq<T.Key>
    var startedCalls: seq<T.Key>
    var seenCallKeys: set<T.Key>
    var consecutiveKey: Option<T.Key>
    var consecutiveCount: int
    var stepClosed: bool
    var dedupTriggered: bool
    var forceStopTurn: bool

    constructor (tools: set<string>)
      ensures this.tools == tools && Model() == T.FRESH
    {
      this.tools := tools;
      previousStepCalls, currentStepCalls, startedCalls, seenCallKeys := [], [], [], {};
      consecutiveKey, consecutiveCount := None, 0;
      stepClosed, dedupTriggered, forceStopTurn := false, false, false;
    }

    ghost function Model(): T.Tools
      reads this
    {
      T.Tools(previousStepCalls, currentStepCalls, startedCalls, seenCallKeys,
              T.Streak(consecutiveKey, consecutiveCount), stepClosed, dedupTriggered, forceStopTurn)
    }

    method AdvanceConsecutiveStreak(calls: seq<T.Key>)
      modifies `consecutiveKey, `consecutiveCount
      ensures T.Streak(consecutiveKey, consecutiveCount) == T.Advance(old(T.Streak(consecutiveKey, consecutiveCount)), calls)
    {
      for i := 0 to |calls|
        invariant T.Streak(consecutiveKey, consecutiveCount) == T.Advance(old(T.Streak(consecutiveKey, consecutiveCount)), calls[..i])
      {
        assert calls[..i + 1][..i] == calls[..i];
        if Some(calls[i]) == consecutiveKey {
          consecutiveCount := consecutiveCount + 1;
        } else {
          consecutiveKey, consecutiveCount := Some(calls[i]), 1;
        }
      }
      assert calls[..|calls|] == calls;
    }

    method ProjectedStreakForCall(callIndex: nat) returns (count: int)
      requires callIndex < |currentStepCalls|
      ensures count == T.Projected(Model(), callIndex)
    {
      var key: Option<T.Key>;
      var calls := currentStepCalls[..callIndex + 1];
      key, count := consecutiveKey, consecutiveCount;
      for i := 0 to |calls|
        invariant T.Streak(key, count) == T.Advance(T.Streak(consecutiveKey, consecutiveCount), calls[..i])
      {
        assert calls[..i + 1][..i] == calls[..i];
        if Some(calls[i]) == key {
          count := count + 1;
        } else {
          key, count := Some(calls[i]), 1;
        }
      }
      assert calls[..|calls|] == calls;
    }

    method BeginStep(previousCalls: seq<T.Key>)
      modifies this
      ensures Model() == T.Begin(old(Model()), previousCalls)
    {
      hide T.Advance, T.Normalize;
      previousStepCalls := T.NormalizeAll(previousCalls);
      currentStepCalls, startedCalls := [], [];
      stepClosed, dedupTriggered, forceStopTurn := false, false, false;
      if previousStepCalls == [] {
        seenCallKeys := {};
        consecutiveKey, consecutiveCount := None, 0;
      } else {
        seenCallKeys := seenCallKeys + T.Calls(previousStepCalls);
        if consecutiveKey.None? && consecutiveCount == 0 {
          AdvanceConsecutiveStreak(previousStepCalls);
        }
      }
    }

    method EndStep() returns (calls: seq<T.Key>)
      modifies this
      ensures Model() == T.End(old(Model())) && calls == old(currentStepCalls)
    {
      hide T.Advance;
      if !stepClosed {
        AdvanceConsecutiveStreak(currentStepCalls);
        seenCallKeys := seenCallKeys + T.Calls(currentStepCalls);
        stepClosed := true;
      }
      return currentStepCalls;
    }

    /** arguments is None when the arguments of the call are not JSON. */
    method Handle(tool: string, arguments: Option<J.Json>) returns (r: Result)
      modifies this
      ensures tool !in tools ==> r == NotFound
      ensures tool in tools && arguments.None? ==> r == NotParsed
      ensures tool in tools && arguments.Some? ==>
        var (after, outcome) := T.Handle(old(Model()), T.Normalize(T.Key(tool, arguments.value)));
        Model() == after && r == Done(outcome)
      ensures !r.Done? ==> Model() == old(Model())
    {
      hide T.Normalize, T.Advance, T.ActionFor;
      if tool !in tools {
        return NotFound;
      }
      if arguments.None? {
        return NotParsed;
      }
      var call := T.Normalize(T.Key(tool, arguments.value));
      var callIndex := |currentStepCalls|;
      currentStepCalls := currentStepCalls + [call];
      if call in startedCalls {
        return Done(T.SameStep);
      }
      var action := T.NoAction;
      if call in seenCallKeys {
        var repeatCount := ProjectedStreakForCall(callIndex);
        action := T.ActionFor(repeatCount);
        dedupTriggered := true;
        if action.Stop? {
          forceStopTurn := true;
        }
      }
      startedCalls := startedCalls + [call];
      return Done(T.Started(action));
    }
  }
}
