/** The goal file and the driver: every method loads the record, changes it and saves it. */
module GoalStore {
  import opened Basics
  import opened G = Goal

  class GoalStore {
    var file: File

    constructor ()
      ensures file == None
    {
      file := None;
    }

    method Create(objective: string, criteria: Option<string>, budgets: Budgets, now: real) returns (r: Result<Record, Error>)
      modifies this
      ensures WellFormed(old(file)) ==> WellFormed(file)
      ensures r.Ok? ==> IsActive(file)
      ensures r.Ok? <==> Check(old(file), Op.Create(objective, criteria, budgets, now)).Ok?
      ensures r.Err? ==> r.error == GoalExists
      ensures file == Apply(old(file), Op.Create(objective, criteria, budgets, now))
      ensures r.Ok? ==> file == Some(r.value)
    {
      if file.Some? {
        return Err(GoalExists);
      }
      var record := NewRecord(objective, criteria, budgets, now);
      file := Some(record);
      return Ok(record);
    }

    method CloseActiveInterval(record: Record, now: real) returns (closed: Record)
      ensures closed == G.CloseActiveInterval(record, now)
    {
      closed := record;
      if closed.activeSince.Some? {
        closed := closed.(activeSeconds := closed.activeSeconds + NonNegative(now - closed.activeSince.value));
        closed := closed.(activeSince := None);
      }
    }

    method Transition(record: Record, to: Status, reason: Option<string>, now1: real, now2: real)
      modifies this
      ensures WellFormed(file)
      ensures file == Some(G.Transition(record, to, reason, now1, now2))
    {
      var r := record;
      if to.Active? {
        r := r.(activeSince := Some(now1));
      } else {
        r := CloseActiveInterval(r, now2);
      }
      file := Some(r.(status := to, stopReason := reason, updatedAt := now1));
    }

    method Pause(reason: string, now1: real, now2: real) returns (r: Result<(), Error>)
      modifies this
      ensures WellFormed(old(file)) ==> WellFormed(file)
      ensures r.Ok? ==> !IsActive(file)
      ensures r == Check(old(file), Op.Pause(reason, now1, now2))
      ensures file == Apply(old(file), Op.Pause(reason, now1, now2))
    {
      if file.None? { return Err(GoalNotFound); }
      if file.value.status.Paused? { return Err(BadTransition); }
      Transition(file.value, Paused, Some(reason), now1, now2);
      return Ok(());
    }

    method PauseOnError(reason: string, now1: real, now2: real)
      modifies this
      ensures WellFormed(old(file)) ==> WellFormed(file)
      ensures !IsActive(file)
      ensures file == Apply(old(file), Op.PauseOnError(reason, now1, now2))
    {
      if file.None? || !file.value.status.Active? {
        return;
      }
      Transition(file.value, Paused, Some(reason), now1, now2);
    }

    method Block(reason: string, now1: real, now2: real) returns (r: Result<(), Error>)
      modifies this
      ensures WellFormed(old(file)) ==> WellFormed(file)
      ensures r.Ok? ==> !IsActive(file)
      ensures r == Check(old(file), Op.Block(reason, now1, now2))
      ensures file == Apply(old(file), Op.Block(reason, now1, now2))
    {
      if file.None? { return Err(GoalNotFound); }
      if file.value.status.Blocked? { return Err(BadTransition); }
      Transition(file.value, Blocked, Some(reason), now1, now2);
      return Ok(());
    }

    method Resume(now: real) returns (r: Result<(), Error>)
      modifies this
      ensures WellFormed(old(file)) ==> WellFormed(file)
      ensures r.Ok? ==> IsActive(file)
      ensures r == Check(old(file), Op.Resume(now)) && file == Apply(old(file), Op.Resume(now))
    {
      if file.None? { return Err(GoalNotFound); }
      if file.value.status.Active? { return Err(BadTransition); }
      Transition(file.value, Active, None, now, now);
      return Ok(());
    }

    method Complete(now1: real, now2: real) returns (r: Result<Record, Error>)
      modifies this
      ensures WellFormed(old(file)) ==> WellFormed(file)
      ensures r == if old(file).None? then Err(GoalNotFound)
                   else Ok(G.CloseActiveInterval(old(file).value, now1).(updatedAt := now2))
      ensures file == Apply(old(file), Op.Complete(now1, now2))
    {
      if file.None? { return Err(GoalNotFound); }
      var record := CloseActiveInterval(file.value, now1);
      record := record.(updatedAt := now2);
      file := Some(record);
      file := None;
      return Ok(record);
    }

    method Cancel() returns (r: Result<(), Error>)
      modifies this
      ensures WellFormed(old(file)) ==> WellFormed(file)
      ensures r == Check(old(file), Op.Cancel) && file == Apply(old(file), Op.Cancel)
    {
      if file.None? { return Err(GoalNotFound); }
      file := None;
      return Ok(());
    }

    method SetBudgets(budgets: Budgets, now: real) returns (r: Result<(), Error>)
      modifies this
      ensures WellFormed(old(file)) ==> WellFormed(file)
      ensures r == Check(old(file), Op.SetBudgets(budgets, now)) && file == Apply(old(file), Op.SetBudgets(budgets, now))
    {
      if file.None? { return Err(GoalNotFound); }
      file := Some(file.value.(budgets := budgets, updatedAt := now));
      return Ok(());
    }

    method RecordTurn(tokens: int, now: real) returns (r: Result<Record, Error>)
      modifies this
      ensures WellFormed(old(file)) ==> WellFormed(file)
      ensures r.Ok? <==> Check(old(file), Op.RecordTurn(tokens, now)).Ok?
      ensures file == Apply(old(file), Op.RecordTurn(tokens, now))
      ensures r.Ok? ==> file == Some(r.value)
    {
      if file.None? { return Err(GoalNotFound); }
      var record := file.value;
      record := record.(turns := record.turns + 1);
      record := record.(tokens := if tokens < 0 then 0 else tokens);
      record := record.(updatedAt := now);
      file := Some(record);
      return Ok(record);
    }

    method RestoreDowngrade(now1: real, now2: real)
      modifies this
      ensures WellFormed(old(file)) ==> WellFormed(file)
      ensures !IsActive(file)
      ensures file == Apply(old(file), Op.RestoreDowngrade(now1, now2))
    {
      if file.None? || !file.value.status.Active? {
        return;
      }
      Transition(file.value, Paused, Some("session restarted"), now1, now2);
    }
  }

  /** Drives a goal from turn to turn. */
  class GoalDriver {
    const store: GoalStore

    constructor (store: GoalStore)
      ensures this.store == store
    {
      this.store := store;
    }

    /** The continuation, if there is one, says whether a budget presses. */
    method AfterTurn(tokens: int, now1: real, wall1: real, wall2: real, now2: real, now3: real) returns (next: Option<bool>)
      modifies store
      ensures WellFormed(old(store.file)) ==> WellFormed(store.file)
      ensures next.Some? <==> IsActive(store.file)
      ensures (store.file, next) == Drive(old(store.file), tokens, now1, wall1, wall2, now2, now3)
    {
      hide BudgetExceeded, BudgetPressure, ReasonText;
      if store.file.None? || !store.file.value.status.Active? {
        return None;
      }
      var r := store.RecordTurn(tokens, now1);
      var exceeded := BudgetExceeded(r.value, wall1);
      if exceeded.Some? {
        var blocked := store.Block(ReasonText(exceeded.value), now2, now3);
        return None;
      }
      Presses(r.value, wall1);
      return Some(BudgetPressure(r.value, wall2));
    }
  }

  /** As long as no budget is exceeded, none is zero, and the quotients exist. */
  lemma Presses(r: Record, wall: real)
    requires BudgetExceeded(r, wall).None?
    ensures r.budgets.maxTokens != Some(0) && r.budgets.maxSeconds != Some(0)
  {
  }
}
