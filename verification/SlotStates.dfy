/** The state a slot is reported in, every one of them, after either pass of an assessment. */
module SlotStates {
  import opened Basics
  import opened A = Assess
  import opened Failures
  import opened Verdicts
  import History
  import StoredHistory

  /** The last event against the association was a cancellation. */
  ghost predicate LastCancelled(h: seq<History.Event>, claim: string, tool: string) {
    exists k :: 0 <= k < |h| && History.Shuts(h[k], claim, tool) && h[k].result == History.CANCELLED
                && forall j :: k < j < |h| ==> !History.Shuts(h[j], claim, tool)
  }

  /** What is reported of an association that stands blocked without a failure. */
  ghost function BlockedState(h: seq<History.Event>, claim: string, tool: string): Slot {
    if LastCancelled(h, claim, tool) then CANCELLED else ERROR
  }

  lemma BarrierStateIs(h: seq<History.Event>, execution: Option<History.Ref>, claim: string, tool: string)
    requires History.Eligibility(h, execution, claim, tool).Ok?
    requires var s := History.Eligibility(h, execution, claim, tool).value; s.remaining != []
    ensures var s := History.Eligibility(h, execution, claim, tool).value;
      BarrierState(s.remaining) == BlockedState(h, claim, tool)
  {
    History.RemainingExactly(h, execution, claim, tool);
    StoredHistory.LastKept(
      h, (e: History.Event) => History.Barrier(e, claim, tool), (e: History.Event) => e.result.CANCELLED?);
    forall e ensures History.Barrier(e, claim, tool) <==> History.Shuts(e, claim, tool) {
      History.EventForms(e, None, claim, tool);
    }
    hide History.Barrier;
    hide History.Shuts;
    hide History.Remaining;
  }

  /** The state of a slot that no failure in the history condemns and no check raises on. */
  ghost function SettledState(h: seq<History.Event>, claim: string, x: SlotInput): Slot
    requires x.saved.Some?
  {
    var saved, c := x.saved.value, x.checks;
    if saved.execution == None || c.artifact != Some(PASS) then
      if Blocked(h, claim, x) then BlockedState(h, claim, x.tool) else saved.state
    else if saved.observed == ERROR || saved.observed == CANCELLED then saved.observed
    else if Blocked(h, claim, x) then BlockedState(h, claim, x.tool)
    else if !History.Eligible(h, saved.execution, claim, x.tool) then MISSING
    else if c.recheck == Off || c.recheck == Rechecked(PASS) then PASS
    else if c.recheck == Rechecked(FAIL) then FAIL
    else ERROR
  }

  lemma JudgeSavedState(
      saved: SavedSlot, c: Checks, s: History.Standing, captured: seq<nat>, early: Slot, physical: bool)
    requires s.eligible ==> s.remaining == []
    requires physical ==> early == FAIL && s.remaining != []
    ensures var j := JudgeSaved(saved, c, s, captured, early, physical);
      j.state ==
      if physical then FAIL
      else if j.raised then ERROR
      else if saved.execution == None || c.artifact != Some(PASS) then early
      else if saved.observed == ERROR || saved.observed == CANCELLED then saved.observed
      else if s.remaining != [] then BarrierState(s.remaining)
      else if !s.eligible then MISSING
      else if c.recheck == Off || c.recheck == Rechecked(PASS) then PASS
      else if c.recheck == Rechecked(FAIL) then FAIL
      else ERROR
  {
    hide BarrierState;
  }

  /**
   The state a slot is judged to have: FAIL under an unanswered failure, else
   ERROR where a check raises, else what its receipts and the history settle.
   */
  lemma SlotStateIs(h: seq<History.Event>, captured: nat, claim: string, x: SlotInput)
    requires Judge(h, captured, claim, x).Ok?
    ensures Judge(h, captured, claim, x).value.state ==
      if Condemned(h, claim, x) then FAIL
      else if Raises(h, captured, claim, x) then ERROR
      else SettledState(h, claim, x)
  {
    hide Unanswered;
    hide Raises;
    hide Blocked;
    hide LastCancelled;
    hide History.Eligible;
    hide CapturedBlockers;
    hide BarrierState;
    hide AnyFail;
    hide JudgeSaved;
    JudgedFrom(h, captured, claim, x);
    SlotRaisesIff(h, captured, claim, x);
    RemainingFails(h, claim, x.tool, SavedExecution(x));
    History.RemainingExactly(h, SavedExecution(x), claim, x.tool);
    hide History.Eligibility;
    if x.saved.Some? {
      BlockedIff(h, claim, x);
      var s := History.Eligibility(h, SavedExecution(x), claim, x.tool).value;
      if s.remaining != [] {
        BarrierStateIs(h, SavedExecution(x), claim, x.tool);
      }
      var physical := AnyFail(s.remaining);
      var early :=
        if physical then FAIL else if s.remaining != [] then BarrierState(s.remaining) else x.saved.value.state;
      NoFailAmongNone();
      JudgeSavedState(x.saved.value, x.checks, s, CapturedBlockers(h, captured, claim, x.tool), early, physical);
    } else {
      UnsavedRaises(h, captured, claim, x);
    }
  }

  lemma NoFailAmongNone()
    ensures !AnyFail([])
  {
  }

  lemma UnsavedRaises(h: seq<History.Event>, captured: nat, claim: string, x: SlotInput)
    requires x.saved.None?
    ensures Raises(h, captured, claim, x)
  {
  }

  /** The state of a slot after the second read. */
  lemma RereadSlotIs(h: seq<History.Event>, claim: string, s: SlotRow)
    requires RereadSlot(h, claim, s).Ok?
    ensures var blocked := (exists e :: e in h && History.Shuts(e, claim, s.tool))
                           && !History.Eligible(h, s.execution, claim, s.tool);
      RereadSlot(h, claim, s).value.state ==
      if Unanswered(h, claim, s.tool, s.execution) then FAIL
      else if blocked then BlockedState(h, claim, s.tool)
      else if s.state == PASS && !History.Eligible(h, s.execution, claim, s.tool) then MISSING
      else s.state
    ensures RereadSlot(h, claim, s).value == s.(state := RereadSlot(h, claim, s).value.state)
  {
    RemainingFails(h, claim, s.tool, s.execution);
    StandsBlocked(h, s.execution, claim, s.tool);
    var r := History.Eligibility(h, s.execution, claim, s.tool).value;
    if r.remaining != [] {
      BarrierStateIs(h, s.execution, claim, s.tool);
    }
    hide Unanswered;
    hide LastCancelled;
    hide History.Eligibility;
    hide BarrierState;
    hide AnyFail;
  }

  lemma StandsBlocked(h: seq<History.Event>, execution: Option<History.Ref>, claim: string, tool: string)
    requires History.Eligibility(h, execution, claim, tool).Ok?
    ensures var s := History.Eligibility(h, execution, claim, tool).value;
      && (s.remaining != [] <==>
            (exists e :: e in h && History.Shuts(e, claim, tool)) && !History.Eligible(h, execution, claim, tool))
      && (s.eligible <==> History.Eligible(h, execution, claim, tool))
  {
    var s := History.Eligibility(h, execution, claim, tool).value;
    History.RemainingExactly(h, execution, claim, tool);
    forall e ensures e in s.blocking <==> e in h && History.Shuts(e, claim, tool) {
      History.EventForms(e, None, claim, tool);
    }
    if s.blocking != [] { assert s.blocking[0] in s.blocking; }
  }
}
