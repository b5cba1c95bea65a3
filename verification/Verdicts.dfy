/** The exit code of a v4 assessment, all four values of it, from what the run was given. */
module Verdicts {
  import opened Basics
  import opened A = Assess
  import opened Failures
  import History
  import Manifests
  import Records

  // ---- what a slot is judged to be -------------------------------------

  /** The receipts hold up to and including the artifact, whose result is `result`. */
  ghost predicate ArtifactIs(h: seq<History.Event>, captured: nat, claim: string, x: SlotInput, result: Slot) {
    && x.saved.Some? && x.checks.policy && x.checks.work
    && x.saved.value.blocking == CapturedBlockers(h, captured, claim, x.tool)
    && x.saved.value.execution.Some? && x.checks.artifact == Some(result)
  }

  /** The receipts and the history hold up to and including the scan before observations are rechecked. */
  ghost predicate UpToRecheck(h: seq<History.Event>, captured: nat, claim: string, x: SlotInput) {
    && ArtifactIs(h, captured, claim, x, PASS)
    && History.Eligible(h, x.saved.value.execution, claim, x.tool)
    && x.saved.value.observation.Some? && x.checks.observation == Some(x.saved.value.observed)
    && !x.saved.value.observed.ERROR? && !x.saved.value.observed.CANCELLED?
    && (exists e :: e in History.Eligibility(h, x.saved.value.execution, claim, x.tool).value.observed
                    && e.observation == x.saved.value.observation)
    && x.checks.response == Some(PASS) && x.checks.rescan
  }

  /** The history holds something against the association that this execution does not answer. */
  ghost predicate Blocked(h: seq<History.Event>, claim: string, x: SlotInput) {
    && (exists e :: e in h && History.Shuts(e, claim, x.tool))
    && !History.Eligible(h, SavedExecution(x), claim, x.tool)
  }

  /**
   A slot is FAIL exactly by an unanswered failure in the history, by a failed
   artifact that the record owns up to, or by an observation that fails when
   rechecked.
   */
  lemma SlotFailsIff(h: seq<History.Event>, captured: nat, claim: string, x: SlotInput)
    requires Judge(h, captured, claim, x).Ok?
    ensures Judge(h, captured, claim, x).value.state == FAIL <==>
      || Condemned(h, claim, x)
      || (ArtifactIs(h, captured, claim, x, FAIL) && x.saved.value.state == FAIL && !Blocked(h, claim, x))
      || (UpToRecheck(h, captured, claim, x) && x.checks.recheck == Rechecked(FAIL))
  {
    JudgedFrom(h, captured, claim, x);
    hide *;
    if x.saved.Some? {
      SavedFails(h, captured, claim, x);
    } else {
      UnsavedFails(h, captured, claim, x);
    }
  }

  /** The standing a slot is judged from, in the terms used here. */
  lemma JudgedFrom(h: seq<History.Event>, captured: nat, claim: string, x: SlotInput)
    requires Judge(h, captured, claim, x).Ok?
    ensures History.Eligibility(h, SavedExecution(x), claim, x.tool).Ok?
  {
  }

  lemma UnsavedFails(h: seq<History.Event>, captured: nat, claim: string, x: SlotInput)
    requires History.Eligibility(h, SavedExecution(x), claim, x.tool).Ok? && x.saved.None?
    ensures !ArtifactIs(h, captured, claim, x, FAIL) && !UpToRecheck(h, captured, claim, x)
    ensures Judge(h, captured, claim, x).Ok?
    ensures Judge(h, captured, claim, x).value.state == FAIL <==> Condemned(h, claim, x)
  {
    RemainingFails(h, claim, x.tool, SavedExecution(x));
    hide History.Eligibility;
    hide Unanswered;
  }

  /** The verdict on a saved slot, from its standing: what blocks it, and how its record starts it. */
  lemma SavedFails(h: seq<History.Event>, captured: nat, claim: string, x: SlotInput)
    requires History.Eligibility(h, SavedExecution(x), claim, x.tool).Ok? && x.saved.Some?
    ensures Judge(h, captured, claim, x).Ok?
    ensures Judge(h, captured, claim, x).value.state == FAIL <==>
      || Condemned(h, claim, x)
      || (ArtifactIs(h, captured, claim, x, FAIL) && x.saved.value.state == FAIL && !Blocked(h, claim, x))
      || (UpToRecheck(h, captured, claim, x) && x.checks.recheck == Rechecked(FAIL))
  {
    var execution := SavedExecution(x);
    RemainingFails(h, claim, x.tool, execution);
    History.RemainingExactly(h, execution, claim, x.tool);
    BlockedIff(h, claim, x);
    var s := History.Eligibility(h, execution, claim, x.tool).value;
    var physical := AnyFail(s.remaining);
    var early :=
      if physical then FAIL else if s.remaining != [] then BarrierState(s.remaining) else x.saved.value.state;
    JudgeSavedFails(x.saved.value, x.checks, s, CapturedBlockers(h, captured, claim, x.tool), early, physical);
    hide History.Eligible;
    hide Unanswered;
    hide Blocked;
    hide CapturedBlockers;
    hide JudgeSaved;
    hide AnyFail;
  }

  lemma JudgeSavedFails(
      saved: SavedSlot, c: Checks, s: History.Standing, captured: seq<nat>, early: Slot, physical: bool)
    requires s.eligible ==> s.remaining == []
    requires physical ==> early.FAIL? && s.remaining != []
    requires !physical && s.remaining != [] ==> early.ERROR? || early.CANCELLED?
    requires s.remaining == [] ==> early == saved.state
    ensures JudgeSaved(saved, c, s, captured, early, physical).state.FAIL? <==>
      || physical
      || (c.policy && saved.blocking == captured && c.work && saved.execution.Some? && c.artifact == Some(FAIL)
          && saved.state == FAIL && s.remaining == [])
      || (c.policy && saved.blocking == captured && c.work && saved.execution.Some? && c.artifact == Some(PASS)
          && s.eligible && saved.observation.Some? && c.observation == Some(saved.observed)
          && !saved.observed.ERROR? && !saved.observed.CANCELLED?
          && (exists e :: e in s.observed && e.observation == saved.observation)
          && c.response == Some(PASS) && c.rescan && c.recheck == Rechecked(FAIL))
  {
  }

  /** What makes judging a slot report an error: each check that raises, where it is made. */
  ghost predicate Raises(h: seq<History.Event>, captured: nat, claim: string, x: SlotInput) {
    || x.saved.None?
    || !x.checks.policy || !x.checks.work
    || x.saved.value.blocking != CapturedBlockers(h, captured, claim, x.tool)
    || (x.saved.value.execution.None? && (x.saved.value.state == PASS || x.saved.value.state == FAIL)
        && !Condemned(h, claim, x))
    || (x.saved.value.execution.Some? && x.checks.artifact.None?)
    || (x.saved.value.execution.Some? && x.checks.artifact.Some? && x.checks.artifact != Some(PASS)
        && x.checks.artifact != Some(x.saved.value.state) && !Condemned(h, claim, x))
    || (ArtifactIs(h, captured, claim, x, PASS) && ObservationRaises(h, claim, x))
  }

  ghost predicate ObservationRaises(h: seq<History.Event>, claim: string, x: SlotInput)
    requires x.saved.Some?
  {
    var saved, c := x.saved.value, x.checks;
    || saved.observation.None? || c.observation != Some(saved.observed)
    || ((saved.observed == ERROR || saved.observed == CANCELLED)
        && saved.state != saved.observed && !Condemned(h, claim, x))
    || (saved.observed != ERROR && saved.observed != CANCELLED
        && History.Eligible(h, saved.execution, claim, x.tool)
        && (c.response != Some(PASS) || !c.rescan || c.recheck == Raised
            || !(exists e :: e in History.Eligibility(h, saved.execution, claim, x.tool).value.observed
                             && e.observation == saved.observation)))
  }

  lemma JudgeSavedRaises(
      saved: SavedSlot, c: Checks, s: History.Standing, captured: seq<nat>, early: Slot, physical: bool)
    ensures JudgeSaved(saved, c, s, captured, early, physical).raised <==>
      || !c.policy || !c.work || saved.blocking != captured
      || (saved.execution.None? && (saved.state == PASS || saved.state == FAIL) && !physical)
      || (saved.execution.Some? && c.artifact.None?)
      || (saved.execution.Some? && c.artifact.Some? && c.artifact != Some(PASS)
          && c.artifact != Some(saved.state) && !physical)
      || (saved.execution.Some? && c.artifact == Some(PASS)
          && (|| saved.observation.None? || c.observation != Some(saved.observed)
              || ((saved.observed == ERROR || saved.observed == CANCELLED)
                  && saved.state != saved.observed && !physical)
              || (saved.observed != ERROR && saved.observed != CANCELLED && s.eligible
                  && (c.response != Some(PASS) || !c.rescan || c.recheck == Raised
                      || !(exists e :: e in s.observed && e.observation == saved.observation)))))
  {
  }

  /** A slot is judged with an error exactly where one of these checks raises. */
  lemma SlotRaisesIff(h: seq<History.Event>, captured: nat, claim: string, x: SlotInput)
    requires Judge(h, captured, claim, x).Ok?
    ensures Judge(h, captured, claim, x).value.raised <==> Raises(h, captured, claim, x)
  {
    JudgedFrom(h, captured, claim, x);
    if x.saved.Some? {
      var execution := SavedExecution(x);
      RemainingFails(h, claim, x.tool, execution);
      BlockedIff(h, claim, x);
      var s := History.Eligibility(h, execution, claim, x.tool).value;
      var physical := AnyFail(s.remaining);
      var early :=
        if physical then FAIL else if s.remaining != [] then BarrierState(s.remaining) else x.saved.value.state;
      JudgeSavedRaises(x.saved.value, x.checks, s, CapturedBlockers(h, captured, claim, x.tool), early, physical);
      hide History.Eligible;
      hide History.Eligibility;
      hide Unanswered;
      hide Blocked;
      hide CapturedBlockers;
      hide JudgeSaved;
      hide AnyFail;
    }
  }

  lemma BlockedIff(h: seq<History.Event>, claim: string, x: SlotInput)
    requires History.Eligibility(h, SavedExecution(x), claim, x.tool).Ok?
    ensures var s := History.Eligibility(h, SavedExecution(x), claim, x.tool).value;
      && (s.remaining != [] <==> Blocked(h, claim, x))
      && (s.eligible <==> History.Eligible(h, SavedExecution(x), claim, x.tool))
  {
    var s := History.Eligibility(h, SavedExecution(x), claim, x.tool).value;
    History.RemainingExactly(h, SavedExecution(x), claim, x.tool);
    forall e ensures e in s.blocking <==> e in h && History.Shuts(e, claim, x.tool) {
      History.EventForms(e, None, claim, x.tool);
    }
    if s.blocking != [] { assert s.blocking[0] in s.blocking; }
  }

  // ---- errors ----------------------------------------------------------

  /** The stored aggregate says something the stored slots do not: it may always say INCOMPLETE. */
  ghost predicate Contradicted(c: ClaimInput) {
    var failed := exists k :: 0 <= k < |c.slots| && c.slots[k].saved.Some? && c.slots[k].saved.value.state == FAIL;
    var passed := forall k :: 0 <= k < |c.slots| ==> c.slots[k].saved.Some? && c.slots[k].saved.value.state == PASS;
    (c.stored == Failed && !failed) || (c.stored == Passed && (failed || !passed))
  }

  /** The claim's row reports no error. */
  ghost predicate Clean(h: seq<History.Event>, captured: nat, c: ClaimInput) {
    && c.recordOk && !Contradicted(c)
    && forall k :: 0 <= k < |c.slots| ==> !Raises(h, captured, c.claim, c.slots[k])
  }

  lemma {:induction false} SlotErrors(h: seq<History.Event>, captured: nat, claim: string, ins: seq<SlotInput>)
    requires FoldSlots(h, captured, claim, ins).ok
    ensures FoldSlots(h, captured, claim, ins).errors == 0 <==>
            forall k :: 0 <= k < |ins| ==> !Raises(h, captured, claim, ins[k])
  {
    hide Judge;
    hide Raises;
    if ins != [] {
      var x := ins[0];
      assert Judge(h, captured, claim, x).Ok? && FoldSlots(h, captured, claim, ins[1..]).ok;
      SlotRaisesIff(h, captured, claim, x);
      SlotErrors(h, captured, claim, ins[1..]);
      assert ins == [x] + ins[1..];
    }
  }

  lemma RowErrorsIff(c: ClaimInput)
    ensures RowErrors(c) == 0 <==> c.recordOk && !Contradicted(c)
  {
  }

  lemma ClaimErrors(h: seq<History.Event>, captured: nat, c: ClaimInput)
    requires FoldClaim(h, captured, c).ok
    ensures FoldClaim(h, captured, c).errors == 0 <==> Clean(h, captured, c)
  {
    SlotErrors(h, captured, c.claim, Readable(c));
    RowErrorsIff(c);
    hide FoldSlots;
    hide Raises;
    hide RowErrors;
    hide Contradicted;
  }

  lemma {:induction false} FoldErrors(h: seq<History.Event>, captured: nat, claims: seq<ClaimInput>)
    requires FoldClaims(h, captured, claims).ok
    ensures FoldClaims(h, captured, claims).errors == 0 <==> AllClean(h, captured, claims)
  {
    hide FoldClaim;
    hide Clean;
    if claims != [] {
      ClaimErrors(h, captured, claims[0]);
      FoldErrors(h, captured, claims[1..]);
      CleanFromFirst(h, captured, claims);
      hide AllClean;
    }
  }

  ghost predicate AllClean(h: seq<History.Event>, captured: nat, claims: seq<ClaimInput>) {
    forall i :: 0 <= i < |claims| ==> Clean(h, captured, claims[i])
  }

  lemma CleanFromFirst(h: seq<History.Event>, captured: nat, claims: seq<ClaimInput>)
    requires claims != []
    ensures AllClean(h, captured, claims) <==>
            Clean(h, captured, claims[0]) && AllClean(h, captured, claims[1..])
  {
    hide Clean;
    assert claims == [claims[0]] + claims[1..];
  }

  // ---- passing rows ----------------------------------------------------

  lemma DischargedSlot(h: seq<History.Event>, captured: nat, claim: string, x: SlotInput)
    requires Supported(h, captured, claim, x)
    ensures Judge(h, captured, claim, x).Ok? && Judge(h, captured, claim, x).value.state == PASS
  {
    SlotPassesIff(h, captured, claim, x);
  }

  /** A discharged claim's row passes the first fold, with its slots as they were cited. */
  lemma DischargedFirst(h: seq<History.Event>, captured: nat, c: ClaimInput)
    requires FoldClaim(h, captured, c).ok && c.recordOk && c.slots != []
    requires forall k :: 0 <= k < |c.slots| ==> Supported(h, captured, c.claim, c.slots[k])
    ensures var row := FoldClaim(h, captured, c).row;
      && row.claim == c.claim && row.inPolicy && row.result == Passed && |row.slots| == |c.slots|
      && forall k :: 0 <= k < |c.slots| ==>
           row.slots[k] == SlotRow(c.slots[k].tool, SavedExecution(c.slots[k]), PASS)
  {
    forall k | 0 <= k < |c.slots|
      ensures FoldSlots(h, captured, c.claim, c.slots).slots[k] ==
              SlotRow(c.slots[k].tool, SavedExecution(c.slots[k]), PASS)
    {
      FoldSlotsSpec(h, captured, c.claim, c.slots, k);
      DischargedSlot(h, captured, c.claim, c.slots[k]);
    }
    hide Judge;
    hide FoldSlots;
    hide Supported;
  }

  lemma EligibleSlotStays(g: seq<History.Event>, claim: string, s: SlotRow)
    requires s.state == PASS && History.Eligible(g, s.execution, claim, s.tool)
    ensures RereadSlot(g, claim, s) == Ok(s)
  {
    History.RemainingExactly(g, s.execution, claim, s.tool);
  }

  lemma {:induction false} EligibleSlotsStay(g: seq<History.Event>, claim: string, slots: seq<SlotRow>)
    requires forall k :: 0 <= k < |slots| ==>
      slots[k].state == PASS && History.Eligible(g, slots[k].execution, claim, slots[k].tool)
    ensures RereadSlots(g, claim, slots) == SlotFold(slots, 0, true)
  {
    if slots != [] {
      EligibleSlotStays(g, claim, slots[0]);
      EligibleSlotsStay(g, claim, slots[1..]);
      hide RereadSlot;
      assert slots == [slots[0]] + slots[1..];
    }
  }

  lemma DischargedRowStays(g: seq<History.Event>, canonical: string -> seq<string>, row: Row)
    requires row.inPolicy && row.result == Passed
    requires forall k :: 0 <= k < |row.slots| ==>
      row.slots[k].state == PASS && History.Eligible(g, row.slots[k].execution, row.claim, row.slots[k].tool)
    ensures RereadRow(g, canonical, row) == (row, true)
  {
    EligibleSlotsStay(g, row.claim, row.slots);
    hide RereadSlots;
    hide History.Eligible;
  }

  /** The row of a discharged claim passes after both reads. */
  lemma DischargedRowPasses(input: Input, i: nat)
    requires !Stopped(input) && i < |input.claims| && ClaimDischarged(input, input.claims[i])
    ensures |LastRows(input).rows| == |input.claims| + |input.outside|
    ensures LastRows(input).rows[i].result == Passed && LastRows(input).rows[i].claim == input.claims[i].claim
  {
    var h, c, rows := input.first.events, input.claims[i], FirstRows(input);
    FirstRowsLength(input);
    FoldClaimsSpec(h, input.captured, input.claims, i);
    assert forall k :: 0 <= k < |c.slots| ==> Supported(h, input.captured, c.claim, c.slots[k]);
    DischargedFirst(h, input.captured, c);
    assert rows[i] == FoldClaim(h, input.captured, c).row;
    if SecondPass(input) {
      var g := input.second.value.events;
      DischargedRowStays(g, input.canonical, rows[i]);
      RereadRowIs(g, input.canonical, rows, i);
      hide *;
      LastRowsAre(input);
    } else {
      hide FoldClaims;
      hide FirstRows;
    }
  }

  lemma LastRowsAre(input: Input)
    requires input.second.Ok?
    ensures LastRows(input).rows ==
            if input.second.value.refs == input.first.refs then FirstRows(input)
            else RereadRows(input.second.value.events, input.canonical, FirstRows(input)).rows
    ensures |LastRows(input).rows| == |FirstRows(input)|
    ensures SecondPass(input) ==> input.second.value.refs != input.first.refs
  {
    hide FirstRows;
    hide RereadRows;
  }

  // ---- the exit code ---------------------------------------------------

  /** Each claim has one row: the records are a dictionary, and the other rows are the required claims not in it. */
  ghost predicate OneRowEach(input: Input) {
    && (forall i, j :: 0 <= i < j < |input.claims| ==> input.claims[i].claim != input.claims[j].claim)
    && (forall i, j :: 0 <= i < |input.claims| && 0 <= j < |input.outside| ==>
          input.claims[i].claim != input.outside[j])
  }

  ghost predicate Leaves(deps: string -> seq<string>) {
    forall c, d :: d in deps(c) ==> deps(d) == []
  }

  /** Every required claim and every dependency of one is discharged. */
  ghost predicate AllDischarged(input: Input)
    requires input.second.Ok?
  {
    forall c :: c in input.required ==> Discharged(input, c) && forall d :: d in input.deps(c) ==> Discharged(input, d)
  }

  /** The run reports an error somewhere, beside what it fails. */
  ghost predicate ReportsError(input: Input)
    requires !Stopped(input)
  {
    || input.other > 0 || input.first.errors > 0 || input.second.value.errors > 0
    || !AllClean(input.first.events, input.captured, input.claims)
    || input.run == ERROR || input.preflight == ERROR
  }

  lemma DischargedStands(input: Input, claim: string)
    requires !Stopped(input) && Discharged(input, claim)
    ensures Stands(LastRows(input).rows, claim)
  {
    var i :| 0 <= i < |input.claims| && input.claims[i].claim == claim && ClaimDischarged(input, input.claims[i]);
    DischargedRowPasses(input, i);
    hide LastRows;
    hide ClaimDischarged;
    hide Stopped;
  }

  /** With one row for each claim, a required row after both reads passes if its claim is discharged. */
  lemma RequiredRowPasses(input: Input, i: nat)
    requires !Stopped(input) && OneRowEach(input) && i < |LastRows(input).rows|
    requires Discharged(input, LastRows(input).rows[i].claim)
    ensures LastRows(input).rows[i].result == Passed
  {
    hide LastRows;
    hide ClaimDischarged;
    var claim := LastRows(input).rows[i].claim;
    var k :| 0 <= k < |input.claims| && input.claims[k].claim == claim && ClaimDischarged(input, input.claims[k]);
    hide Stopped;
    DischargedRowPasses(input, k);
    LastRowClaims(input);
  }

  lemma LastRowClaims(input: Input)
    requires !Stopped(input)
    ensures |LastRows(input).rows| == |input.claims| + |input.outside|
    ensures forall i :: 0 <= i < |input.claims| ==> LastRows(input).rows[i].claim == input.claims[i].claim
    ensures forall i :: |input.claims| <= i < |input.claims| + |input.outside| ==>
              LastRows(input).rows[i].claim == input.outside[i - |input.claims|]
  {
    FirstRowsLength(input);
    FirstRowsSpec(input);
    SecondReadOnlyWorsens(input.second.value.events, input.canonical, FirstRows(input));
    LastRowsAre(input);
    hide FirstRows;
    hide RereadRows;
    hide LastRows;
  }

  /** The rows a finished run ends with. */
  ghost function FinalRows(input: Input): (r: seq<Row>)
    requires !Stopped(input)
    ensures |r| == |LastRows(input).rows|
  {
    Propagate(LastRows(input).rows, input.deps, 0)
  }

  /** Every required row of a finished run passes exactly if every required claim and dependency is discharged. */
  lemma AllPassIffDischarged(input: Input)
    requires !Stopped(input) && OneRowEach(input) && RowsCover(input) && Leaves(input.deps)
    requires ReadsAgree(input) && input.first.errors == 0 && input.second.value.errors == 0
    ensures AllDischarged(input) <==>
      forall i :: 0 <= i < |FinalRows(input)| && FinalRows(input)[i].claim in input.required ==>
        FinalRows(input)[i].result == Passed
  {
    var again, final := LastRows(input).rows, FinalRows(input);
    PropagationExact(again, input.deps, 0);
    PropagationOnlyLowers(again, input.deps, 0);
    if AllDischarged(input) {
      forall i | 0 <= i < |final| && final[i].claim in input.required ensures final[i].result == Passed {
        RequiredRowPasses(input, i);
        forall d | d in input.deps(again[i].claim) ensures Stands(again, d) {
          DischargedStands(input, d);
        }
        assert StandAll(again, input.deps(again[i].claim));
      }
    } else {
      var c :| c in input.required
        && !(Discharged(input, c) && forall d :: d in input.deps(c) ==> Discharged(input, d));
      var i := RequiredRow(input, c);
      LastRowClaims(input);
      RowClaim(input, i, c);
      if final[i].result == Passed {
        PassedIsDischarged(input, i, c);
      }
    }
  }

  lemma RowClaim(input: Input, i: nat, c: string)
    requires !Stopped(input) && i < |FirstRows(input)| && FirstRows(input)[i].claim == c
    ensures i < |LastRows(input).rows| && LastRows(input).rows[i].claim == c
  {
    FirstRowsSpec(input);
    SecondReadOnlyWorsens(input.second.value.events, input.canonical, FirstRows(input));
    LastRowsAre(input);
    hide FirstRows;
    hide RereadRows;
    hide LastRows;
  }

  lemma PassedIsDischarged(input: Input, i: nat, c: string)
    requires !Stopped(input) && Leaves(input.deps)
    requires ReadsAgree(input) && input.first.errors == 0 && input.second.value.errors == 0
    requires i < |LastRows(input).rows| && LastRows(input).rows[i].claim == c && FinalRows(input)[i].result == Passed
    ensures Discharged(input, c) && forall d :: d in input.deps(c) ==> Discharged(input, d)
  {
    var m := PassesThroughPropagation(input, i, c);
    PassingRowIsDischarged(input, m);
    assert Discharged(input, c);
    forall d | d in input.deps(c) ensures Discharged(input, d) {
      var n := PassesThroughPropagation(input, i, d);
      PassingRowIsDischarged(input, n);
    }
  }

  /** The code of a finished run, from its final rows and errors. */
  lemma FinishedRunCode(input: Input)
    requires !input.early && !Stopped(input)
    ensures var final := FinalRows(input);
      Assess(input).code ==
      if input.drift then Salvage(final, input.required).code
      else if RequiredFails(final, input.required) then 1
      else if ReportsError(input) then 2
      else if input.required == {} || input.run == CANCELLED
              || exists i :: 0 <= i < |final| && final[i].claim in input.required && final[i].result != Passed then 3
      else 0
  {
    RunUnfolds(input);
    ErrorsIff(input);
    VerdictUnfolds(input, FinalRows(input), ErrorCount(input));
    hide *;
  }

  /** The errors a finished run has counted. */
  ghost function ErrorCount(input: Input): nat
    requires !Stopped(input)
  {
    input.other + input.first.errors + input.second.value.errors
    + FoldClaims(input.first.events, input.captured, input.claims).errors
  }

  lemma ErrorsIff(input: Input)
    requires !Stopped(input)
    ensures ReportsError(input) <==> ErrorCount(input) > 0 || input.run.ERROR? || input.preflight.ERROR?
  {
    FoldErrors(input.first.events, input.captured, input.claims);
    hide FoldClaims;
    hide AllClean;
    hide LastRows;
  }

  lemma VerdictUnfolds(input: Input, rows: seq<Row>, errors: nat)
    ensures Verdict(input, rows, errors) ==
      if RequiredFails(rows, input.required) then 1
      else if errors > 0 || input.run.ERROR? || input.preflight.ERROR? then 2
      else if input.required == {} || input.run == CANCELLED
              || exists i :: 0 <= i < |rows| && rows[i].claim in input.required && rows[i].result != Passed then 3
      else 0
  {
    hide RequiredFails;
  }

  /** A run that nothing stops early ends in the salvage handler or in the verdict on its final rows. */
  lemma RunUnfolds(input: Input)
    requires !input.early && !Stopped(input)
    ensures FoldClaims(input.first.events, input.captured, input.claims).ok
    ensures var final := FinalRows(input);
      Assess(input).code ==
      if input.drift then Salvage(final, input.required).code
      else Verdict(input, final, ErrorCount(input))
  {
    hide FoldClaims;
    hide OutsideRows;
    hide Salvage;
    hide Verdict;
    hide RereadRows;
    hide Propagate;
  }

  /**
   1 for a failure that one of the passes or a history shows, else 2 for a stop,
   drift or any error, else 0 if the run was not cancelled and something is
   required and all of it is discharged with its dependencies, else 3.
   */
  ghost function CodeOf(input: Input): nat {
    if !input.early && (PolicyFails(input) || PolicyFailsAgain(input) || OutsideFails(input, OutsideEvents(input))) then
      1
    else if input.early || Stopped(input) || input.drift || ReportsError(input) then 2
    else if input.required != {} && input.run != CANCELLED && AllDischarged(input) then 0
    else 3
  }

  /** The exit code of every run, given that equal references were read to equal events. */
  lemma ExitCode(input: Input)
    requires OneRowEach(input) && RowsCover(input) && Leaves(input.deps) && ReadsAgree(input)
    ensures Assess(input).code == CodeOf(input)
  {
    if input.early {
      EarlyRunIsError(input);
    } else {
      FailedIff(input);
      CodeByRows(input);
      if !Stopped(input) {
        FinishedRunCode(input);
        DriftCode(input);
        if !ReportsError(input) {
          AllPassIffDischarged(input);
        }
        hide Assess;
        hide FinalRows;
        hide ReportsError;
        hide Stopped;
        hide AllDischarged;
        hide PolicyFails;
        hide PolicyFailsAgain;
        hide OutsideFails;
      }
    }
  }

  /** So it is for any two reads of stores that the digest tells apart, and the dependencies of a loaded manifest. */
  lemma ExitCodeOfStores(
      input: Input, v: Records.Value, rd: History.Reader, other: History.Reader, s: seq<Bytes>, t: seq<Bytes>,
      captured: History.View, index: Option<seq<History.Attempt>>, later: Option<seq<History.Attempt>>)
    requires ReadFrom(input, rd, other, s, t, captured, index, later) && History.CollisionFree(rd, s, t)
    requires Manifests.LoadManifest(v).Ok? && input.deps == DependenciesOf(Manifests.LoadManifest(v).value)
    requires OneRowEach(input) && RowsCover(input)
    ensures Assess(input).code == CodeOf(input)
  {
    ReadsFromStoresAgree(input, rd, other, s, t, captured, index, later);
    forall c, d | d in input.deps(c) ensures input.deps(d) == [] {
      ManifestDependenciesAreLeaves(v, c, d);
    }
    assert Leaves(input.deps);
    hide *;
    ExitCode(input);
  }

  /** What the first pass shows as FAIL, slot by slot. */
  lemma ShownFailIff(input: Input, i: nat, k: nat)
    requires i < |input.claims| && k < |input.claims[i].slots|
    ensures ShownFail(input, i, k) <==>
      var h, claim, x := input.first.events, input.claims[i].claim, Readable(input.claims[i])[k];
      && Reached(input, i, k)
      && (|| Condemned(h, claim, x)
          || (ArtifactIs(h, input.captured, claim, x, FAIL) && x.saved.value.state == FAIL && !Blocked(h, claim, x))
          || (UpToRecheck(h, input.captured, claim, x) && x.checks.recheck == Rechecked(FAIL)))
  {
    var h, claim, x := input.first.events, input.claims[i].claim, Readable(input.claims[i])[k];
    JudgedIff(h, input.captured, claim, x);
    if Judge(h, input.captured, claim, x).Ok? {
      SlotFailsIff(h, input.captured, claim, x);
    }
    hide Judge;
    hide Condemned;
    hide ArtifactIs;
    hide UpToRecheck;
    hide Blocked;
  }

  // ---- captured barriers and confirmations, on the fields of events -----

  /** The barriers a run had captured are the sequence numbers up to its view of what shuts the association out. */
  lemma CapturedIff(h: seq<History.Event>, captured: nat, claim: string, tool: string, n: nat)
    ensures n in CapturedBlockers(h, captured, claim, tool) <==>
      exists e :: e in h && e.sequence == n && n <= captured && History.Shuts(e, claim, tool)
  {
    var kept := History.Where(h, (e: History.Event) => e.sequence <= captured && History.Barrier(e, claim, tool));
    if n in CapturedBlockers(h, captured, claim, tool) {
      var i :| 0 <= i < |kept| && Sequences(kept)[i] == n;
      assert kept[i] in kept;
      History.EventForms(kept[i], None, claim, tool);
    }
    if e :| e in h && e.sequence == n && n <= captured && History.Shuts(e, claim, tool) {
      History.EventForms(e, None, claim, tool);
      assert e in kept;
      var i :| 0 <= i < |kept| && kept[i] == e;
      assert Sequences(kept)[i] == n;
    }
  }

  /** They are listed in order. */
  lemma {:induction false} CapturedRise(h: seq<History.Event>, keep: History.Event -> bool)
    requires History.Ordered(h)
    ensures History.Ordered(History.Where(h, keep))
  {
    if h != [] {
      assert History.Ordered(h[1..]);
      CapturedRise(h[1..], keep);
      var rest := History.Where(h[1..], keep);
      forall j | 0 <= j < |rest| ensures rest[j].sequence > h[0].sequence {
        assert rest[j] in rest;
        var k :| 0 <= k < |h[1..]| && h[1..][k] == rest[j];
        assert h[k + 1] == rest[j];
      }
    }
  }

  lemma PassIsSuccess(h: seq<History.Event>, execution: Option<Ref>, i: nat)
    requires i < |h| && History.IsPass(h[i], execution)
    ensures h[i] in History.Successes(h, execution)
  {
    History.EventForms(h[i], execution, "", "");
  }

  lemma ObservedIs(h: seq<History.Event>, execution: Option<Ref>, claim: string, tool: string)
    requires History.Eligibility(h, execution, claim, tool).Ok? && History.Successes(h, execution) != []
    ensures var pass := History.Successes(h, execution)[0];
      && (forall p :: p in History.Successes(h, execution) ==> p == pass)
      && forall e :: e in History.Eligibility(h, execution, claim, tool).value.observed <==>
           e in h && History.Confirms(e, execution, claim, tool) && e.sequence > pass.sequence
  {
    hide History.Where;
    hide History.Blockers;
    hide History.Confirms;
  }

  /** The confirmations an eligible execution has are the ones after its PASS. */
  lemma ConfirmedIff(
      h: seq<History.Event>, execution: Option<Ref>, claim: string, tool: string, i: nat, e: History.Event)
    requires History.Ordered(h) && i < |h| && History.IsPass(h[i], execution)
    requires History.Eligibility(h, execution, claim, tool).Ok?
    ensures e in History.Eligibility(h, execution, claim, tool).value.observed <==>
      exists j :: i < j < |h| && h[j] == e && History.IsConfirmation(e, execution, claim, tool)
  {
    History.EventForms(e, execution, claim, tool);
    PassIsSuccess(h, execution, i);
    ObservedIs(h, execution, claim, tool);
    hide History.Successes;
    hide History.Eligibility;
    if e in h && e.sequence > h[i].sequence {
      var j :| 0 <= j < |h| && h[j] == e;
      assert i < j;
    }
    if j :| i < j < |h| && h[j] == e && History.IsConfirmation(e, execution, claim, tool) {
      assert h[j].sequence > h[i].sequence;
    }
    hide History.IsConfirmation;
    hide History.Confirms;
  }

  lemma DriftCode(input: Input)
    requires !Stopped(input)
    ensures Salvage(FinalRows(input), input.required).code in {1, 2}
  {
    hide Stopped;
  }
}
