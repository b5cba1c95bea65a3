/**
 Which recorded failures reach the verdict of a v4 assessment, and what can
 hide them: a raise in one of the two passes over the rows, and a second read
 that lost events.
 */
module Failures {
  import opened Basics
  import opened A = Assess
  import History
  import R = Receipts

  // ---- slots that are judged -------------------------------------------

  /** The slot body never turns a remaining FAIL barrier into anything else. */
  lemma PhysicalFailureSticks(h: seq<History.Event>, captured: nat, claim: string, x: SlotInput)
    requires Judge(h, captured, claim, x).Ok?
    requires AnyFail(History.Eligibility(h, SavedExecution(x), claim, x.tool).value.remaining)
    ensures Judge(h, captured, claim, x).value.state == FAIL
  {
    History.RemainingExactly(h, SavedExecution(x), claim, x.tool);
  }

  /** A recorded failure stands against the execution: nothing later answers it. */
  ghost predicate Unanswered(h: seq<History.Event>, claim: string, tool: string, execution: Option<Ref>) {
    History.Fails(h, claim, tool) && !History.Eligible(h, execution, claim, tool)
  }

  ghost predicate Condemned(h: seq<History.Event>, claim: string, x: SlotInput) {
    Unanswered(h, claim, x.tool, SavedExecution(x))
  }

  lemma RemainingFails(h: seq<History.Event>, claim: string, tool: string, execution: Option<Ref>)
    requires History.Eligibility(h, execution, claim, tool).Ok?
    ensures AnyFail(History.Eligibility(h, execution, claim, tool).value.remaining) <==>
            Unanswered(h, claim, tool, execution)
  {
    History.RemainingExactly(h, execution, claim, tool);
    var s := History.Eligibility(h, execution, claim, tool).value;
    if e :| e in h && e.result.FAIL? && History.Applicable(e, claim, tool) {
      assert e in s.blocking;
    }
  }

  lemma CondemnedFails(h: seq<History.Event>, captured: nat, claim: string, x: SlotInput)
    requires Condemned(h, claim, x) && Judge(h, captured, claim, x).Ok?
    ensures Judge(h, captured, claim, x).value.state == FAIL
  {
    RemainingFails(h, claim, x.tool, SavedExecution(x));
    PhysicalFailureSticks(h, captured, claim, x);
  }

  /** None of the first `n` slots cites an execution with two recorded PASSes. */
  ghost predicate ClearSlots(h: seq<History.Event>, ins: seq<SlotInput>, n: nat)
    requires n <= |ins|
  {
    forall k :: 0 <= k < n ==> !History.Doubled(h, SavedExecution(ins[k]))
  }

  ghost predicate ClearClaims(h: seq<History.Event>, claims: seq<ClaimInput>, n: nat)
    requires n <= |claims|
  {
    forall i :: 0 <= i < n ==> ClearSlots(h, Readable(claims[i]), |claims[i].slots|)
  }

  /** A pass over the rows gets to slot `k` of claim `i` and past it: no doubled execution is cited up to there. */
  ghost predicate ReachedIn(h: seq<History.Event>, claims: seq<ClaimInput>, i: nat, k: nat)
    requires i < |claims| && k < |claims[i].slots|
  {
    ClearClaims(h, claims, i) && ClearSlots(h, Readable(claims[i]), k + 1)
  }

  /** The first pass gets to the slot. */
  ghost predicate Reached(input: Input, i: nat, k: nat)
    requires i < |input.claims| && k < |input.claims[i].slots|
  {
    ReachedIn(input.first.events, input.claims, i, k)
  }

  lemma JudgedIff(h: seq<History.Event>, captured: nat, claim: string, x: SlotInput)
    ensures Judge(h, captured, claim, x).Ok? <==> !History.Doubled(h, SavedExecution(x))
  {
    History.DuplicateIff(h, SavedExecution(x), claim, x.tool);
  }

  /** A slot shows its judgement if it is reached, and stays as it was if it is not. */
  lemma {:induction false} FoldSlotAt(h: seq<History.Event>, captured: nat, claim: string, ins: seq<SlotInput>, k: nat)
    requires k < |ins|
    ensures ClearSlots(h, ins, k + 1) ==> Judge(h, captured, claim, ins[k]).Ok?
    ensures FoldSlots(h, captured, claim, ins).slots[k] ==
            if ClearSlots(h, ins, k + 1)
            then SlotRow(ins[k].tool, SavedExecution(ins[k]), Judge(h, captured, claim, ins[k]).value.state)
            else SlotRow(ins[k].tool, None, MISSING)
  {
    hide Judge;
    hide History.Doubled;
    JudgedIff(h, captured, claim, ins[0]);
    if k > 0 {
      FoldSlotAt(h, captured, claim, ins[1..], k - 1);
      ClearSplits(h, ins, k + 1);
    } else {
      assert ClearSlots(h, ins, 1) <==> !History.Doubled(h, SavedExecution(ins[0]));
    }
  }

  lemma ClearSplits(h: seq<History.Event>, ins: seq<SlotInput>, n: nat)
    requires 0 < n <= |ins|
    ensures ClearSlots(h, ins, n) <==> !History.Doubled(h, SavedExecution(ins[0])) && ClearSlots(h, ins[1..], n - 1)
  {
    hide History.Doubled;
    if ClearSlots(h, ins[1..], n - 1) && !History.Doubled(h, SavedExecution(ins[0])) {
      forall k | 0 <= k < n ensures !History.Doubled(h, SavedExecution(ins[k])) {
        if k > 0 { assert !History.Doubled(h, SavedExecution(ins[1..][k - 1])); }
      }
    }
  }

  lemma {:induction false} FoldSlotsOkIff(h: seq<History.Event>, captured: nat, claim: string, ins: seq<SlotInput>)
    ensures FoldSlots(h, captured, claim, ins).ok <==> ClearSlots(h, ins, |ins|)
  {
    hide Judge;
    hide History.Doubled;
    if ins != [] {
      JudgedIff(h, captured, claim, ins[0]);
      FoldSlotsOkIff(h, captured, claim, ins[1..]);
      ClearSplits(h, ins, |ins|);
    }
  }

  /** A row is folded if everything before it is clear, and stays untouched if not. */
  lemma {:induction false} FoldRowAt(h: seq<History.Event>, captured: nat, claims: seq<ClaimInput>, i: nat)
    requires i < |claims|
    ensures FoldClaims(h, captured, claims).rows[i] ==
            if ClearClaims(h, claims, i) then FoldClaim(h, captured, claims[i]).row else Untouched(claims[i])
  {
    hide *;
    var c := claims[0];
    ClaimOkIff(h, captured, c);
    FoldClaimsAt(h, captured, claims, i);
    if i == 0 {
      NoneBeforeFirst(h, claims);
    } else {
      FoldRowAt(h, captured, claims[1..], i - 1);
      ClearClaimsSplit(h, claims, i);
      assert claims[1..][i - 1] == claims[i];
    }
  }

  lemma NoneBeforeFirst(h: seq<History.Event>, claims: seq<ClaimInput>)
    ensures ClearClaims(h, claims, 0)
  {
  }

  lemma ClaimOkIff(h: seq<History.Event>, captured: nat, c: ClaimInput)
    ensures FoldClaim(h, captured, c).ok <==> ClearSlots(h, Readable(c), |c.slots|)
  {
    FoldSlotsOkIff(h, captured, c.claim, Readable(c));
  }

  lemma ClearClaimsSplit(h: seq<History.Event>, claims: seq<ClaimInput>, n: nat)
    requires 0 < n <= |claims|
    ensures ClearClaims(h, claims, n) <==>
            ClearSlots(h, Readable(claims[0]), |claims[0].slots|) && ClearClaims(h, claims[1..], n - 1)
  {
    hide ClearSlots;
    if ClearClaims(h, claims[1..], n - 1) && ClearSlots(h, Readable(claims[0]), |claims[0].slots|) {
      forall i | 0 <= i < n ensures ClearSlots(h, Readable(claims[i]), |claims[i].slots|) {
        if i > 0 { assert claims[1..][i - 1] == claims[i]; }
      }
    }
  }

  /** Slot `k` of claim `i` is reached and judged FAIL. */
  ghost predicate ShownFail(input: Input, i: nat, k: nat) {
    && i < |input.claims| && k < |input.claims[i].slots| && Reached(input, i, k)
    && var c := input.claims[i];
       var j := Judge(input.first.events, input.captured, c.claim, Readable(c)[k]);
       j.Ok? && j.value.state == FAIL
  }

  /**
   In the first rows a slot is FAIL exactly when it is reached and judged so, and only such a slot fails a policy
   row.
   */
  lemma FirstSlotFails(input: Input, i: nat, k: nat)
    requires i < |input.claims| && k < |input.claims[i].slots|
    ensures var row := FirstRows(input)[i];
      && row.claim == input.claims[i].claim && row.inPolicy && |row.slots| == |input.claims[i].slots|
      && (row.slots[k].state.FAIL? <==> ShownFail(input, i, k))
      && (ShownFail(input, i, k) && FoldClaim(input.first.events, input.captured, input.claims[i]).ok ==>
            row.result == Failed)
  {
    var h, c := input.first.events, input.claims[i];
    FoldRowAt(h, input.captured, input.claims, i);
    FoldSlotAt(h, input.captured, c.claim, Readable(c), k);
    hide Judge;
    hide FoldClaims;
    hide FoldSlots;
    hide ClearClaims;
    hide ClearSlots;
  }

  lemma FirstRowFails(input: Input, i: nat)
    requires i < |input.claims| && FirstRows(input)[i].result == Failed
    ensures exists k :: ShownFail(input, i, k)
  {
    var h, c := input.first.events, input.claims[i];
    FoldRowAt(h, input.captured, input.claims, i);
    var row := FirstRows(input)[i];
    assert row == FoldClaim(h, input.captured, c).row;
    assert SomeFail(row.slots);
    hide FoldClaims;
    hide FoldSlots;
    hide FoldClaim;
    var k: nat :| k < |row.slots| && row.slots[k].state.FAIL?;
    assert |row.slots| == |c.slots| by { RowLength(h, input.captured, c); }
    FirstSlotFails(input, i, k);
  }

  lemma RowLength(h: seq<History.Event>, captured: nat, c: ClaimInput)
    ensures |FoldClaim(h, captured, c).row.slots| == |c.slots|
  {
  }

  /** Every row is folded exactly when no slot cites a doubled execution. */
  lemma {:induction false} FoldOkIff(h: seq<History.Event>, captured: nat, claims: seq<ClaimInput>)
    ensures FoldClaims(h, captured, claims).ok <==> ClearClaims(h, claims, |claims|)
  {
    if claims != [] {
      var c := claims[0];
      ClaimOkIff(h, captured, c);
      FoldOkIff(h, captured, claims[1..]);
      ClearClaimsSplit(h, claims, |claims|);
      hide FoldClaim;
      hide ClearSlots;
      hide ClearClaims;
      hide Readable;
    }
  }

  /** A required claim has a slot that is reached and judged FAIL. */
  ghost predicate PolicyFails(input: Input) {
    exists i: nat, k: nat :: ShownFail(input, i, k) && input.claims[i].claim in input.required
  }

  /** The history fails a required claim outside the policy. */
  ghost predicate OutsideFails(input: Input, h: seq<History.Event>) {
    exists j :: FailsOutside(input, h, j)
  }

  ghost predicate FailsOutside(input: Input, h: seq<History.Event>, j: nat) {
    && j < |input.outside| && input.outside[j] in input.required
    && OutsideResult(h, input.outside[j], input.canonical(input.outside[j])) == Failed
  }

  ghost predicate RowFails(row: Row) {
    row.result == Failed || SomeFail(row.slots)
  }

  lemma SalvageFailsIff(rows: seq<Row>, required: set<string>)
    ensures Salvage(rows, required).code ==
            if exists i :: 0 <= i < |rows| && rows[i].claim in required && RowFails(rows[i]) then 1 else 2
  {
    hide SomeFail;
    var kept := Salvage(rows, required).rows;
    if i :| 0 <= i < |rows| && rows[i].claim in required && RowFails(rows[i]) {
      assert kept[i].claim in required && kept[i].result == Failed;
    }
    if i :| 0 <= i < |kept| && kept[i].claim in required && kept[i].result == Failed {
      assert RowFails(rows[i]);
    }
  }

  lemma FirstRowsLength(input: Input)
    ensures |FirstRows(input)| == |input.claims| + |input.outside|
    ensures forall j :: 0 <= j < |input.outside| ==>
      FirstRows(input)[|input.claims| + j] ==
      Row(input.outside[j], false, [],
          OutsideResult(input.first.events, input.outside[j], input.canonical(input.outside[j])), false)
  {
    hide FoldClaims;
    hide OutsideResult;
  }

  /**
   Policy rows as the first fold leaves them, stopped or not: they fail exactly by a slot that is reached and judged
   FAIL.
   */
  lemma FirstPolicyRow(input: Input, i: nat)
    requires i < |input.claims|
    ensures |FirstRows(input)| == |input.claims| + |input.outside|
    ensures FirstRows(input)[i].claim == input.claims[i].claim && FirstRows(input)[i].inPolicy
    ensures RowFails(FirstRows(input)[i]) <==> exists k :: ShownFail(input, i, k)
  {
    FirstRowsLength(input);
    var row := FirstRows(input)[i];
    FoldRowAt(input.first.events, input.captured, input.claims, i);
    RowLength(input.first.events, input.captured, input.claims[i]);
    assert row.claim == input.claims[i].claim && row.inPolicy && |row.slots| == |input.claims[i].slots|;
    hide FirstRows;
    hide FoldClaims;
    hide FoldClaim;
    hide ShownFail;
    forall k: nat | k < |row.slots| ensures row.slots[k].state.FAIL? <==> ShownFail(input, i, k) {
      FirstSlotFails(input, i, k);
    }
    if row.result == Failed {
      FirstRowFails(input, i);
    }
    if k: nat :| ShownFail(input, i, k) {
      ShownIsSlot(input, i, k);
      assert row.slots[k].state.FAIL?;
    }
  }

  lemma ShownIsSlot(input: Input, i: nat, k: nat)
    requires ShownFail(input, i, k)
    ensures i < |input.claims| && k < |input.claims[i].slots|
  {
  }

  // ---- the second pass over the rows -----------------------------------

  /** None of the first `n` slots of the row cites a doubled execution. */
  ghost predicate ClearTo(g: seq<History.Event>, slots: seq<SlotRow>, n: nat)
    requires n <= |slots|
  {
    forall k :: 0 <= k < n ==> !History.Doubled(g, slots[k].execution)
  }

  ghost predicate ClearRows(g: seq<History.Event>, rows: seq<Row>, n: nat)
    requires n <= |rows|
  {
    forall i :: 0 <= i < n && rows[i].inPolicy ==> ClearTo(g, rows[i].slots, |rows[i].slots|)
  }

  /** The pass gets to slot `k` of the row and past it, and finds a failure that stands. */
  ghost predicate SlotFails(g: seq<History.Event>, row: Row, k: nat) {
    && k < |row.slots| && ClearTo(g, row.slots, k + 1)
    && Unanswered(g, row.claim, row.slots[k].tool, row.slots[k].execution)
  }

  lemma RereadSlotIff(g: seq<History.Event>, claim: string, s: SlotRow)
    ensures var r := RereadSlot(g, claim, s);
      && (r.Ok? <==> !History.Doubled(g, s.execution))
      && (r.Ok? && Unanswered(g, claim, s.tool, s.execution) ==> r.value.state.FAIL?)
      && (r.Ok? && r.value.state.FAIL? ==> s.state.FAIL? || Unanswered(g, claim, s.tool, s.execution))
  {
    History.DuplicateIff(g, s.execution, claim, s.tool);
    if RereadSlot(g, claim, s).Ok? {
      RemainingFails(g, claim, s.tool, s.execution);
    }
  }

  lemma ClearToSplits(g: seq<History.Event>, slots: seq<SlotRow>, n: nat)
    requires 0 < n <= |slots|
    ensures ClearTo(g, slots, n) <==> !History.Doubled(g, slots[0].execution) && ClearTo(g, slots[1..], n - 1)
  {
    hide History.Doubled;
    if ClearTo(g, slots[1..], n - 1) && !History.Doubled(g, slots[0].execution) {
      forall k | 0 <= k < n ensures !History.Doubled(g, slots[k].execution) {
        if k > 0 { assert !History.Doubled(g, slots[1..][k - 1].execution); }
      }
    }
  }

  lemma RereadSlotsStep(g: seq<History.Event>, claim: string, slots: seq<SlotRow>, k: nat)
    requires k < |slots|
    ensures var r, one, rest :=
        RereadSlots(g, claim, slots), RereadSlot(g, claim, slots[0]), RereadSlots(g, claim, slots[1..]);
      && r.ok == (one.Ok? && rest.ok)
      && r.slots[k] == if one.Err? then slots[k] else if k == 0 then one.value else rest.slots[k - 1]
  {
    hide RereadSlot;
  }

  /** A slot is reread if no doubled execution is cited up to it, and stays as it was if one is. */
  lemma {:induction false} RereadSlotAt(g: seq<History.Event>, claim: string, slots: seq<SlotRow>, k: nat)
    requires k < |slots|
    ensures ClearTo(g, slots, k + 1) ==> RereadSlot(g, claim, slots[k]).Ok?
    ensures RereadSlots(g, claim, slots).slots[k] ==
            if ClearTo(g, slots, k + 1) then RereadSlot(g, claim, slots[k]).value else slots[k]
  {
    hide *;
    RereadSlotIff(g, claim, slots[0]);
    RereadSlotsStep(g, claim, slots, k);
    ClearToSplits(g, slots, k + 1);
    if k > 0 {
      RereadSlotAt(g, claim, slots[1..], k - 1);
      assert slots[1..][k - 1] == slots[k];
    } else {
      NothingBefore(g, slots[1..]);
    }
  }

  lemma NothingBefore(g: seq<History.Event>, slots: seq<SlotRow>)
    ensures ClearTo(g, slots, 0)
  {
  }

  lemma {:induction false} RereadSlotsOkIff(g: seq<History.Event>, claim: string, slots: seq<SlotRow>)
    ensures RereadSlots(g, claim, slots).ok <==> ClearTo(g, slots, |slots|)
  {
    if slots == [] {
      NothingBefore(g, slots);
    } else {
      hide *;
      RereadSlotIff(g, claim, slots[0]);
      RereadSlotsStep(g, claim, slots, 0);
      ClearToSplits(g, slots, |slots|);
      RereadSlotsOkIff(g, claim, slots[1..]);
    }
  }

  /** A failed row of the first pass keeps its result, and a slot it shows as failed makes it one. */
  ghost predicate Settled(row: Row) {
    SomeFail(row.slots) ==> row.result == Failed
  }

  /** A policy row after the second pass, stopped in it or not. */
  lemma RereadRowFails(g: seq<History.Event>, canonical: string -> seq<string>, row: Row)
    requires row.inPolicy && Settled(row)
    ensures var (now, ok) := RereadRow(g, canonical, row);
      && now.claim == row.claim && (ok ==> Settled(now))
      && (ok <==> ClearTo(g, row.slots, |row.slots|))
      && (RowFails(now) <==> RowFails(row) || exists k :: SlotFails(g, row, k))
  {
    var (now, ok) := RereadRow(g, canonical, row);
    RereadSlotsOkIff(g, row.claim, row.slots);
    hide RereadSlots;
    hide ClearTo;
    hide Unanswered;
    forall k: nat | k < |row.slots|
      ensures SlotFails(g, row, k) ==> now.slots[k].state.FAIL?
      ensures now.slots[k].state.FAIL? ==> row.slots[k].state.FAIL? || SlotFails(g, row, k)
    {
      RereadSlotAt(g, row.claim, row.slots, k);
      RereadSlotIff(g, row.claim, row.slots[k]);
    }
    hide RereadSlot;
    if k: nat :| SlotFails(g, row, k) {
      assert now.slots[k].state.FAIL?;
      assert RowFails(now);
    }
    if SomeFail(now.slots) {
      var k: nat :| k < |now.slots| && now.slots[k].state.FAIL?;
      assert row.slots[k].state.FAIL? || SlotFails(g, row, k);
    }
  }

  lemma ClearRowsSplit(g: seq<History.Event>, rows: seq<Row>, n: nat)
    requires 0 < n <= |rows|
    ensures ClearRows(g, rows, n) <==>
            (rows[0].inPolicy ==> ClearTo(g, rows[0].slots, |rows[0].slots|)) && ClearRows(g, rows[1..], n - 1)
  {
    hide ClearTo;
    if ClearRows(g, rows[1..], n - 1) && (rows[0].inPolicy ==> ClearTo(g, rows[0].slots, |rows[0].slots|)) {
      forall i | 0 <= i < n && rows[i].inPolicy ensures ClearTo(g, rows[i].slots, |rows[i].slots|) {
        if i > 0 { assert rows[1..][i - 1] == rows[i]; }
      }
    }
  }

  lemma RereadOkIff(g: seq<History.Event>, canonical: string -> seq<string>, row: Row)
    ensures RereadRow(g, canonical, row).1 <==> (row.inPolicy ==> ClearTo(g, row.slots, |row.slots|))
  {
    RereadSlotsOkIff(g, row.claim, row.slots);
    hide RereadSlots;
    hide ClearTo;
  }

  lemma NoRowBefore(g: seq<History.Event>, rows: seq<Row>)
    ensures ClearRows(g, rows, 0)
  {
  }

  /** A row is reread if everything before it is clear, and stays as it was if not. */
  lemma {:induction false} RereadRowIs(g: seq<History.Event>, canonical: string -> seq<string>, rows: seq<Row>, i: nat)
    requires i < |rows|
    ensures RereadRows(g, canonical, rows).rows[i] ==
            if ClearRows(g, rows, i) then RereadRow(g, canonical, rows[i]).0 else rows[i]
  {
    hide *;
    RereadOkIff(g, canonical, rows[0]);
    RereadRowsAt(g, canonical, rows, i);
    if i > 0 {
      ClearRowsSplit(g, rows, i);
      RereadRowIs(g, canonical, rows[1..], i - 1);
      assert rows[1..][i - 1] == rows[i];
    } else {
      NoRowBefore(g, rows);
    }
  }

  lemma {:induction false} RereadRowsOkIff(g: seq<History.Event>, canonical: string -> seq<string>, rows: seq<Row>)
    ensures RereadRows(g, canonical, rows).ok <==> ClearRows(g, rows, |rows|)
  {
    if rows == [] {
      NoRowBefore(g, rows);
    } else {
      hide *;
      RereadOkIff(g, canonical, rows[0]);
      RereadRowsAt(g, canonical, rows, 0);
      ClearRowsSplit(g, rows, |rows|);
      RereadRowsOkIff(g, canonical, rows[1..]);
    }
  }

  // ---- the two passes over one input -----------------------------------

  /** The rows were folded and the second read gave other references, so the rows are gone over again. */
  predicate SecondPass(input: Input) {
    && FoldClaims(input.first.events, input.captured, input.claims).ok
    && input.second.Ok? && input.second.value.refs != input.first.refs
  }

  /** The second pass gets to slot `k` of claim `i` and finds a failure that stands in the last history. */
  ghost predicate FoundAgain(input: Input, i: nat, k: nat) {
    && SecondPass(input) && i < |input.claims| && k < |input.claims[i].slots|
    && ReachedIn(input.second.value.events, input.claims, i, k)
    && Condemned(input.second.value.events, input.claims[i].claim, Readable(input.claims[i])[k])
  }

  ghost predicate PolicyFailsAgain(input: Input) {
    exists i: nat, k: nat :: FoundAgain(input, i, k) && input.claims[i].claim in input.required
  }

  /** A policy row after the first pass: its slots are the claim's. */
  ghost predicate Carries(row: Row, c: ClaimInput) {
    && row.claim == c.claim && row.inPolicy && Settled(row) && |row.slots| == |c.slots|
    && forall k :: 0 <= k < |c.slots| ==>
         row.slots[k].tool == c.slots[k].tool && row.slots[k].execution == SavedExecution(Readable(c)[k])
  }

  lemma FoldedRowCarries(input: Input, i: nat)
    requires i < |input.claims| && FoldClaims(input.first.events, input.captured, input.claims).ok
    ensures |FirstRows(input)| == |input.claims| + |input.outside|
    ensures Carries(FirstRows(input)[i], input.claims[i])
  {
    var h, c := input.first.events, input.claims[i];
    FirstRowsLength(input);
    FoldClaimsSpec(h, input.captured, input.claims, i);
    assert FirstRows(input)[i] == FoldClaim(h, input.captured, c).row;
    hide FirstRows;
    hide FoldClaims;
    hide Judge;
    forall k | 0 <= k < |c.slots|
      ensures FoldSlots(h, input.captured, c.claim, Readable(c)).slots[k].tool == c.slots[k].tool
      ensures FoldSlots(h, input.captured, c.claim, Readable(c)).slots[k].execution == SavedExecution(Readable(c)[k])
    {
      FoldSlotsSpec(h, input.captured, c.claim, Readable(c), k);
    }
    hide FoldSlots;
  }

  lemma CarriedSlots(g: seq<History.Event>, row: Row, c: ClaimInput, n: nat)
    requires Carries(row, c) && n <= |c.slots|
    ensures ClearTo(g, row.slots, n) <==> ClearSlots(g, Readable(c), n)
  {
    hide History.Doubled;
    hide Readable;
  }

  lemma CarriedSlotFails(g: seq<History.Event>, row: Row, c: ClaimInput, k: nat)
    requires Carries(row, c)
    ensures SlotFails(g, row, k) <==>
      k < |c.slots| && ClearSlots(g, Readable(c), k + 1) && Condemned(g, c.claim, Readable(c)[k])
  {
    if k < |c.slots| {
      CarriedSlots(g, row, c, k + 1);
    }
    hide Unanswered;
    hide ClearTo;
    hide ClearSlots;
  }

  /** The second pass is clear up to claim `i`, in terms of the claims. */
  lemma CarriedRows(input: Input, g: seq<History.Event>, n: nat)
    requires FoldClaims(input.first.events, input.captured, input.claims).ok && n <= |input.claims|
    ensures |FirstRows(input)| == |input.claims| + |input.outside|
    ensures ClearRows(g, FirstRows(input), n) <==> ClearClaims(g, input.claims, n)
  {
    FirstRowsLength(input);
    var rows := FirstRows(input);
    hide FirstRows;
    hide FoldClaims;
    forall i | 0 <= i < n
      ensures rows[i].inPolicy
      ensures ClearTo(g, rows[i].slots, |rows[i].slots|) <==>
              ClearSlots(g, Readable(input.claims[i]), |input.claims[i].slots|)
    {
      FoldedRowCarries(input, i);
      CarriedSlots(g, rows[i], input.claims[i], |input.claims[i].slots|);
    }
    hide ClearTo;
    hide ClearSlots;
    hide Readable;
  }

  /** The second pass goes through exactly when no slot cites an execution doubled in the last history. */
  lemma SecondPassOkIff(input: Input)
    requires SecondPass(input)
    ensures LastRows(input).ok <==> ClearClaims(input.second.value.events, input.claims, |input.claims|)
  {
    var g, rows := input.second.value.events, FirstRows(input);
    FirstRowsLength(input);
    RereadRowsOkIff(g, input.canonical, rows);
    CarriedRows(input, g, |input.claims|);
    OnlyPolicyRowsStop(input, g);
    hide FirstRows;
    hide ClearRows;
    hide RereadRows;
    hide ClearClaims;
    hide FoldClaims;
  }

  lemma OnlyPolicyRowsStop(input: Input, g: seq<History.Event>)
    ensures |FirstRows(input)| == |input.claims| + |input.outside|
    ensures ClearRows(g, FirstRows(input), |FirstRows(input)|) <==> ClearRows(g, FirstRows(input), |input.claims|)
  {
    FirstRowsLength(input);
    var rows := FirstRows(input);
    hide FirstRows;
    hide ClearTo;
    forall i | |input.claims| <= i < |rows| ensures !rows[i].inPolicy {
      var j := i - |input.claims|;
      assert rows[|input.claims| + j].claim == input.outside[j];
    }
  }

  // ---- the rows the code is decided on ---------------------------------

  /** The rows as the run left them before dependencies. */
  function ReportedRows(input: Input): seq<Row> {
    if !FoldClaims(input.first.events, input.captured, input.claims).ok || input.second.Err? then FirstRows(input)
    else LastRows(input).rows
  }

  /** Judging raised in one of the two passes, or the second read did. */
  predicate Stopped(input: Input) {
    || !FoldClaims(input.first.events, input.captured, input.claims).ok
    || input.second.Err?
    || !LastRows(input).ok
  }

  /** The last history in which claims outside the policy were looked up. */
  function OutsideEvents(input: Input): seq<History.Event> {
    if SecondPass(input) && LastRows(input).ok then input.second.value.events else input.first.events
  }

  /** A policy row as reported fails by what the first pass showed or the second one found. */
  lemma ReportedPolicyRow(input: Input, i: nat)
    requires i < |input.claims|
    ensures |ReportedRows(input)| == |input.claims| + |input.outside|
    ensures ReportedRows(input)[i].claim == input.claims[i].claim
    ensures RowFails(ReportedRows(input)[i]) <==>
      (exists k :: ShownFail(input, i, k)) || (exists k :: FoundAgain(input, i, k))
  {
    FirstPolicyRow(input, i);
    hide RowFails;
    hide ShownFail;
    hide FirstRows;
    if SecondPass(input) {
      RereadPolicyRow(input, i);
      assert ReportedRows(input) == RereadRows(input.second.value.events, input.canonical, FirstRows(input)).rows;
    } else {
      assert ReportedRows(input) == FirstRows(input);
      hide SecondPass;
      forall k ensures !FoundAgain(input, i, k) {}
    }
  }

  lemma RereadPolicyRow(input: Input, i: nat)
    requires SecondPass(input) && i < |input.claims|
    ensures |FirstRows(input)| == |input.claims| + |input.outside|
    ensures var row := RereadRows(input.second.value.events, input.canonical, FirstRows(input)).rows[i];
      && row.claim == input.claims[i].claim
      && (RowFails(row) <==> RowFails(FirstRows(input)[i]) || exists k :: FoundAgain(input, i, k))
  {
    var g, rows := input.second.value.events, FirstRows(input);
    FoldedRowCarries(input, i);
    RereadRowIs(g, input.canonical, rows, i);
    CarriedRows(input, g, i);
    RereadRowFails(g, input.canonical, rows[i]);
    forall k: nat ensures SlotFails(g, rows[i], k) && ClearClaims(g, input.claims, i) <==> FoundAgain(input, i, k) {
      CarriedSlotFails(g, rows[i], input.claims[i], k);
      hide ClearClaims;
      hide ClearSlots;
      hide Condemned;
      hide Readable;
      hide FirstRows;
      hide SlotFails;
    }
    hide *;
    assert rows[i].claim == input.claims[i].claim by { CarriesClaim(rows[i], input.claims[i]); }
  }

  lemma CarriesClaim(row: Row, c: ClaimInput)
    requires Carries(row, c)
    ensures row.claim == c.claim && row.inPolicy && Settled(row)
  {
  }

  /** A row outside the policy, as reported. */
  lemma ReportedOutsideRow(input: Input, j: nat)
    requires j < |input.outside|
    ensures |ReportedRows(input)| == |input.claims| + |input.outside|
    ensures var row, claim := ReportedRows(input)[|input.claims| + j], input.outside[j];
      && row.claim == claim && row.slots == []
      && row.result == OutsideResult(OutsideEvents(input), claim, input.canonical(claim))
  {
    hide *;
    FirstOutsideRow(input, j);
    ReportedAre(input);
    if SecondPass(input) {
      RereadOutsideRow(input, |input.claims| + j);
      RereadOutside(input.second.value.events, input.canonical, FirstRows(input)[|input.claims| + j]);
    }
  }

  lemma ReportedAre(input: Input)
    ensures |ReportedRows(input)| == |FirstRows(input)|
    ensures ReportedRows(input) == if SecondPass(input) then LastRows(input).rows else FirstRows(input)
    ensures SecondPass(input) ==> input.second.Ok?
    ensures OutsideEvents(input) ==
            if SecondPass(input) && LastRows(input).ok then input.second.value.events else input.first.events
  {
    hide FirstRows;
    hide FoldClaims;
    hide RereadRows;
  }

  lemma RereadOutside(g: seq<History.Event>, canonical: string -> seq<string>, row: Row)
    requires !row.inPolicy
    ensures RereadRow(g, canonical, row).0 == row.(result := OutsideResult(g, row.claim, canonical(row.claim)))
  {
    hide OutsideResult;
  }

  lemma FirstOutsideRow(input: Input, j: nat)
    requires j < |input.outside|
    ensures |FirstRows(input)| == |input.claims| + |input.outside|
    ensures var row, claim := FirstRows(input)[|input.claims| + j], input.outside[j];
      row == Row(claim, false, [], OutsideResult(input.first.events, claim, input.canonical(claim)), false)
  {
    FirstRowsLength(input);
    hide FirstRows;
  }

  /** The second pass gets to the rows outside the policy exactly if it goes through. */
  lemma RereadOutsideRow(input: Input, i: nat)
    requires SecondPass(input) && |input.claims| <= i < |FirstRows(input)|
    ensures var rows := FirstRows(input);
      LastRows(input).rows[i] ==
      if LastRows(input).ok then RereadRow(input.second.value.events, input.canonical, rows[i]).0 else rows[i]
  {
    var g, rows := input.second.value.events, FirstRows(input);
    RereadRowIs(g, input.canonical, rows, i);
    RereadRowsOkIff(g, input.canonical, rows);
    OnlyPolicyRowsStop(input, g);
    FirstRowsMonotone(g, rows, |input.claims|, i);
    hide ClearRows;
    hide RereadRows;
    hide RereadRow;
    hide FirstRows;
    hide FoldClaims;
  }

  lemma FirstRowsMonotone(g: seq<History.Event>, rows: seq<Row>, n: nat, i: nat)
    requires n <= i <= |rows|
    ensures ClearRows(g, rows, i) ==> ClearRows(g, rows, n)
    ensures ClearRows(g, rows, |rows|) ==> ClearRows(g, rows, i)
  {
  }

  ghost predicate SomeRequiredRowFails(rows: seq<Row>, required: set<string>) {
    exists i :: 0 <= i < |rows| && rows[i].claim in required && RowFails(rows[i])
  }

  /** When neither pass stopped, every reported row with a failed slot is a failed row. */
  lemma FinishedRowsSettle(input: Input)
    requires !Stopped(input)
    ensures forall i :: 0 <= i < |ReportedRows(input)| ==> Settled(ReportedRows(input)[i])
  {
    ReportedLength(input);
    hide *;
    forall i | 0 <= i < |ReportedRows(input)| ensures Settled(ReportedRows(input)[i]) {
      if i < |input.claims| {
        ReportedPolicyRowSettles(input, i);
      } else {
        var j := i - |input.claims|;
        ReportedOutsideRow(input, j);
        assert ReportedRows(input)[|input.claims| + j] == ReportedRows(input)[i];
        NoSlots(ReportedRows(input)[i]);
      }
    }
  }

  lemma NoSlots(row: Row)
    requires row.slots == []
    ensures Settled(row)
  {
  }

  lemma ReportedPolicyRowSettles(input: Input, i: nat)
    requires !Stopped(input) && i < |input.claims|
    ensures |ReportedRows(input)| == |input.claims| + |input.outside| && Settled(ReportedRows(input)[i])
  {
    FoldedRowCarries(input, i);
    CarriesClaim(FirstRows(input)[i], input.claims[i]);
    if SecondPass(input) {
      RereadPolicyRowSettles(input, i);
    }
    hide FirstRows;
    hide FoldClaims;
    hide RereadRows;
    hide Settled;
    hide Carries;
  }

  lemma RereadPolicyRowSettles(input: Input, i: nat)
    requires SecondPass(input) && LastRows(input).ok && i < |input.claims|
    ensures |LastRows(input).rows| == |input.claims| + |input.outside| && Settled(LastRows(input).rows[i])
  {
    var g, rows := input.second.value.events, FirstRows(input);
    FoldedRowCarries(input, i);
    CarriesClaim(rows[i], input.claims[i]);
    RereadRowIs(g, input.canonical, rows, i);
    RereadRowsOkIff(g, input.canonical, rows);
    FirstRowsMonotone(g, rows, i, i);
    RereadOkIff(g, input.canonical, rows[i]);
    RereadRowFails(g, input.canonical, rows[i]);
    hide FirstRows;
    hide RereadRows;
    hide RereadRow;
    hide ClearTo;
    hide Settled;
  }

  lemma SettledRowsFail(rows: seq<Row>, deps: string -> seq<string>, required: set<string>)
    requires forall i :: 0 <= i < |rows| ==> Settled(rows[i])
    ensures var final := Propagate(rows, deps, 0);
      && (RequiredFails(final, required) <==> SomeRequiredRowFails(rows, required))
      && (SomeRequiredRowFails(final, required) <==> SomeRequiredRowFails(rows, required))
  {
    PropagationOnlyLowers(rows, deps, 0);
    var final := Propagate(rows, deps, 0);
    hide Propagate;
    forall i | 0 <= i < |rows|
      ensures final[i].claim == rows[i].claim
      ensures final[i].result == Failed <==> RowFails(rows[i])
      ensures RowFails(final[i]) <==> RowFails(rows[i])
    {
    }
    hide RowFails;
    hide Settled;
  }

  /** The code is 1 exactly when a reported row of a required claim fails; a run that stopped ends with 2 otherwise. */
  lemma CodeByRows(input: Input)
    requires !input.early
    ensures Assess(input).code == 1 <==> SomeRequiredRowFails(ReportedRows(input), input.required)
    ensures Stopped(input) && Assess(input).code != 1 ==> Assess(input).code == 2
  {
    var rows := ReportedRows(input);
    if Stopped(input) {
      assert Assess(input) == Salvage(rows, input.required);
      SalvageFailsIff(rows, input.required);
    } else {
      FinishedRowsSettle(input);
      SettledRowsFail(rows, input.deps, input.required);
      FinishedCode(input);
      SalvageFailsIff(Propagate(rows, input.deps, 0), input.required);
      hide *;
    }
  }

  lemma FinishedCode(input: Input)
    requires !input.early && !Stopped(input)
    ensures var final := Propagate(ReportedRows(input), input.deps, 0);
      Assess(input).code == 1 <==>
        if input.drift then Salvage(final, input.required).code == 1 else RequiredFails(final, input.required)
  {
    hide FoldClaims;
    hide Salvage;
    hide RequiredFails;
    hide RereadRows;
    hide Propagate;
  }

  // ---- the exact condition ---------------------------------------------

  /**
   Of every run: the code is 1 exactly when the first pass shows a required
   claim's slot as FAIL, the second pass finds one with a failure that stands in
   the last history, or the last history in which claims outside the policy were
   looked up fails a required one of them. Each pass finds what it gets to
   before a slot that cites a doubled execution.
   */
  lemma FailedIff(input: Input)
    requires !input.early
    ensures Assess(input).code == 1 <==>
      PolicyFails(input) || PolicyFailsAgain(input) || OutsideFails(input, OutsideEvents(input))
  {
    CodeByRows(input);
    var rows := ReportedRows(input);
    hide Assess;
    hide ReportedRows;
    hide ShownFail;
    hide FoundAgain;
    hide OutsideEvents;
    hide OutsideResult;
    if SomeRequiredRowFails(rows, input.required) {
      var i: nat :| i < |rows| && rows[i].claim in input.required && RowFails(rows[i]);
      FailingRowIsFound(input, i);
    }
    if PolicyFails(input) {
      var i: nat, k: nat :| ShownFail(input, i, k) && input.claims[i].claim in input.required;
      ShownIsSlot(input, i, k);
      ReportedPolicyRow(input, i);
      assert RowFails(rows[i]);
    }
    if PolicyFailsAgain(input) {
      var i: nat, k: nat :| FoundAgain(input, i, k) && input.claims[i].claim in input.required;
      FoundIsSlot(input, i, k);
      ReportedPolicyRow(input, i);
      assert RowFails(rows[i]);
    }
    if OutsideFails(input, OutsideEvents(input)) {
      var j: nat :| FailsOutside(input, OutsideEvents(input), j);
      ReportedOutsideRow(input, j);
      assert RowFails(rows[|input.claims| + j]);
    }
  }

  lemma FoundIsSlot(input: Input, i: nat, k: nat)
    requires FoundAgain(input, i, k)
    ensures i < |input.claims| && k < |input.claims[i].slots|
  {
  }

  lemma FailingRowIsFound(input: Input, i: nat)
    requires i < |ReportedRows(input)| && ReportedRows(input)[i].claim in input.required
    requires RowFails(ReportedRows(input)[i])
    ensures PolicyFails(input) || PolicyFailsAgain(input) || OutsideFails(input, OutsideEvents(input))
  {
    ReportedLength(input);
    hide ReportedRows;
    hide ShownFail;
    hide FoundAgain;
    hide OutsideEvents;
    hide OutsideResult;
    if i < |input.claims| {
      ReportedPolicyRow(input, i);
    } else {
      var j := i - |input.claims|;
      ReportedOutsideRow(input, j);
      assert ReportedRows(input)[|input.claims| + j] == ReportedRows(input)[i];
      assert FailsOutside(input, OutsideEvents(input), j);
    }
  }

  lemma ReportedLength(input: Input)
    ensures |ReportedRows(input)| == |input.claims| + |input.outside|
  {
    FirstRowsLength(input);
    hide FirstRows;
    hide FoldClaims;
    hide RereadRows;
  }

  /** A run that a pass or the second read stopped fails exactly by what it had found until then; else its code is 2. */
  lemma StoppedRunFailsIff(input: Input)
    requires !input.early && Stopped(input)
    ensures Assess(input).code ==
            if PolicyFails(input) || PolicyFailsAgain(input) || OutsideFails(input, input.first.events) then 1 else 2
  {
    FailedIff(input);
    CodeByRows(input);
    hide *;
    assert OutsideEvents(input) == input.first.events by { StoppedOutside(input); }
  }

  lemma StoppedOutside(input: Input)
    requires Stopped(input)
    ensures OutsideEvents(input) == input.first.events
  {
    hide FoldClaims;
    hide LastRows;
  }

  /** A run whose bindings raise before any row is judged has found nothing. */
  lemma EarlyRunIsError(input: Input)
    requires input.early
    ensures Assess(input).code == 2
  {
    SalvageFailsIff(InitialRows(input), input.required);
  }

  /** What stops a run, as its histories show it: a doubled execution cited in one of the passes, or a refused read. */
  lemma StoppedIff(input: Input)
    ensures Stopped(input) <==>
      || !ClearClaims(input.first.events, input.claims, |input.claims|)
      || input.second.Err?
      || (input.second.value.refs != input.first.refs
          && !ClearClaims(input.second.value.events, input.claims, |input.claims|))
  {
    FoldOkIff(input.first.events, input.captured, input.claims);
    if SecondPass(input) {
      SecondPassOkIff(input);
    }
    hide FoldClaims;
    hide ClearClaims;
    hide RereadRows;
  }

  // ---- slots that are condemned ----------------------------------------

  lemma ReachedIsShown(input: Input, i: nat, k: nat)
    requires i < |input.claims| && k < |input.claims[i].slots| && Reached(input, i, k)
    requires Condemned(input.first.events, input.claims[i].claim, Readable(input.claims[i])[k])
    ensures ShownFail(input, i, k)
  {
    var h, c := input.first.events, input.claims[i];
    FoldSlotAt(h, input.captured, c.claim, Readable(c), k);
    CondemnedFails(h, input.captured, c.claim, Readable(c)[k]);
    hide Judge;
    hide Condemned;
    hide FoldSlots;
    hide ClearClaims;
  }

  /**
   A failure that the first pass gets to is never masked: once a required
   claim's slot is condemned and no slot up to it cites a doubled execution,
   the run is FAILED, whatever raises afterwards.
   */
  lemma FailureIsNeverMasked(input: Input, i: nat, k: nat)
    requires !input.early && i < |input.claims| && k < |input.claims[i].slots|
    requires input.claims[i].claim in input.required && Reached(input, i, k)
    requires Condemned(input.first.events, input.claims[i].claim, Readable(input.claims[i])[k])
    ensures Assess(input).code == 1
  {
    ReachedIsShown(input, i, k);
    FailedIff(input);
    hide *;
    assert PolicyFails(input) by { ShownRequired(input, i, k); }
  }

  lemma ShownRequired(input: Input, i: nat, k: nat)
    requires ShownFail(input, i, k) && input.claims[i].claim in input.required
    ensures PolicyFails(input)
  {
    hide ShownFail;
  }

  /** Nor is a failure in the last history that the second pass gets to, whatever stops the pass afterwards. */
  lemma LastFailureIsNeverMasked(input: Input, i: nat, k: nat)
    requires !input.early && SecondPass(input) && i < |input.claims| && k < |input.claims[i].slots|
    requires input.claims[i].claim in input.required && ReachedIn(input.second.value.events, input.claims, i, k)
    requires Condemned(input.second.value.events, input.claims[i].claim, Readable(input.claims[i])[k])
    ensures Assess(input).code == 1
  {
    assert FoundAgain(input, i, k);
    FailedIff(input);
    hide *;
    assert PolicyFailsAgain(input) by { FoundRequired(input, i, k); }
  }

  lemma FoundRequired(input: Input, i: nat, k: nat)
    requires FoundAgain(input, i, k) && input.claims[i].claim in input.required
    ensures PolicyFailsAgain(input)
  {
    hide FoundAgain;
  }

  /** Nothing but slot `k` of claim `i` fails a required claim in the first pass. */
  ghost predicate OnlyFailure(input: Input, i: nat, k: nat) {
    && !OutsideFails(input, input.first.events)
    && forall m: nat, n: nat :: ShownFail(input, m, n) && input.claims[m].claim in input.required ==> m == i && n == k
  }

  /**
   When a condemned slot of a required claim is all that could fail the run in
   its first pass, the run is FAILED exactly if no slot up to it cites a doubled
   execution; a doubled execution cited earlier masks the failure behind an ERROR.
   */
  lemma FailureShowsIffReached(input: Input, i: nat, k: nat)
    requires !input.early && i < |input.claims| && k < |input.claims[i].slots|
    requires input.claims[i].claim in input.required && OnlyFailure(input, i, k)
    requires Condemned(input.first.events, input.claims[i].claim, Readable(input.claims[i])[k])
    ensures Assess(input).code == if Reached(input, i, k) then 1 else 2
  {
    if Reached(input, i, k) {
      FailureIsNeverMasked(input, i, k);
    } else {
      FoldOkIff(input.first.events, input.captured, input.claims);
      NotReachedStops(input.first.events, input.claims, i, k);
      StoppedRunFailsIff(input);
      assert !ShownFail(input, i, k);
      assert !SecondPass(input) && Stopped(input);
      NothingFoundAgain(input);
      hide *;
      NothingElse(input, i, k);
    }
  }

  lemma NothingFoundAgain(input: Input)
    requires !SecondPass(input)
    ensures !PolicyFailsAgain(input)
  {
    hide SecondPass;
  }

  lemma NothingElse(input: Input, i: nat, k: nat)
    requires OnlyFailure(input, i, k) && !ShownFail(input, i, k)
    ensures !PolicyFails(input) && !OutsideFails(input, input.first.events)
  {
    hide ShownFail;
    hide OutsideFails;
  }

  lemma NotReachedStops(h: seq<History.Event>, claims: seq<ClaimInput>, i: nat, k: nat)
    requires i < |claims| && k < |claims[i].slots| && !ReachedIn(h, claims, i, k)
    ensures !ClearClaims(h, claims, |claims|)
  {
    hide History.Doubled;
    hide Readable;
  }

  /** Nothing fails in the first pass, and in the second nothing but slot `k` of claim `i` fails a required claim. */
  ghost predicate OnlyLastFailure(input: Input, i: nat, k: nat) {
    && !PolicyFails(input) && !OutsideFails(input, input.first.events)
    && forall m: nat, n: nat :: FoundAgain(input, m, n) && input.claims[m].claim in input.required ==> m == i && n == k
  }

  /**
   The same of a failure that only the last history holds: it shows exactly if
   no slot up to it cites an execution that the last history has doubled.
   */
  lemma LastFailureShowsIffReached(input: Input, i: nat, k: nat)
    requires !input.early && SecondPass(input) && i < |input.claims| && k < |input.claims[i].slots|
    requires input.claims[i].claim in input.required && OnlyLastFailure(input, i, k)
    requires Condemned(input.second.value.events, input.claims[i].claim, Readable(input.claims[i])[k])
    ensures Assess(input).code == if ReachedIn(input.second.value.events, input.claims, i, k) then 1 else 2
  {
    if ReachedIn(input.second.value.events, input.claims, i, k) {
      LastFailureIsNeverMasked(input, i, k);
    } else {
      SecondPassOkIff(input);
      NotReachedStops(input.second.value.events, input.claims, i, k);
      StoppedRunFailsIff(input);
      assert !FoundAgain(input, i, k);
      hide *;
      NothingElseLast(input, i, k);
    }
  }

  lemma NothingElseLast(input: Input, i: nat, k: nat)
    requires OnlyLastFailure(input, i, k) && !FoundAgain(input, i, k)
    ensures !PolicyFails(input) && !PolicyFailsAgain(input) && !OutsideFails(input, input.first.events)
  {
    hide FoundAgain;
    hide PolicyFails;
    hide OutsideFails;
  }

  // ---- claims outside the policy ---------------------------------------

  /**
   A failure the first read finds outside the policy is not masked either, as
   long as a second read that differs still has every FAIL of the first.
   */
  lemma OutsideFailureIsNeverMasked(input: Input, j: nat)
    requires !input.early && FailsOutside(input, input.first.events, j)
    requires input.second.Ok? && input.second.value.refs != input.first.refs ==>
      History.KeepsFailures(input.first.events, input.second.value.events)
    ensures Assess(input).code == 1
  {
    var claim := input.outside[j];
    if SecondPass(input) {
      OutsideFailureIsKept(input.first.events, input.second.value.events, claim, input.canonical(claim));
    }
    assert FailsOutside(input, OutsideEvents(input), j);
    FailedIff(input);
    hide *;
    assert OutsideFails(input, OutsideEvents(input)) by { SomeOutside(input, OutsideEvents(input), j); }
  }

  lemma SomeOutside(input: Input, h: seq<History.Event>, j: nat)
    requires FailsOutside(input, h, j)
    ensures OutsideFails(input, h)
  {
  }

  /** A FAIL of an event that decides claim `outside[j]`. */
  ghost predicate FailsFor(input: Input, j: nat, e: History.Event)
    requires j < |input.outside|
  {
    var canonical := input.canonical(input.outside[j]);
    e.result.FAIL? && exists t :: (canonical == [] || t in canonical) && History.Applicable(e, input.outside[j], t)
  }

  lemma FailsOutsideBy(input: Input, h: seq<History.Event>, j: nat)
    requires j < |input.outside| && input.outside[j] in input.required
    ensures FailsOutside(input, h, j) <==> exists e :: e in h && FailsFor(input, j, e)
  {
    var claim := input.outside[j];
    var canonical := input.canonical(claim);
    OutsideFailsIff(h, claim, canonical);
    hide OutsideResult;
    if t :| (canonical == [] || t in canonical) && History.Fails(h, claim, t) {
      var e :| e in h && e.result.FAIL? && History.Applicable(e, claim, t);
      assert FailsFor(input, j, e);
    }
    if e :| e in h && FailsFor(input, j, e) {
      var t :| (canonical == [] || t in canonical) && History.Applicable(e, claim, t);
      assert History.Fails(h, claim, t);
    }
  }

  /** What one run's two reads have in common: the reads themselves, and which of the first's FAILs the second has. */
  lemma OneRunKeeps(
      input: Input, rd: History.Reader, other: History.Reader, s: seq<Bytes>, t: seq<Bytes>, captured: History.View,
      index: Option<seq<History.Attempt>>, later: Option<seq<History.Attempt>>)
    requires ReadInOneRun(input, rd, other, s, t, captured, index, later) && History.Agree(s, t) && input.second.Ok?
    ensures input.second.value.refs == input.first.refs <==> |s| == |t|
    ensures forall e :: e in input.first.events && e.result.FAIL? ==>
              (e in input.second.value.events <==> e.sequence <= |t|)
    ensures |s| <= |t| ==> History.KeepsFailures(input.first.events, input.second.value.events)
  {
    assert History.Unchanged(rd.hash, s, t);
    hide History.Read;
    hide History.Remembers;
    History.RememberedIsKept(rd, other, s, t);
    History.RememberedFailures(rd, other, s, t);
  }

  /** A run that reads a store that only grew keeps every FAIL outside the policy, whatever becomes of the receipts. */
  lemma OutsideFailureInGrownStore(
      input: Input, rd: History.Reader, other: History.Reader, store: seq<Bytes>, more: seq<Bytes>,
      captured: History.View, index: Option<seq<History.Attempt>>, later: Option<seq<History.Attempt>>, j: nat)
    requires ReadInOneRun(input, rd, other, store, store + more, captured, index, later)
    requires !input.early && FailsOutside(input, input.first.events, j)
    ensures Assess(input).code == 1
  {
    if input.second.Ok? {
      OneRunKeeps(input, rd, other, store, store + more, captured, index, later);
    }
    hide ReadInOneRun;
    OutsideFailureIsNeverMasked(input, j);
  }

  /**
   The two reads of one run of the code, with nothing assumed of the receipts:
   whatever they hold in the world of each event, and whatever the run comes to
   accept in between, it reads as `ReadInOneRun` says.
   */
  lemma OneRunReads(
      input: Input, r: R.Rules, parse: R.Parse, hash: Bytes -> string, m: R.Memory, w: nat -> R.World, s: seq<Bytes>,
      between: R.Memory, v: nat -> R.World, t: seq<Bytes>, captured: History.View,
      index: Option<seq<History.Attempt>>, later: Option<seq<History.Attempt>>)
    requires R.Extends(R.MemoryAfter(r, m, w, parse, s), between)
    requires History.ReadHistory(R.Judging(r, m, w, parse, hash, s), s, captured, index) == Ok(input.first)
    requires if R.Intact(R.Seen(map[], hash, s), hash, t)
             then History.ReadHistory(R.Judging(r, between, v, parse, hash, t), t, captured, later) == input.second
             else input.second.Err?
    ensures ReadInOneRun(input, R.Judging(r, m, w, parse, hash, s), R.Judging(r, between, v, parse, hash, t), s, t,
                         captured, index, later)
  {
    R.OneRunRemembers(r, parse, hash, m, w, s, between, v, t);
    R.SecondReadIsIntact(hash, s, t);
    hide R.Intact;
    hide R.Seen;
    hide History.Unchanged;
    hide History.ReadHistory;
    hide History.Remembers;
  }

  /** Nothing but the claim `outside[j]` fails the run: no slot in either pass, no other claim outside the policy. */
  ghost predicate OnlyOutsideFailure(input: Input, j: nat) {
    && !PolicyFails(input) && !PolicyFailsAgain(input)
    && forall m: nat :: FailsOutside(input, OutsideEvents(input), m) ==> m == j
  }

  /**
   When a required claim outside the policy is all that fails the run, its FAIL
   reaches the code exactly if the run stops before the rows are final, the
   second read changes nothing, or the second read fails the claim too.
   */
  lemma OutsideFailureShowsIff(input: Input, j: nat)
    requires !input.early && FailsOutside(input, input.first.events, j) && OnlyOutsideFailure(input, j)
    ensures Assess(input).code == 1 <==>
      || Stopped(input)
      || input.second.value.refs == input.first.refs
      || FailsOutside(input, input.second.value.events, j)
  {
    FailedIff(input);
    hide Assess;
    hide FoldClaims;
    hide LastRows;
    hide OutsideResult;
    hide PolicyFails;
    hide PolicyFailsAgain;
    OutsideFailsBy(input, OutsideEvents(input), j);
  }

  lemma OutsideFailsBy(input: Input, h: seq<History.Event>, j: nat)
    requires forall m: nat :: FailsOutside(input, h, m) ==> m == j
    ensures OutsideFails(input, h) <==> FailsOutside(input, h, j)
  {
    hide OutsideResult;
    if FailsOutside(input, h, j) {
      assert OutsideFails(input, h);
    }
  }

  /**
   The same in terms of the files of one run: the FAIL is lost exactly if the
   run goes through, the store has shrunk past every file that fails the claim,
   and nothing the second read newly accepts fails it.
   */
  lemma OutsideFailureShowsInOneRunIff(
      input: Input, rd: History.Reader, other: History.Reader, s: seq<Bytes>, t: seq<Bytes>, captured: History.View,
      index: Option<seq<History.Attempt>>, later: Option<seq<History.Attempt>>, j: nat)
    requires ReadInOneRun(input, rd, other, s, t, captured, index, later) && History.CollisionFree(rd, s, t)
    requires !input.early && FailsOutside(input, input.first.events, j) && OnlyOutsideFailure(input, j)
    ensures Assess(input).code == 1 <==>
      || Stopped(input)
      || (exists e :: e in input.first.events && FailsFor(input, j, e) && e.sequence <= |t|)
      || (exists e :: e in input.second.value.events && e !in input.first.events && FailsFor(input, j, e))
  {
    OutsideFailureShowsIff(input, j);
    if !Stopped(input) {
      assert History.Unchanged(rd.hash, s, t);
      History.UnchangedAgrees(rd, s, t);
      OneRunKeeps(input, rd, other, s, t, captured, index, later);
      FailsOutsideBy(input, input.first.events, j);
      FailsOutsideBy(input, input.second.value.events, j);
      hide *;
      KeptBySome(input, j, |t|, input.second.value.refs == input.first.refs);
    }
  }

  lemma KeptBySome(input: Input, j: nat, n: nat, same: bool)
    requires j < |input.outside| && input.second.Ok?
    requires exists e :: e in input.first.events && FailsFor(input, j, e)
    requires forall e :: e in input.first.events && e.result.FAIL? ==>
               (e in input.second.value.events <==> e.sequence <= n)
    requires same ==> History.KeepsFailures(input.first.events, input.second.value.events)
    ensures same || (exists e :: e in input.second.value.events && FailsFor(input, j, e)) <==>
      || (exists e :: e in input.first.events && FailsFor(input, j, e) && e.sequence <= n)
      || (exists e :: e in input.second.value.events && e !in input.first.events && FailsFor(input, j, e))
  {
  }
}
