/**
 The v4 assessment: slot states folded into claim rows, a second read of the
 history, dependency propagation in place, and the verdict.

 Checks on artifact files are inputs (`Checks`); everything the verdict does
 with their outcomes, and with the history, is modelled.
 */
module Assess {
  import opened Basics
  import History
  import Manifests
  import Records

  type Ref = History.Ref

  datatype Slot = MISSING | PASS | FAIL | ERROR | CANCELLED

  datatype RowResult = Passed | Failed | Incomplete

  datatype SavedSlot = SavedSlot(
    state: Slot, execution: Option<Ref>, observation: Option<Ref>, observed: Slot, blocking: seq<nat>)

  /**
   Outcomes of the checks on one slot's files, in the order they are made.
   `artifact` is the physical result of a well-formed, current execution that
   names this member; `observation` the outcome of a well-formed observation
   receipt; `None` where one of those checks raises. `recheck` is `Off` when
   observations are not rechecked.
   */
  datatype Checks = Checks(
    policy: bool, work: bool, artifact: Option<Slot>, observation: Option<Slot>,
    response: Option<Slot>, rescan: bool, recheck: Recheck)

  datatype Recheck = Off | Raised | Rechecked(result: Slot)

  datatype SlotInput = SlotInput(tool: string, saved: Option<SavedSlot>, checks: Checks)

  /** A policy record: its slots, whether its stored record is well-formed, and the aggregate it stored. */
  datatype ClaimInput = ClaimInput(claim: string, recordOk: bool, stored: RowResult, slots: seq<SlotInput>)

  datatype SlotRow = SlotRow(tool: string, execution: Option<Ref>, state: Slot)

  datatype Row = Row(claim: string, inPolicy: bool, slots: seq<SlotRow>, result: RowResult, gap: bool)

  // ---- one slot --------------------------------------------------------

  predicate AnyFail(events: seq<History.Event>) {
    exists e :: e in events && e.result.FAIL?
  }

  function BarrierState(remaining: seq<History.Event>): Slot
    requires remaining != []
  {
    if remaining[|remaining| - 1].result.CANCELLED? then CANCELLED else ERROR
  }

  function Sequences(events: seq<History.Event>): seq<nat> {
    seq(|events|, i requires 0 <= i < |events| => events[i].sequence)
  }

  /** The barriers the run had captured: those among its first `captured` events. */
  function CapturedBlockers(h: seq<History.Event>, captured: nat, claim: string, tool: string): seq<nat> {
    Sequences(History.Where(h, (e: History.Event) => e.sequence <= captured && History.Barrier(e, claim, tool)))
  }

  datatype Judged = Judged(state: Slot, raised: bool)

  /** The slot body, after its barriers have set `early`. */
  function JudgeSaved(
      saved: SavedSlot, c: Checks, s: History.Standing, captured: seq<nat>, early: Slot, physical: bool): Judged
  {
    var raise := Judged(if physical then FAIL else ERROR, true);
    if !c.policy || saved.blocking != captured || !c.work then raise
    else if saved.execution.None? then
      if (saved.state.PASS? || saved.state.FAIL?) && !physical then raise else Judged(early, false)
    else if c.artifact.None? then raise
    else if c.artifact.value != PASS then
      if saved.state == c.artifact.value || physical then Judged(early, false) else raise
    else if saved.observation.None? || c.observation.None? || c.observation.value != saved.observed then raise
    else if c.observation.value.ERROR? || c.observation.value.CANCELLED? then
      if saved.state != c.observation.value && !physical then raise
      else Judged(if physical then early else c.observation.value, false)
    else if !s.eligible then
      Judged(if physical then early else if s.remaining != [] then BarrierState(s.remaining) else MISSING, false)
    else if !(exists e :: e in s.observed && e.observation == saved.observation) then raise
    else if c.response != Some(PASS) || !c.rescan then raise
    else
      match c.recheck
      case Raised => raise
      case Rechecked(r) => Judged(if r.PASS? then PASS else if r.FAIL? then FAIL else ERROR, false)
      case Off => Judged(PASS, false)
  }

  function Judge(h: seq<History.Event>, captured: nat, claim: string, x: SlotInput)
    : Result<Judged, History.HistoryError>
  {
    var execution := if x.saved.Some? then x.saved.value.execution else None;
    var r := History.Eligibility(h, execution, claim, x.tool);
    if r.Err? then Err(r.error)
    else
      var s := r.value;
      var physical := AnyFail(s.remaining);
      var stored := if x.saved.Some? then x.saved.value.state else MISSING;
      var early := if physical then FAIL else if s.remaining != [] then BarrierState(s.remaining) else stored;
      if x.saved.None? then Ok(Judged(if physical then FAIL else ERROR, true))
      else Ok(JudgeSaved(x.saved.value, x.checks, s, CapturedBlockers(h, captured, claim, x.tool), early, physical))
  }

  /** What it takes for a slot to pass, whatever its record says of itself. */
  ghost predicate Supported(h: seq<History.Event>, captured: nat, claim: string, x: SlotInput) {
    && x.saved.Some? && x.checks.policy && x.checks.work
    && x.saved.value.blocking == CapturedBlockers(h, captured, claim, x.tool)
    && x.saved.value.execution.Some? && x.checks.artifact == Some(PASS)
    && History.Eligible(h, x.saved.value.execution, claim, x.tool)
    && x.saved.value.observation.Some?
    && x.checks.observation == Some(x.saved.value.observed)
    && !x.saved.value.observed.ERROR? && !x.saved.value.observed.CANCELLED?
    && (exists e :: e in History.Eligibility(h, x.saved.value.execution, claim, x.tool).value.observed
                    && e.observation == x.saved.value.observation)
    && x.checks.response == Some(PASS) && x.checks.rescan
    && (x.checks.recheck.Off? || x.checks.recheck == Rechecked(PASS))
  }

  lemma JudgeSavedPasses(
      saved: SavedSlot, c: Checks, s: History.Standing, captured: seq<nat>, early: Slot, physical: bool)
    requires s.eligible ==> s.remaining == []
    requires physical ==> early.FAIL? && s.remaining != []
    requires !physical && s.remaining != [] ==> early.ERROR? || early.CANCELLED?
    requires s.remaining == [] ==> early == saved.state
    ensures JudgeSaved(saved, c, s, captured, early, physical).state.PASS? <==>
      && c.policy && saved.blocking == captured && c.work && saved.execution.Some? && c.artifact == Some(PASS)
      && saved.observation.Some? && c.observation == Some(saved.observed)
      && !saved.observed.ERROR? && !saved.observed.CANCELLED? && s.eligible
      && (exists e :: e in s.observed && e.observation == saved.observation)
      && c.response == Some(PASS) && c.rescan && (c.recheck.Off? || c.recheck == Rechecked(PASS))
  {
  }

  /** No stored PASS leaks: a slot ends PASS exactly when its receipts and the history support it. */
  lemma SlotPassesIff(h: seq<History.Event>, captured: nat, claim: string, x: SlotInput)
    requires Judge(h, captured, claim, x).Ok?
    ensures Judge(h, captured, claim, x).value.state == PASS <==> Supported(h, captured, claim, x)
  {
    var execution := if x.saved.Some? then x.saved.value.execution else None;
    History.RemainingExactly(h, execution, claim, x.tool);
    if x.saved.Some? {
      var s := History.Eligibility(h, execution, claim, x.tool).value;
      var physical := AnyFail(s.remaining);
      var early :=
        if physical then FAIL else if s.remaining != [] then BarrierState(s.remaining) else x.saved.value.state;
      JudgeSavedPasses(x.saved.value, x.checks, s, CapturedBlockers(h, captured, claim, x.tool), early, physical);
    }
  }

  // ---- folding slots into rows -----------------------------------------

  datatype SlotFold = SlotFold(slots: seq<SlotRow>, errors: nat, ok: bool)

  function Unjudged(ins: seq<SlotInput>): (r: seq<SlotRow>)
    ensures |r| == |ins|
  {
    seq(|ins|, i requires 0 <= i < |ins| => SlotRow(ins[i].tool, None, MISSING))
  }

  function SavedExecution(x: SlotInput): Option<Ref> {
    if x.saved.Some? then x.saved.value.execution else None
  }

  /** A malformed record supplies no slots: each is judged as missing. */
  function Readable(c: ClaimInput): (r: seq<SlotInput>)
    ensures |r| == |c.slots|
  {
    if c.recordOk then c.slots
    else seq(|c.slots|, i requires 0 <= i < |c.slots| => c.slots[i].(saved := None))
  }

  /** The slots of one row in order; a duplicate PASS in the history stops the assessment there. */
  function FoldSlots(h: seq<History.Event>, captured: nat, claim: string, ins: seq<SlotInput>): (r: SlotFold)
    ensures |r.slots| == |ins|
  {
    if ins == [] then SlotFold([], 0, true)
    else
      var j := Judge(h, captured, claim, ins[0]);
      if j.Err? then SlotFold(Unjudged(ins), 0, false)
      else
        var rest := FoldSlots(h, captured, claim, ins[1..]);
        SlotFold([SlotRow(ins[0].tool, SavedExecution(ins[0]), j.value.state)] + rest.slots,
                 rest.errors + (if j.value.raised then 1 else 0), rest.ok)
  }

  predicate SomeFail(slots: seq<SlotRow>) {
    exists i :: 0 <= i < |slots| && slots[i].state.FAIL?
  }

  predicate AllPass(slots: seq<SlotRow>) {
    forall i :: 0 <= i < |slots| ==> slots[i].state.PASS?
  }

  /** A row whose record is malformed carries a defect, so it cannot pass. */
  function RowOf(c: ClaimInput, slots: seq<SlotRow>): Row {
    var result :=
      if SomeFail(slots) then Failed
      else if slots != [] && AllPass(slots) && c.recordOk then Passed
      else Incomplete;
    Row(c.claim, true, slots, result, false)
  }

  function SavedAggregate(slots: seq<SlotInput>): RowResult {
    if exists i :: 0 <= i < |slots| && slots[i].saved.Some? && slots[i].saved.value.state.FAIL? then Failed
    else if forall i :: 0 <= i < |slots| ==> slots[i].saved.Some? && slots[i].saved.value.state.PASS? then Passed
    else Incomplete
  }

  /** Errors a row reports beside its slots': a malformed record, or a stored aggregate its slots contradict. */
  function RowErrors(c: ClaimInput): nat {
    if !c.recordOk then 1
    else if c.stored != SavedAggregate(c.slots) && c.stored != Incomplete then 1
    else 0
  }

  function Untouched(c: ClaimInput): Row {
    Row(c.claim, true, Unjudged(c.slots), Incomplete, false)
  }

  function UntouchedRows(claims: seq<ClaimInput>): (r: seq<Row>)
    ensures |r| == |claims|
  {
    seq(|claims|, i requires 0 <= i < |claims| => Untouched(claims[i]))
  }

  datatype Fold = Fold(rows: seq<Row>, errors: nat, ok: bool)

  datatype ClaimFold = ClaimFold(row: Row, errors: nat, ok: bool)

  function FoldClaim(h: seq<History.Event>, captured: nat, c: ClaimInput): ClaimFold {
    var own := FoldSlots(h, captured, c.claim, Readable(c));
    if own.ok then ClaimFold(RowOf(c, own.slots), own.errors + RowErrors(c), true)
    else ClaimFold(Untouched(c).(slots := own.slots), own.errors, false)
  }

  function FoldClaims(h: seq<History.Event>, captured: nat, claims: seq<ClaimInput>): (r: Fold)
    ensures |r.rows| == |claims|
  {
    if claims == [] then Fold([], 0, true)
    else
      var one := FoldClaim(h, captured, claims[0]);
      if !one.ok then Fold([one.row] + UntouchedRows(claims[1..]), one.errors, false)
      else
        var rest := FoldClaims(h, captured, claims[1..]);
        Fold([one.row] + rest.rows, one.errors + rest.errors, rest.ok)
  }

  lemma FoldClaimsAt(h: seq<History.Event>, captured: nat, claims: seq<ClaimInput>, i: nat)
    requires i < |claims|
    ensures FoldClaims(h, captured, claims).rows[i] ==
            if i == 0 then FoldClaim(h, captured, claims[0]).row
            else if FoldClaim(h, captured, claims[0]).ok then FoldClaims(h, captured, claims[1..]).rows[i - 1]
            else Untouched(claims[i])
  {
    hide FoldClaim;
    hide Untouched;
  }

  // ---- the second read -------------------------------------------------

  /** One slot against the latest history: it can only lose its PASS. */
  function RereadSlot(h: seq<History.Event>, claim: string, s: SlotRow): Result<SlotRow, History.HistoryError> {
    var r := History.Eligibility(h, s.execution, claim, s.tool);
    if r.Err? then Err(r.error)
    else if AnyFail(r.value.remaining) then Ok(s.(state := FAIL))
    else if r.value.remaining != [] then Ok(s.(state := BarrierState(r.value.remaining)))
    else if !r.value.eligible && s.state.PASS? then Ok(s.(state := MISSING))
    else Ok(s)
  }

  function RereadSlots(h: seq<History.Event>, claim: string, slots: seq<SlotRow>): (r: SlotFold)
    ensures |r.slots| == |slots|
  {
    if slots == [] then SlotFold([], 0, true)
    else
      var one := RereadSlot(h, claim, slots[0]);
      if one.Err? then SlotFold(slots, 0, false)
      else
        var rest := RereadSlots(h, claim, slots[1..]);
        SlotFold([one.value] + rest.slots, 0, rest.ok)
  }

  /** The row result after its slots were reread: a FAIL stays, a PASS needs every slot to keep its PASS. */
  function RereadResult(was: RowResult, slots: seq<SlotRow>): RowResult {
    if SomeFail(slots) then Failed
    else if !AllPass(slots) && was == Passed then Incomplete
    else was
  }

  /** A claim outside the policy, by its canonical tools or else by those the history mentions. */
  function OutsideResult(h: seq<History.Event>, claim: string, canonical: seq<string>): RowResult {
    var tools := if canonical != [] then set t | t in canonical else History.MentionedTools(h, claim);
    if exists t :: t in tools && History.Fails(h, claim, t) then Failed else Incomplete
  }

  function RereadRow(h: seq<History.Event>, canonical: string -> seq<string>, row: Row): (Row, bool) {
    if !row.inPolicy then (row.(result := OutsideResult(h, row.claim, canonical(row.claim))), true)
    else
      var f := RereadSlots(h, row.claim, row.slots);
      if f.ok then (row.(slots := f.slots, result := RereadResult(row.result, f.slots)), true)
      else (row.(slots := f.slots), false)
  }

  function RereadRows(h: seq<History.Event>, canonical: string -> seq<string>, rows: seq<Row>): (r: Fold)
    ensures |r.rows| == |rows|
  {
    if rows == [] then Fold([], 0, true)
    else
      var (row, ok) := RereadRow(h, canonical, rows[0]);
      if !ok then Fold([row] + rows[1..], 0, false)
      else
        var rest := RereadRows(h, canonical, rows[1..]);
        Fold([row] + rest.rows, 0, rest.ok)
  }

  /** Second row against the first: no slot or row rose to PASS, and a policy row kept its FAIL. */
  ghost predicate OnlyWorse(was: Row, now: Row) {
    && now.claim == was.claim && now.inPolicy == was.inPolicy && |now.slots| == |was.slots|
    && (forall k :: 0 <= k < |now.slots| ==>
          now.slots[k].tool == was.slots[k].tool && now.slots[k].execution == was.slots[k].execution
          && (now.slots[k].state.PASS? ==> was.slots[k].state.PASS?))
    && (now.result == Passed ==> was.result == Passed && AllPass(now.slots))
    && (was.inPolicy && was.result == Failed ==> now.result == Failed)
  }

  lemma RereadSlotSpec(h: seq<History.Event>, claim: string, s: SlotRow)
    requires RereadSlot(h, claim, s).Ok?
    ensures var r := RereadSlot(h, claim, s).value;
      && r.tool == s.tool && r.execution == s.execution
      && (r.state.PASS? ==> s.state.PASS? && History.Eligible(h, s.execution, claim, s.tool))
  {
  }

  lemma {:induction false} RereadSlotsOnlyWorsen(h: seq<History.Event>, claim: string, slots: seq<SlotRow>)
    ensures var r := RereadSlots(h, claim, slots);
      && (forall k :: 0 <= k < |slots| ==>
            r.slots[k].tool == slots[k].tool && r.slots[k].execution == slots[k].execution
            && (r.slots[k].state.PASS? ==> slots[k].state.PASS?))
      && (r.ok ==> forall k :: 0 <= k < |slots| && r.slots[k].state.PASS? ==>
            History.Eligible(h, slots[k].execution, claim, slots[k].tool))
  {
    if slots != [] && RereadSlot(h, claim, slots[0]).Ok? {
      RereadSlotSpec(h, claim, slots[0]);
      RereadSlotsOnlyWorsen(h, claim, slots[1..]);
    }
  }

  /** Every passing slot of the row is eligible in `h`. */
  ghost predicate StillEligible(h: seq<History.Event>, row: Row) {
    forall k :: 0 <= k < |row.slots| && row.slots[k].state.PASS? ==>
      History.Eligible(h, row.slots[k].execution, row.claim, row.slots[k].tool)
  }

  lemma RereadOnlyWorsens(h: seq<History.Event>, canonical: string -> seq<string>, row: Row)
    requires row.result == Passed ==> row.inPolicy && AllPass(row.slots)
    ensures var (now, ok) := RereadRow(h, canonical, row);
      && (ok ==> OnlyWorse(row, now) && (row.inPolicy ==> StillEligible(h, now)))
      && now.claim == row.claim && (row.inPolicy && row.result == Failed ==> now.result == Failed)
  {
    RereadSlotsOnlyWorsen(h, row.claim, row.slots);
    hide RereadSlots;
    hide History.Eligible;
    hide History.Fails;
  }

  lemma RereadRowsAt(h: seq<History.Event>, canonical: string -> seq<string>, rows: seq<Row>, i: nat)
    requires i < |rows|
    ensures var r, (first, ok) := RereadRows(h, canonical, rows), RereadRow(h, canonical, rows[0]);
      var rest := RereadRows(h, canonical, rows[1..]);
      && r.ok == (ok && rest.ok)
      && r.rows[i] == if i == 0 then first else if ok then rest.rows[i - 1] else rows[i]
  {
    hide RereadRow;
  }

  lemma {:induction false} SecondReadOnlyWorsens(
      h: seq<History.Event>, canonical: string -> seq<string>, rows: seq<Row>)
    requires forall i :: 0 <= i < |rows| ==> rows[i].result == Passed ==> rows[i].inPolicy && AllPass(rows[i].slots)
    ensures var r := RereadRows(h, canonical, rows);
      && (forall i :: 0 <= i < |rows| && r.ok ==> OnlyWorse(rows[i], r.rows[i]))
      && (forall i :: 0 <= i < |rows| && r.ok && rows[i].inPolicy ==> StillEligible(h, r.rows[i]))
      && (forall i :: 0 <= i < |rows| ==>
            && r.rows[i].claim == rows[i].claim
            && (rows[i].inPolicy && rows[i].result == Failed ==> r.rows[i].result == Failed))
  {
    if rows != [] {
      RereadOnlyWorsens(h, canonical, rows[0]);
      SecondReadOnlyWorsens(h, canonical, rows[1..]);
      hide *;
      forall i | 0 <= i < |rows|
        ensures var r := RereadRows(h, canonical, rows);
          && (r.ok ==> OnlyWorse(rows[i], r.rows[i]))
          && (r.ok && rows[i].inPolicy ==> StillEligible(h, r.rows[i]))
          && r.rows[i].claim == rows[i].claim
          && (rows[i].inPolicy && rows[i].result == Failed ==> r.rows[i].result == Failed)
      {
        RereadRowsAt(h, canonical, rows, i);
        if i > 0 { assert rows[1..][i - 1] == rows[i]; }
      }
    }
  }

  /** After a read, a claim outside the policy is failed exactly when some event read fails it for one of its tools. */
  lemma OutsideFailsIff(h: seq<History.Event>, claim: string, canonical: seq<string>)
    ensures OutsideResult(h, claim, canonical) == Failed <==>
            exists t :: (canonical == [] || t in canonical) && History.Fails(h, claim, t)
  {
    if t :| canonical == [] && History.Fails(h, claim, t) {
      History.OutsideFailureIsPermanent(h, h, claim, t);
    }
  }

  /** Rows outside the policy hold what the first read said of their claims. */
  ghost predicate OutsideAsRead(h: seq<History.Event>, canonical: string -> seq<string>, rows: seq<Row>) {
    forall i :: 0 <= i < |rows| && !rows[i].inPolicy ==>
      rows[i].result == OutsideResult(h, rows[i].claim, canonical(rows[i].claim))
  }

  lemma OutsideFailureIsKept(h: seq<History.Event>, g: seq<History.Event>, claim: string, canonical: seq<string>)
    requires OutsideResult(h, claim, canonical) == Failed && History.KeepsFailures(h, g)
    ensures OutsideResult(g, claim, canonical) == Failed
  {
    OutsideFailsIff(h, claim, canonical);
    OutsideFailsIff(g, claim, canonical);
    var t :| (canonical == [] || t in canonical) && History.Fails(h, claim, t);
    History.OutsideFailureIsPermanent(h, g, claim, t);
  }

  /** When the second read still has every FAIL of the first, no row's FAIL is cleared, in the policy or outside it. */
  lemma {:induction false} SecondReadKeepsFailures(
      h: seq<History.Event>, g: seq<History.Event>, canonical: string -> seq<string>, rows: seq<Row>)
    requires OutsideAsRead(h, canonical, rows) && History.KeepsFailures(h, g)
    ensures forall i :: 0 <= i < |rows| && rows[i].result == Failed ==>
              RereadRows(g, canonical, rows).rows[i].result == Failed
  {
    if rows != [] {
      if !rows[0].inPolicy && rows[0].result == Failed {
        OutsideFailureIsKept(h, g, rows[0].claim, canonical(rows[0].claim));
      }
      SecondReadKeepsFailures(h, g, canonical, rows[1..]);
    }
  }

  /** A second read that lost the failing events clears the FAIL of a row outside the policy. */
  lemma LostEventsClearFailure(g: seq<History.Event>, canonical: string -> seq<string>, row: Row)
    requires !row.inPolicy && forall t :: !History.Fails(g, row.claim, t)
    ensures RereadRows(g, canonical, [row]) == Fold([row.(result := Incomplete)], 0, true)
  {
    OutsideFailsIff(g, row.claim, canonical(row.claim));
    assert OutsideResult(g, row.claim, canonical(row.claim)) == Incomplete;
    hide OutsideResult;
    var rows := [row];
    assert rows[1..] == [];
    assert RereadRow(g, canonical, row).0 == row.(result := Incomplete);
  }

  // ---- dependencies ----------------------------------------------------

  predicate Covered(rows: seq<Row>, claim: string) {
    exists i :: 0 <= i < |rows| && rows[i].claim == claim && rows[i].result == Passed
  }

  /** Row `i` and the rows after it, each judged against the rows as they then stand. */
  function Propagate(rows: seq<Row>, deps: string -> seq<string>, i: nat): (r: seq<Row>)
    requires i <= |rows|
    ensures |r| == |rows|
    decreases |rows| - i
  {
    if i == |rows| then rows
    else
      var row := rows[i];
      var next :=
        if row.result == Passed && exists d :: d in deps(row.claim) && !Covered(rows, d)
        then rows[i := row.(result := Incomplete, gap := true)] else rows;
      Propagate(next, deps, i + 1)
  }

  lemma {:induction false} PropagationOnlyLowers(rows: seq<Row>, deps: string -> seq<string>, i: nat)
    requires i <= |rows|
    ensures var r := Propagate(rows, deps, i);
      forall k :: 0 <= k < |rows| ==>
        && r[k].claim == rows[k].claim && r[k].slots == rows[k].slots && r[k].inPolicy == rows[k].inPolicy
        && (r[k].result != rows[k].result ==> rows[k].result == Passed && r[k].result == Incomplete)
        && (k < i ==> r[k] == rows[k])
        && (deps(rows[k].claim) == [] ==> r[k] == rows[k])
        && (k >= i && r[k].result == Passed ==> forall d :: d in deps(rows[k].claim) ==> Covered(rows, d))
    decreases |rows| - i
  {
    if i < |rows| {
      var row := rows[i];
      var gap := row.result == Passed && exists d :: d in deps(row.claim) && !Covered(rows, d);
      var next := if gap then rows[i := row.(result := Incomplete, gap := true)] else rows;
      PropagationOnlyLowers(next, deps, i + 1);
      var r := Propagate(next, deps, i + 1);
      forall d | Covered(next, d) ensures Covered(rows, d) {
        CoveredBefore(rows, next, d);
      }
      hide Covered;
    }
  }

  lemma CoveredBefore(rows: seq<Row>, next: seq<Row>, d: string)
    requires |rows| == |next| && Covered(next, d)
    requires forall k :: 0 <= k < |rows| ==> next[k] == rows[k] || next[k].result == Incomplete
    ensures Covered(rows, d)
  {
    var m :| 0 <= m < |next| && next[m].claim == d && next[m].result == Passed;
    assert rows[m].claim == d && rows[m].result == Passed;
  }

  /**
   Where no dependency has dependencies of its own, as in every manifest Gate B
   loads, one pass settles: in the final rows each dependency of a passing row passes.
   */
  lemma PropagationSettles(rows: seq<Row>, deps: string -> seq<string>)
    requires forall c, d :: d in deps(c) ==> deps(d) == []
    ensures var r := Propagate(rows, deps, 0);
      forall k, d :: 0 <= k < |r| && r[k].result == Passed && d in deps(r[k].claim) ==> Covered(r, d)
  {
    PropagationOnlyLowers(rows, deps, 0);
    var r := Propagate(rows, deps, 0);
    forall k, d | 0 <= k < |r| && r[k].result == Passed && d in deps(r[k].claim) ensures Covered(r, d) {
      assert Covered(rows, d);
      var m :| 0 <= m < |rows| && rows[m].claim == d && rows[m].result == Passed;
      assert r[m] == rows[m];
    }
  }

  /** Some row of the claim passes. */
  ghost predicate Stands(rows: seq<Row>, claim: string) {
    exists m :: 0 <= m < |rows| && rows[m].claim == claim && rows[m].result == Passed
  }

  ghost predicate StandAll(rows: seq<Row>, claims: seq<string>) {
    forall d :: d in claims ==> Stands(rows, d)
  }

  /** The rows after row `i` has been looked at. */
  ghost function Lowered(rows: seq<Row>, deps: string -> seq<string>, i: nat): (next: seq<Row>)
    requires i < |rows|
    ensures |next| == |rows|
  {
    var row := rows[i];
    if row.result == Passed && !StandAll(rows, deps(row.claim)) then
      rows[i := row.(result := Incomplete, gap := true)]
    else rows
  }

  lemma PropagateStep(rows: seq<Row>, deps: string -> seq<string>, i: nat)
    requires i < |rows|
    ensures Propagate(rows, deps, i) == Propagate(Lowered(rows, deps, i), deps, i + 1)
  {
    forall d ensures Covered(rows, d) <==> Stands(rows, d) {}
  }

  /** Lowering a row that has dependencies takes nothing from what stands for a dependency. */
  lemma LeavesStand(rows: seq<Row>, deps: string -> seq<string>, i: nat, c: string)
    requires i < |rows| && forall c, d :: d in deps(c) ==> deps(d) == []
    ensures StandAll(Lowered(rows, deps, i), deps(c)) <==> StandAll(rows, deps(c))
  {
    var next := Lowered(rows, deps, i);
    forall d | d in deps(c) ensures Stands(next, d) <==> Stands(rows, d) {
      assert deps(d) == [];
      if m :| 0 <= m < |rows| && rows[m].claim == d && rows[m].result == Passed {
        assert next[m] == rows[m];
      }
      if m :| 0 <= m < |next| && next[m].claim == d && next[m].result == Passed {
        assert next[m] == rows[m];
      }
    }
  }

  /**
   Where no dependency has dependencies, a row ends passing exactly if it passed
   and a passing row stood for each of its dependencies; it then stays as it was.
   */
  lemma {:induction false} PropagationExact(rows: seq<Row>, deps: string -> seq<string>, i: nat)
    requires i <= |rows| && forall c, d :: d in deps(c) ==> deps(d) == []
    ensures var r := Propagate(rows, deps, i);
      forall k :: i <= k < |rows| ==>
        && (r[k].result == Passed <==> rows[k].result == Passed && StandAll(rows, deps(rows[k].claim)))
        && r[k] == if r[k].result == rows[k].result then rows[k] else rows[k].(result := Incomplete, gap := true)
    decreases |rows| - i
  {
    hide StandAll;
    hide Propagate;
    hide Covered;
    if i < |rows| {
      var next := Lowered(rows, deps, i);
      PropagateStep(rows, deps, i);
      PropagationExact(next, deps, i + 1);
      PropagationOnlyLowers(next, deps, i + 1);
      forall k | i < k < |rows| ensures StandAll(next, deps(rows[k].claim)) <==> StandAll(rows, deps(rows[k].claim)) {
        LeavesStand(rows, deps, i, rows[k].claim);
      }
    }
  }

  /** The dependencies a loaded manifest gives each claim. */
  function DependenciesOf(m: Records.Manifest): string -> seq<string> {
    claim => if claim in m.depends then m.depends[claim] else []
  }

  lemma ManifestDependenciesAreLeaves(v: Records.Value, c: string, d: string)
    requires Manifests.LoadManifest(v).Ok?
    requires d in DependenciesOf(Manifests.LoadManifest(v).value)(c)
    ensures DependenciesOf(Manifests.LoadManifest(v).value)(d) == []
  {
    Manifests.LoadedIsWellFounded(v);
  }

  // ---- the assessment --------------------------------------------------

  /**
   `early`: a binding check raises before any row is judged. `other`: errors
   reported beside rows and history. `second` is the re-read of the history.
   `canonical` and `deps` give each claim's required tools and dependencies.
   */
  datatype Input = Input(
    early: bool, other: nat, captured: nat, claims: seq<ClaimInput>, outside: seq<string>,
    required: set<string>, deps: string -> seq<string>, canonical: string -> seq<string>,
    first: History.Reading, second: Result<History.Reading, History.HistoryError>,
    drift: bool, run: Slot, preflight: Slot)

  datatype Outcome = Outcome(rows: seq<Row>, code: nat)

  function OutsideRows(h: seq<History.Event>, input: Input): (r: seq<Row>)
    ensures |r| == |input.outside|
  {
    seq(|input.outside|, i requires 0 <= i < |input.outside| =>
      Row(input.outside[i], false, [], OutsideResult(h, input.outside[i], input.canonical(input.outside[i])), false))
  }

  predicate RequiredFails(rows: seq<Row>, required: set<string>) {
    exists i :: 0 <= i < |rows| && rows[i].claim in required && rows[i].result == Failed
  }

  /** The exception handler: a failure already recorded is kept whatever else went wrong. */
  function Salvage(rows: seq<Row>, required: set<string>): Outcome {
    var kept := seq(|rows|, i requires 0 <= i < |rows| =>
      if rows[i].claim in required && SomeFail(rows[i].slots) then rows[i].(result := Failed) else rows[i]);
    Outcome(kept, if RequiredFails(kept, required) then 1 else 2)
  }

  function Verdict(input: Input, rows: seq<Row>, errors: nat): nat {
    if RequiredFails(rows, input.required) then 1
    else if errors > 0 || input.run.ERROR? || input.preflight.ERROR? then 2
    else if input.required == {} || input.run.CANCELLED?
         || exists i :: 0 <= i < |rows| && rows[i].claim in input.required && rows[i].result != Passed then 3
    else 0
  }

  function InitialRows(input: Input): seq<Row> {
    UntouchedRows(input.claims)
    + seq(|input.outside|, i requires 0 <= i < |input.outside| => Row(input.outside[i], false, [], Incomplete, false))
  }

  function Assess(input: Input): Outcome {
    if input.early then Salvage(InitialRows(input), input.required)
    else
      var fold := FoldClaims(input.first.events, input.captured, input.claims);
      var rows := fold.rows + OutsideRows(input.first.events, input);
      if !fold.ok || input.second.Err? then Salvage(rows, input.required)
      else
        var last := input.second.value;
        var again :=
          if last.refs == input.first.refs then Fold(rows, 0, true)
          else RereadRows(last.events, input.canonical, rows);
        if !again.ok then Salvage(again.rows, input.required)
        else
          var final := Propagate(again.rows, input.deps, 0);
          if input.drift then Salvage(final, input.required)
          else
            Outcome(final, Verdict(input, final, input.other + input.first.errors + last.errors + fold.errors))
  }

  /** Every required claim has a row. */
  ghost predicate RowsCover(input: Input) {
    forall c :: c in input.required ==>
      c in input.outside || exists i :: 0 <= i < |input.claims| && input.claims[i].claim == c
  }

  /** Two clean reads with the same references hold the same events. */
  ghost predicate ReadsAgree(input: Input) {
    input.second.Ok? && input.first.refs == input.second.value.refs
    && input.first.errors == 0 && input.second.value.errors == 0 ==>
      input.first.events == input.second.value.events
  }

  /** A policy claim whose every slot is supported by its receipts and eligible in the last history read. */
  ghost predicate Discharged(input: Input, claim: string)
    requires input.second.Ok?
  {
    exists i :: 0 <= i < |input.claims| && input.claims[i].claim == claim && ClaimDischarged(input, input.claims[i])
  }

  ghost predicate ClaimDischarged(input: Input, c: ClaimInput)
    requires input.second.Ok?
  {
    && c.recordOk && c.slots != []
    && (forall k :: 0 <= k < |c.slots| ==>
          Supported(input.first.events, input.captured, c.claim, c.slots[k])
          && History.Eligible(input.second.value.events, SavedExecution(c.slots[k]), c.claim, c.slots[k].tool))
  }

  lemma {:induction false} FoldSlotsSpec(h: seq<History.Event>, captured: nat, claim: string, ins: seq<SlotInput>,
      k: nat)
    requires k < |ins| && FoldSlots(h, captured, claim, ins).ok
    ensures Judge(h, captured, claim, ins[k]).Ok?
    ensures FoldSlots(h, captured, claim, ins).slots[k] ==
            SlotRow(ins[k].tool, SavedExecution(ins[k]), Judge(h, captured, claim, ins[k]).value.state)
  {
    hide Judge;
    if k > 0 {
      FoldSlotsSpec(h, captured, claim, ins[1..], k - 1);
    }
  }

  lemma {:induction false} FoldClaimsSpec(h: seq<History.Event>, captured: nat, claims: seq<ClaimInput>, i: nat)
    requires i < |claims| && FoldClaims(h, captured, claims).ok
    ensures FoldClaim(h, captured, claims[i]).ok
    ensures FoldClaims(h, captured, claims).rows[i] == FoldClaim(h, captured, claims[i]).row
  {
    hide FoldClaim;
    if i > 0 {
      FoldClaimsSpec(h, captured, claims[1..], i - 1);
    }
  }

  /** A policy row that passed the first fold: all its slots are supported. */
  lemma PassedRowIsSupported(h: seq<History.Event>, captured: nat, c: ClaimInput, k: nat)
    requires FoldClaim(h, captured, c).ok && k < |c.slots| && FoldClaim(h, captured, c).row.result == Passed
    ensures c.recordOk && Supported(h, captured, c.claim, c.slots[k])
    ensures FoldSlots(h, captured, c.claim, c.slots).slots[k].execution == SavedExecution(c.slots[k])
  {
    FoldSlotsSpec(h, captured, c.claim, c.slots, k);
    SlotPassesIff(h, captured, c.claim, c.slots[k]);
  }

  function FirstRows(input: Input): seq<Row> {
    FoldClaims(input.first.events, input.captured, input.claims).rows + OutsideRows(input.first.events, input)
  }

  /** The last rows before dependencies, when neither read stopped. */
  function LastRows(input: Input): Fold
    requires input.second.Ok?
  {
    if input.second.value.refs == input.first.refs then Fold(FirstRows(input), 0, true)
    else RereadRows(input.second.value.events, input.canonical, FirstRows(input))
  }

  lemma FoldedRow(h: seq<History.Event>, captured: nat, c: ClaimInput)
    requires FoldClaim(h, captured, c).ok
    ensures var row := FoldClaim(h, captured, c).row;
      row.claim == c.claim && row.inPolicy && (row.result == Passed ==> AllPass(row.slots))
  {
    hide FoldSlots;
  }

  lemma FirstRowsSpec(input: Input)
    requires FoldClaims(input.first.events, input.captured, input.claims).ok
    ensures var rows := FirstRows(input);
      && (forall j :: 0 <= j < |input.claims| ==> rows[j].claim == input.claims[j].claim && rows[j].inPolicy)
      && (forall j :: |input.claims| <= j < |rows| ==>
            rows[j].claim == input.outside[j - |input.claims|] && !rows[j].inPolicy)
      && (forall j :: 0 <= j < |rows| && rows[j].result == Passed ==> rows[j].inPolicy && AllPass(rows[j].slots))
  {
    hide FoldClaim;
    hide FoldClaims;
    hide AllPass;
    forall j | 0 <= j < |input.claims|
      ensures var row := FirstRows(input)[j];
        row.claim == input.claims[j].claim && row.inPolicy && (row.result == Passed ==> AllPass(row.slots))
    {
      FoldClaimsSpec(input.first.events, input.captured, input.claims, j);
      FoldedRow(input.first.events, input.captured, input.claims[j]);
    }
  }

  /** The rows after the last history read, before dependencies: a passing one is a discharged policy claim. */
  lemma PassingRowIsDischarged(input: Input, i: nat)
    requires ReadsAgree(input) && input.second.Ok?
    requires input.first.errors == 0 && input.second.value.errors == 0
    requires FoldClaims(input.first.events, input.captured, input.claims).ok && LastRows(input).ok
    requires i < |LastRows(input).rows| && LastRows(input).rows[i].result == Passed
    ensures i < |input.claims| && ClaimDischarged(input, input.claims[i])
    ensures LastRows(input).rows[i].claim == input.claims[i].claim
  {
    var h, again := input.first.events, LastRows(input).rows[i];
    FirstRowsSpec(input);
    SecondReadOnlyWorsens(input.second.value.events, input.canonical, FirstRows(input));
    assert FirstRows(input)[i].result == Passed;
    FoldClaimsSpec(h, input.captured, input.claims, i);
    var c := input.claims[i];
    forall k | 0 <= k < |c.slots|
      ensures c.recordOk && Supported(h, input.captured, c.claim, c.slots[k])
      ensures History.Eligible(input.second.value.events, SavedExecution(c.slots[k]), c.claim, c.slots[k].tool)
    {
      PassedRowIsSupported(h, input.captured, c, k);
      FoldSlotsSpec(h, input.captured, c.claim, c.slots, k);
      if input.second.value.refs != input.first.refs {
        assert StillEligible(input.second.value.events, again) && again.slots[k].state.PASS?;
      }
    }
  }

  lemma CodeZero(input: Input)
    requires Assess(input).code == 0
    ensures input.second.Ok? && input.first.errors == 0 && input.second.value.errors == 0
    ensures FoldClaims(input.first.events, input.captured, input.claims).ok && LastRows(input).ok
    ensures var final := Propagate(LastRows(input).rows, input.deps, 0);
      forall i :: 0 <= i < |final| && final[i].claim in input.required ==> final[i].result == Passed
  {
  }

  /** A row still passing after propagation passed before it, and so did its dependencies. */
  lemma PassesThroughPropagation(input: Input, i: nat, needed: string) returns (m: nat)
    requires input.second.Ok? && i < |LastRows(input).rows|
    requires Propagate(LastRows(input).rows, input.deps, 0)[i].result == Passed
    requires needed == LastRows(input).rows[i].claim || needed in input.deps(LastRows(input).rows[i].claim)
    ensures m < |LastRows(input).rows| && LastRows(input).rows[m].claim == needed
    ensures LastRows(input).rows[m].result == Passed
  {
    var again := LastRows(input).rows;
    PropagationOnlyLowers(again, input.deps, 0);
    if needed == again[i].claim {
      m := i;
    } else {
      assert Covered(again, needed);
      m :| 0 <= m < |again| && again[m].claim == needed && again[m].result == Passed;
    }
  }

  /** Code 0 is earned, given that equal references were read to equal events. */
  lemma VerdictFromReads(input: Input, claim: string, needed: string)
    requires RowsCover(input) && ReadsAgree(input) && Assess(input).code == 0
    requires claim in input.required && (needed == claim || needed in input.deps(claim))
    ensures input.second.Ok? && Discharged(input, needed)
  {
    CodeZero(input);
    FirstRowsSpec(input);
    SecondReadOnlyWorsens(input.second.value.events, input.canonical, FirstRows(input));
    var again := LastRows(input).rows;
    PropagationOnlyLowers(again, input.deps, 0);
    var i := RequiredRow(input, claim);
    assert again[i].claim == claim;
    var m := PassesThroughPropagation(input, i, needed);
    PassingRowIsDischarged(input, m);
  }

  /** The readings of an assessment: two reads of the retained files, which may have changed in between. */
  ghost predicate ReadFrom(
      input: Input, rd: History.Reader, other: History.Reader, s: seq<Bytes>, t: seq<Bytes>, captured: History.View,
      index: Option<seq<History.Attempt>>, later: Option<seq<History.Attempt>>)
  {
    && other.parse == rd.parse && other.hash == rd.hash
    && History.ReadHistory(rd, s, captured, index) == Ok(input.first)
    && History.ReadHistory(other, t, captured, later) == input.second
  }

  /**
   The same two reads as one run makes them: what it accepted it remembers, and a
   file it has read that then differs makes the second read raise.
   */
  ghost predicate ReadInOneRun(
      input: Input, rd: History.Reader, other: History.Reader, s: seq<Bytes>, t: seq<Bytes>, captured: History.View,
      index: Option<seq<History.Attempt>>, later: Option<seq<History.Attempt>>)
  {
    && History.Remembers(rd, other, s, t)
    && History.ReadHistory(rd, s, captured, index) == Ok(input.first)
    && if History.Unchanged(rd.hash, s, t) then History.ReadHistory(other, t, captured, later) == input.second
       else input.second.Err?
  }

  lemma ReadsFromStoresAgree(
      input: Input, rd: History.Reader, other: History.Reader, s: seq<Bytes>, t: seq<Bytes>, captured: History.View,
      index: Option<seq<History.Attempt>>, later: Option<seq<History.Attempt>>)
    requires ReadFrom(input, rd, other, s, t, captured, index, later) && History.CollisionFree(rd, s, t)
    ensures ReadsAgree(input)
  {
    hide History.Read;
    if input.second.Ok? && input.first.refs == input.second.value.refs
       && input.first.errors == 0 && input.second.value.errors == 0 {
      History.CleanReadsAgree(rd, other, s, t);
    }
  }

  /**
   Code 0 is earned: every required claim, and each of its dependencies, is a
   policy claim whose every slot is supported and eligible in the last history
   read. The two reads may be of different stores and judge events differently;
   the digest is only asked to tell their files apart.
   */
  lemma VerdictIsSound(
      input: Input, rd: History.Reader, other: History.Reader, s: seq<Bytes>, t: seq<Bytes>, captured: History.View,
      index: Option<seq<History.Attempt>>, later: Option<seq<History.Attempt>>, claim: string, needed: string)
    requires ReadFrom(input, rd, other, s, t, captured, index, later) && History.CollisionFree(rd, s, t)
    requires RowsCover(input) && Assess(input).code == 0
    requires claim in input.required && (needed == claim || needed in input.deps(claim))
    ensures input.second.Ok? && Discharged(input, needed)
  {
    ReadsFromStoresAgree(input, rd, other, s, t, captured, index, later);
    hide *;
    VerdictFromReads(input, claim, needed);
  }

  lemma RequiredRow(input: Input, claim: string) returns (i: nat)
    requires RowsCover(input) && claim in input.required
    requires FoldClaims(input.first.events, input.captured, input.claims).ok
    ensures i < |FirstRows(input)| && FirstRows(input)[i].claim == claim
  {
    if claim in input.outside {
      var k :| 0 <= k < |input.outside| && input.outside[k] == claim;
      i := |input.claims| + k;
    } else {
      i :| 0 <= i < |input.claims| && input.claims[i].claim == claim;
    }
    hide *;
    FirstRowAt(input, i);
  }

  lemma FirstRowAt(input: Input, i: nat)
    requires FoldClaims(input.first.events, input.captured, input.claims).ok && i < |input.claims| + |input.outside|
    ensures |FirstRows(input)| == |input.claims| + |input.outside|
    ensures FirstRows(input)[i].claim ==
            if i < |input.claims| then input.claims[i].claim else input.outside[i - |input.claims|]
  {
    FirstRowsSpec(input);
    hide FoldClaims;
  }

  // ---- the report, updated in place ------------------------------------

  /** The fold of a list once a prefix of it has given `slots`, and the rest gives `rest`. */
  function After(slots: seq<SlotRow>, errors: nat, rest: SlotFold): SlotFold {
    SlotFold(slots + rest.slots, errors + rest.errors, rest.ok)
  }

  function AfterRows(rows: seq<Row>, errors: nat, rest: Fold): Fold {
    Fold(rows + rest.rows, errors + rest.errors, rest.ok)
  }

  lemma SlotsStep(
      h: seq<History.Event>, captured: nat, claim: string, ins: seq<SlotInput>, i: nat, slots: seq<SlotRow>,
      errors: nat)
    requires i < |ins|
    ensures var j := Judge(h, captured, claim, ins[i]);
      After(slots, errors, FoldSlots(h, captured, claim, ins[i..])) ==
      if j.Err? then SlotFold(slots + Unjudged(ins[i..]), errors, false)
      else After(slots + [SlotRow(ins[i].tool, SavedExecution(ins[i]), j.value.state)],
                 errors + (if j.value.raised then 1 else 0), FoldSlots(h, captured, claim, ins[i + 1..]))
  {
    var rest, more := ins[i..], FoldSlots(h, captured, claim, ins[i + 1..]);
    assert rest[0] == ins[i] && rest[1..] == ins[i + 1..];
    var j := Judge(h, captured, claim, ins[i]);
    hide Judge;
    hide Unjudged;
    if j.Ok? {
      assert FoldSlots(h, captured, claim, rest).slots == [SlotRow(ins[i].tool, SavedExecution(ins[i]), j.value.state)]
                                                          + more.slots;
    }
  }

  lemma StillUntouched(rows: seq<Row>, claims: seq<ClaimInput>, i: nat)
    requires i <= |claims| <= |rows| && rows[..|claims|] == UntouchedRows(claims)
    ensures rows[i..] == UntouchedRows(claims[i..]) + rows[|claims|..]
  {
    assert forall k :: i <= k < |claims| ==> rows[k] == rows[..|claims|][k] == UntouchedRows(claims[i..])[k - i];
  }

  lemma AfterNothing(f: Fold)
    ensures AfterRows([], 0, f) == f
  {
  }

  lemma AfterAll(rows: seq<Row>, errors: nat)
    ensures AfterRows(rows, errors, Fold([], 0, true)) == Fold(rows, errors, true)
  {
  }

  lemma NoClaims(h: seq<History.Event>, captured: nat)
    ensures FoldClaims(h, captured, []) == Fold([], 0, true)
  {
  }

  lemma ClaimsStep(
      h: seq<History.Event>, captured: nat, claims: seq<ClaimInput>, i: nat, rows: seq<Row>, errors: nat)
    requires i < |claims|
    ensures var one := FoldClaim(h, captured, claims[i]);
      AfterRows(rows, errors, FoldClaims(h, captured, claims[i..])) ==
      if !one.ok then Fold(rows + [one.row] + UntouchedRows(claims[i + 1..]), errors + one.errors, false)
      else AfterRows(rows + [one.row], errors + one.errors, FoldClaims(h, captured, claims[i + 1..]))
  {
    hide FoldClaim;
    assert claims[i..][0] == claims[i] && claims[i..][1..] == claims[i + 1..];
  }

  lemma RereadStep(h: seq<History.Event>, canonical: string -> seq<string>, from: seq<Row>, i: nat, rows: seq<Row>)
    requires i < |from|
    ensures var (row, ok) := RereadRow(h, canonical, from[i]);
      AfterRows(rows, 0, RereadRows(h, canonical, from[i..])) ==
      if !ok then Fold(rows + [row] + from[i + 1..], 0, false)
      else AfterRows(rows + [row], 0, RereadRows(h, canonical, from[i + 1..]))
  {
    assert from[i..][0] == from[i] && from[i..][1..] == from[i + 1..];
  }

  class Report {
    var rows: seq<Row>
    var errors: nat

    constructor (rows: seq<Row>, errors: nat)
      ensures this.rows == rows && this.errors == errors
    {
      this.rows, this.errors := rows, errors;
    }

    /** Judge the slots of one policy claim, stopping where the history is contradictory. */
    static method JudgeSlots(h: seq<History.Event>, captured: nat, claim: string, ins: seq<SlotInput>)
        returns (r: SlotFold)
      ensures r == FoldSlots(h, captured, claim, ins)
    {
      var slots: seq<SlotRow>, raised: nat := [], 0;
      var i := 0;
      while i < |ins|
        invariant 0 <= i <= |ins|
        invariant FoldSlots(h, captured, claim, ins) == After(slots, raised, FoldSlots(h, captured, claim, ins[i..]))
      {
        SlotsStep(h, captured, claim, ins, i, slots, raised);
        var j := Judge(h, captured, claim, ins[i]);
        if j.Err? { return SlotFold(slots + Unjudged(ins[i..]), raised, false); }
        slots := slots + [SlotRow(ins[i].tool, SavedExecution(ins[i]), j.value.state)];
        raised := raised + if j.value.raised then 1 else 0;
        i := i + 1;
      }
      r := SlotFold(slots, raised, true);
      assert slots + [] == slots;
    }

    static method JudgeClaim(h: seq<History.Event>, captured: nat, c: ClaimInput) returns (r: ClaimFold)
      ensures r == FoldClaim(h, captured, c)
    {
      var own := JudgeSlots(h, captured, c.claim, Readable(c));
      if own.ok {
        return ClaimFold(RowOf(c, own.slots), own.errors + RowErrors(c), true);
      }
      return ClaimFold(Untouched(c).(slots := own.slots), own.errors, false);
    }

    /** Write each policy row as its slots are judged. */
    method FoldRows(h: seq<History.Event>, captured: nat, claims: seq<ClaimInput>) returns (ok: bool)
      requires |claims| <= |rows| && rows[..|claims|] == UntouchedRows(claims)
      modifies this
      ensures var f := FoldClaims(h, captured, claims);
        ok == f.ok && rows == f.rows + old(rows)[|claims|..] && errors == old(errors) + f.errors
    {
      AfterNothing(FoldClaims(h, captured, claims));
      NoClaims(h, captured);
      hide *;
      var i, added: nat := 0, 0;
      assert claims[0..] == claims && rows[..0] == [];
      while i < |claims|
        invariant 0 <= i <= |claims| <= |rows| == |old(rows)|
        invariant rows[i..] == old(rows)[i..] && errors == old(errors) + added
        invariant FoldClaims(h, captured, claims) == AfterRows(rows[..i], added, FoldClaims(h, captured, claims[i..]))
      {
        ClaimsStep(h, captured, claims, i, rows[..i], added);
        var one := JudgeClaim(h, captured, claims[i]);
        ghost var before := rows[..i];
        rows := rows[i := one.row];
        assert rows[..i + 1] == before + [one.row] && rows[i + 1..] == old(rows)[i + 1..];
        errors := errors + one.errors;
        added := added + one.errors;
        if !one.ok {
          StillUntouched(old(rows), claims, i + 1);
          assert rows == rows[..i + 1] + rows[i + 1..];
          return false;
        }
        i := i + 1;
      }
      ok := true;
      assert claims[i..] == [];
      AfterAll(rows[..i], added);
      assert rows == rows[..i] + rows[i..];
    }

    /** The second read, row by row. */
    method Reread(h: seq<History.Event>, canonical: string -> seq<string>) returns (ok: bool)
      modifies this`rows
      ensures Fold(rows, 0, ok) == RereadRows(h, canonical, old(rows))
    {
      var i := 0;
      while i < |rows|
        invariant 0 <= i <= |rows| == |old(rows)| && rows[i..] == old(rows)[i..]
        invariant RereadRows(h, canonical, old(rows))
          == AfterRows(rows[..i], 0, RereadRows(h, canonical, old(rows)[i..]))
      {
        RereadStep(h, canonical, old(rows), i, rows[..i]);
        var (row, fine) := RereadRow(h, canonical, rows[i]);
        ghost var before := rows[..i];
        rows := rows[i := row];
        assert rows[..i + 1] == before + [row] && rows[i + 1..] == old(rows)[i + 1..];
        if !fine {
          assert rows == rows[..i + 1] + rows[i + 1..];
          return false;
        }
        i := i + 1;
      }
      ok := true;
      assert rows[..i] + [] == rows;
    }

    /** Dependency gaps, written into the rows as they are found. */
    method PropagateGaps(deps: string -> seq<string>)
      modifies this`rows
      ensures rows == Propagate(old(rows), deps, 0)
    {
      var i := 0;
      while i < |rows|
        invariant 0 <= i <= |rows| && Propagate(rows, deps, i) == Propagate(old(rows), deps, 0)
      {
        var row := rows[i];
        if row.result == Passed && exists d :: d in deps(row.claim) && !Covered(rows, d) {
          rows := rows[i := row.(result := Incomplete, gap := true)];
        }
        i := i + 1;
      }
    }

    /** The assessment over this report's rows. */
    method Run(input: Input) returns (code: nat)
      modifies this
      ensures Outcome(rows, code) == Assess(input)
    {
      rows, errors := InitialRows(input), input.other + input.first.errors;
      if input.early {
        var r := Salvage(rows, input.required);
        rows := r.rows;
        return r.code;
      }
      rows := rows[..|input.claims|] + OutsideRows(input.first.events, input);
      var ok := FoldRows(input.first.events, input.captured, input.claims);
      if ok && input.second.Ok? {
        errors := errors + input.second.value.errors;
        if input.second.value.refs != input.first.refs {
          ok := Reread(input.second.value.events, input.canonical);
        }
        if ok {
          PropagateGaps(input.deps);
          if !input.drift { return Verdict(input, rows, errors); }
        }
      }
      var r := Salvage(rows, input.required);
      rows := r.rows;
      return r.code;
    }
  }
}
