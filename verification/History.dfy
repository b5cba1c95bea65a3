/**
 The retained evidence history: how its hash chain is read, and when a stored
 execution may still discharge a claim.
 */
module History {
  import opened Basics

  type Ref = string

  datatype Kind = Execution | Observation | Indeterminate

  datatype State = PASS | FAIL | ERROR | CANCELLED

  datatype Member = Member(claim: string, slot: string, tool: string)

  datatype Event = Event(
    sequence: nat, kind: Kind, result: State, members: seq<Member>,
    execution: Option<Ref>, key: string, attempt: string,
    claim: Option<string>, slot: Option<string>, observation: Option<Ref>)

  // ---- which events bear on an association -----------------------------

  predicate Applicable(e: Event, claim: string, tool: string) {
    if e.kind.Observation? || (e.kind.Indeterminate? && e.claim.Some?) then
      e.claim == Some(claim)
      && exists m :: m in e.members && m.claim == claim && Some(m.slot) == e.slot && m.tool == tool
    else
      exists m :: m in e.members && m.claim == claim && m.tool == tool
  }

  predicate Barrier(e: Event, claim: string, tool: string) {
    (e.result.FAIL? || e.kind.Indeterminate?) && Applicable(e, claim, tool)
  }

  predicate Passes(e: Event, execution: Option<Ref>) {
    e.kind.Execution? && e.result.PASS? && e.execution == execution
  }

  predicate Confirms(e: Event, execution: Option<Ref>, claim: string, tool: string) {
    e.kind.Observation? && e.result.PASS? && e.execution == execution && Applicable(e, claim, tool)
  }

  /** A list comprehension over the history. */
  function Where(h: seq<Event>, keep: Event -> bool): (r: seq<Event>)
    ensures forall e :: e in r <==> e in h && keep(e)
  {
    if h == [] then []
    else if keep(h[0]) then [h[0]] + Where(h[1..], keep)
    else Where(h[1..], keep)
  }

  function Blockers(h: seq<Event>, claim: string, tool: string): seq<Event> {
    Where(h, (e: Event) => Barrier(e, claim, tool))
  }

  function Successes(h: seq<Event>, execution: Option<Ref>): seq<Event> {
    Where(h, (e: Event) => Passes(e, execution))
  }

  function Observed(h: seq<Event>, execution: Option<Ref>, claim: string, tool: string, after: nat): seq<Event> {
    Where(h, (e: Event) => Confirms(e, execution, claim, tool) && e.sequence > after)
  }

  /** `max(..., default=0)` over sequence numbers. */
  function Cutoff(events: seq<Event>): (m: nat)
    ensures forall e :: e in events ==> e.sequence <= m
    ensures m == 0 || exists e :: e in events && e.sequence == m
  {
    if events == [] then 0
    else
      var rest := Cutoff(events[1..]);
      if events[0].sequence > rest then events[0].sequence else rest
  }

  function Remaining(blockers: seq<Event>, eligible: bool, after: nat): seq<Event> {
    if blockers == [] then []
    else
      (if !eligible || blockers[0].sequence >= after then [blockers[0]] else [])
      + Remaining(blockers[1..], eligible, after)
  }

  /** `blocking` are all barriers; `remaining` those that still count against the execution. */
  datatype Standing = Standing(eligible: bool, blocking: seq<Event>, remaining: seq<Event>, observed: seq<Event>)

  datatype HistoryError = DuplicatePass | BrokenChain | NotAPrefix | UnsafeIndex | ChangedFile

  function Eligibility(h: seq<Event>, execution: Option<Ref>, claim: string, tool: string)
    : Result<Standing, HistoryError>
  {
    var blockers := Blockers(h, claim, tool);
    var successes := Successes(h, execution);
    if |successes| > 1 then Err(DuplicatePass)
    else
      var sequence := if successes == [] then 0 else successes[0].sequence;
      var observed := Observed(h, execution, claim, tool, sequence);
      var eligible := sequence > Cutoff(blockers) && observed != [];
      Ok(Standing(eligible, blockers, Remaining(blockers, eligible, sequence), observed))
  }

  predicate Eligible(h: seq<Event>, execution: Option<Ref>, claim: string, tool: string) {
    var r := Eligibility(h, execution, claim, tool);
    r.Ok? && r.value.eligible
  }

  /** Event sequence numbers start at one and rise, as the chain check enforces. */
  ghost predicate Ordered(h: seq<Event>) {
    (forall e :: e in h ==> e.sequence >= 1)
    && forall i, j :: 0 <= i < j < |h| ==> h[i].sequence < h[j].sequence
  }

  // ---- eligibility, declaratively --------------------------------------

  lemma {:induction false} NoneKept(h: seq<Event>, keep: Event -> bool)
    requires forall j :: 0 <= j < |h| ==> !keep(h[j])
    ensures Where(h, keep) == []
  {
    if h != [] {
      NoneKept(h[1..], keep);
    }
  }

  lemma {:induction false} OneKept(h: seq<Event>, keep: Event -> bool, i: nat)
    requires i < |h| && keep(h[i]) && forall j :: 0 <= j < |h| && keep(h[j]) ==> j == i
    ensures Where(h, keep) == [h[i]]
  {
    if i > 0 {
      OneKept(h[1..], keep, i - 1);
    } else {
      NoneKept(h[1..], keep);
    }
  }

  lemma {:induction false} TwoKept(h: seq<Event>, keep: Event -> bool, i: nat, j: nat)
    requires i < j < |h| && keep(h[i]) && keep(h[j])
    ensures |Where(h, keep)| > 1
  {
    if i == 0 {
      assert h[j] in h[1..];
    } else {
      TwoKept(h[1..], keep, i - 1, j - 1);
    }
  }

  lemma OneSuccess(h: seq<Event>, execution: Option<Ref>, i: nat)
    requires i < |h| && Passes(h[i], execution)
    requires forall j :: 0 <= j < |h| && Passes(h[j], execution) ==> j == i
    ensures Successes(h, execution) == [h[i]]
  {
    OneKept(h, (e: Event) => Passes(e, execution), i);
  }

  lemma TwoSuccesses(h: seq<Event>, execution: Option<Ref>, i: nat, j: nat)
    requires i < j < |h| && Passes(h[i], execution) && Passes(h[j], execution)
    ensures |Successes(h, execution)| > 1
  {
    TwoKept(h, (e: Event) => Passes(e, execution), i, j);
  }

  /** The history records two PASSes of one execution. */
  ghost predicate Doubled(h: seq<Event>, execution: Option<Ref>) {
    exists i, j :: 0 <= i < j < |h| && Passes(h[i], execution) && Passes(h[j], execution)
  }

  /** Two recorded PASSes of one execution are the only way an assessment of it can fail outright. */
  lemma DuplicateIff(h: seq<Event>, execution: Option<Ref>, claim: string, tool: string)
    ensures Eligibility(h, execution, claim, tool).Err? <==> Doubled(h, execution)
  {
    if i, j :| 0 <= i < j < |h| && Passes(h[i], execution) && Passes(h[j], execution) {
      TwoSuccesses(h, execution, i, j);
    } else if i :| 0 <= i < |h| && Passes(h[i], execution) {
      OneSuccess(h, execution, i);
    } else {
      NoneKept(h, (e: Event) => Passes(e, execution));
    }
  }

  /** A PASS of `execution` at `i` past every barrier, and a matching observation PASS after it. */
  ghost predicate Discharges(h: seq<Event>, execution: Option<Ref>, claim: string, tool: string, i: int, j: int) {
    && 0 <= i < j < |h| && Passes(h[i], execution) && Confirms(h[j], execution, claim, tool)
    && (forall k :: 0 <= k < |h| && Barrier(h[k], claim, tool) ==> k < i)
    && (forall k :: 0 <= k < |h| && Passes(h[k], execution) ==> k == i)
  }

  lemma DischargingIsEligible(h: seq<Event>, execution: Option<Ref>, claim: string, tool: string, i: int, j: int)
    requires Ordered(h) && Discharges(h, execution, claim, tool, i, j)
    ensures Eligible(h, execution, claim, tool)
  {
    OneSuccess(h, execution, i);
    assert h[j] in Observed(h, execution, claim, tool, h[i].sequence);
    var blockers := Blockers(h, claim, tool);
    forall e | e in blockers ensures e.sequence < h[i].sequence {
      var k :| 0 <= k < |h| && h[k] == e;
    }
  }

  lemma EligibleDischarges(h: seq<Event>, execution: Option<Ref>, claim: string, tool: string) returns (i: int, j: int)
    requires Ordered(h) && Eligible(h, execution, claim, tool)
    ensures Discharges(h, execution, claim, tool, i, j)
  {
    var s := Eligibility(h, execution, claim, tool).value;
    var pass, seen := Successes(h, execution)[0], s.observed[0];
    assert pass in Successes(h, execution) && seen in s.observed;
    i :| 0 <= i < |h| && h[i] == pass;
    j :| 0 <= j < |h| && h[j] == seen;
    BarriersBefore(h, claim, tool, i);
    forall k | 0 <= k < |h| && Passes(h[k], execution) ensures k == i {
      if k < i { TwoSuccesses(h, execution, k, i); }
      if i < k { TwoSuccesses(h, execution, i, k); }
    }
  }

  lemma BarriersBefore(h: seq<Event>, claim: string, tool: string, i: nat)
    requires Ordered(h) && i < |h| && h[i].sequence > Cutoff(Blockers(h, claim, tool))
    ensures forall k :: 0 <= k < |h| && Barrier(h[k], claim, tool) ==> k < i
  {
    forall k | 0 <= k < |h| && Barrier(h[k], claim, tool) ensures k < i {
      assert h[k] in Blockers(h, claim, tool);
    }
  }

  lemma EligibleIff(h: seq<Event>, execution: Option<Ref>, claim: string, tool: string)
    requires Ordered(h)
    ensures Eligible(h, execution, claim, tool) <==> exists i, j :: Discharges(h, execution, claim, tool, i, j)
  {
    if Eligible(h, execution, claim, tool) {
      var i, j := EligibleDischarges(h, execution, claim, tool);
    } else if i, j :| Discharges(h, execution, claim, tool, i, j) {
      DischargingIsEligible(h, execution, claim, tool, i, j);
    }
  }

  lemma {:induction false} NothingRemains(blockers: seq<Event>, after: nat)
    requires forall e :: e in blockers ==> e.sequence < after
    ensures Remaining(blockers, true, after) == []
  {
    if blockers != [] {
      NothingRemains(blockers[1..], after);
    }
  }

  lemma {:induction false} EverythingRemains(blockers: seq<Event>, after: nat)
    ensures Remaining(blockers, false, after) == blockers
  {
    if blockers != [] {
      EverythingRemains(blockers[1..], after);
    }
  }

  /** An eligible execution has no barrier left against it; an ineligible one keeps them all. */
  lemma RemainingExactly(h: seq<Event>, execution: Option<Ref>, claim: string, tool: string)
    requires Eligibility(h, execution, claim, tool).Ok?
    ensures var s := Eligibility(h, execution, claim, tool).value;
      s.remaining == if s.eligible then [] else s.blocking
  {
    var s := Eligibility(h, execution, claim, tool).value;
    var successes := Successes(h, execution);
    var after := if successes == [] then 0 else successes[0].sequence;
    if s.eligible {
      NothingRemains(s.blocking, after);
    } else {
      EverythingRemains(s.blocking, after);
    }
  }

  /** A barrier after an execution's PASS shuts that execution out, whatever is appended later. */
  lemma BarrierIsPermanent(
      h: seq<Event>, more: seq<Event>, execution: Option<Ref>, claim: string, tool: string, i: nat, b: nat)
    requires Ordered(h) && i < b < |h|
    requires Passes(h[i], execution) && Barrier(h[b], claim, tool)
    ensures !Eligible(h + more, execution, claim, tool)
  {
    var g := h + more;
    assert g[i] == h[i] && g[b] == h[b];
    assert h[b] in Blockers(g, claim, tool) && h[i] in Successes(g, execution);
  }

  /** An event about another claim: an observation, or an indeterminate one bound to a claim. */
  predicate Foreign(e: Event, claim: string) {
    (e.kind.Observation? || (e.kind.Indeterminate? && e.claim.Some?)) && e.claim != Some(claim)
  }

  function Without(h: seq<Event>, claim: string): seq<Event> {
    Where(h, (e: Event) => !Foreign(e, claim))
  }

  lemma {:induction false} WhereWithin(h: seq<Event>, keep: Event -> bool, wider: Event -> bool)
    requires forall e :: e in h && keep(e) ==> wider(e)
    ensures Where(Where(h, wider), keep) == Where(h, keep)
  {
    if h != [] {
      WhereWithin(h[1..], keep, wider);
    }
  }

  lemma {:induction false} WhereAppend(h: seq<Event>, more: seq<Event>, keep: Event -> bool)
    ensures Where(h + more, keep) == Where(h, keep) + Where(more, keep)
  {
    if h == [] {
      assert h + more == more;
    } else {
      assert (h + more)[1..] == h[1..] + more;
      WhereAppend(h[1..], more, keep);
    }
  }

  /** Events of another claim change nothing about this one. */
  lemma ForeignEventsChangeNothing(h: seq<Event>, execution: Option<Ref>, claim: string, tool: string)
    ensures Eligibility(h, execution, claim, tool) == Eligibility(Without(h, claim), execution, claim, tool)
  {
    var own := (e: Event) => !Foreign(e, claim);
    WhereWithin(h, (e: Event) => Barrier(e, claim, tool), own);
    WhereWithin(h, (e: Event) => Passes(e, execution), own);
    var successes := Successes(h, execution);
    var after := if successes == [] then 0 else successes[0].sequence;
    WhereWithin(h, (e: Event) => Confirms(e, execution, claim, tool) && e.sequence > after, own);
  }

  // ---- eligibility on the fields of events -----------------------------

  /** A member of the event is the association. */
  ghost predicate Mentions(e: Event, claim: string, tool: string) {
    exists m :: m in e.members && m.claim == claim && m.tool == tool
  }

  /** The event is bound to the claim, and the member of its slot is the association. */
  ghost predicate Binds(e: Event, claim: string, tool: string) {
    e.claim == Some(claim) && exists m :: m in e.members && m.claim == claim && Some(m.slot) == e.slot && m.tool == tool
  }

  /**
   The events that shut an association out: a failed execution of a member, a
   failed observation bound to it, and an indeterminate attempt whatever its
   result, of a member if it is bound to no claim, or bound to it.
   */
  ghost predicate Shuts(e: Event, claim: string, tool: string) {
    || (e.kind == Execution && e.result == FAIL && Mentions(e, claim, tool))
    || (e.kind == Observation && e.result == FAIL && Binds(e, claim, tool))
    || (e.kind == Indeterminate && e.claim == None && Mentions(e, claim, tool))
    || (e.kind == Indeterminate && e.claim != None && Binds(e, claim, tool))
  }

  ghost predicate IsPass(e: Event, execution: Option<Ref>) {
    e.kind == Execution && e.result == PASS && e.execution == execution
  }

  ghost predicate IsConfirmation(e: Event, execution: Option<Ref>, claim: string, tool: string) {
    e.kind == Observation && e.result == PASS && e.execution == execution && Binds(e, claim, tool)
  }

  lemma EventForms(e: Event, execution: Option<Ref>, claim: string, tool: string)
    ensures Barrier(e, claim, tool) <==> Shuts(e, claim, tool)
    ensures Passes(e, execution) <==> IsPass(e, execution)
    ensures Confirms(e, execution, claim, tool) <==> IsConfirmation(e, execution, claim, tool)
    ensures e.result.FAIL? && Applicable(e, claim, tool) <==> e.result == FAIL && Shuts(e, claim, tool)
  {
  }

  /** `h[i]` is the execution's one PASS, past all that shuts the association out, and `h[j]` confirms it after that. */
  ghost predicate Earns(h: seq<Event>, execution: Option<Ref>, claim: string, tool: string, i: int, j: int) {
    && 0 <= i < j < |h| && IsPass(h[i], execution) && IsConfirmation(h[j], execution, claim, tool)
    && (forall k :: 0 <= k < |h| && Shuts(h[k], claim, tool) ==> k < i)
    && (forall k :: 0 <= k < |h| && IsPass(h[k], execution) ==> k == i)
  }

  lemma EarnsIsDischarges(h: seq<Event>, execution: Option<Ref>, claim: string, tool: string, i: int, j: int)
    ensures Earns(h, execution, claim, tool, i, j) <==> Discharges(h, execution, claim, tool, i, j)
  {
    forall k | 0 <= k < |h|
      ensures Barrier(h[k], claim, tool) <==> Shuts(h[k], claim, tool)
      ensures Passes(h[k], execution) <==> IsPass(h[k], execution)
      ensures Confirms(h[k], execution, claim, tool) <==> IsConfirmation(h[k], execution, claim, tool)
    {
      EventForms(h[k], execution, claim, tool);
    }
    hide Shuts;
    hide IsPass;
    hide IsConfirmation;
    hide Barrier;
    hide Passes;
    hide Confirms;
  }

  /** An execution is eligible exactly if some of its events earn it. */
  lemma EligibleOnFields(h: seq<Event>, execution: Option<Ref>, claim: string, tool: string)
    requires Ordered(h)
    ensures Eligible(h, execution, claim, tool) <==> exists i, j :: Earns(h, execution, claim, tool, i, j)
  {
    EligibleIff(h, execution, claim, tool);
    hide *;
    if i, j :| Discharges(h, execution, claim, tool, i, j) {
      EarnsIsDischarges(h, execution, claim, tool, i, j);
    }
    if i, j :| Earns(h, execution, claim, tool, i, j) {
      EarnsIsDischarges(h, execution, claim, tool, i, j);
    }
  }

  /** Each of the four forms, after the execution's PASS, shuts it out whatever is appended. */
  lemma ShutOutForGood(
      h: seq<Event>, more: seq<Event>, execution: Option<Ref>, claim: string, tool: string, i: nat, b: nat)
    requires Ordered(h) && i < b < |h| && IsPass(h[i], execution) && Shuts(h[b], claim, tool)
    ensures !Eligible(h + more, execution, claim, tool)
  {
    EventForms(h[i], execution, claim, tool);
    EventForms(h[b], execution, claim, tool);
    BarrierIsPermanent(h, more, execution, claim, tool, i, b);
  }

  /** The event is a PASS or a confirmation of the execution, or shuts the association out. */
  ghost predicate Bears(e: Event, execution: Option<Ref>, claim: string, tool: string) {
    IsPass(e, execution) || IsConfirmation(e, execution, claim, tool) || Shuts(e, claim, tool)
  }

  /** Only events of these forms count: any others may be taken away. */
  lemma OnlyTheseEventsCount(
      h: seq<Event>, keep: Event -> bool, execution: Option<Ref>, claim: string, tool: string)
    requires forall e :: e in h && Bears(e, execution, claim, tool) ==> keep(e)
    ensures Eligibility(h, execution, claim, tool) == Eligibility(Where(h, keep), execution, claim, tool)
  {
    forall e | e in h
      ensures Barrier(e, claim, tool) || Passes(e, execution) || Confirms(e, execution, claim, tool) ==> keep(e)
    {
      EventForms(e, execution, claim, tool);
    }
    WhereWithin(h, (e: Event) => Barrier(e, claim, tool), keep);
    WhereWithin(h, (e: Event) => Passes(e, execution), keep);
    var successes := Successes(h, execution);
    var after := if successes == [] then 0 else successes[0].sequence;
    WhereWithin(h, (e: Event) => Confirms(e, execution, claim, tool) && e.sequence > after, keep);
  }

  /** A claim outside the policy fails for a tool exactly by a failed event that shuts the association out. */
  lemma FailsOnFields(h: seq<Event>, claim: string, tool: string)
    ensures Fails(h, claim, tool) <==>
      exists e :: e in h && e.result == FAIL && Shuts(e, claim, tool)
  {
    if Fails(h, claim, tool) {
      var e :| e in h && e.result.FAIL? && Applicable(e, claim, tool);
      EventForms(e, None, claim, tool);
      assert Shuts(e, claim, tool);
    }
    if e :| e in h && e.result == FAIL && Shuts(e, claim, tool) {
      EventForms(e, None, claim, tool);
    }
  }

  // ---- reading the retained store --------------------------------------

  datatype Reference = Reference(sequence: nat, id: string, hash: string)

  datatype Entry = Entry(event: Event, id: string, previous: Option<Reference>)

  /** What the reader knows of the stored bytes: their parse, their digest, and each event's own checks. */
  datatype Reader = Reader(parse: Bytes -> Option<Entry>, hash: Bytes -> string, sound: Event -> bool)

  /** A history as a run captured it. */
  datatype View = View(head: Option<Reference>, events: seq<Reference>)

  /** Every file gets a reference; only the events whose checks pass are kept. */
  datatype Reading = Reading(refs: seq<Reference>, events: seq<Event>, errors: nat)

  function Last<T>(s: seq<T>): Option<T> {
    if s == [] then None else Some(s[|s| - 1])
  }

  /** An observation needs its execution's latest recorded result to be PASS. */
  predicate Grounded(events: seq<Event>, e: Event) {
    e.kind.Observation? ==>
      var prior := Where(events, (p: Event) =>
        p.kind.Execution? && p.execution == e.execution && p.key == e.key && p.attempt == e.attempt);
      prior != [] && prior[|prior| - 1].result.PASS?
  }

  function Accept(rd: Reader, r: Reading, data: Bytes): Result<Reading, HistoryError> {
    var entry := rd.parse(data);
    if entry.None? || entry.value.event.sequence != |r.refs| + 1 || entry.value.previous != Last(r.refs) then
      Err(BrokenChain)
    else
      var e := entry.value.event;
      var refs := r.refs + [Reference(e.sequence, entry.value.id, rd.hash(data))];
      if rd.sound(e) && Grounded(r.events, e) then Ok(Reading(refs, r.events + [e], r.errors))
      else Ok(Reading(refs, r.events, r.errors + 1))
  }

  function Read(rd: Reader, store: seq<Bytes>): Result<Reading, HistoryError> {
    if store == [] then Ok(Reading([], [], 0))
    else
      var before := Read(rd, store[..|store| - 1]);
      if before.Err? then before else Accept(rd, before.value, store[|store| - 1])
  }

  predicate Captures(view: View, refs: seq<Reference>) {
    view.events <= refs && view.head == Last(view.events)
  }

  /** A committed attempt in the execution index: its key directory and its attempt directory. */
  datatype Attempt = Attempt(key: string, attempt: string)

  /** The key directory an event's execution lives under: its key without the `sha256:` before the digits. */
  function KeyDirectory(key: string): string {
    if |key| >= 7 then key[7..] else ""
  }

  predicate AccountsFor(e: Event, a: Attempt) {
    (e.execution.Some? || e.kind.Indeterminate?) && KeyDirectory(e.key) == a.key && e.attempt == a.attempt
  }

  predicate Accounted(events: seq<Event>, a: Attempt) {
    exists e :: e in events && AccountsFor(e, a)
  }

  /** How many committed attempts no kept event accounts for. */
  function Unaccounted(events: seq<Event>, index: seq<Attempt>): (n: nat)
    ensures n == 0 <==> forall a :: a in index ==> Accounted(events, a)
  {
    if index == [] then 0
    else
      var last := |index| - 1;
      assert index == index[..last] + [index[last]];
      Unaccounted(events, index[..last]) + if Accounted(events, index[last]) then 0 else 1
  }

  /** `index` lists the committed attempts; it is absent where an unsafe entry of the execution index raises. */
  function ReadHistory(rd: Reader, store: seq<Bytes>, captured: View, index: Option<seq<Attempt>>)
      : Result<Reading, HistoryError>
  {
    var r := Read(rd, store);
    if r.Err? then r
    else if !Captures(captured, r.value.refs) then Err(NotAPrefix)
    else if index.None? then Err(UnsafeIndex)
    else Ok(r.value.(errors := r.value.errors + Unaccounted(r.value.events, index.value)))
  }

  /** A history read without errors kept every event and accounts for every committed attempt. */
  lemma CleanHistoryAccounts(rd: Reader, store: seq<Bytes>, captured: View, index: Option<seq<Attempt>>)
    requires ReadHistory(rd, store, captured, index).Ok? && ReadHistory(rd, store, captured, index).value.errors == 0
    ensures var r := ReadHistory(rd, store, captured, index).value;
      && |r.events| == |store| && index.Some?
      && forall a :: a in index.value ==> Accounted(r.events, a)
  {
    CleanReadKeepsAll(rd, store);
  }

  method LoadHistory(rd: Reader, store: seq<Bytes>, captured: View, index: Option<seq<Attempt>>)
      returns (result: Result<Reading, HistoryError>)
    ensures result == ReadHistory(rd, store, captured, index)
  {
    var r := Reading([], [], 0);
    var i := 0;
    while i < |store|
      invariant 0 <= i <= |store|
      invariant Read(rd, store[..i]) == Ok(r)
      invariant Read(rd, store).Err? || Read(rd, store[..i]).Ok?
    {
      assert store[..i + 1][..i] == store[..i];
      var next := Accept(rd, r, store[i]);
      if next.Err? {
        PrefixReads(rd, store, i + 1);
        return next;
      }
      r := next.value;
      i := i + 1;
    }
    assert store[..i] == store;
    if !Captures(captured, r.refs) { return Err(NotAPrefix); }
    if index.None? { return Err(UnsafeIndex); }
    var missing := CountUnaccounted(r.events, index.value);
    return Ok(r.(errors := r.errors + missing));
  }

  /** The scan of the execution index for committed attempts the history does not know. */
  method CountUnaccounted(events: seq<Event>, index: seq<Attempt>) returns (missing: nat)
    ensures missing == Unaccounted(events, index)
  {
    var accounted := set e | e in events && (e.execution.Some? || e.kind.Indeterminate?) ::
                       Attempt(KeyDirectory(e.key), e.attempt);
    missing := 0;
    var k := 0;
    while k < |index|
      invariant 0 <= k <= |index| && missing == Unaccounted(events, index[..k])
    {
      assert index[..k + 1][..k] == index[..k];
      if index[k] !in accounted {
        missing := missing + 1;
      }
      k := k + 1;
    }
    assert index[..k] == index;
  }

  /** Appending to a store keeps what was read of it; a store that cannot be read stays unreadable. */
  lemma {:induction false} PrefixReads(rd: Reader, store: seq<Bytes>, n: nat)
    requires n <= |store|
    ensures Read(rd, store[..n]).Err? ==> Read(rd, store) == Read(rd, store[..n])
    ensures Read(rd, store).Ok? ==>
              Read(rd, store[..n]).Ok?
              && Read(rd, store[..n]).value.refs <= Read(rd, store).value.refs
              && Read(rd, store[..n]).value.events <= Read(rd, store).value.events
    decreases |store|
  {
    if n == |store| {
      assert store[..n] == store;
    } else {
      var last := |store| - 1;
      assert store[..last][..n] == store[..n];
      PrefixReads(rd, store[..last], n);
    }
  }

  lemma {:induction false} ReadIsOrdered(rd: Reader, store: seq<Bytes>)
    requires Read(rd, store).Ok?
    ensures var r := Read(rd, store).value;
      && |r.refs| == |store| && Ordered(r.events)
      && (forall e :: e in r.events ==> e.sequence <= |store|)
      && (forall i :: 0 <= i < |store| ==> r.refs[i].sequence == i + 1 && r.refs[i].hash == rd.hash(store[i]))
    decreases |store|
  {
    if store != [] {
      ReadIsOrdered(rd, store[..|store| - 1]);
    }
  }

  /** The digest tells apart any two stored files. */
  ghost predicate CollisionFree(rd: Reader, s: seq<Bytes>, t: seq<Bytes>) {
    forall a, b :: a in s && b in t && rd.hash(a) == rd.hash(b) ==> a == b
  }

  lemma CollisionFreePrefix(rd: Reader, s: seq<Bytes>, t: seq<Bytes>, n: nat)
    requires n <= |s| && n <= |t| && CollisionFree(rd, s, t)
    ensures CollisionFree(rd, s[..n], t[..n])
  {
    forall a, b | a in s[..n] && b in t[..n] && rd.hash(a) == rd.hash(b) ensures a == b {}
  }

  /** The last reference names the last file, and that file names the reference before it. */
  lemma LastFile(rd: Reader, s: seq<Bytes>)
    requires s != [] && Read(rd, s).Ok?
    ensures var n := |s| - 1;
      && Read(rd, s[..n]).Ok? && rd.parse(s[n]).Some?
      && rd.parse(s[n]).value.previous == Last(Read(rd, s[..n]).value.refs)
      && Last(Read(rd, s).value.refs) == Some(Reference(|s|, rd.parse(s[n]).value.id, rd.hash(s[n])))
  {
    ReadIsOrdered(rd, s[..|s| - 1]);
  }

  /** The head of a chain fixes the whole store: the same last reference means the same files. */
  lemma {:induction false} HeadDeterminesStore(rd: Reader, s: seq<Bytes>, t: seq<Bytes>)
    requires Read(rd, s).Ok? && Read(rd, t).Ok? && CollisionFree(rd, s, t)
    requires Last(Read(rd, s).value.refs) == Last(Read(rd, t).value.refs)
    ensures s == t
    decreases |s|
  {
    if s == [] || t == [] {
      ReadIsOrdered(rd, s);
      ReadIsOrdered(rd, t);
    } else {
      var n := |s| - 1;
      LastFile(rd, s);
      LastFile(rd, t);
      assert s[n] in s && t[n] in t;
      CollisionFreePrefix(rd, s, t, n);
      HeadDeterminesStore(rd, s[..n], t[..n]);
      assert s == s[..n] + [s[n]] && t == t[..n] + [t[n]];
    }
  }

  /** A read without errors kept every event, just as its file parses. */
  lemma {:induction false} CleanReadKeepsAll(rd: Reader, s: seq<Bytes>)
    requires Read(rd, s).Ok? && Read(rd, s).value.errors == 0
    ensures |Read(rd, s).value.events| == |s|
    ensures forall i :: 0 <= i < |s| ==>
              rd.parse(s[i]).Some? && Read(rd, s).value.events[i] == rd.parse(s[i]).value.event
    decreases |s|
  {
    if s != [] {
      var n := |s| - 1;
      CleanReadKeepsAll(rd, s[..n]);
      var before := Read(rd, s[..n]).value.events;
      assert Read(rd, s).value.events == before + [rd.parse(s[n]).value.event];
      forall i | 0 <= i < |s|
        ensures rd.parse(s[i]).Some? && Read(rd, s).value.events[i] == rd.parse(s[i]).value.event
      {
        assert i < n ==> s[..n][i] == s[i];
      }
    }
  }

  /** Two clean reads with the same references, even by readers that judge events differently, agree on every event. */
  lemma CleanReadsAgree(rd: Reader, other: Reader, s: seq<Bytes>, t: seq<Bytes>)
    requires other.parse == rd.parse && other.hash == rd.hash && CollisionFree(rd, s, t)
    requires Read(rd, s).Ok? && Read(other, t).Ok? && Read(rd, s).value.refs == Read(other, t).value.refs
    requires Read(rd, s).value.errors == 0 && Read(other, t).value.errors == 0
    ensures Read(rd, s).value.events == Read(other, t).value.events
  {
    CleanReadKeepsAll(rd, s);
    CleanReadKeepsAll(other, t);
    ReadIsOrdered(rd, s);
    ReadIsOrdered(other, t);
    forall i | 0 <= i < |s| ensures s[i] == t[i] {
      assert s[i] in s && t[i] in t && rd.hash(s[i]) == rd.hash(t[i]);
    }
  }

  /** Every event of the earlier reading is in the later one. */
  ghost predicate KeepsEvents(h: seq<Event>, g: seq<Event>) {
    forall e :: e in h ==> e in g
  }

  /** Every FAIL of the earlier reading is in the later one. */
  ghost predicate KeepsFailures(h: seq<Event>, g: seq<Event>) {
    forall e :: e in h && e.result.FAIL? ==> e in g
  }

  /** A store that grew keeps the events that were read of it. */
  lemma GrownStoreKeepsEvents(rd: Reader, store: seq<Bytes>, more: seq<Bytes>)
    requires Read(rd, store + more).Ok?
    ensures Read(rd, store).Ok? && KeepsEvents(Read(rd, store).value.events, Read(rd, store + more).value.events)
  {
    assert (store + more)[..|store|] == store;
    PrefixReads(rd, store + more, |store|);
  }

  /** Two execution events of one execution that pass their checks have the result of its artifact. */
  ghost predicate OneResult(rd: Reader) {
    forall e, f ::
      rd.sound(e) && rd.sound(f) && e.kind.Execution? && f.kind.Execution? && e.execution == f.execution ==>
        e.result.PASS? ==> f.result.PASS?
  }

  /** `other` parses and hashes as `rd` does, and what `rd` accepted of the store still passes its checks. */
  ghost predicate StillChecks(rd: Reader, other: Reader, store: seq<Bytes>) {
    && other.parse == rd.parse && other.hash == rd.hash && OneResult(other)
    && forall data :: data in store && rd.parse(data).Some? && rd.sound(rd.parse(data).value.event) ==>
         other.sound(rd.parse(data).value.event)
  }

  lemma {:induction false} ReadIsSound(rd: Reader, store: seq<Bytes>)
    requires Read(rd, store).Ok?
    ensures forall e :: e in Read(rd, store).value.events ==> rd.sound(e)
    decreases |store|
  {
    if store != [] {
      ReadIsSound(rd, store[..|store| - 1]);
    }
  }

  /** An observation that an earlier reading grounded is grounded in a later one that kept its executions. */
  lemma StillGrounded(rd: Reader, h: seq<Event>, g: seq<Event>, e: Event)
    requires Grounded(h, e) && OneResult(rd) && forall f :: f in g ==> rd.sound(f)
    requires forall f :: f in h && f.kind.Execution? ==> f in g
    ensures Grounded(g, e)
  {
    if e.kind.Observation? {
      var same := (p: Event) =>
        p.kind.Execution? && p.execution == e.execution && p.key == e.key && p.attempt == e.attempt;
      var prior, later := Where(h, same), Where(g, same);
      var p := prior[|prior| - 1];
      assert p in prior && p in g && p in later;
      assert later[|later| - 1] in later;
    }
  }

  /** A store read again by a reader that still accepts what was accepted keeps every event. */
  lemma {:induction false} RereadStoreKeepsEvents(rd: Reader, other: Reader, store: seq<Bytes>)
    requires Read(rd, store).Ok? && StillChecks(rd, other, store)
    ensures Read(other, store).Ok? && Read(other, store).value.refs == Read(rd, store).value.refs
    ensures KeepsEvents(Read(rd, store).value.events, Read(other, store).value.events)
    decreases |store|
  {
    if store != [] {
      var n := |store| - 1;
      assert store[n] in store;
      RereadStoreKeepsEvents(rd, other, store[..n]);
      ReadIsSound(other, store[..n]);
      var e := rd.parse(store[n]).value.event;
      if Grounded(Read(rd, store[..n]).value.events, e) {
        StillGrounded(other, Read(rd, store[..n]).value.events, Read(other, store[..n]).value.events, e);
      }
    }
  }

  /** So does a store that grew in between. */
  lemma RecheckedStoreKeepsEvents(rd: Reader, other: Reader, store: seq<Bytes>, more: seq<Bytes>)
    requires Read(rd, store).Ok? && Read(other, store + more).Ok? && StillChecks(rd, other, store)
    ensures KeepsEvents(Read(rd, store).value.events, Read(other, store + more).value.events)
  {
    RereadStoreKeepsEvents(rd, other, store);
    GrownStoreKeepsEvents(other, store, more);
  }

  // ---- two reads by one run --------------------------------------------

  /** The files both stores have are the same. */
  ghost predicate Agree(s: seq<Bytes>, t: seq<Bytes>) {
    forall i :: 0 <= i < |s| && i < |t| ==> s[i] == t[i]
  }

  /** The files both stores have hash alike: a run that has read a file refuses it once its digest changes. */
  predicate Unchanged(hash: Bytes -> string, s: seq<Bytes>, t: seq<Bytes>) {
    forall i :: 0 <= i < |s| && i < |t| ==> hash(s[i]) == hash(t[i])
  }

  /**
   What a run remembers from its first read `rd` to its second one `other`: an
   execution or observation whose receipts were accepted is accepted again. Only
   an indeterminate event's receipt is read afresh, and it is never a FAIL.
   */
  ghost predicate Remembers(rd: Reader, other: Reader, s: seq<Bytes>, t: seq<Bytes>) {
    && other.parse == rd.parse && other.hash == rd.hash && OneResult(other)
    && (forall e :: rd.sound(e) && e.kind.Indeterminate? ==> !e.result.FAIL?)
    && forall i :: 0 <= i < |s| && i < |t| && s[i] == t[i] && rd.parse(s[i]).Some? ==>
         var e := rd.parse(s[i]).value.event;
         e.sequence == i + 1 && rd.sound(e) && !e.kind.Indeterminate? ==> other.sound(e)
  }

  /** Every event whose receipts the run remembers. */
  ghost predicate KeepsRemembered(h: seq<Event>, g: seq<Event>, n: nat) {
    forall e :: e in h && !e.kind.Indeterminate? && e.sequence <= n ==> e in g
  }

  /** One more file, read by both. */
  lemma AcceptKeeps(rd: Reader, other: Reader, h: Reading, g: Reading, data: Bytes)
    requires other.parse == rd.parse && other.hash == rd.hash && OneResult(other)
    requires rd.parse(data).Some? ==>
      var e := rd.parse(data).value.event;
      e.sequence == |h.refs| + 1 && rd.sound(e) && !e.kind.Indeterminate? ==> other.sound(e)
    requires h.refs == g.refs && KeepsRemembered(h.events, g.events, |h.refs|) && Accept(rd, h, data).Ok?
    requires (forall e :: e in h.events ==> e.sequence <= |h.refs|) && forall e :: e in g.events ==> other.sound(e)
    ensures Accept(other, g, data).Ok? && Accept(rd, h, data).value.refs == Accept(other, g, data).value.refs
    ensures KeepsRemembered(Accept(rd, h, data).value.events, Accept(other, g, data).value.events, |h.refs| + 1)
  {
    var e := rd.parse(data).value.event;
    if Grounded(h.events, e) {
      StillGrounded(other, h.events, g.events, e);
    }
    hide Grounded;
    hide OneResult;
  }

  lemma ReadsOn(rd: Reader, s: seq<Bytes>, n: nat)
    requires 0 < n <= |s| && Read(rd, s[..n]).Ok?
    ensures Read(rd, s[..n - 1]).Ok? && Read(rd, s[..n]) == Accept(rd, Read(rd, s[..n - 1]).value, s[n - 1])
  {
    assert s[..n][..n - 1] == s[..n - 1];
  }

  lemma {:induction false} CommonPartIsKept(rd: Reader, other: Reader, s: seq<Bytes>, t: seq<Bytes>, n: nat)
    requires Remembers(rd, other, s, t) && n <= |s| && n <= |t| && Agree(s, t)
    requires Read(rd, s[..n]).Ok? && Read(other, t[..n]).Ok?
    ensures Read(rd, s[..n]).value.refs == Read(other, t[..n]).value.refs
    ensures KeepsRemembered(Read(rd, s[..n]).value.events, Read(other, t[..n]).value.events, n)
  {
    if n > 0 {
      assert s[n - 1] == t[n - 1];
      RemembersAt(rd, other, s, t, n - 1);
      hide *;
      ReadsOn(rd, s, n);
      ReadsOn(other, t, n);
      CommonPartIsKept(rd, other, s, t, n - 1);
      ReadIsOrdered(rd, s[..n - 1]);
      ReadIsSound(other, t[..n - 1]);
      AcceptKeeps(rd, other, Read(rd, s[..n - 1]).value, Read(other, t[..n - 1]).value, s[n - 1]);
    }
  }

  lemma RemembersAt(rd: Reader, other: Reader, s: seq<Bytes>, t: seq<Bytes>, i: nat)
    requires Remembers(rd, other, s, t) && i < |s| && i < |t| && s[i] == t[i]
    ensures other.parse == rd.parse && other.hash == rd.hash && OneResult(other)
    ensures rd.parse(s[i]).Some? ==>
              var e := rd.parse(s[i]).value.event;
              e.sequence == i + 1 && rd.sound(e) && !e.kind.Indeterminate? ==> other.sound(e)
  {
  }

  /** Of the files the second store still has, every remembered event is read again. */
  lemma RememberedIsKept(rd: Reader, other: Reader, s: seq<Bytes>, t: seq<Bytes>)
    requires Remembers(rd, other, s, t) && Agree(s, t) && Read(rd, s).Ok? && Read(other, t).Ok?
    ensures KeepsRemembered(Read(rd, s).value.events, Read(other, t).value.events, |t|)
    ensures var r, q := Read(rd, s).value.refs, Read(other, t).value.refs;
      |r| == |s| && |q| == |t| && (r <= q || q <= r)
  {
    hide Remembers;
    hide Read;
    var n := if |s| <= |t| then |s| else |t|;
    PrefixReads(rd, s, n);
    PrefixReads(other, t, n);
    CommonPartIsKept(rd, other, s, t, n);
    ReadIsOrdered(rd, s);
    ReadIsOrdered(other, t);
    ReadIsOrdered(rd, s[..n]);
    ReadIsOrdered(other, t[..n]);
    if n == |s| {
      assert s[..n] == s;
    } else {
      assert t[..n] == t && s == s[..n] + s[n..];
      LaterEventsAreNew(rd, s[..n], s[n..]);
      OldEventsAreBefore(Read(rd, s[..n]).value.events, Read(rd, s).value.events, n);
    }
  }

  lemma OldEventsAreBefore(h: seq<Event>, g: seq<Event>, n: nat)
    requires h <= g && forall k :: |h| <= k < |g| ==> g[k].sequence > n
    ensures forall e :: e in g && e.sequence <= n ==> e in h
  {
    forall e | e in g && e.sequence <= n ensures e in h {
      var k :| 0 <= k < |g| && g[k] == e;
      assert h[k] == e;
    }
  }

  /** So a FAIL is lost only with its file. */
  lemma RememberedFailures(rd: Reader, other: Reader, s: seq<Bytes>, t: seq<Bytes>)
    requires Remembers(rd, other, s, t) && Agree(s, t) && Read(rd, s).Ok? && Read(other, t).Ok?
    ensures var h, g := Read(rd, s).value.events, Read(other, t).value.events;
      && (forall e :: e in h && e.result.FAIL? ==> (e in g <==> e.sequence <= |t|))
      && (|s| <= |t| ==> KeepsFailures(h, g))
  {
    RememberedIsKept(rd, other, s, t);
    ReadIsSound(rd, s);
    ReadIsOrdered(rd, s);
    ReadIsOrdered(other, t);
    hide Read;
  }

  lemma UnchangedAgrees(rd: Reader, s: seq<Bytes>, t: seq<Bytes>)
    requires Unchanged(rd.hash, s, t) && CollisionFree(rd, s, t)
    ensures Agree(s, t)
  {
    forall i | 0 <= i < |s| && i < |t| ensures s[i] == t[i] {
      assert s[i] in s && t[i] in t;
    }
  }

  /** A captured view fixes the files it was taken over, in every store that accepts it. */
  lemma CapturedFilesAreFixed(
      rd: Reader, s: seq<Bytes>, t: seq<Bytes>, captured: View, index: Option<seq<Attempt>>,
      later: Option<seq<Attempt>>)
    requires ReadHistory(rd, s, captured, index).Ok? && ReadHistory(rd, t, captured, later).Ok?
    requires CollisionFree(rd, s, t)
    ensures |captured.events| <= |s| && |captured.events| <= |t|
    ensures s[..|captured.events|] == t[..|captured.events|]
  {
    hide Read;
    var n := |captured.events|;
    ReadIsOrdered(rd, s);
    ReadIsOrdered(rd, t);
    PrefixReads(rd, s, n);
    PrefixReads(rd, t, n);
    ReadIsOrdered(rd, s[..n]);
    ReadIsOrdered(rd, t[..n]);
    assert Read(rd, s[..n]).value.refs == captured.events == Read(rd, t[..n]).value.refs;
    HeadDeterminesStore(rd, s[..n], t[..n]);
  }

  /** A barrier past an execution's PASS shuts the execution out of every later reading that keeps the events. */
  lemma BarrierHoldsInLaterReading(
      h: seq<Event>, g: seq<Event>, execution: Option<Ref>, claim: string, tool: string, i: nat, b: nat)
    requires Ordered(h) && Ordered(g) && KeepsEvents(h, g)
    requires i < b < |h| && Passes(h[i], execution) && Barrier(h[b], claim, tool)
    ensures !Eligible(g, execution, claim, tool)
  {
    assert h[i] in g && h[b] in g && h[b] in Blockers(g, claim, tool) && h[i] in Successes(g, execution);
  }

  /** So it does when the store only grew and the receipts of the events read before still check. */
  lemma BarrierHoldsWhenRechecked(
      rd: Reader, other: Reader, store: seq<Bytes>, more: seq<Bytes>, execution: Option<Ref>, claim: string,
      tool: string, i: nat, b: nat)
    requires Read(rd, store).Ok? && Read(other, store + more).Ok? && StillChecks(rd, other, store)
    requires var h := Read(rd, store).value.events;
      i < b < |h| && Passes(h[i], execution) && Barrier(h[b], claim, tool)
    ensures !Eligible(Read(other, store + more).value.events, execution, claim, tool)
  {
    RecheckedStoreKeepsEvents(rd, other, store, more);
    ReadIsOrdered(rd, store);
    ReadIsOrdered(other, store + more);
    BarrierHoldsInLaterReading(
      Read(rd, store).value.events, Read(other, store + more).value.events, execution, claim, tool, i, b);
  }

  /** In every store a readable one grows into, a barrier past an execution's PASS still shuts it out. */
  lemma BarrierHoldsInEveryGrowth(
      rd: Reader, store: seq<Bytes>, more: seq<Bytes>, execution: Option<Ref>, claim: string, tool: string,
      i: nat, b: nat)
    requires Read(rd, store + more).Ok?
    requires var h := Read(rd, store + more).value.events;
      i < b < |h| && Passes(h[i], execution) && Barrier(h[b], claim, tool) && h[b].sequence <= |store|
    ensures Read(rd, store).Ok? && !Eligible(Read(rd, store).value.events, execution, claim, tool)
    ensures !Eligible(Read(rd, store + more).value.events, execution, claim, tool)
  {
    var grown := store + more;
    assert grown[..|store|] == store;
    PrefixReads(rd, grown, |store|);
    ReadIsOrdered(rd, grown);
    ReadIsOrdered(rd, store);
    var h, g := Read(rd, store).value.events, Read(rd, grown).value.events;
    LaterEventsAreNew(rd, store, more);
    assert h == g[..|h|];
    BarrierIsPermanent(h, [], execution, claim, tool, i, b);
    assert h + [] == h;
    BarrierIsPermanent(h, g[|h|..], execution, claim, tool, i, b);
    assert g == h + g[|h|..];
  }

  /** Events read from the appended files carry the appended sequence numbers. */
  lemma {:induction false} LaterEventsAreNew(rd: Reader, store: seq<Bytes>, more: seq<Bytes>)
    requires Read(rd, store + more).Ok? && Read(rd, store).Ok?
    requires Read(rd, store).value.events <= Read(rd, store + more).value.events
    ensures var h, g := Read(rd, store).value.events, Read(rd, store + more).value.events;
      forall k :: |h| <= k < |g| ==> g[k].sequence > |store|
    decreases |more|
  {
    hide *;
    if more == [] {
      assert store + more == store;
    } else {
      var n := |more| - 1;
      assert (store + more)[..|store + more| - 1] == store + more[..n];
      PrefixReads(rd, store + more, |store| + n);
      assert (store + more[..n])[..|store|] == store;
      PrefixReads(rd, store + more[..n], |store|);
      LaterEventsAreNew(rd, store, more[..n]);
      LastEventIsNew(rd, store + more);
      NewThroughout(Read(rd, store).value.events, Read(rd, store + more[..n]).value.events,
                    Read(rd, store + more).value.events, |store|, |store + more|);
    }
  }

  lemma NewThroughout(h: seq<Event>, m: seq<Event>, g: seq<Event>, n: nat, last: nat)
    requires h <= m <= g && n < last
    requires forall k :: |h| <= k < |m| ==> m[k].sequence > n
    requires forall k :: |m| <= k < |g| ==> g[k].sequence == last
    ensures forall k :: |h| <= k < |g| ==> g[k].sequence > n
  {
  }

  /** The last file adds at most one event, with the file's number. */
  lemma LastEventIsNew(rd: Reader, store: seq<Bytes>)
    requires store != [] && Read(rd, store).Ok?
    ensures var before := Read(rd, store[..|store| - 1]); var g := Read(rd, store).value.events;
      && before.Ok? && before.value.events <= g
      && forall k :: |before.value.events| <= k < |g| ==> g[k].sequence == |store|
  {
    ReadIsOrdered(rd, store[..|store| - 1]);
    hide Grounded;
  }

  // ---- claims the policy does not name ---------------------------------

  datatype Association = Association(tool: string, state: string, blocking: seq<Event>, cutoff: nat)

  predicate Fails(h: seq<Event>, claim: string, tool: string) {
    exists e :: e in h && e.result.FAIL? && Applicable(e, claim, tool)
  }

  /** Tools the history itself associates with a claim, used when the manifest names none. */
  function MentionedTools(h: seq<Event>, claim: string): set<string> {
    set e, m | e in h && m in e.members && m.claim == claim :: m.tool
  }

  /** What the history says of one association. */
  ghost predicate Describes(a: Association, h: seq<Event>, claim: string, tool: string) {
    && a.tool == tool && a.blocking == Blockers(h, claim, tool)
    && a.cutoff == Cutoff(a.blocking)
    && (a.state == "FAIL" <==> Fails(h, claim, tool))
    && (a.state == "MISSING" <==> a.blocking == []) && a.state in {"FAIL", "ERROR", "MISSING"}
  }

  method Associate(h: seq<Event>, claim: string, tool: string) returns (a: Association)
    ensures Describes(a, h, claim, tool)
  {
    var applicable := Blockers(h, claim, tool);
    var failed := exists e :: e in applicable && e.result.FAIL?;
    a := Association(
      tool, if failed then "FAIL" else if applicable != [] then "ERROR" else "MISSING", applicable, Cutoff(applicable));
    assert failed ==> applicable != [];
  }

  ghost predicate AnyFails(h: seq<Event>, claim: string, tools: seq<string>) {
    exists t :: t in tools && Fails(h, claim, t)
  }

  function BlockingSequences(h: seq<Event>, claim: string, tools: seq<string>): set<nat> {
    set t, e | t in tools && e in h && Barrier(e, claim, t) :: e.sequence
  }

  lemma BlockingStep(h: seq<Event>, claim: string, tools: seq<string>, t: string)
    ensures BlockingSequences(h, claim, tools + [t]) ==
            BlockingSequences(h, claim, tools) + set e | e in Blockers(h, claim, t) :: e.sequence
    ensures AnyFails(h, claim, tools + [t]) <==> AnyFails(h, claim, tools) || Fails(h, claim, t)
  {
    if Fails(h, claim, t) {
      assert t in tools + [t];
    }
    if u :| u in tools && Fails(h, claim, u) {
      assert u in tools + [t];
    }
  }

  lemma NothingBlocks(h: seq<Event>, claim: string)
    ensures BlockingSequences(h, claim, []) == {} && !AnyFails(h, claim, [])
  {
  }

  lemma Described(a: Association, h: seq<Event>, claim: string, tool: string)
    requires Describes(a, h, claim, tool)
    ensures a.blocking == Blockers(h, claim, tool) && (a.state == "FAIL" <==> Fails(h, claim, tool))
  {
  }

  /**
   A claim outside the policy: history can fail it or leave it incomplete,
   never pass it. `tools` is the sorted list of its tools.
   */
  method OutsidePolicy(h: seq<Event>, claim: string, tools: seq<string>)
      returns (associations: seq<Association>, blockers: set<nat>, result: string)
    ensures |associations| == |tools|
    ensures forall i :: 0 <= i < |tools| ==> Describes(associations[i], h, claim, tools[i])
    ensures blockers == BlockingSequences(h, claim, tools)
    ensures result == if AnyFails(h, claim, tools) then "FAIL" else "INCOMPLETE"
  {
    hide Describes;
    hide BlockingSequences;
    hide AnyFails;
    NothingBlocks(h, claim);
    associations, blockers := [], {};
    var failed := false;
    for i := 0 to |tools|
      invariant |associations| == i
      invariant forall k :: 0 <= k < i ==> Describes(associations[k], h, claim, tools[k])
      invariant blockers == BlockingSequences(h, claim, tools[..i])
      invariant failed <==> AnyFails(h, claim, tools[..i])
    {
      assert tools[..i + 1] == tools[..i] + [tools[i]];
      BlockingStep(h, claim, tools[..i], tools[i]);
      var a := Associate(h, claim, tools[i]);
      Described(a, h, claim, tools[i]);
      associations := associations + [a];
      blockers := blockers + set e | e in a.blocking :: e.sequence;
      failed := failed || a.state == "FAIL";
    }
    assert tools[..|tools|] == tools;
    result := if failed then "FAIL" else "INCOMPLETE";
  }

  /** A failure outside the policy survives every later reading that keeps the FAILs of the earlier one. */
  lemma OutsideFailureIsPermanent(h: seq<Event>, g: seq<Event>, claim: string, tool: string)
    requires Fails(h, claim, tool) && KeepsFailures(h, g)
    ensures Fails(g, claim, tool) && tool in MentionedTools(g, claim)
  {
    var e :| e in h && e.result.FAIL? && Applicable(e, claim, tool);
    assert e in g;
    var m :| m in e.members && m.claim == claim && m.tool == tool;
  }
}
