/**
 Stored histories in which a recorded failure does not reach the verdict: the
 failing cases of `Failures`, each as files and receipts that a run can read.
 */
module MaskedFailures {
  import opened Basics
  import opened A = Assess
  import opened Failures
  import History
  import R = Receipts

  // ---- retained files --------------------------------------------------

  /** A committed attempt: the digits of its execution key and its own id. */
  datatype Work = Work(digits: string, attempt: string)

  /** Any digest, an attempt whose execution `x` passed, and one whose execution `y` failed. */
  datatype Scene = Scene(hash: Bytes -> string, x: Work, y: Work)

  function Key(w: Work): string {
    "sha256:" + w.digits
  }

  const FIRST_FILE: Bytes := [1]

  const SECOND_FILE: Bytes := [2]

  const THIRD_FILE: Bytes := [3]

  const LONE_FILE: Bytes := [4]

  const CITED := [History.Member("a", "r", "u")]

  const FAILING := [History.Member("b", "s", "t")]

  function PassedOnce(c: Scene): History.Event {
    History.Event(1, History.Execution, History.PASS, CITED, Some("x"), Key(c.x), c.x.attempt, None, None, None)
  }

  function PassedAgain(c: Scene): History.Event {
    PassedOnce(c).(sequence := 2)
  }

  function FailedFirst(c: Scene): History.Event {
    History.Event(1, History.Execution, History.FAIL, FAILING, Some("y"), Key(c.y), c.y.attempt, None, None, None)
  }

  function FailedLater(c: Scene): History.Event {
    FailedFirst(c).(sequence := 3)
  }

  function Parsed(c: Scene, data: Bytes): Option<History.Entry> {
    if data == FIRST_FILE then Some(History.Entry(PassedOnce(c), "1", None))
    else if data == SECOND_FILE then
      Some(History.Entry(PassedAgain(c), "2", Some(History.Reference(1, "1", c.hash(FIRST_FILE)))))
    else if data == THIRD_FILE then
      Some(History.Entry(FailedLater(c), "3", Some(History.Reference(2, "2", c.hash(SECOND_FILE)))))
    else if data == LONE_FILE then Some(History.Entry(FailedFirst(c), "4", None))
    else None
  }

  function Refs(c: Scene): seq<History.Reference> {
    [History.Reference(1, "1", c.hash(FIRST_FILE)), History.Reference(2, "2", c.hash(SECOND_FILE)),
     History.Reference(3, "3", c.hash(THIRD_FILE))]
  }

  const NOTHING_CAPTURED := History.View(None, [])

  /** The attempts in the execution index. */
  function Attempts(works: seq<Work>): seq<History.Attempt> {
    seq(|works|, i requires 0 <= i < |works| => History.Attempt(works[i].digits, works[i].attempt))
  }

  // ---- receipts --------------------------------------------------------

  const RULES := R.Rules(ref => ref, (_, _, _) => false, (_, _, _) => None)

  const NOTHING_READ := R.Memory(map[], map[])

  function ArtifactOf(c: Scene, ref: Ref): Option<R.Artifact> {
    if ref == "x" then Some(R.Artifact(Key(c.x), c.x.attempt, CITED, History.PASS))
    else if ref == "y" then Some(R.Artifact(Key(c.y), c.y.attempt, FAILING, History.FAIL))
    else None
  }

  function Files(c: Scene): R.World {
    R.World(ref => ArtifactOf(c, ref), _ => None, _ => false, _ => false)
  }

  /** The run as a reader of the store, from what it remembers. */
  function Run(c: Scene, m: R.Memory, store: seq<Bytes>): History.Reader {
    R.Judging(RULES, m, _ => Files(c), data => Parsed(c, data), c.hash, store)
  }

  function After(c: Scene, store: seq<Bytes>): R.Memory {
    R.MemoryAfter(RULES, NOTHING_READ, _ => Files(c), data => Parsed(c, data), store)
  }

  /** Only these artifacts have been accepted. */
  ghost predicate Honest(c: Scene, m: R.Memory) {
    && m.checks == map[]
    && forall p :: p in m.artifacts ==> m.artifacts[p].0 == p && ArtifactOf(c, p) == Some(m.artifacts[p].1)
  }

  lemma EventStaysHonest(c: Scene, m: R.Memory, e: History.Event)
    requires Honest(c, m)
    ensures Honest(c, R.HistoryEvent(RULES, m, Files(c), e).1)
  {
    hide ArtifactOf;
  }

  lemma {:induction false} StaysHonest(c: Scene, m: R.Memory, store: seq<Bytes>)
    requires Honest(c, m)
    ensures Honest(c, R.MemoryAfter(RULES, m, _ => Files(c), data => Parsed(c, data), store))
  {
    if store != [] {
      var n := |store| - 1;
      StaysHonest(c, m, store[..n]);
      hide Honest;
      hide R.HistoryEvent;
      if Parsed(c, store[n]).Some? {
        EventStaysHonest(c, R.MemoryAfter(RULES, m, _ => Files(c), data => Parsed(c, data), store[..n]),
                         Parsed(c, store[n]).value.event);
      }
    }
  }

  lemma AcceptsEvent(c: Scene, m: R.Memory, data: Bytes)
    requires Honest(c, m) && Parsed(c, data).Some?
    ensures R.HistoryEvent(RULES, m, Files(c), Parsed(c, data).value.event).0
  {
  }

  /** The run accepts each of these events at its place. */
  lemma Accepts(c: Scene, m: R.Memory, store: seq<Bytes>, i: nat)
    requires Honest(c, m) && i < |store| && Parsed(c, store[i]).Some?
    requires Parsed(c, store[i]).value.event.sequence == i + 1
    ensures Run(c, m, store).sound(Parsed(c, store[i]).value.event)
    ensures Run(c, m, store).parse(store[i]) == Parsed(c, store[i]) && Run(c, m, store).hash == c.hash
  {
    StaysHonest(c, m, store[..i]);
    AcceptsEvent(c, R.MemoryAfter(RULES, m, _ => Files(c), data => Parsed(c, data), store[..i]), store[i]);
    hide R.HistoryEvent;
    hide Honest;
    hide Parsed;
  }

  // ---- what is read ----------------------------------------------------

  /** Reading one more file of a chain, whose event is an execution's and is accepted. */
  lemma OneMore(rd: History.Reader, store: seq<Bytes>, data: Bytes, e: History.Entry, refs: seq<History.Reference>)
    requires History.Read(rd, store).Ok? && rd.parse(data) == Some(e) && e.event.kind.Execution? && rd.sound(e.event)
    requires var r := History.Read(rd, store).value;
      && e.event.sequence == |r.refs| + 1 && e.previous == History.Last(r.refs)
      && refs == r.refs + [History.Reference(e.event.sequence, e.id, rd.hash(data))]
    ensures var r := History.Read(rd, store).value;
      History.Read(rd, store + [data]) == Ok(History.Reading(refs, r.events + [e.event], r.errors))
  {
    assert (store + [data])[..|store|] == store;
  }

  lemma FilesDiffer()
    ensures FIRST_FILE != SECOND_FILE && FIRST_FILE != THIRD_FILE && SECOND_FILE != THIRD_FILE
    ensures LONE_FILE != FIRST_FILE && LONE_FILE != SECOND_FILE && LONE_FILE != THIRD_FILE
  {
    assert FIRST_FILE[0] == 1 && SECOND_FILE[0] == 2 && THIRD_FILE[0] == 3 && LONE_FILE[0] == 4;
  }

  lemma Starts(rd: History.Reader, data: Bytes, e: History.Entry, refs: seq<History.Reference>)
    requires rd.parse(data) == Some(e) && e.event.kind.Execution? && rd.sound(e.event)
    requires e.event.sequence == 1 && e.previous == None && refs == [History.Reference(1, e.id, rd.hash(data))]
    ensures History.Read(rd, [data]) == Ok(History.Reading(refs, [e.event], 0))
  {
    var none: seq<Bytes> := [];
    assert none + [data] == [data];
    OneMore(rd, none, data, e, refs);
    var before: seq<History.Event> := [];
    assert before + [e.event] == [e.event];
  }

  lemma ReadsOneFile(c: Scene, m: R.Memory, store: seq<Bytes>)
    requires Honest(c, m) && |store| >= 1 && store[0] == FIRST_FILE
    ensures History.Read(Run(c, m, store), [FIRST_FILE]) == Ok(History.Reading(Refs(c)[..1], [PassedOnce(c)], 0))
  {
    Accepts(c, m, store, 0);
    hide Run;
    Starts(Run(c, m, store), FIRST_FILE, Parsed(c, FIRST_FILE).value, Refs(c)[..1]);
  }

  const THREE_FILES := [FIRST_FILE, SECOND_FILE, THIRD_FILE]

  function ThreeEvents(c: Scene): seq<History.Event> {
    [PassedOnce(c), PassedAgain(c), FailedLater(c)]
  }

  lemma ReadsThreeFiles(c: Scene, m: R.Memory)
    requires Honest(c, m)
    ensures History.Read(Run(c, m, THREE_FILES), THREE_FILES) == Ok(History.Reading(Refs(c), ThreeEvents(c), 0))
  {
    FilesDiffer();
    var store := THREE_FILES;
    var rd := Run(c, m, store);
    ReadsOneFile(c, m, store);
    Accepts(c, m, store, 1);
    Accepts(c, m, store, 2);
    hide Run;
    hide History.Read;
    OneMore(rd, [FIRST_FILE], SECOND_FILE, Parsed(c, SECOND_FILE).value, Refs(c)[..2]);
    assert [FIRST_FILE] + [SECOND_FILE] == [FIRST_FILE, SECOND_FILE];
    assert [PassedOnce(c)] + [PassedAgain(c)] == [PassedOnce(c), PassedAgain(c)];
    OneMore(rd, [FIRST_FILE, SECOND_FILE], THIRD_FILE, Parsed(c, THIRD_FILE).value, Refs(c));
    assert [FIRST_FILE, SECOND_FILE] + [THIRD_FILE] == THREE_FILES;
    assert [PassedOnce(c), PassedAgain(c)] + [FailedLater(c)] == ThreeEvents(c);
  }

  /** A reading that accounts for the whole execution index. */
  lemma ReadsHistory(rd: History.Reader, store: seq<Bytes>, index: seq<History.Attempt>)
    requires History.Read(rd, store).Ok?
    requires forall a :: a in index ==> History.Accounted(History.Read(rd, store).value.events, a)
    ensures History.ReadHistory(rd, store, NOTHING_CAPTURED, Some(index)) == History.Read(rd, store)
  {
    hide History.Read;
  }

  lemma Accounts(works: seq<Work>, events: seq<History.Event>)
    requires forall w :: w in works ==>
      exists e :: e in events && e.execution.Some? && e.key == Key(w) && e.attempt == w.attempt
    ensures forall a :: a in Attempts(works) ==> History.Accounted(events, a)
  {
    forall a | a in Attempts(works) ensures History.Accounted(events, a) {
      var i :| 0 <= i < |works| && Attempts(works)[i] == a;
      var w := works[i];
      assert w in works;
      var e :| e in events && e.execution.Some? && e.key == Key(w) && e.attempt == w.attempt;
      assert ("sha256:" + w.digits)[7..] == w.digits;
      assert History.AccountsFor(e, a);
    }
  }

  /** The history of the three files, with both attempts in the execution index. */
  lemma ReadsAll(c: Scene, m: R.Memory)
    requires Honest(c, m)
    ensures History.ReadHistory(Run(c, m, THREE_FILES), THREE_FILES, NOTHING_CAPTURED, Some(Attempts([c.x, c.y]))) ==
            Ok(History.Reading(Refs(c), ThreeEvents(c), 0))
  {
    ReadsThreeFiles(c, m);
    var h := ThreeEvents(c);
    assert h[0] in h && h[2] in h;
    Accounts([c.x, c.y], h);
    hide Run;
    hide History.Read;
    hide Attempts;
    ReadsHistory(Run(c, m, THREE_FILES), THREE_FILES, Attempts([c.x, c.y]));
  }

  lemma ReadsFirst(c: Scene)
    ensures History.ReadHistory(Run(c, NOTHING_READ, [FIRST_FILE]), [FIRST_FILE], NOTHING_CAPTURED,
                                Some(Attempts([c.x]))) ==
            Ok(History.Reading(Refs(c)[..1], [PassedOnce(c)], 0))
  {
    ReadsOneFile(c, NOTHING_READ, [FIRST_FILE]);
    var h := [PassedOnce(c)];
    assert h[0] in h;
    Accounts([c.x], h);
    hide Run;
    hide History.Read;
    hide Attempts;
    ReadsHistory(Run(c, NOTHING_READ, [FIRST_FILE]), [FIRST_FILE], Attempts([c.x]));
  }

  // ---- two claims ------------------------------------------------------

  const NO_CHECKS := Checks(true, true, None, None, None, true, Off)

  /** Claim `a` cites the execution that passed; the slot of claim `b` cites none. */
  const CITING := ClaimInput("a", true, Incomplete,
    [SlotInput("u", Some(SavedSlot(PASS, Some("x"), None, PASS, [])), NO_CHECKS)])

  const MISSED := ClaimInput("b", true, Incomplete,
    [SlotInput("t", Some(SavedSlot(MISSING, None, None, MISSING, [])), NO_CHECKS)])

  lemma DoubledAndCondemned(c: Scene)
    ensures var h := ThreeEvents(c);
      && History.Doubled(h, SavedExecution(Readable(CITING)[0]))
      && Condemned(h, MISSED.claim, Readable(MISSED)[0])
  {
    var h := ThreeEvents(c);
    assert History.Passes(h[0], Some("x")) && History.Passes(h[1], Some("x"));
    assert History.Member("b", "s", "t") in FAILING;
    assert h[2] in h && History.Applicable(h[2], "b", "t");
    History.NoneKept(h, (e: History.Event) => History.Passes(e, None));
    assert History.Successes(h, None) == [];
  }

  lemma NotDoubledYet(c: Scene, execution: Option<Ref>)
    ensures !History.Doubled([PassedOnce(c)], execution)
  {
  }

  lemma Blocked(h: seq<History.Event>, claims: seq<ClaimInput>)
    requires |claims| == 2 && |claims[0].slots| == 1 && |claims[1].slots| == 1
    requires History.Doubled(h, SavedExecution(Readable(claims[0])[0]))
    ensures !ReachedIn(h, claims, 1, 0)
  {
    hide History.Doubled;
    hide Readable;
  }

  /** Only claim `b` is required, and it has one slot. */
  lemma OnlySlot(input: Input, m: nat, n: nat)
    requires input.claims == [CITING, MISSED] && input.required == {"b"}
    requires m < 2 && n < |input.claims[m].slots| && input.claims[m].claim in input.required
    ensures m == 1 && n == 0
  {
  }

  // ---- a doubled execution in the first read ---------------------------

  /**
   Claim `a` cites an execution with two recorded PASSes, and the FAIL recorded
   for `b`, which alone is required, ends as an ERROR.
   */
  lemma DuplicateMasksFailure(other: Input, c: Scene) returns (input: Input)
    ensures !input.early && input.claims == [CITING, MISSED] && input.required == {MISSED.claim}
    ensures History.ReadHistory(Run(c, NOTHING_READ, THREE_FILES), THREE_FILES, NOTHING_CAPTURED,
                                Some(Attempts([c.x, c.y]))) == Ok(input.first)
    ensures History.Doubled(input.first.events, SavedExecution(Readable(CITING)[0]))
    ensures Condemned(input.first.events, MISSED.claim, Readable(MISSED)[0])
    ensures Assess(input).code == 2
  {
    ReadsAll(c, NOTHING_READ);
    var h := ThreeEvents(c);
    input := other.(early := false, claims := [CITING, MISSED], outside := [], required := {"b"},
                    first := History.Reading(Refs(c), h, 0));
    DoubledAndCondemned(c);
    Blocked(h, input.claims);
    hide *;
    OnlyB(input);
    FailureShowsIffReached(input, 1, 0);
  }

  lemma OnlyB(input: Input)
    requires input.claims == [CITING, MISSED] && input.outside == [] && input.required == {"b"}
    ensures OnlyFailure(input, 1, 0)
  {
    hide ShownFail;
    forall m: nat, n: nat | ShownFail(input, m, n)
      ensures m < |input.claims| && (input.claims[m].claim in input.required ==> m == 1 && n == 0)
    {
      ShownIsSlot(input, m, n);
      if input.claims[m].claim in input.required { OnlySlot(input, m, n); }
    }
  }

  // ---- a doubled execution in the second read --------------------------

  /**
   The same when the second PASS and the FAIL arrive between the two reads, in a
   store that only grew: no execution is doubled in the first read, and the FAIL
   in the last history ends as an ERROR.
   */
  lemma LastDuplicateMasksFailure(other: Input, c: Scene) returns (input: Input)
    ensures !input.early && input.claims == [CITING, MISSED] && input.required == {MISSED.claim}
    ensures ReadInOneRun(input, Run(c, NOTHING_READ, [FIRST_FILE]), Run(c, After(c, [FIRST_FILE]), THREE_FILES),
                         [FIRST_FILE], THREE_FILES, NOTHING_CAPTURED,
                         Some(Attempts([c.x])), Some(Attempts([c.x, c.y])))
    ensures forall execution :: !History.Doubled(input.first.events, execution)
    ensures SecondPass(input) && History.Doubled(input.second.value.events, SavedExecution(Readable(CITING)[0]))
    ensures Condemned(input.second.value.events, MISSED.claim, Readable(MISSED)[0])
    ensures Assess(input).code == 2
  {
    input := GrowingInput(other, c);
    GrowingReads(other, c);
    GrowingEvents(other, c);
    OnlyBLater(c, input);
    hide *;
    LastFailureShowsIffReached(input, 1, 0);
  }

  function GrowingInput(other: Input, c: Scene): Input {
    other.(early := false, claims := [CITING, MISSED], outside := [], required := {"b"}, captured := 0,
           first := History.Reading(Refs(c)[..1], [PassedOnce(c)], 0),
           second := Ok(History.Reading(Refs(c), ThreeEvents(c), 0)))
  }

  lemma GrowingReads(other: Input, c: Scene)
    ensures ReadInOneRun(
              GrowingInput(other, c), Run(c, NOTHING_READ, [FIRST_FILE]), Run(c, After(c, [FIRST_FILE]), THREE_FILES),
              [FIRST_FILE], THREE_FILES, NOTHING_CAPTURED, Some(Attempts([c.x])), Some(Attempts([c.x, c.y])))
  {
    ReadsFirst(c);
    StaysHonest(c, NOTHING_READ, [FIRST_FILE]);
    ReadsAll(c, After(c, [FIRST_FILE]));
    hide Run;
    hide Attempts;
    hide History.ReadHistory;
    OneRun(c, GrowingInput(other, c), [FIRST_FILE], THREE_FILES, Some(Attempts([c.x])), Some(Attempts([c.x, c.y])));
  }

  lemma GrowingEvents(other: Input, c: Scene)
    ensures var input := GrowingInput(other, c);
      && (forall execution :: !History.Doubled(input.first.events, execution))
      && SecondPass(input) && History.Doubled(input.second.value.events, SavedExecution(Readable(CITING)[0]))
      && Condemned(input.second.value.events, MISSED.claim, Readable(MISSED)[0])
      && !ReachedIn(input.second.value.events, input.claims, 1, 0)
  {
    var input := GrowingInput(other, c);
    assert |input.first.refs| == 1 && |input.second.value.refs| == 3;
    forall execution ensures !History.Doubled(input.first.events, execution) {
      NotDoubledYet(c, execution);
    }
    DoubledAndCondemned(c);
    Blocked(ThreeEvents(c), input.claims);
    FoldsClear(input);
    hide History.Doubled;
    hide Condemned;
    hide FoldClaims;
    hide ReachedIn;
  }

  /** The two reads are made by one run, which remembers what it accepted in the first. */
  lemma OneRun(
      c: Scene, input: Input, s: seq<Bytes>, t: seq<Bytes>, index: Option<seq<History.Attempt>>,
      later: Option<seq<History.Attempt>>)
    requires History.Agree(s, t)
    requires History.ReadHistory(Run(c, NOTHING_READ, s), s, NOTHING_CAPTURED, index) == Ok(input.first)
    requires History.ReadHistory(Run(c, After(c, s), t), t, NOTHING_CAPTURED, later) == input.second
    ensures ReadInOneRun(input, Run(c, NOTHING_READ, s), Run(c, After(c, s), t), s, t, NOTHING_CAPTURED, index, later)
  {
    R.OneRunRemembers(RULES, data => Parsed(c, data), c.hash, NOTHING_READ, _ => Files(c), s,
                      After(c, s), _ => Files(c), t);
    hide History.ReadHistory;
    hide History.Remembers;
  }

  lemma FoldsClear(input: Input)
    requires forall execution :: !History.Doubled(input.first.events, execution)
    ensures FoldClaims(input.first.events, input.captured, input.claims).ok
  {
    FoldOkIff(input.first.events, input.captured, input.claims);
    hide History.Doubled;
  }

  lemma NothingShown(c: Scene, input: Input)
    requires input.claims == [CITING, MISSED] && input.captured == 0 && input.first.events == [PassedOnce(c)]
    ensures !ShownFail(input, 1, 0)
  {
    var h := input.first.events;
    assert Readable(MISSED)[0] == MISSED.slots[0];
    assert CITED[0].claim == "a" && "a" != "b";
    History.NoneKept(h, (e: History.Event) => History.Barrier(e, "b", "t"));
    History.NoneKept(h, (e: History.Event) => e.sequence <= 0 && History.Barrier(e, "b", "t"));
    assert History.Blockers(h, "b", "t") == [];
  }

  lemma OnlyBLater(c: Scene, input: Input)
    requires input.claims == [CITING, MISSED] && input.outside == [] && input.required == {"b"}
    requires input.captured == 0 && input.first.events == [PassedOnce(c)]
    ensures OnlyLastFailure(input, 1, 0)
  {
    NothingShown(c, input);
    hide ShownFail;
    hide FoundAgain;
    forall m: nat, n: nat | ShownFail(input, m, n) ensures input.claims[m].claim !in input.required {
      ShownIsSlot(input, m, n);
    }
    forall m: nat, n: nat | FoundAgain(input, m, n) && input.claims[m].claim in input.required
      ensures m == 1 && n == 0
    {
      FoundIsSlot(input, m, n);
      OnlySlot(input, m, n);
    }
  }

  // ---- a failure outside the policy that the second read loses ---------

  /**
   The file that records a failure outside the policy is gone at the second read
   of one run: its FAIL ends as an ERROR.
   */
  lemma LostFileMasksFailure(other: Input, c: Scene) returns (input: Input)
    ensures !input.early && input.outside == ["b"] && input.required == {"b"}
    ensures ReadInOneRun(input, Run(c, NOTHING_READ, [LONE_FILE]), Run(c, After(c, [LONE_FILE]), []),
                         [LONE_FILE], [], NOTHING_CAPTURED, Some(Attempts([c.y])), Some(Attempts([c.y])))
    ensures FailsOutside(input, input.first.events, 0)
    ensures Assess(input).code == 2
  {
    var store, none: seq<Bytes> := [LONE_FILE], [];
    var index := Some(Attempts([c.y]));
    ReadsLoneFile(c);
    LosesLoneFile(c);
    input := other.(early := false, claims := [], outside := ["b"], required := {"b"},
                    first := History.Reading([History.Reference(1, "4", c.hash(LONE_FILE))], [FailedFirst(c)], 0),
                    second := History.ReadHistory(Run(c, After(c, store), none), none, NOTHING_CAPTURED, index),
                    canonical := (claim: string) => []);
    OneRun(c, input, store, none, index, index);
    OutsideBefore(c);
    hide Run;
    hide History.ReadHistory;
    hide Attempts;
    NothingStops(input);
    OnlyClaim(input);
    hide *;
    var rd, again := Run(c, NOTHING_READ, store), Run(c, After(c, store), none);
    OutsideFailureShowsInOneRunIff(input, rd, again, store, none, NOTHING_CAPTURED, index, index, 0);
    LostPast(input, c);
    ErrorUnlessFailed(input);
  }

  lemma ReadsLoneFile(c: Scene)
    ensures History.ReadHistory(Run(c, NOTHING_READ, [LONE_FILE]), [LONE_FILE], NOTHING_CAPTURED,
                                Some(Attempts([c.y]))) ==
            Ok(History.Reading([History.Reference(1, "4", c.hash(LONE_FILE))], [FailedFirst(c)], 0))
  {
    FilesDiffer();
    var store := [LONE_FILE];
    var rd := Run(c, NOTHING_READ, store);
    Accepts(c, NOTHING_READ, store, 0);
    hide Run;
    Starts(rd, LONE_FILE, Parsed(c, LONE_FILE).value, [History.Reference(1, "4", c.hash(LONE_FILE))]);
    var h := [FailedFirst(c)];
    assert h[0] in h;
    Accounts([c.y], h);
    hide History.Read;
    hide Attempts;
    ReadsHistory(rd, store, Attempts([c.y]));
  }

  /** Without the file the attempt in the index is unaccounted for. */
  lemma LosesLoneFile(c: Scene)
    ensures var r := History.ReadHistory(
        Run(c, After(c, [LONE_FILE]), []), [], NOTHING_CAPTURED, Some(Attempts([c.y])));
      r.Ok? && r.value.refs == [] && r.value.events == [] && r.value.errors > 0
  {
    var index := Attempts([c.y]);
    assert index[0] in index && !History.Accounted([], index[0]);
    hide Run;
  }

  lemma OutsideBefore(c: Scene)
    ensures OutsideResult([FailedFirst(c)], "b", []) == Failed
  {
    var h := [FailedFirst(c)];
    assert History.Member("b", "s", "t") in FAILING && h[0] in h && History.Applicable(h[0], "b", "t");
    OutsideFailsIff(h, "b", []);
    assert History.Fails(h, "b", "t");
  }

  /** With no policy claims nothing stops a run whose second read goes through. */
  lemma NothingStops(input: Input)
    requires input.claims == [] && input.second.Ok?
    ensures !Stopped(input)
  {
    StoppedIff(input);
    hide Stopped;
  }

  lemma OnlyClaim(input: Input)
    requires input.claims == [] && |input.outside| == 1
    ensures OnlyOutsideFailure(input, 0)
  {
  }

  lemma LostPast(input: Input, c: Scene)
    requires input.first.events == [FailedFirst(c)] && input.second.Ok? && input.second.value.events == []
    ensures forall e :: e in input.first.events ==> e.sequence > 0
    ensures forall e :: e !in input.second.value.events
  {
  }

  /** A run whose second read reported errors is an ERROR if it is not FAILED. */
  lemma ErrorUnlessFailed(input: Input)
    requires input.second.Ok? && input.second.value.errors > 0 && Assess(input).code != 1
    ensures Assess(input).code == 2
  {
    hide FoldClaims;
    hide RereadRows;
    hide Propagate;
    hide RequiredFails;
  }
}
