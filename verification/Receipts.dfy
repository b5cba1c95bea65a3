/**
 The receipts behind history events, as one run checks them: what it has
 accepted it keeps and does not read again, whatever becomes of the files.
 */
module Receipts {
  import opened Basics
  import History

  type Ref = History.Ref

  datatype Artifact = Artifact(key: string, attempt: string, members: seq<History.Member>, result: History.State)

  /** One slot of an observation request. */
  datatype Asked = Asked(slot: string, tool: string, execution: Ref)

  datatype Receipt = Receipt(claim: string, asked: seq<Asked>)

  /**
   What receipts say by their own content: where a reference points, whether a
   requested slot fits its execution, and the outcome an observation has for a
   slot of an execution, `None` where working it out raises.
   */
  datatype Rules = Rules(
    path: Ref -> string, fits: (Receipt, Asked, Artifact) -> bool,
    outcome: (Receipt, string, Option<Artifact>) -> Option<History.State>)

  /**
   What validating files gives while one event is checked: an execution's
   artifact, an observation's request and the rest of its receipt, and whether
   the owner that an indeterminate event names holds its pending result.
   */
  datatype World = World(
    artifact: Ref -> Option<Artifact>, receipt: Ref -> Option<Receipt>, answered: Ref -> bool,
    owned: History.Event -> bool)

  /** The receipts accepted so far, under their paths. */
  datatype Memory = Memory(artifacts: map<string, (Ref, Artifact)>, checks: map<string, (Ref, Receipt)>)

  // ---- checking one event ----------------------------------------------

  /** `_execution` */
  function Execution(r: Rules, m: Memory, w: World, ref: Ref): (Option<Artifact>, Memory) {
    var p := r.path(ref);
    if p in m.artifacts then (if m.artifacts[p].0 == ref then Some(m.artifacts[p].1) else None, m)
    else
      var found := w.artifact(ref);
      if found.None? then (None, m) else (found, m.(artifacts := m.artifacts[p := (ref, found.value)]))
  }

  /** The first `n` requested slots: each execution passed and fits. */
  function Slots(r: Rules, m: Memory, w: World, x: Receipt, n: nat): (bool, Memory)
    requires n <= |x.asked|
  {
    if n == 0 then (true, m)
    else
      var (ok, before) := Slots(r, m, w, x, n - 1);
      if !ok then (false, before)
      else
        var (found, after) := Execution(r, before, w, x.asked[n - 1].execution);
        (found.Some? && found.value.result.PASS? && r.fits(x, x.asked[n - 1], found.value), after)
  }

  /** `_observation` */
  function Observation(r: Rules, m: Memory, w: World, ref: Ref): (Option<Receipt>, Memory) {
    var p := r.path(ref);
    if p in m.checks then (if m.checks[p].0 == ref then Some(m.checks[p].1) else None, m)
    else
      var x := w.receipt(ref);
      if x.None? then (None, m)
      else
        var (ok, after) := Slots(r, m, w, x.value, |x.value.asked|);
        if !ok || !w.answered(ref) then (None, after)
        else (x, after.(checks := after.checks[p := (ref, x.value)]))
  }

  /** The artifact is the one the event was recorded for. */
  predicate Names(a: Artifact, e: History.Event) {
    a.key == e.key && a.attempt == e.attempt && a.members == e.members
  }

  predicate ExecutionFits(e: History.Event, found: Option<Artifact>) {
    && e.claim.None? && e.slot.None? && e.observation.None?
    && (e.execution.Some? || !e.result.PASS?)
    && (found.Some? ==> found.value.result == e.result)
  }

  function MembersOf(members: seq<History.Member>, e: History.Event): seq<History.Member> {
    if members == [] then []
    else
      (if e.claim == Some(members[0].claim) && e.slot == Some(members[0].slot) then [members[0]] else [])
      + MembersOf(members[1..], e)
  }

  function SlotsOf(asked: seq<Asked>, e: History.Event): seq<Asked> {
    if asked == [] then []
    else (if e.slot == Some(asked[0].slot) then [asked[0]] else []) + SlotsOf(asked[1..], e)
  }

  predicate ReceiptFits(r: Rules, x: Receipt, e: History.Event, selected: History.Member, found: Option<Artifact>) {
    var slots := SlotsOf(x.asked, e);
    && e.claim == Some(x.claim) && |slots| == 1
    && e.execution == Some(slots[0].execution) && slots[0].tool == selected.tool
    && r.outcome(x, selected.slot, found) == Some(e.result)
  }

  /** `_history_event`: whether the event is accepted, and what is remembered then. */
  function HistoryEvent(r: Rules, m: Memory, w: World, e: History.Event): (bool, Memory) {
    var (found, before) := if e.execution.Some? then Execution(r, m, w, e.execution.value) else (None, m);
    if e.execution.Some? && (found.None? || !Names(found.value, e)) then (false, before)
    else
      match e.kind
      case Execution => (ExecutionFits(e, found), before)
      case Observation =>
        var selected := MembersOf(e.members, e);
        if |selected| != 1 || (e.observation.None? && e.result.PASS?) then (false, before)
        else if e.observation.None? then (true, before)
        else
          var (x, after) := Observation(r, before, w, e.observation.value);
          (x.Some? && ReceiptFits(r, x.value, e, selected[0], found), after)
      case Indeterminate =>
        ((e.result.ERROR? || e.result.CANCELLED?) && e.observation.None? && w.owned(e), before)
  }

  // ---- nothing is forgotten --------------------------------------------

  ghost predicate Extends(m: Memory, n: Memory) {
    && (forall p :: p in m.artifacts ==> p in n.artifacts && n.artifacts[p] == m.artifacts[p])
    && (forall p :: p in m.checks ==> p in n.checks && n.checks[p] == m.checks[p])
  }

  lemma ExtendsFurther(m: Memory, n: Memory, o: Memory)
    requires Extends(m, n) && Extends(n, o)
    ensures Extends(m, o)
  {
  }

  lemma ExecutionRemembers(r: Rules, m: Memory, w: World, ref: Ref)
    ensures var (found, after) := Execution(r, m, w, ref);
      && Extends(m, after)
      && (found.Some? ==> r.path(ref) in after.artifacts && after.artifacts[r.path(ref)] == (ref, found.value))
  {
  }

  lemma {:induction false} SlotsRemember(r: Rules, m: Memory, w: World, x: Receipt, n: nat)
    requires n <= |x.asked|
    ensures Extends(m, Slots(r, m, w, x, n).1)
  {
    if n > 0 {
      SlotsRemember(r, m, w, x, n - 1);
      var before := Slots(r, m, w, x, n - 1).1;
      ExecutionRemembers(r, before, w, x.asked[n - 1].execution);
      ExtendsFurther(m, before, Slots(r, m, w, x, n).1);
    }
  }

  lemma ObservationRemembers(r: Rules, m: Memory, w: World, ref: Ref)
    ensures var (x, after) := Observation(r, m, w, ref);
      && Extends(m, after)
      && (x.Some? ==> r.path(ref) in after.checks && after.checks[r.path(ref)] == (ref, x.value))
  {
    var x := w.receipt(ref);
    if x.Some? {
      SlotsRemember(r, m, w, x.value, |x.value.asked|);
    }
    hide Slots;
  }

  lemma EventRemembers(r: Rules, m: Memory, w: World, e: History.Event)
    ensures Extends(m, HistoryEvent(r, m, w, e).1)
    ensures e.execution.Some? ==> Extends(Execution(r, m, w, e.execution.value).1, HistoryEvent(r, m, w, e).1)
  {
    var before := if e.execution.Some? then Execution(r, m, w, e.execution.value).1 else m;
    if e.execution.Some? {
      ExecutionRemembers(r, m, w, e.execution.value);
    }
    if e.observation.Some? {
      ObservationRemembers(r, before, w, e.observation.value);
      ExtendsFurther(m, before, Observation(r, before, w, e.observation.value).1);
    }
    hide Execution;
    hide Observation;
    hide ReceiptFits;
    hide ExecutionFits;
    hide MembersOf;
    hide Names;
  }

  /**
   An execution or observation event that was accepted once is accepted again,
   from whatever the run has come to remember and whatever the files hold by then.
   */
  lemma AcceptedAgain(r: Rules, m: Memory, w: World, e: History.Event, later: Memory, v: World)
    requires HistoryEvent(r, m, w, e).0 && !e.kind.Indeterminate?
    requires Extends(HistoryEvent(r, m, w, e).1, later)
    ensures HistoryEvent(r, later, v, e) == (true, later)
  {
    EventRemembers(r, m, w, e);
    var after := HistoryEvent(r, m, w, e).1;
    if e.execution.Some? {
      ExecutionRemembers(r, m, w, e.execution.value);
      ExtendsFurther(Execution(r, m, w, e.execution.value).1, after, later);
      assert Execution(r, later, v, e.execution.value) == (Execution(r, m, w, e.execution.value).0, later);
    }
    var before := if e.execution.Some? then Execution(r, m, w, e.execution.value).1 else m;
    if e.kind.Observation? && e.observation.Some? {
      ObservationRemembers(r, before, w, e.observation.value);
      assert Observation(r, later, v, e.observation.value) ==
             (Observation(r, before, w, e.observation.value).0, later);
    }
    hide Execution;
    hide Observation;
    hide Extends;
    hide ReceiptFits;
    hide ExecutionFits;
    hide MembersOf;
    hide Names;
  }

  /** An accepted execution event has its artifact's result, and the artifact is remembered. */
  lemma AcceptedExecution(r: Rules, m: Memory, w: World, e: History.Event)
    requires HistoryEvent(r, m, w, e).0 && e.kind.Execution?
    ensures e.result.PASS? ==> e.execution.Some?
    ensures e.execution.Some? ==>
              var p, after := r.path(e.execution.value), HistoryEvent(r, m, w, e).1;
              p in after.artifacts && after.artifacts[p].1.result == e.result
  {
    if e.execution.Some? {
      ExecutionRemembers(r, m, w, e.execution.value);
    }
    hide Execution;
    hide Names;
  }

  // ---- reading a store -------------------------------------------------

  type Parse = Bytes -> Option<History.Entry>

  /** What is remembered once the store's events have been checked, file `i` in the world `w(i)`. */
  function MemoryAfter(r: Rules, m: Memory, w: nat -> World, parse: Parse, store: seq<Bytes>): Memory {
    if store == [] then m
    else
      var n := |store| - 1;
      var before := MemoryAfter(r, m, w, parse, store[..n]);
      var entry := parse(store[n]);
      if entry.None? then before else HistoryEvent(r, before, w(n), entry.value.event).1
  }

  /** File `i` of the store holds the event, and the run accepts it there. */
  predicate AcceptedAt(
      r: Rules, m: Memory, w: nat -> World, parse: Parse, store: seq<Bytes>, i: nat, e: History.Event)
  {
    && i < |store| && parse(store[i]).Some? && parse(store[i]).value.event == e
    && HistoryEvent(r, MemoryAfter(r, m, w, parse, store[..i]), w(i), e).0
  }

  /** The reader a run is while it reads the store: it finds an event sound if it accepts it at its place. */
  function Judging(
      r: Rules, m: Memory, w: nat -> World, parse: Parse, hash: Bytes -> string, store: seq<Bytes>): History.Reader
  {
    History.Reader(parse, hash, (e: History.Event) =>
      e.sequence >= 1 && AcceptedAt(r, m, w, parse, store, e.sequence - 1, e))
  }

  lemma {:induction false} MemoryGrows(
      r: Rules, m: Memory, w: nat -> World, parse: Parse, store: seq<Bytes>, n: nat)
    requires n <= |store|
    ensures Extends(MemoryAfter(r, m, w, parse, store[..n]), MemoryAfter(r, m, w, parse, store))
    decreases |store|
  {
    hide HistoryEvent;
    if n == |store| {
      assert store[..n] == store;
    } else {
      var k := |store| - 1;
      assert store[..k][..n] == store[..n];
      MemoryGrows(r, m, w, parse, store[..k], n);
      var before := MemoryAfter(r, m, w, parse, store[..k]);
      if parse(store[k]).Some? {
        EventRemembers(r, before, w(k), parse(store[k]).value.event);
      }
      ExtendsFurther(MemoryAfter(r, m, w, parse, store[..n]), before, MemoryAfter(r, m, w, parse, store));
    }
  }

  lemma StartRemembered(r: Rules, m: Memory, w: nat -> World, parse: Parse, store: seq<Bytes>)
    ensures Extends(m, MemoryAfter(r, m, w, parse, store))
  {
    MemoryGrows(r, m, w, parse, store, 0);
    assert store[..0] == [];
  }

  /** What an event leaves remembered where it is accepted is remembered from then on. */
  lemma AcceptedThere(r: Rules, m: Memory, w: nat -> World, parse: Parse, store: seq<Bytes>, i: nat, e: History.Event)
    requires AcceptedAt(r, m, w, parse, store, i, e)
    ensures Extends(HistoryEvent(r, MemoryAfter(r, m, w, parse, store[..i]), w(i), e).1,
                    MemoryAfter(r, m, w, parse, store))
  {
    hide HistoryEvent;
    assert store[..i + 1][..i] == store[..i];
    MemoryGrows(r, m, w, parse, store, i + 1);
  }

  /** The execution events a run accepts in a store have one result for one execution. */
  lemma JudgesOneResult(
      r: Rules, m: Memory, w: nat -> World, parse: Parse, hash: Bytes -> string, store: seq<Bytes>)
    ensures History.OneResult(Judging(r, m, w, parse, hash, store))
  {
    var rd := Judging(r, m, w, parse, hash, store);
    var all := MemoryAfter(r, m, w, parse, store);
    forall e: History.Event | rd.sound(e) && e.kind.Execution?
      ensures e.result.PASS? ==> e.execution.Some?
      ensures e.execution.Some? ==>
                var p := r.path(e.execution.value);
                p in all.artifacts && all.artifacts[p].1.result == e.result
    {
      var i := e.sequence - 1;
      AcceptedThere(r, m, w, parse, store, i, e);
      AcceptedExecution(r, MemoryAfter(r, m, w, parse, store[..i]), w(i), e);
      hide HistoryEvent;
      hide MemoryAfter;
    }
  }

  lemma IndeterminateNeverFails(r: Rules, m: Memory, w: World, e: History.Event)
    requires HistoryEvent(r, m, w, e).0 && e.kind.Indeterminate?
    ensures !e.result.FAIL?
  {
    hide Execution;
  }

  /**
   Two reads of one run: whatever the files behind the receipts hold at the
   second, and whatever the run has accepted in between, it remembers.
   */
  lemma OneRunRemembers(
      r: Rules, parse: Parse, hash: Bytes -> string, m: Memory, w: nat -> World, s: seq<Bytes>,
      between: Memory, v: nat -> World, t: seq<Bytes>)
    requires Extends(MemoryAfter(r, m, w, parse, s), between)
    ensures History.Remembers(Judging(r, m, w, parse, hash, s), Judging(r, between, v, parse, hash, t), s, t)
  {
    var rd, other := Judging(r, m, w, parse, hash, s), Judging(r, between, v, parse, hash, t);
    JudgesOneResult(r, between, v, parse, hash, t);
    hide History.OneResult;
    hide HistoryEvent;
    forall e: History.Event | rd.sound(e) && e.kind.Indeterminate? ensures !e.result.FAIL? {
      IndeterminateNeverFails(r, MemoryAfter(r, m, w, parse, s[..e.sequence - 1]), w(e.sequence - 1), e);
    }
    forall i: nat | i < |s| && i < |t| && s[i] == t[i] && parse(s[i]).Some?
      ensures var e := parse(s[i]).value.event;
        e.sequence == i + 1 && rd.sound(e) && !e.kind.Indeterminate? ==> other.sound(e)
    {
      var e := parse(s[i]).value.event;
      if e.sequence == i + 1 && rd.sound(e) && !e.kind.Indeterminate? {
        StillAccepted(r, parse, m, w, s, between, v, t, e);
      }
    }
  }

  lemma StillAccepted(
      r: Rules, parse: Parse, m: Memory, w: nat -> World, s: seq<Bytes>,
      between: Memory, v: nat -> World, t: seq<Bytes>, e: History.Event)
    requires Extends(MemoryAfter(r, m, w, parse, s), between)
    requires e.sequence >= 1 && AcceptedAt(r, m, w, parse, s, e.sequence - 1, e) && !e.kind.Indeterminate?
    requires e.sequence <= |t| && s[e.sequence - 1] == t[e.sequence - 1]
    ensures AcceptedAt(r, between, v, parse, t, e.sequence - 1, e)
  {
    var k := e.sequence - 1;
    AcceptedThere(r, m, w, parse, s, k, e);
    StartRemembered(r, between, v, parse, t[..k]);
    var before, again := MemoryAfter(r, m, w, parse, s[..k]), MemoryAfter(r, between, v, parse, t[..k]);
    var after := HistoryEvent(r, before, w(k), e).1;
    ExtendsFurther(after, MemoryAfter(r, m, w, parse, s), between);
    ExtendsFurther(after, between, again);
    AcceptedAgain(r, before, w(k), e, again, v(k));
    hide HistoryEvent;
    hide MemoryAfter;
  }

  // ---- the reader object -----------------------------------------------

  /** A run's reader: the receipts it has accepted and the digests of the history files it has read. */
  class Reader {
    const rules: Rules
    const hash: Bytes -> string
    var artifacts: map<string, (Ref, Artifact)>
    var checks: map<string, (Ref, Receipt)>
    /** By file number, as the names in the history directory are. */
    var digests: map<nat, string>

    constructor (rules: Rules, hash: Bytes -> string)
      ensures this.rules == rules && this.hash == hash
      ensures State() == Memory(map[], map[]) && digests == map[]
    {
      this.rules, this.hash := rules, hash;
      artifacts, checks, digests := map[], map[], map[];
    }

    function State(): Memory
      reads this
    {
      Memory(artifacts, checks)
    }

    /** `_execution` */
    method FindExecution(w: World, ref: Ref) returns (found: Option<Artifact>)
      modifies this`artifacts
      ensures (found, State()) == Execution(rules, old(State()), w, ref)
    {
      var p := rules.path(ref);
      if p in artifacts {
        return if artifacts[p].0 == ref then Some(artifacts[p].1) else None;
      }
      found := w.artifact(ref);
      if found.Some? {
        artifacts := artifacts[p := (ref, found.value)];
      }
    }

    /** `_observation` */
    method FindObservation(w: World, ref: Ref) returns (found: Option<Receipt>)
      modifies this`artifacts, this`checks
      ensures (found, State()) == Observation(rules, old(State()), w, ref)
    {
      var p := rules.path(ref);
      if p in checks {
        return if checks[p].0 == ref then Some(checks[p].1) else None;
      }
      found := w.receipt(ref);
      if found.None? { return; }
      var x := found.value;
      var n := 0;
      while n < |x.asked|
        invariant 0 <= n <= |x.asked| && checks == old(checks)
        invariant Slots(rules, old(State()), w, x, n) == (true, State())
      {
        var a := FindExecution(w, x.asked[n].execution);
        n := n + 1;
        if a.None? || !a.value.result.PASS? || !rules.fits(x, x.asked[n - 1], a.value) {
          SlotsStop(rules, old(State()), w, x, n);
          return None;
        }
      }
      if !w.answered(ref) { return None; }
      checks := checks[p := (ref, x)];
    }

    /** `_history_event` */
    method CheckEvent(w: World, e: History.Event) returns (ok: bool)
      modifies this`artifacts, this`checks
      ensures (ok, State()) == HistoryEvent(rules, old(State()), w, e)
    {
      var found: Option<Artifact> := None;
      if e.execution.Some? {
        found := FindExecution(w, e.execution.value);
        if found.None? || !Names(found.value, e) { return false; }
      }
      match e.kind {
        case Execution =>
          ok := ExecutionFits(e, found);
        case Observation =>
          var selected := MembersOf(e.members, e);
          if |selected| != 1 || (e.observation.None? && e.result.PASS?) { return false; }
          if e.observation.None? { return true; }
          var x := FindObservation(w, e.observation.value);
          ok := x.Some? && ReceiptFits(rules, x.value, e, selected[0], found);
        case Indeterminate =>
          ok := (e.result.ERROR? || e.result.CANCELLED?) && e.observation.None? && w.owned(e);
      }
    }

    /** `read`, for history file `i`: refused if its digest has changed. */
    method ReadFile(i: nat, data: Bytes) returns (ok: bool)
      modifies this`digests
      ensures ok == (i !in old(digests) || old(digests)[i] == hash(data))
      ensures ok ==> digests == old(digests)[i := hash(data)]
    {
      ok := i !in digests || digests[i] == hash(data);
      if ok {
        digests := digests[i := hash(data)];
      }
    }

    /**
     The loop over the history directory. What it yields is the reading of a
     reader that finds sound what is accepted here, or a refusal if a file read
     before has changed; nothing accepted is forgotten.
     */
    method Load(parse: Parse, w: nat -> World, store: seq<Bytes>)
        returns (result: Result<History.Reading, History.HistoryError>)
      modifies this
      ensures if Intact(old(digests), hash, store)
              then result == History.Read(Judging(rules, old(State()), w, parse, hash, store), store)
              else result.Err?
      ensures result.Ok? ==>
        && State() == MemoryAfter(rules, old(State()), w, parse, store)
        && digests == Seen(old(digests), hash, store)
    {
      ghost var m, d := State(), digests;
      ghost var rd := Judging(rules, m, w, parse, hash, store);
      StartsEmpty(rd, m, d, rules, w, parse);
      assert store[..0] == [];
      hide *;
      var r := History.Reading([], [], 0);
      var i: nat := 0;
      while i < |store|
        invariant 0 <= i <= |store| && |r.refs| == i
        invariant Intact(d, hash, store[..i]) && digests == Seen(d, hash, store[..i])
        invariant History.Read(rd, store[..i]) == Ok(r)
        invariant State() == MemoryAfter(rules, m, w, parse, store[..i])
      {
        NextFile(rd, m, rules, w, parse, hash, store, i);
        NextDigest(d, hash, store, i);
        History.PrefixReads(rd, store, i + 1);
        var data := store[i];
        var same := ReadFile(i, data);
        if !same {
          return Err(History.ChangedFile);
        }
        var entry := parse(data);
        if entry.None? || entry.value.event.sequence != |r.refs| + 1 || entry.value.previous != History.Last(r.refs) {
          RefusedFile(rd, r, data);
          return Err(History.BrokenChain);
        }
        var e := entry.value.event;
        var ok := CheckEvent(w(i), e);
        AcceptedFile(rd, r, data);
        var refs := r.refs + [History.Reference(e.sequence, entry.value.id, hash(data))];
        if ok && History.Grounded(r.events, e) {
          r := History.Reading(refs, r.events + [e], r.errors);
        } else {
          r := History.Reading(refs, r.events, r.errors + 1);
        }
        i := i + 1;
      }
      assert store[..i] == store;
      return Ok(r);
    }
  }

  // ---- the digests of history files ------------------------------------

  /** No history file read before has another digest now. */
  predicate Intact(d: map<nat, string>, hash: Bytes -> string, store: seq<Bytes>) {
    forall i :: 0 <= i < |store| && i in d ==> d[i] == hash(store[i])
  }

  /** The digests once the store has been read. */
  function Seen(d: map<nat, string>, hash: Bytes -> string, store: seq<Bytes>): map<nat, string> {
    if store == [] then d else Seen(d, hash, store[..|store| - 1])[|store| - 1 := hash(store[|store| - 1])]
  }

  lemma {:induction false} SeenHolds(d: map<nat, string>, hash: Bytes -> string, store: seq<Bytes>)
    ensures var e := Seen(d, hash, store);
      && (forall i: nat :: i in e <==> i in d || i < |store|)
      && (forall i: nat :: i in e ==> e[i] == if i < |store| then hash(store[i]) else d[i])
  {
    if store != [] {
      SeenHolds(d, hash, store[..|store| - 1]);
    }
  }

  lemma NextDigest(d: map<nat, string>, hash: Bytes -> string, store: seq<Bytes>, i: nat)
    requires i < |store|
    ensures var e := Seen(d, hash, store[..i]);
      && Seen(d, hash, store[..i + 1]) == e[i := hash(store[i])]
      && (Intact(d, hash, store[..i + 1]) <==>
            Intact(d, hash, store[..i]) && (i !in e || e[i] == hash(store[i])))
      && (Intact(d, hash, store) ==> Intact(d, hash, store[..i + 1]))
  {
    assert store[..i + 1][..i] == store[..i];
    SeenHolds(d, hash, store[..i]);
    hide Seen;
    assert forall k :: 0 <= k < i ==> store[..i + 1][k] == store[..i][k];
  }

  /** A run that has read nothing of the history before refuses the second read exactly if a common file has changed. */
  lemma SecondReadIsIntact(hash: Bytes -> string, s: seq<Bytes>, t: seq<Bytes>)
    ensures Intact(Seen(map[], hash, s), hash, t) <==> History.Unchanged(hash, s, t)
  {
    SeenHolds(map[], hash, s);
    hide Seen;
  }

  lemma RefusedFile(rd: History.Reader, r: History.Reading, data: Bytes)
    ensures rd.parse(data).None? || rd.parse(data).value.event.sequence != |r.refs| + 1
            || rd.parse(data).value.previous != History.Last(r.refs) ==>
              History.Accept(rd, r, data) == Err(History.BrokenChain)
  {
  }

  lemma AcceptedFile(rd: History.Reader, r: History.Reading, data: Bytes)
    ensures rd.parse(data).Some? && rd.parse(data).value.event.sequence == |r.refs| + 1
            && rd.parse(data).value.previous == History.Last(r.refs) ==>
              var entry := rd.parse(data).value; var e := entry.event;
              var refs := r.refs + [History.Reference(e.sequence, entry.id, rd.hash(data))];
              History.Accept(rd, r, data) ==
              Ok(if rd.sound(e) && History.Grounded(r.events, e) then History.Reading(refs, r.events + [e], r.errors)
                 else History.Reading(refs, r.events, r.errors + 1))
  {
    hide History.Grounded;
  }

  lemma StartsEmpty(
      rd: History.Reader, m: Memory, d: map<nat, string>, r: Rules, w: nat -> World, parse: Parse)
    ensures History.Read(rd, []) == Ok(History.Reading([], [], 0)) && MemoryAfter(r, m, w, parse, []) == m
    ensures Intact(d, rd.hash, []) && Seen(d, rd.hash, []) == d
  {
  }

  /** One more file: how the reading and the memory go on. */
  lemma NextFile(
      rd: History.Reader, m: Memory, r: Rules, w: nat -> World, parse: Parse, hash: Bytes -> string,
      store: seq<Bytes>, i: nat)
    requires rd == Judging(r, m, w, parse, hash, store) && i < |store| && History.Read(rd, store[..i]).Ok?
    ensures rd.parse == parse && rd.hash == hash
    ensures History.Read(rd, store[..i + 1]) == History.Accept(rd, History.Read(rd, store[..i]).value, store[i])
    ensures parse(store[i]).Some? ==>
              var e := parse(store[i]).value.event; var (ok, after) :=
                HistoryEvent(r, MemoryAfter(r, m, w, parse, store[..i]), w(i), e);
              && MemoryAfter(r, m, w, parse, store[..i + 1]) == after
              && (e.sequence == i + 1 ==> rd.sound(e) == ok)
  {
    assert store[..i + 1][..i] == store[..i];
    hide HistoryEvent;
    hide History.Accept;
  }

  /** A slot that does not pass ends the whole loop over the slots. */
  lemma {:induction false} SlotsStop(r: Rules, m: Memory, w: World, x: Receipt, n: nat)
    requires n <= |x.asked| && !Slots(r, m, w, x, n).0
    ensures Slots(r, m, w, x, |x.asked|) == Slots(r, m, w, x, n)
    decreases |x.asked| - n
  {
    if n < |x.asked| {
      SlotsStop(r, m, w, x, n + 1);
    }
  }
}
