/**
 Concurrent commands on one run directory: every interleaving of their steps
 under the manifest lock, with processes that may die at any point and voices
 that write their output at any time.
 */
module RunInterleavings {
  import opened Basics
  import opened RunManifest

  /** Where a process is in its command. `turn` numbers the lock's holders in order. */
  datatype Pc =
    | Waiting
    | Locked(turn: nat)
    | Loaded(turn: nat, m: Manifest)
    | Changed(turn: nat, m: Manifest, u: Update)
    | Saved
    | Exited(ok: bool)

  /** One saved update: whose it was and when that process had taken the lock. */
  datatype Entry = Entry(p: nat, turn: nat, u: Update)

  datatype State = State(
    saved: Option<Manifest>,
    files: Files,
    holder: Option<nat>,
    pcs: seq<Pc>,
    turns: nat,
    log: seq<Entry>,
    /** Every output a reset has moved aside, under the name it got. */
    asides: set<(string, Output)>,
    /** A reset has died between moving its voice's output and saving. */
    torn: bool)

  datatype Step =
    | Advance(p: nat)
    | Crash(p: nat)
    | Write(i: nat, out: Output)

  ghost predicate InLock(pc: Pc) {
    pc.Locked? || pc.Loaded? || pc.Changed? || pc.Saved?
  }

  ghost function Exit(s: State, p: nat, ok: bool): State
    requires p < |s.pcs|
  {
    s.(pcs := s.pcs[p := Exited(ok)], holder := None)
  }

  /** The checks of a command and, for a reset, the renaming; the manifest is changed in memory only. */
  ghost function Change(c: Command, s: State, p: nat): State
    requires p < |s.pcs| && s.pcs[p].Loaded?
  {
    var pc := s.pcs[p];
    match Prepare(c, pc.m, s.files)
    case None => Exit(s, p, false)
    case Some(u) =>
      var moved := if Moves(u) && pc.m.voices[u.i].file in s.files
                   then {(AsideOf(pc.m, u), s.files[pc.m.voices[u.i].file])} else {};
      s.(pcs := s.pcs[p := Changed(pc.turn, Apply(pc.m, u), u)],
         files := Renamed(s.files, pc.m, u), asides := s.asides + moved)
  }

  /** The next step of process `p`; a process waiting for a lock that is held stays where it is. */
  ghost function Go(c: Command, s: State, p: nat): State
    requires p < |s.pcs|
  {
    match s.pcs[p]
    case Waiting =>
      if s.holder.Some? then s
      else s.(holder := Some(p), pcs := s.pcs[p := Locked(s.turns)], turns := s.turns + 1)
    case Locked(turn) =>
      var m := Load(s.saved);
      if m.None? then Exit(s, p, false) else s.(pcs := s.pcs[p := Loaded(turn, m.value)])
    case Loaded(_, _) => Change(c, s, p)
    case Changed(turn, m, u) =>
      s.(saved := Some(m), log := s.log + [Entry(p, turn, u)], pcs := s.pcs[p := Saved])
    case Saved => Exit(s, p, true)
    case Exited(_) => s
  }

  ghost function Die(s: State, p: nat): State
    requires p < |s.pcs|
  {
    s.(pcs := s.pcs[p := Exited(false)], holder := if InLock(s.pcs[p]) then None else s.holder,
       torn := s.torn || (s.pcs[p].Changed? && Moves(s.pcs[p].u)))
  }

  ghost function Do(commands: seq<Command>, s: State, step: Step): State
    requires |s.pcs| == |commands|
  {
    match step
    case Advance(p) => if p < |commands| then Go(commands[p], s, p) else s
    case Crash(p) => if p < |commands| && !s.pcs[p].Exited? then Die(s, p) else s
    case Write(i, out) =>
      if s.saved.Some? && i < |s.saved.value.voices| then s.(files := s.files[s.saved.value.voices[i].file := out])
      else s
  }

  ghost function Run(commands: seq<Command>, s: State, steps: seq<Step>): (r: State)
    requires |s.pcs| == |commands|
    ensures |r.pcs| == |commands|
  {
    if steps == [] then s else Do(commands, Run(commands, s, steps[..|steps| - 1]), steps[|steps| - 1])
  }

  /** Attempt `n` of voice `i` is in the manifest's history, with its output moved aside. */
  predicate MovedBefore(m: Manifest, i: nat, n: nat) {
    && i < |m.voices| && 1 <= n <= |m.voices[i].history|
    && m.voices[i].history[n - 1].movedTo == Some(Base(Aside(m.voices[i].file, n)))
  }

  /** The outputs that resets before the run have moved aside, as far as they are still there. */
  ghost function Retained(m: Manifest, files: Files): set<(string, Output)> {
    set i: nat, n: nat |
      i < |m.voices| && n <= |m.voices[i].history| && MovedBefore(m, i, n) && Aside(m.voices[i].file, n) in files ::
      (Aside(m.voices[i].file, n), files[Aside(m.voices[i].file, n)])
  }

  ghost function Start(commands: seq<Command>, saved: Option<Manifest>, files: Files): (s: State)
    ensures |s.pcs| == |commands|
  {
    State(saved, files, None, seq(|commands|, _ => Waiting), 0, [],
          if saved.Some? then Retained(saved.value, files) else {}, false)
  }

  // ---- no lost updates -------------------------------------------------

  ghost function Updates(log: seq<Entry>): (us: seq<Update>)
    ensures |us| == |log| && forall k :: 0 <= k < |log| ==> us[k] == log[k].u
  {
    seq(|log|, k requires 0 <= k < |log| => log[k].u)
  }

  /** The manifest is the initial one with the saved updates applied one after another. */
  ghost predicate Sequential(initial: Option<Manifest>, s: State) {
    match initial
    case None => s.saved.None? && s.log == []
    case Some(m) => s.saved == Some(Fold(m, Updates(s.log)))
  }

  /** Only the holder is inside. */
  ghost predicate Exclusive(s: State) {
    && (forall p :: 0 <= p < |s.pcs| ==> (InLock(s.pcs[p]) <==> s.holder == Some(p)))
    && (s.holder.Some? ==> s.holder.value < |s.pcs|)
  }

  /** What a process has loaded is still what is saved. */
  ghost predicate Current(s: State) {
    && (forall p :: 0 <= p < |s.pcs| && s.pcs[p].Loaded? ==> s.saved == Some(s.pcs[p].m) && Loadable(s.pcs[p].m))
    && (forall p :: 0 <= p < |s.pcs| && s.pcs[p].Changed? ==>
          && s.saved.Some? && Loadable(s.saved.value)
          && s.pcs[p].u.i < |s.saved.value.voices| && s.pcs[p].m == Apply(s.saved.value, s.pcs[p].u))
  }

  function TurnOf(pc: Pc): Option<nat> {
    if pc.Locked? || pc.Loaded? || pc.Changed? then Some(pc.turn) else None
  }

  /** Saved updates come in the order their processes took the lock. */
  ghost predicate LockOrder(s: State) {
    && (forall j, k :: 0 <= j < k < |s.log| ==> s.log[j].turn < s.log[k].turn)
    && (forall k :: 0 <= k < |s.log| ==> s.log[k].turn < s.turns)
    && (forall p :: 0 <= p < |s.pcs| && TurnOf(s.pcs[p]).Some? ==>
          && s.pcs[p].turn < s.turns
          && forall k :: 0 <= k < |s.log| ==> s.log[k].turn < s.pcs[p].turn)
  }

  ghost predicate Logged(s: State, p: nat) {
    exists k :: 0 <= k < |s.log| && s.log[k].p == p
  }

  /** An update does what its command asks for. */
  ghost predicate Serves(c: Command, m: Manifest, u: Update) {
    && u.i < |m.voices| && m.voices[u.i].id == c.voice
    && match c
      case CompleteVoice(_, elapsed, finish) => u == Completed(u.i, elapsed, finish)
      case ErrorVoice(_, elapsed, detail) => u == Errored(u.i, elapsed, detail)
      case ResetVoice(_, now) => u.Reset? && u.at == now
  }

  /** Each process has saved at most once, and exactly once if it reports success. */
  ghost predicate OncePerProcess(s: State) {
    && (forall j, k :: 0 <= j < k < |s.log| ==> s.log[j].p != s.log[k].p)
    && (forall k :: 0 <= k < |s.log| ==>
          s.log[k].p < |s.pcs| && (s.pcs[s.log[k].p].Saved? || s.pcs[s.log[k].p].Exited?))
    && (forall p :: 0 <= p < |s.pcs| && (s.pcs[p] == Saved || s.pcs[p] == Exited(true)) ==> Logged(s, p))
  }

  ghost predicate Serving(commands: seq<Command>, initial: Option<Manifest>, p: nat, u: Update) {
    p < |commands| && initial.Some? && Serves(commands[p], initial.value, u)
  }

  /** What a process has saved, or is about to save, is what its command asks for. */
  ghost predicate Served(commands: seq<Command>, initial: Option<Manifest>, s: State) {
    && (forall k :: 0 <= k < |s.log| ==> Serving(commands, initial, s.log[k].p, s.log[k].u))
    && (forall p :: 0 <= p < |s.pcs| && s.pcs[p].Changed? ==> Serving(commands, initial, p, s.pcs[p].u))
  }

  ghost predicate Sound(commands: seq<Command>, initial: Option<Manifest>, s: State) {
    && |s.pcs| == |commands|
    && Sequential(initial, s) && Exclusive(s) && Current(s)
    && LockOrder(s) && OncePerProcess(s) && Served(commands, initial, s)
  }

  lemma FoldMore(m: Manifest, log: seq<Entry>, e: Entry)
    ensures Fold(m, Updates(log + [e])) == Apply(Fold(m, Updates(log)), e.u)
  {
    assert Updates(log + [e]) == Updates(log) + [e.u];
    assert Updates(log + [e])[..|log|] == Updates(log);
  }

  lemma SequentialStep(commands: seq<Command>, initial: Option<Manifest>, s: State, step: Step)
    requires Sound(commands, initial, s)
    ensures Sequential(initial, Do(commands, s, step))
  {
    hide Fold;
    if step.Advance? && step.p < |commands| && s.pcs[step.p].Changed? {
      var pc := s.pcs[step.p];
      FoldMore(initial.value, s.log, Entry(step.p, pc.turn, pc.u));
    }
  }

  lemma ExclusiveStep(commands: seq<Command>, s: State, step: Step)
    requires |s.pcs| == |commands| && Exclusive(s)
    ensures Exclusive(Do(commands, s, step))
  {
    hide Load;
    hide Prepare;
    hide Apply;
    hide Renamed;
  }

  lemma CurrentStep(commands: seq<Command>, s: State, step: Step)
    requires |s.pcs| == |commands| && Exclusive(s) && Current(s)
    ensures Current(Do(commands, s, step))
  {
    hide Load;
    hide Loadable;
    hide Prepare;
    hide Apply;
    hide Renamed;
    LoadIsLoadable(s.saved);
  }

  lemma LoadIsLoadable(saved: Option<Manifest>)
    ensures Load(saved).Some? ==> Load(saved) == saved && Loadable(saved.value)
  {
  }

  lemma LockOrderStep(commands: seq<Command>, initial: Option<Manifest>, s: State, step: Step)
    requires Sound(commands, initial, s)
    ensures LockOrder(Do(commands, s, step))
  {
    hide Fold;
    hide Sequential;
    hide OncePerProcess;
    hide Served;
    hide Prepare;
    hide Apply;
    hide Load;
    hide Loadable;
    hide Renamed;
  }

  lemma OnceStep(commands: seq<Command>, s: State, step: Step)
    requires |s.pcs| == |commands| && OncePerProcess(s)
    ensures OncePerProcess(Do(commands, s, step))
  {
    hide Load;
    hide Prepare;
    hide Apply;
    hide Renamed;
    hide Logged;
    var t := Do(commands, s, step);
    forall p | Logged(s, p) ensures Logged(t, p) {
      LoggedStays(s, t, p);
    }
    if step.Advance? && step.p < |commands| && s.pcs[step.p].Changed? {
      LastLogged(t);
    }
  }

  lemma LoggedStays(s: State, t: State, p: nat)
    requires Logged(s, p) && s.log <= t.log
    ensures Logged(t, p)
  {
    var k :| 0 <= k < |s.log| && s.log[k].p == p;
    assert t.log[k].p == p;
  }

  lemma LastLogged(t: State)
    requires t.log != []
    ensures Logged(t, t.log[|t.log| - 1].p)
  {
  }

  lemma ServedStep(commands: seq<Command>, initial: Option<Manifest>, s: State, step: Step)
    requires Sound(commands, initial, s)
    ensures Served(commands, initial, Do(commands, s, step))
  {
    hide Fold;
    hide Sequential;
    hide LockOrder;
    hide OncePerProcess;
    hide Load;
    hide Serving;
    hide Prepare;
    hide Apply;
    hide Renamed;
    if step.Advance? && step.p < |commands| {
      var p, pc := step.p, s.pcs[step.p];
      if pc.Loaded? && Prepare(commands[p], pc.m, s.files).Some? {
        PreparedServes(commands, initial, s, p);
      }
    }
  }

  lemma PreparedServes(commands: seq<Command>, initial: Option<Manifest>, s: State, p: nat)
    requires Sound(commands, initial, s) && p < |commands| && s.pcs[p].Loaded?
    requires Prepare(commands[p], s.pcs[p].m, s.files).Some?
    ensures Serving(commands, initial, p, Prepare(commands[p], s.pcs[p].m, s.files).value)
  {
    hide Fold;
    FoldGrows(initial.value, Updates(s.log));
  }

  /**
   No update is lost, whatever the interleaving: the saved manifest is the
   commands' updates in lock order, one for each process that reports success.
   */
  lemma {:induction false} NoLostUpdates(commands: seq<Command>, initial: Option<Manifest>, files: Files,
      steps: seq<Step>)
    ensures Sound(commands, initial, Run(commands, Start(commands, initial, files), steps))
  {
    hide Do;
    if steps == [] {
      if initial.Some? { assert Updates([]) == []; }
    } else {
      var before := steps[..|steps| - 1];
      NoLostUpdates(commands, initial, files, before);
      var s := Run(commands, Start(commands, initial, files), before);
      SequentialStep(commands, initial, s, steps[|steps| - 1]);
      ExclusiveStep(commands, s, steps[|steps| - 1]);
      CurrentStep(commands, s, steps[|steps| - 1]);
      LockOrderStep(commands, initial, s, steps[|steps| - 1]);
      OnceStep(commands, s, steps[|steps| - 1]);
      ServedStep(commands, initial, s, steps[|steps| - 1]);
    }
  }

  // ---- why the lock is there -------------------------------------------

  /** A step without the lock: nobody waits, everything else is as before. */
  ghost function DoUnlocked(commands: seq<Command>, s: State, step: Step): (t: State)
    requires |s.pcs| == |commands|
    ensures |t.pcs| == |commands|
  {
    if step.Advance? && step.p < |commands| && s.pcs[step.p].Waiting? then
      s.(pcs := s.pcs[step.p := Locked(s.turns)], turns := s.turns + 1)
    else Do(commands, s, step)
  }

  ghost function RunUnlocked(commands: seq<Command>, s: State, steps: seq<Step>): (r: State)
    requires |s.pcs| == |commands|
    ensures |r.pcs| == |commands|
  {
    if steps == [] then s else DoUnlocked(commands, RunUnlocked(commands, s, steps[..|steps| - 1]), steps[|steps| - 1])
  }

  /** Both processes load, then each finishes. */
  const BOTH_LOAD_FIRST: seq<Step> :=
    [Advance(0), Advance(0), Advance(1), Advance(1),
     Advance(0), Advance(0), Advance(0), Advance(1), Advance(1), Advance(1)]

  /**
   Without the lock two resets of different voices can both report success and
   leave a manifest that lacks the first one's attempt: no order of the two
   saved updates gives it.
   */
  lemma UnlockedWritersLose(m: Manifest, i: nat, j: nat, files: Files)
    requires Loadable(m) && i < |m.voices| && j < |m.voices| && i != j
    ensures var commands := [ResetVoice(m.voices[i].id, 0.0), ResetVoice(m.voices[j].id, 0.0)];
      var s := RunUnlocked(commands, Start(commands, Some(m), files), BOTH_LOAD_FIRST);
      && s.pcs == [Exited(true), Exited(true)] && |s.log| == 2
      && s.saved.Some? && |s.saved.value.voices| == |m.voices|
      && s.saved.value.voices[i].history == m.voices[i].history
      && s.saved != Some(Fold(m, Updates(s.log))) && s.saved != Some(Fold(m, [s.log[1].u, s.log[0].u]))
  {
    var commands := [ResetVoice(m.voices[i].id, 0.0), ResetVoice(m.voices[j].id, 0.0)];
    var start := Start(commands, Some(m), files);
    FoundAt(m, i);
    FoundAt(m, j);
    var half := BothLoad(commands, m, start);
    var u, v := BothFinish(commands, m, half, i, j);
    UnlockedInTwo(commands, start, BOTH_LOAD_FIRST, 4);
    var s := RunUnlocked(commands, start, BOTH_LOAD_FIRST);
    assert Updates(s.log) == [u, v];
    FoldTwo(m, u, v);
    FoldTwo(m, v, u);
    hide Fold;
    hide RunUnlocked;
    assert Apply(Apply(m, u), v).voices[i].history != m.voices[i].history;
    assert Apply(Apply(m, v), u).voices[i].history != m.voices[i].history;
  }

  lemma {:induction false} UnlockedInTwo(commands: seq<Command>, s: State, steps: seq<Step>, k: nat)
    requires |s.pcs| == |commands| && k <= |steps|
    ensures RunUnlocked(commands, s, steps) == RunUnlocked(commands, RunUnlocked(commands, s, steps[..k]), steps[k..])
    decreases |steps|
  {
    hide DoUnlocked;
    if k == |steps| {
      assert steps[..k] == steps && steps[k..] == [];
    } else {
      var n := |steps| - 1;
      UnlockedInTwo(commands, s, steps[..n], k);
      assert steps[..n][..k] == steps[..k] && steps[..n][k..] == steps[k..][..n - k];
    }
  }

  lemma UnlockedNext(commands: seq<Command>, s: State, steps: seq<Step>, k: nat)
    requires |s.pcs| == |commands| && k < |steps|
    ensures RunUnlocked(commands, s, steps[..k + 1]) ==
            DoUnlocked(commands, RunUnlocked(commands, s, steps[..k]), steps[k])
  {
    hide DoUnlocked;
    assert steps[..k + 1][..k] == steps[..k];
  }

  lemma BothLoad(commands: seq<Command>, m: Manifest, start: State) returns (half: State)
    requires |commands| == 2 && start.pcs == [Waiting, Waiting] && start.saved == Some(m) && Loadable(m)
    ensures half == RunUnlocked(commands, start, BOTH_LOAD_FIRST[..4])
    ensures half.pcs == [Loaded(start.turns, m), Loaded(start.turns + 1, m)] && half.saved == start.saved
    ensures half.files == start.files && half.log == start.log
  {
    var steps := BOTH_LOAD_FIRST;
    UnlockedNext(commands, start, steps, 0);
    UnlockedNext(commands, start, steps, 1);
    UnlockedNext(commands, start, steps, 2);
    UnlockedNext(commands, start, steps, 3);
    assert steps[..0] == [] && RunUnlocked(commands, start, []) == start;
    hide RunUnlocked;
    var one := RunUnlocked(commands, start, steps[..1]);
    assert one.pcs == [Locked(start.turns), Waiting];
    var two := RunUnlocked(commands, start, steps[..2]);
    assert two.pcs == [Loaded(start.turns, m), Waiting];
    var three := RunUnlocked(commands, start, steps[..3]);
    assert three.pcs == [Loaded(start.turns, m), Locked(start.turns + 1)];
    half := RunUnlocked(commands, start, steps[..4]);
  }

  /** A process that has loaded finishes its reset in three steps. */
  lemma Finishes(commands: seq<Command>, m: Manifest, s: State, p: nat, i: nat) returns (u: Update)
    requires |s.pcs| == |commands| && p < |commands| && s.pcs[p].Loaded? && s.pcs[p].m == m
    requires i < |m.voices| && commands[p] == ResetVoice(m.voices[i].id, 0.0)
    requires IndexFrom(m.voices, m.voices[i].id, 0) == Some(i)
    ensures u.Reset? && u.i == i
    ensures var t := RunUnlocked(commands, s, [Advance(p), Advance(p), Advance(p)]);
      t.saved == Some(Apply(m, u)) && t.pcs == s.pcs[p := Exited(true)] && t.log == s.log + [Entry(p, s.pcs[p].turn, u)]
  {
    hide Apply;
    hide Renamed;
    var steps := [Advance(p), Advance(p), Advance(p)];
    UnlockedNext(commands, s, steps, 0);
    UnlockedNext(commands, s, steps, 1);
    UnlockedNext(commands, s, steps, 2);
    assert steps[..0] == [] && RunUnlocked(commands, s, []) == s && steps[..3] == steps;
    hide RunUnlocked;
    u := Reset(i, 0.0, m.voices[i].file in s.files);
    var one := RunUnlocked(commands, s, steps[..1]);
    assert one.pcs == s.pcs[p := Changed(s.pcs[p].turn, Apply(m, u), u)] && one.log == s.log;
    var two := RunUnlocked(commands, s, steps[..2]);
    assert two.pcs == s.pcs[p := Saved] && two.saved == Some(Apply(m, u));
  }

  lemma BothFinish(commands: seq<Command>, m: Manifest, half: State, i: nat, j: nat) returns (u: Update, v: Update)
    requires i < |m.voices| && j < |m.voices| && i != j
    requires commands == [ResetVoice(m.voices[i].id, 0.0), ResetVoice(m.voices[j].id, 0.0)]
    requires IndexFrom(m.voices, m.voices[i].id, 0) == Some(i) && IndexFrom(m.voices, m.voices[j].id, 0) == Some(j)
    requires |half.pcs| == 2 && half.pcs[0].Loaded? && half.pcs[1].Loaded? && half.pcs[0].m == half.pcs[1].m == m
    ensures u.Reset? && u.i == i && v.Reset? && v.i == j
    ensures var t := RunUnlocked(commands, half, BOTH_LOAD_FIRST[4..]);
      && t.saved == Some(Apply(m, v)) && t.pcs == [Exited(true), Exited(true)]
      && |t.log| == |half.log| + 2 && t.log[|half.log|].u == u && t.log[|half.log| + 1].u == v
  {
    hide Apply;
    var steps := BOTH_LOAD_FIRST[4..];
    u := Finishes(commands, m, half, 0, i);
    assert steps[..3] == [Advance(0), Advance(0), Advance(0)] && steps[3..] == [Advance(1), Advance(1), Advance(1)];
    var mid := RunUnlocked(commands, half, steps[..3]);
    v := Finishes(commands, m, mid, 1, j);
    UnlockedInTwo(commands, half, steps, 3);
  }

  lemma FoldTwo(m: Manifest, u: Update, v: Update)
    ensures Fold(m, [u, v]) == Apply(Apply(m, u), v)
  {
    assert [u, v][..1] == [u] && [u][..0] == [];
    assert Fold(m, [u]) == Apply(Fold(m, []), u);
    assert Fold(m, [u, v]) == Apply(Fold(m, [u]), v);
  }

  lemma {:induction false} FoldGrowsFrom(m: Manifest, us: seq<Update>, j: nat)
    requires j <= |us|
    ensures Grows(Fold(m, us[..j]), Fold(m, us))
    decreases |us|
  {
    if j == |us| {
      assert us[..j] == us;
    } else {
      var before := us[..|us| - 1];
      FoldGrowsFrom(m, before, j);
      assert before[..j] == us[..j];
    }
  }

  lemma {:induction false} LogGrows(commands: seq<Command>, s: State, steps: seq<Step>, k: nat)
    requires |s.pcs| == |commands| && k <= |steps|
    ensures Run(commands, s, steps[..k]).log <= Run(commands, s, steps).log
    decreases |steps|
  {
    if k == |steps| {
      assert steps[..k] == steps;
    } else {
      var before := steps[..|steps| - 1];
      LogGrows(commands, s, before, k);
      assert before[..k] == steps[..k];
    }
  }

  /**
   At any two moments of a run the later manifest has the same voices and files, and every history the earlier one
   had.
   */
  lemma HistoriesOnlyGrow(commands: seq<Command>, m: Manifest, files: Files, steps: seq<Step>, k: nat)
    requires k <= |steps|
    ensures var early := Run(commands, Start(commands, Some(m), files), steps[..k]).saved;
            var late := Run(commands, Start(commands, Some(m), files), steps).saved;
            early.Some? && late.Some? && Grows(early.value, late.value) && Grows(m, early.value)
  {
    var s := Start(commands, Some(m), files);
    NoLostUpdates(commands, Some(m), files, steps);
    NoLostUpdates(commands, Some(m), files, steps[..k]);
    LogGrows(commands, s, steps, k);
    var early, late := Run(commands, s, steps[..k]).log, Run(commands, s, steps).log;
    assert Updates(early) == Updates(late)[..|early|];
    FoldGrowsFrom(m, Updates(late), |early|);
    FoldGrows(m, Updates(early));
  }
}
