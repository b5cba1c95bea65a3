/**
 What becomes of the outputs that resets move aside: they survive every
 interleaving exactly when the voices' file names cannot run into each other,
 provided no reset dies between the renaming and the save.
 */
module RunAsides {
  import opened Basics
  import opened RunManifest
  import opened RunInterleavings

  /** Every output ever moved aside is still there, under the name it got. */
  ghost predicate Kept(s: State) {
    forall a :: a in s.asides ==> a.0 in s.files && s.files[a.0] == a.1
  }

  /** Attempt `n` of voice `i` has its output under its name, or a reset to come puts it there. */
  predicate Takes(m: Manifest, i: nat, n: nat) {
    i < |m.voices| && (n > |m.voices[i].history| || MovedBefore(m, i, n))
  }

  /** Voices `i` and `j` share a file, or `j`'s file is a name that resets of `i` have moved or will move outputs to. */
  ghost predicate Clash(m: Manifest, i: nat, j: nat) {
    && i < |m.voices| && j < |m.voices| && i != j
    && (m.voices[i].file == m.voices[j].file
        || exists n :: Takes(m, i, n) && m.voices[j].file == Aside(m.voices[i].file, n))
  }

  ghost predicate SafeNames(m: Manifest) {
    forall i: nat, j: nat :: !Clash(m, i, j)
  }

  ghost predicate AlwaysKept(m: Manifest) {
    forall commands, files, steps ::
      var s := Run(commands, Start(commands, Some(m), files), steps);
      s.torn || Kept(s)
  }

  // ---- safe names ------------------------------------------------------

  /** One while a reset of voice `i` has moved its output and not yet saved. */
  ghost function InFlight(s: State, i: nat): nat {
    if s.holder.Some? && s.holder.value < |s.pcs| && s.pcs[s.holder.value].Changed?
       && s.pcs[s.holder.value].u.i == i && Moves(s.pcs[s.holder.value].u)
    then 1 else 0
  }

  ghost predicate NamedAs(m: Manifest, s: State, name: string, i: nat, n: nat) {
    && s.saved.Some? && i < |m.voices| && i < |s.saved.value.voices|
    && name == Aside(m.voices[i].file, n)
    && Takes(m, i, n) && n <= |s.saved.value.voices[i].history| + InFlight(s, i)
  }

  /** The name is one that a reset has already used. */
  ghost predicate Named(m: Manifest, s: State, name: string) {
    exists i, n :: NamedAs(m, s, name, i, n)
  }

  ghost predicate Stored(m: Manifest, s: State) {
    forall a :: a in s.asides ==> a.0 in s.files && s.files[a.0] == a.1 && Named(m, s, a.0)
  }

  lemma SafeFromWrites(m: Manifest, s: State, name: string, j: nat)
    requires SafeNames(m) && Named(m, s, name) && j < |m.voices|
    ensures name != m.voices[j].file
  {
    var i: nat, n: nat :| NamedAs(m, s, name, i, n);
    if i == j {
      assert |name| > |m.voices[j].file|;
    } else {
      assert !Clash(m, i, j);
    }
  }

  lemma AsidesDiffer(f: string, n: nat, g: string, k: nat)
    requires f != g || n != k
    ensures Aside(f, n) != Aside(g, k)
  {
    hide Aside;
    if Aside(f, n) == Aside(g, k) {
      AsideIsInjective(f, n, g, k);
    }
  }

  lemma SafeFromResets(m: Manifest, s: State, name: string, j: nat, k: nat)
    requires SafeNames(m) && Named(m, s, name) && j < |m.voices| && s.saved.Some? && j < |s.saved.value.voices|
    requires k > |s.saved.value.voices[j].history| + InFlight(s, j)
    ensures name != Aside(m.voices[j].file, k)
  {
    var i: nat, n: nat :| NamedAs(m, s, name, i, n);
    assert !Clash(m, i, j);
    AsidesDiffer(m.voices[i].file, n, m.voices[j].file, k);
  }

  lemma SavedGrows(commands: seq<Command>, m: Manifest, s: State)
    requires Sound(commands, Some(m), s)
    ensures s.saved.Some? && Grows(m, s.saved.value)
  {
    FoldGrows(m, Updates(s.log));
  }

  lemma NamesStay(commands: seq<Command>, m: Manifest, s: State, step: Step, name: string)
    requires Sound(commands, Some(m), s) && Named(m, s, name)
    ensures var t := Do(commands, s, step); t.torn || Named(m, t, name)
  {
    hide Fold;
    hide Sequential;
    hide Load;
    hide Prepare;
    hide Renamed;
    hide LockOrder;
    hide OncePerProcess;
    hide Served;
    hide Aside;
    var t := Do(commands, s, step);
    var i: nat, n: nat :| NamedAs(m, s, name, i, n);
    if !t.torn {
      assert NamedAs(m, t, name, i, n);
    }
  }

  lemma WriteStores(commands: seq<Command>, m: Manifest, s: State, j: nat, out: Output)
    requires Sound(commands, Some(m), s) && SafeNames(m) && Stored(m, s) && !s.torn
    ensures Stored(m, Do(commands, s, Write(j, out)))
  {
    hide SafeNames;
    hide Aside;
    SavedGrows(commands, m, s);
    var t := Do(commands, s, Write(j, out));
    if j < |m.voices| {
      forall a | a in t.asides ensures a.0 in t.files && t.files[a.0] == a.1 && Named(m, t, a.0) {
        SafeFromWrites(m, s, a.0, j);
        NamesStay(commands, m, s, Write(j, out), a.0);
      }
    }
  }

  lemma ChangeStores(commands: seq<Command>, m: Manifest, s: State, p: nat)
    requires Sound(commands, Some(m), s) && SafeNames(m) && Stored(m, s) && !s.torn && p < |commands|
      && s.pcs[p].Loaded?
    ensures Stored(m, Do(commands, s, Advance(p)))
  {
    hide SafeNames;
    hide Aside;
    hide Fold;
    hide Named;
    SavedGrows(commands, m, s);
    var t := Do(commands, s, Advance(p));
    var now := s.pcs[p].m;
    var prepared := Prepare(commands[p], now, s.files);
    if prepared.Some? {
      var u := prepared.value;
      var file, aside := now.voices[u.i].file, AsideOf(now, u);
      if Moves(u) && file in s.files {
        Adds(m, s, t, u.i);
      }
      forall a | a in s.asides ensures a.0 in t.files && t.files[a.0] == a.1 {
        SafeFromWrites(m, s, a.0, u.i);
        SafeFromResets(m, s, a.0, u.i, |now.voices[u.i].history| + 1);
      }
    }
    forall a | a in s.asides ensures Named(m, t, a.0) {
      NamesStay(commands, m, s, Advance(p), a.0);
    }
  }

  lemma Adds(m: Manifest, s: State, t: State, i: nat)
    requires s.saved.Some? && t.saved == s.saved && Grows(m, s.saved.value) && i < |m.voices| && InFlight(t, i) == 1
    ensures Named(m, t, Aside(m.voices[i].file, |s.saved.value.voices[i].history| + 1))
  {
    assert NamedAs(m, t, Aside(m.voices[i].file, |s.saved.value.voices[i].history| + 1), i,
                   |s.saved.value.voices[i].history| + 1);
  }

  lemma StepStores(commands: seq<Command>, m: Manifest, s: State, step: Step)
    requires Sound(commands, Some(m), s) && SafeNames(m) && Stored(m, s) && !s.torn
    ensures Do(commands, s, step).torn || Stored(m, Do(commands, s, step))
  {
    if step.Write? {
      WriteStores(commands, m, s, step.i, step.out);
    } else if step.Advance? && step.p < |commands| && s.pcs[step.p].Loaded? {
      ChangeStores(commands, m, s, step.p);
    } else {
      KeepsStored(commands, m, s, step);
    }
  }

  lemma KeepsStored(commands: seq<Command>, m: Manifest, s: State, step: Step)
    requires Sound(commands, Some(m), s) && Stored(m, s) && !step.Write?
    requires step.Advance? && step.p < |commands| ==> !s.pcs[step.p].Loaded?
    ensures Do(commands, s, step).torn || Stored(m, Do(commands, s, step))
  {
    SoundLength(commands, m, s);
    hide Sound;
    hide Named;
    hide Load;
    hide Prepare;
    hide Apply;
    hide Renamed;
    var t := Do(commands, s, step);
    assert t.asides == s.asides && t.files == s.files;
    if !t.torn {
      forall a | a in s.asides ensures Named(m, t, a.0) {
        NamesStay(commands, m, s, step, a.0);
      }
    }
  }

  lemma SoundLength(commands: seq<Command>, m: Manifest, s: State)
    requires Sound(commands, Some(m), s)
    ensures |s.pcs| == |commands|
  {
  }

  /** The outputs retained from before the run are stored under names that resets have used. */
  lemma StartStores(commands: seq<Command>, m: Manifest, files: Files)
    ensures Stored(m, Start(commands, Some(m), files))
  {
    hide Aside;
    var s := Start(commands, Some(m), files);
    forall a | a in s.asides ensures a.0 in s.files && s.files[a.0] == a.1 && Named(m, s, a.0) {
      var i: nat, n: nat :|
        i < |m.voices| && n <= |m.voices[i].history| && MovedBefore(m, i, n) && a.0 == Aside(m.voices[i].file, n);
      assert NamedAs(m, s, a.0, i, n);
    }
  }

  lemma {:induction false} SafeNamesStore(commands: seq<Command>, m: Manifest, files: Files, steps: seq<Step>)
    requires SafeNames(m)
    ensures var s := Run(commands, Start(commands, Some(m), files), steps); s.torn || Stored(m, s)
  {
    if steps == [] {
      StartStores(commands, m, files);
    } else {
      var before := steps[..|steps| - 1];
      SafeNamesStore(commands, m, files, before);
      NoLostUpdates(commands, Some(m), files, before);
      var s := Run(commands, Start(commands, Some(m), files), before);
      if s.torn {
        TornStays(commands, s, steps[|steps| - 1]);
      } else {
        StepStores(commands, m, s, steps[|steps| - 1]);
      }
    }
  }

  lemma TornStays(commands: seq<Command>, s: State, step: Step)
    requires |s.pcs| == |commands| && s.torn
    ensures Do(commands, s, step).torn
  {
  }

  // ---- unsafe names ----------------------------------------------------

  lemma {:induction false} RunInTwo(commands: seq<Command>, s: State, first: seq<Step>, second: seq<Step>)
    requires |s.pcs| == |commands|
    ensures Run(commands, s, first + second) == Run(commands, Run(commands, s, first), second)
    decreases |second|
  {
    hide Do;
    if second == [] {
      assert first + second == first;
    } else {
      var n := |second| - 1;
      RunInTwo(commands, s, first, second[..n]);
      assert (first + second)[..|first| + n] == first + second[..n];
    }
  }

  /** `p` can start its reset of voice `i`, which would be the first thing to happen. */
  ghost predicate Ready(commands: seq<Command>, s: State, p: nat, i: nat) {
    && |s.pcs| == |commands| && p < |commands| && s.pcs[p].Waiting? && s.holder.None?
    && s.saved.Some? && Loadable(s.saved.value) && i < |s.saved.value.voices|
    && commands[p] == ResetVoice(s.saved.value.voices[i].id, 0.0)
  }

  function Steps(p: nat, n: nat): (r: seq<Step>)
    ensures |r| == n && forall k :: 0 <= k < n ==> r[k] == Advance(p)
  {
    seq(n, _ => Advance(p))
  }

  /** Writing a voice's output and taking its reset as far as the renaming. */
  lemma ResetMoves(commands: seq<Command>, s: State, p: nat, i: nat, out: Output)
    requires Ready(commands, s, p, i)
    ensures var m := s.saved.value; var u := Reset(i, 0.0, true);
      Run(commands, s, [Write(i, out)] + Steps(p, 3)) ==
      s.(files := Renamed(s.files[m.voices[i].file := out], m, u), holder := Some(p), turns := s.turns + 1,
         pcs := s.pcs[p := Changed(s.turns, Apply(m, u), u)], asides := s.asides + {(AsideOf(m, u), out)})
  {
    hide Apply;
    hide Renamed;
    var m := s.saved.value;
    FoundAt(m, i);
    var steps := [Write(i, out)] + Steps(p, 3);
    assert steps[..1] == [Write(i, out)] && steps[..2][..1] == steps[..1] && steps[..3][..2] == steps[..2];
    assert steps[..1][..0] == [];
    var s1 := Do(commands, s, Write(i, out));
    assert Run(commands, s, steps[..1]) == s1;
    var s2 := s1.(holder := Some(p), turns := s.turns + 1, pcs := s.pcs[p := Locked(s.turns)]);
    assert Run(commands, s, steps[..2]) == s2;
    var s3 := s2.(pcs := s2.pcs[p := Loaded(s.turns, m)]);
    assert Run(commands, s, steps[..3]) == s3;
    assert s3.pcs[p := Changed(s.turns, Apply(m, Reset(i, 0.0, true)), Reset(i, 0.0, true))]
        == s.pcs[p := Changed(s.turns, Apply(m, Reset(i, 0.0, true)), Reset(i, 0.0, true))];
  }

  lemma ResetSaves(commands: seq<Command>, s: State, p: nat)
    requires |s.pcs| == |commands| && p < |commands| && s.pcs[p].Changed?
    ensures var t := Run(commands, s, Steps(p, 2));
      && t.saved == Some(s.pcs[p].m) && t.pcs == s.pcs[p := Exited(true)] && t.holder == None
      && t.files == s.files && t.asides == s.asides && t.torn == s.torn
  {
    assert Steps(p, 2)[..1] == [Advance(p)] && [Advance(p)][..0] == [];
    assert Run(commands, s, [Advance(p)]) == Do(commands, s, Advance(p));
  }

  lemma CrashTears(commands: seq<Command>, s: State, p: nat)
    requires |s.pcs| == |commands| && p < |commands| && s.pcs[p].Changed? && Moves(s.pcs[p].u)
    ensures var t := Run(commands, s, [Crash(p)]);
      && t.saved == s.saved && t.pcs == s.pcs[p := Exited(false)] && t.holder == None && t.asides == s.asides && t.torn
  {
    assert [Crash(p)][..0] == [];
  }

  /** Nobody holds the lock and nothing has gone wrong. */
  ghost predicate Calm(commands: seq<Command>, s: State) {
    |s.pcs| == |commands| && s.holder.None? && !s.torn && s.saved.Some? && Loadable(s.saved.value)
  }

  /** `after` is `before` with `k` more entries in the history of voice `i`. */
  ghost predicate Longer(before: Manifest, after: Manifest, i: nat, k: nat) {
    && Grows(before, after)
    && forall j :: 0 <= j < |before.voices| ==>
         |after.voices[j].history| == |before.voices[j].history| + if j == i then k else 0
  }

  lemma ResetLengthens(m: Manifest, i: nat)
    requires Loadable(m) && i < |m.voices|
    ensures var n := Apply(m, Reset(i, 0.0, true)); Loadable(n) && Longer(m, n, i, 1)
  {
  }

  /** A whole reset with nobody in the way. */
  lemma OneRound(commands: seq<Command>, s: State, p: nat, i: nat, out: Output) returns (steps: seq<Step>)
    requires Ready(commands, s, p, i) && !s.torn
    ensures var t := Run(commands, s, steps); var m := s.saved.value;
      && Calm(commands, t) && Longer(m, t.saved.value, i, 1) && t.pcs == s.pcs[p := Exited(true)]
      && t.asides == s.asides + {(Aside(m.voices[i].file, |m.voices[i].history| + 1), out)}
  {
    hide Apply;
    hide Renamed;
    hide Run;
    ResetMoves(commands, s, p, i, out);
    var start := [Write(i, out)] + Steps(p, 3);
    var middle := Run(commands, s, start);
    ResetSaves(commands, middle, p);
    RunInTwo(commands, s, start, Steps(p, 2));
    steps := start + Steps(p, 2);
    ResetLengthens(s.saved.value, i);
    assert middle.pcs[p := Exited(true)] == s.pcs[p := Exited(true)];
  }

  /** The processes from `from` on are `k` resets of voice `i` that have not started. */
  ghost predicate Queued(commands: seq<Command>, s: State, from: nat, k: nat, id: string) {
    && from + k <= |commands| == |s.pcs|
    && forall p :: from <= p < from + k ==> s.pcs[p].Waiting? && commands[p] == ResetVoice(id, 0.0)
  }

  lemma LongerAdds(m: Manifest, n: Manifest, o: Manifest, i: nat, k: nat)
    requires k > 0 && Longer(m, n, i, k - 1) && Longer(n, o, i, 1)
    ensures Longer(m, o, i, k)
  {
  }

  lemma {:induction false} Rounds(commands: seq<Command>, s: State, from: nat, k: nat, i: nat, out: Output)
      returns (steps: seq<Step>)
    requires Calm(commands, s) && i < |s.saved.value.voices|
    requires Queued(commands, s, from, k, s.saved.value.voices[i].id)
    ensures var t := Run(commands, s, steps); var m := s.saved.value;
      && Calm(commands, t) && Longer(m, t.saved.value, i, k) && s.asides <= t.asides
      && (k > 0 ==> (Aside(m.voices[i].file, |m.voices[i].history| + k), out) in t.asides)
      && (forall p :: 0 <= p < |s.pcs| && (p < from || from + k <= p) ==> t.pcs[p] == s.pcs[p])
    decreases k
  {
    hide Aside;
    hide Do;
    if k == 0 {
      steps := [];
    } else {
      hide Run;
      hide Loadable;
      var first := Rounds(commands, s, from, k - 1, i, out);
      var t := Run(commands, s, first);
      var last := OneRound(commands, t, from + k - 1, i, out);
      RunInTwo(commands, s, first, last);
      steps := first + last;
      LongerAdds(s.saved.value, t.saved.value, Run(commands, s, steps).saved.value, i, k);
    }
  }

  function Resets(id: string, k: nat): (r: seq<Command>)
    ensures |r| == k && forall p :: 0 <= p < k ==> r[p] == ResetVoice(id, 0.0)
  {
    seq(k, _ => ResetVoice(id, 0.0))
  }

  const FIRST := Output("first", 0.0)

  const SECOND := Output("second", 0.0)

  /** A voice whose file is a name that resets of another voice get to. */
  lemma RetainedNameLoses(m: Manifest, i: nat, j: nat, n: nat)
    requires Loadable(m) && j < |m.voices| && MovedBefore(m, i, n) && m.voices[j].file == Aside(m.voices[i].file, n)
    ensures !AlwaysKept(m)
  {
    hide Aside;
    var name := m.voices[j].file;
    var files: Files := map[name := FIRST];
    var s := Start([], Some(m), files);
    assert Aside(m.voices[i].file, n) in files;
    assert (name, FIRST) in s.asides;
    var one := [Write(j, SECOND)];
    assert one[..0] == [] && Run([], s, []) == s;
    var u := Run([], s, one);
    assert u == Do([], s, Write(j, SECOND));
    assert u.files[name] == SECOND && (name, FIRST) in u.asides;
    assert !u.torn && !Kept(u);
  }

  lemma TakenNameLoses(m: Manifest, i: nat, j: nat, n: nat)
    requires Loadable(m) && i < |m.voices| && j < |m.voices| && i != j
    requires n > |m.voices[i].history| && m.voices[j].file == Aside(m.voices[i].file, n)
    ensures !AlwaysKept(m)
  {
    hide Aside;
    var k := n - |m.voices[i].history|;
    var commands := Resets(m.voices[i].id, k);
    var s := Start(commands, Some(m), map[]);
    var steps := Rounds(commands, s, 0, k, i, FIRST);
    var t := Run(commands, s, steps);
    RunInTwo(commands, s, steps, [Write(j, SECOND)]);
    assert [Write(j, SECOND)][..0] == [];
    var u := Run(commands, s, steps + [Write(j, SECOND)]);
    assert u == Do(commands, t, Write(j, SECOND));
    assert (m.voices[j].file, FIRST) in u.asides && u.files[m.voices[j].file] == SECOND;
    assert !u.torn && !Kept(u);
  }

  /** Two voices with one file. */
  lemma SharedFileLoses(m: Manifest, i: nat, j: nat)
    requires Loadable(m) && i < |m.voices| && j < |m.voices| && i != j && m.voices[i].file == m.voices[j].file
    ensures !AlwaysKept(m)
  {
    hide Aside;
    hide Do;
    var a, b := m.voices[i], m.voices[j];
    var n := |a.history| + |b.history| + 1;
    var k, l := n - |a.history|, n - |b.history|;
    var commands := Resets(a.id, k) + Resets(b.id, l);
    var s := Start(commands, Some(m), map[]);
    var first := Rounds(commands, s, 0, k, i, FIRST);
    var t := Run(commands, s, first);
    var second := Rounds(commands, t, k, l, j, SECOND);
    RunInTwo(commands, s, first, second);
    TwiceIsNotKept(Run(commands, s, first + second), Aside(a.file, n));
  }

  lemma TwiceIsNotKept(s: State, name: string)
    requires (name, FIRST) in s.asides && (name, SECOND) in s.asides
    ensures !Kept(s)
  {
  }

  /** Moved-aside outputs survive every run in which no reset is torn, exactly when no two voices' names clash. */
  lemma AsidesKeptIffNamesSafe(m: Manifest)
    requires Loadable(m)
    ensures AlwaysKept(m) <==> SafeNames(m)
  {
    if SafeNames(m) {
      forall commands, files, steps
        ensures var s := Run(commands, Start(commands, Some(m), files), steps); s.torn || Kept(s)
      {
        SafeNamesStore(commands, m, files, steps);
      }
    } else {
      var i: nat, j: nat :| Clash(m, i, j);
      if m.voices[i].file == m.voices[j].file {
        SharedFileLoses(m, i, j);
      } else {
        var n: nat :| Takes(m, i, n) && m.voices[j].file == Aside(m.voices[i].file, n);
        if n > |m.voices[i].history| {
          TakenNameLoses(m, i, j, n);
        } else {
          RetainedNameLoses(m, i, j, n);
        }
      }
    }
  }

  /**
   The exception is real for every manifest: a reset that dies between moving
   an output and saving leaves the name to be used again, and the next reset of
   that voice overwrites what the first one moved.
   */
  lemma TornResetLoses(m: Manifest, i: nat)
    requires Loadable(m) && i < |m.voices|
    ensures exists commands, files, steps :: !Kept(Run(commands, Start(commands, Some(m), files), steps))
  {
    hide Do;
    hide Apply;
    hide Renamed;
    var commands := Resets(m.voices[i].id, 2);
    var s := Start(commands, Some(m), map[]);
    var moving := [Write(i, FIRST)] + Steps(0, 3);
    ResetMoves(commands, s, 0, i, FIRST);
    CrashTears(commands, Run(commands, s, moving), 0);
    RunInTwo(commands, s, moving, [Crash(0)]);
    var t := Run(commands, s, moving + [Crash(0)]);
    var again := [Write(i, SECOND)] + Steps(1, 3);
    ResetMoves(commands, t, 1, i, SECOND);
    RunInTwo(commands, s, moving + [Crash(0)], again);
    TwiceIsNotKept(Run(commands, s, moving + [Crash(0)] + again), Aside(m.voices[i].file, |m.voices[i].history| + 1));
  }
}
