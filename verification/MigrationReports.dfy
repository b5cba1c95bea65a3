/** What a failed migration reports of each write: where it stopped, what came before and what after. */
module MigrationReports {
  import opened Basics
  import opened M = Migration

  /** The action reported for the `i`th pending write. */
  ghost function Reported(r: Outcome, pending: seq<Write>, i: nat): Action
    requires i < |pending|
  {
    if pending[i].path in r.actions then r.actions[pending[i].path] else Identical
  }

  /** No write was reached. */
  ghost predicate NoneReached(r: Outcome, pending: seq<Write>) {
    forall i :: 0 <= i < |pending| ==> Reported(r, pending, i) == Pending
  }

  /** Staging stopped at the `n`th write, which failed; nothing had been moved. */
  ghost predicate StagingStopped(r: Outcome, pending: seq<Write>, n: nat) {
    && n < |pending|
    && forall i :: 0 <= i < |pending| ==> Reported(r, pending, i) == if i == n then Failed else Pending
  }

  /** Moving stopped at the `k`th write: earlier ones were rolled back or are stranded, later ones not reached. */
  ghost predicate MovingStopped(r: Outcome, pending: seq<Write>, k: nat) {
    && k < |pending|
    && (forall i :: 0 <= i < k ==>
          Reported(r, pending, i) == if pending[i].path in r.stranded then Written else RolledBack)
    && (Reported(r, pending, k) == if pending[k].path in r.lost then Lost else Failed)
    && (forall i :: k < i < |pending| ==> Reported(r, pending, i) == Pending)
  }

  lemma UntouchedRecovery(f: Faults, w: World, pending: seq<Write>, current: Option<Path>)
    ensures var r := Recover(f, w, pending, [], current);
      && r.actions.Keys == Paths(pending)
      && forall p :: p in Paths(pending) ==> r.actions[p] == if current == Some(p) then Failed else Pending
  {
  }

  lemma MovedRecovery(f: Faults, w: World, pending: seq<Write>, touched: seq<Moved>, k: nat, d0: Disk)
    requires Attempted(d0, w.disk, pending, touched) && k < |pending| && k <= |touched| <= k + 1
    requires forall i :: 0 <= i < |touched| ==> (touched[i].landed <==> i < k)
    ensures MovingStopped(Recover(f, w, pending, touched, Some(pending[k].path)), pending, k)
  {
    var current := Some(pending[k].path);
    var undo := Rollback(f, w, touched);
    RecoverUndoes(f, w, pending, touched, d0);
    forall i | 0 <= i < |pending|
      ensures var r := Recover(f, w, pending, touched, current);
        && r.stranded == undo.stranded && r.lost == undo.lost
        && Reported(r, pending, i) == FinalAction(undo, touched, current, pending[i].path)
    {
      assert pending[i] in pending;
    }
    hide Recover;
    hide Rollback;
    forall i | 0 <= i < |pending|
      ensures FinalAction(undo, touched, current, pending[i].path) ==
        if i < k then (if pending[i].path in undo.stranded then Written else RolledBack)
        else if i == k then (if pending[i].path in undo.lost then Lost else Failed)
        else Pending
    {
      if i < |touched| {
        LandedAt(d0, w.disk, pending, touched, i);
        assert touched[i] in touched;
      } else {
        NotTouched(d0, w.disk, pending, touched, i);
      }
    }
  }

  lemma NotTouched(d0: Disk, d: Disk, pending: seq<Write>, touched: seq<Moved>, i: nat)
    requires Attempted(d0, d, pending, touched) && |touched| <= i < |pending|
    ensures pending[i].path !in TouchedPaths(touched) && !InPaths(pending[i].path, touched)
  {
    forall j | 0 <= j < |touched| ensures touched[j].write.path != pending[i].path {
      assert touched[j].write == pending[j];
    }
  }

  /**
   The report of a failed migration: without a run directory no write was reached;
   otherwise one write stopped it, in staging or in moving, and what is said of
   every other write follows from its place.
   */
  lemma FailureReport(f: Faults, w: World, pending: seq<Write>)
    requires M.Distinct(pending) && Unstaged(w) && !Apply(f, w, pending).ok
    ensures var r := Apply(f, w, pending); var staged := StageAll(f, Tick(w), pending);
      if f(w.clock) then NoneReached(r, pending)
      else if staged.done < |pending| then StagingStopped(r, pending, staged.done)
      else !MoveAll(f, staged.world, pending).ok && MovingStopped(r, pending, StoppedAt(f, staged.world, pending))
  {
    var w1 := Tick(w);
    assert forall i :: 0 <= i < |pending| ==> pending[i].path in Paths(pending);
    if f(w.clock) {
      UntouchedRecovery(f, w1, pending, None);
    } else {
      var staged := StageAll(f, w1, pending);
      if staged.done < |pending| {
        UntouchedRecovery(f, staged.world, pending, Some(pending[staged.done].path));
      } else {
        MovesFromStaged(f, w1, pending);
        MoveAllShape(f, staged.world, pending);
        var moves := MoveAll(f, staged.world, pending);
        MovedRecovery(f, moves.world, pending, moves.touched, StoppedAt(f, staged.world, pending), staged.world.disk);
      }
    }
    hide Recover;
    hide StageAll;
    hide MoveAll;
  }

  // ---- when a migration goes through -----------------------------------

  /** No file-system call fails. */
  ghost predicate Faultless(f: Faults) {
    forall n: nat :: !f(n)
  }

  lemma {:induction false} FaultlessStaging(f: Faults, w: World, xs: seq<Write>)
    requires Faultless(f)
    ensures StageAll(f, w, xs).done == |xs|
    decreases |xs|
  {
    if xs != [] {
      FaultlessStaging(f, StageOne(f, w, xs[0]).world, xs[1..]);
    }
  }

  lemma FaultlessMove(f: Faults, w: World, x: Write)
    requires Faultless(f) && Staged(w.disk, x) && Saved(x.path) !in w.disk && Landable(w.disk, x)
    ensures MoveOne(f, w, x).ok && Apart(x.path, w.disk, MoveOne(f, w, x).world.disk)
  {
    MoveOneSpec(f, w, x);
  }

  lemma {:induction false} FaultlessMoves(f: Faults, w: World, xs: seq<Write>)
    requires Faultless(f) && Ready(w.disk, xs) && forall x :: x in xs ==> Landable(w.disk, x)
    ensures MoveAll(f, w, xs).ok
    decreases |xs|
  {
    if xs != [] {
      FaultlessMove(f, w, xs[0]);
      var next := MoveOne(f, w, xs[0]).world;
      StillReady(w.disk, next.disk, xs);
      hide MoveOne;
      forall y | y in xs[1..] ensures Landable(next.disk, y) {
        assert Landable(w.disk, y) && Same(w.disk, next.disk, Live(y.path));
      }
      FaultlessMoves(f, next, xs[1..]);
    }
  }

  /** An apply that goes through could land every write, faults or not. */
  lemma AppliedIsLandable(f: Faults, w: World, pending: seq<Write>)
    requires M.Distinct(pending) && Unstaged(w) && Apply(f, w, pending).ok
    ensures forall x :: x in pending ==> Landable(w.disk, x)
  {
    if pending != [] {
      var w1 := Tick(w);
      var s := StageAll(f, w1, pending).world;
      MovesFromStaged(f, w1, pending);
      MoveAllShape(f, s, pending);
      var moves := MoveAll(f, s, pending);
      hide StageAll;
      hide MoveAll;
      forall x | x in pending ensures Landable(w.disk, x) {
        var i :| 0 <= i < |pending| && pending[i] == x;
        assert Placed(moves.touched[i], s.disk, moves.world.disk) && moves.touched[i].landed;
        assert Same(w.disk, s.disk, Live(x.path));
      }
    }
  }

  /** Without faults an apply goes through exactly if every write can land. */
  lemma FaultlessIff(f: Faults, w: World, pending: seq<Write>)
    requires M.Distinct(pending) && Unstaged(w) && Faultless(f)
    ensures Apply(f, w, pending).ok <==> forall x :: x in pending ==> Landable(w.disk, x)
  {
    if Apply(f, w, pending).ok {
      AppliedIsLandable(f, w, pending);
    } else if forall x :: x in pending ==> Landable(w.disk, x) {
      var w1 := Tick(w);
      FaultlessStaging(f, w1, pending);
      MovesFromStaged(f, w1, pending);
      var s := StageAll(f, w1, pending).world;
      hide StageAll;
      forall x | x in pending ensures Landable(s.disk, x) {
        assert Same(w.disk, s.disk, Live(x.path));
      }
      FaultlessMoves(f, s, pending);
    }
  }

  /** Without faults a migration goes through whatever preflight left pending. */
  lemma PreflightedGoesThrough(f: Faults, w: World, sight: Sight, writes: seq<Write>)
    requires Planned(writes) && Unstaged(w) && Faultless(f)
    ensures Apply(f, w, PendingOf(Preflighted(w.disk, sight, writes))).ok
  {
    var all := Preflighted(w.disk, sight, writes);
    PreflightedKeepsPaths(w.disk, sight, writes);
    PendingAreDistinct(all);
    forall x | x in PendingOf(all) ensures Landable(w.disk, x) {
      PendingIsVetted(w.disk, sight, writes, x);
    }
    hide Preflighted;
    hide PendingOf;
    FaultlessIff(f, w, PendingOf(all));
  }
}
