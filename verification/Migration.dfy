/**
 The transactional apply of the legacy-to-`.fv` migration.

 Every file-system call asks a fault schedule whether it fails, so a lemma
 about all schedules is a statement about every failure at every step,
 failures of the rollback included. `World.trace` records each state the disk
 passes through, which is where a hard kill would leave it.
 */
module Migration {
  import opened Basics

  type Path = string

  /** A directory entry. A `File` is an inode: a rename keeps its serial, a rewrite would not. */
  datatype Node = File(serial: nat, data: Bytes, mode: nat) | Directory | Link | Special

  /** A destination, or this run's staged copy or saved original for it. */
  datatype Place = Live(path: Path) | Fresh(path: Path) | Saved(path: Path)

  type Disk = map<Place, Node>

  /** `faults(n)` says whether the n-th file-system call fails. */
  type Faults = nat -> bool

  datatype World = World(disk: Disk, clock: nat, serial: nat, trace: seq<Disk>)

  datatype Action =
    | Create | Adopt | Identical | AlreadyStaged | Conflict
    | Written | RolledBack | Lost | Failed | Pending

  datatype Write = Write(
    path: Path, data: Bytes, mode: Option<nat>, adopt: bool, keepExisting: bool, action: Action)

  /** One destination the apply has touched: was its original taken aside, did the new bytes land. */
  datatype Moved = Moved(write: Write, saved: bool, landed: bool)

  const DEFAULT_MODE: nat := 0x1A4

  // ---- file-system calls -----------------------------------------------

  datatype Step = Step(world: World, ok: bool)

  function Tick(w: World): World {
    w.(clock := w.clock + 1)
  }

  function Put(w: World, d: Disk): World {
    w.(disk := d, trace := w.trace + [d])
  }

  predicate IsFile(d: Disk, p: Place) {
    p in d && d[p].File?
  }

  predicate IsSpecial(d: Disk, p: Place) {
    p in d && d[p].Special?
  }

  /** `os.replace`: atomic, and refused when a file would replace a directory. */
  function Rename(f: Faults, w: World, src: Place, dst: Place): Step {
    if f(w.clock) || src !in w.disk || (dst in w.disk && w.disk[dst].Directory?) then
      Step(Tick(w), false)
    else
      Step(Put(Tick(w), (w.disk - {src})[dst := w.disk[src]]), true)
  }

  function Unlink(f: Faults, w: World, p: Place): Step {
    if f(w.clock) || p !in w.disk || w.disk[p].Directory? then
      Step(Tick(w), false)
    else
      Step(Put(Tick(w), w.disk - {p}), true)
  }

  /** `write_bytes`: a fresh inode; a failure leaves it truncated. */
  function WriteBytes(f: Faults, w: World, p: Place, data: Bytes): Step {
    var bytes := if f(w.clock) then [] else data;
    Step(Put(Tick(w), w.disk[p := File(w.serial, bytes, DEFAULT_MODE)]).(serial := w.serial + 1), !f(w.clock))
  }

  function Chmod(f: Faults, w: World, p: Place, mode: nat): Step {
    if f(w.clock) || !IsFile(w.disk, p) then
      Step(Tick(w), false)
    else
      Step(Put(Tick(w), w.disk[p := w.disk[p].(mode := mode)]), true)
  }

  /** `rmtree(ignore_errors=True)` on this run's staging tree. */
  function Discard(f: Faults, w: World): World {
    if f(w.clock) then Tick(w) else Put(Tick(w), map p | p in w.disk && p.Live? :: w.disk[p])
  }

  // ---- apply -----------------------------------------------------------

  function StageOne(f: Faults, w: World, x: Write): Step {
    if f(w.clock) then Step(Tick(w), false)  // making the staged parent directory
    else
      var made := WriteBytes(f, Tick(w), Fresh(x.path), x.data);
      if !made.ok || x.mode.None? then made else Chmod(f, made.world, Fresh(x.path), x.mode.value)
  }

  datatype Batch = Batch(world: World, done: nat)

  function StageAll(f: Faults, w: World, xs: seq<Write>): (r: Batch)
    ensures r.done <= |xs|
    decreases |xs|
  {
    if xs == [] then Batch(w, 0)
    else
      var one := StageOne(f, w, xs[0]);
      if !one.ok then Batch(one.world, 0)
      else
        var rest := StageAll(f, one.world, xs[1..]);
        Batch(rest.world, rest.done + 1)
  }

  datatype Moves = Moves(world: World, touched: seq<Moved>, ok: bool)

  function Land(f: Faults, w: World, x: Write, saved: bool): Moves {
    var landing := Rename(f, w, Fresh(x.path), Live(x.path));
    Moves(landing.world, [Moved(x, saved, landing.ok)], landing.ok)
  }

  function MoveOne(f: Faults, w: World, x: Write): Moves {
    var live := Live(x.path);
    if f(w.clock) then Moves(Tick(w), [], false)  // making the destination's parents
    else
      var made := Tick(w);
      var guarded := Tick(made);
      if f(made.clock) || (live in made.disk && made.disk[live].Link?) then Moves(guarded, [], false)
      else if x.keepExisting && live in guarded.disk then Moves(guarded, [], false)
      else if !IsFile(guarded.disk, live) then Land(f, guarded, x, false)
      else if f(guarded.clock) then Moves(Tick(guarded), [Moved(x, false, false)], false)
      else
        var aside := Rename(f, Tick(guarded), live, Saved(x.path));
        if !aside.ok then Moves(aside.world, [Moved(x, false, false)], false)
        else Land(f, aside.world, x, true)
  }

  function MoveAll(f: Faults, w: World, xs: seq<Write>): Moves
    decreases |xs|
  {
    if xs == [] then Moves(w, [], true)
    else
      var one := MoveOne(f, w, xs[0]);
      if !one.ok then one
      else
        var rest := MoveAll(f, one.world, xs[1..]);
        Moves(rest.world, one.touched + rest.touched, rest.ok)
  }

  datatype Undo = Undo(world: World, stranded: set<Path>, lost: set<Path>)

  function UndoOne(f: Faults, w: World, m: Moved): Step {
    if m.saved then Rename(f, w, Saved(m.write.path), Live(m.write.path))
    else if m.landed then Unlink(f, w, Live(m.write.path))
    else Step(w, true)
  }

  /** Undo the touched destinations, last one first. */
  function Rollback(f: Faults, w: World, touched: seq<Moved>): Undo
    decreases |touched|
  {
    if touched == [] then Undo(w, {}, {})
    else
      var m := touched[|touched| - 1];
      var one := UndoOne(f, w, m);
      var rest := Rollback(f, one.world, touched[..|touched| - 1]);
      if one.ok then rest
      else if m.landed then rest.(stranded := rest.stranded + {m.write.path})
      else rest.(lost := rest.lost + {m.write.path})
  }

  function PendingOf(writes: seq<Write>): seq<Write> {
    if writes == [] then []
    else if writes[0].action.Create? || writes[0].action.Adopt? then [writes[0]] + PendingOf(writes[1..])
    else PendingOf(writes[1..])
  }

  predicate InPaths(p: Path, touched: seq<Moved>) {
    exists i :: 0 <= i < |touched| && touched[i].landed && touched[i].write.path == p
  }

  function FinalAction(undo: Undo, touched: seq<Moved>, current: Option<Path>, p: Path): Action {
    if p in undo.stranded then Written
    else if p in undo.lost then Lost
    else if InPaths(p, touched) then RolledBack
    else if current == Some(p) then Failed
    else Pending
  }

  /** What an apply leaves: the disk, whether it returned, and the action reported per pending path. */
  datatype Outcome = Outcome(
    world: World, ok: bool, touched: seq<Moved>, stranded: set<Path>, lost: set<Path>, actions: map<Path, Action>)

  function Paths(xs: seq<Write>): set<Path> {
    set x | x in xs :: x.path
  }

  /** The exception handler: roll back, then keep or discard the staging tree. */
  function Recover(f: Faults, w: World, pending: seq<Write>, touched: seq<Moved>, current: Option<Path>): Outcome {
    var undo := Rollback(f, w, touched);
    var kept := undo.stranded != {} || undo.lost != {};
    var after := if kept then undo.world else Discard(f, undo.world);
    Outcome(after, false, touched, undo.stranded, undo.lost,
            map p | p in Paths(pending) :: FinalAction(undo, touched, current, p))
  }

  function Apply(f: Faults, w: World, pending: seq<Write>): Outcome {
    if pending == [] then Outcome(w, true, [], {}, {}, map[])
    else if f(w.clock) then Recover(f, Tick(w), pending, [], None)  // making the run directory
    else
      var staged := StageAll(f, Tick(w), pending);
      if staged.done < |pending| then Recover(f, staged.world, pending, [], Some(pending[staged.done].path))
      else
        var moves := MoveAll(f, staged.world, pending);
        if !moves.ok then
          Recover(f, moves.world, pending, moves.touched, Some(pending[StoppedAt(f, staged.world, pending)].path))
        else
          Outcome(Discard(f, moves.world), true, moves.touched, {}, {}, map p | p in Paths(pending) :: Written)
  }

  /** Index of the write the move loop was at when it failed. */
  function StoppedAt(f: Faults, w: World, xs: seq<Write>): (k: nat)
    requires !MoveAll(f, w, xs).ok
    ensures k < |xs|
    decreases |xs|
  {
    var one := MoveOne(f, w, xs[0]);
    if one.ok then StoppedAt(f, one.world, xs[1..]) + 1 else 0
  }

  // ---- what each phase does to the disk --------------------------------

  ghost predicate Same(d: Disk, e: Disk, p: Place) {
    (p in d <==> p in e) && (p in d ==> d[p] == e[p])
  }

  /** The original file of destination `q`, if it had one, is at `q` or in the saved staging area. */
  ghost predicate Conserved(d0: Disk, d: Disk, q: Path) {
    IsFile(d0, Live(q)) ==>
      (Live(q) in d && d[Live(q)] == d0[Live(q)]) || (Saved(q) in d && d[Saved(q)] == d0[Live(q)])
  }

  ghost predicate NoneGone(d0: Disk, d: Disk) {
    forall q :: Conserved(d0, d, q)
  }

  /** Destinations and saved originals are as they were. */
  ghost predicate Untouched(d: Disk, e: Disk) {
    forall q {:trigger Live(q)} {:trigger Saved(q)} :: Same(d, e, Live(q)) && Same(d, e, Saved(q))
  }

  ghost predicate Extends(w: World, v: World) {
    |w.trace| <= |v.trace| && v.trace[..|w.trace|] == w.trace
  }

  ghost predicate Distinct(xs: seq<Write>) {
    forall i, j :: 0 <= i < j < |xs| ==> xs[i].path != xs[j].path
  }

  /** The staged copy of `x` is complete. */
  ghost predicate Staged(d: Disk, x: Write) {
    IsFile(d, Fresh(x.path)) && d[Fresh(x.path)].data == x.data
    && d[Fresh(x.path)].mode == (if x.mode.Some? then x.mode.value else DEFAULT_MODE)
  }

  lemma StageOneSpec(f: Faults, w: World, x: Write, d0: Disk)
    requires Untouched(d0, w.disk)
    ensures var r := StageOne(f, w, x);
      && Extends(w, r.world)
      && (forall i :: |w.trace| <= i < |r.world.trace| ==> Untouched(d0, r.world.trace[i]))
      && Untouched(d0, r.world.disk)
      && (r.ok ==> Staged(r.world.disk, x))
      && (forall q :: q != x.path ==> Same(w.disk, r.world.disk, Fresh(q)))
  {
  }

  lemma {:induction false} StagingTouchesNothing(f: Faults, w: World, xs: seq<Write>, d0: Disk)
    requires Untouched(d0, w.disk)
    ensures var r := StageAll(f, w, xs);
      && Extends(w, r.world)
      && (forall i :: |w.trace| <= i < |r.world.trace| ==> Untouched(d0, r.world.trace[i]))
      && Untouched(d0, r.world.disk)
    decreases |xs|
  {
    if xs != [] {
      StageOneSpec(f, w, xs[0], d0);
      StagingTouchesNothing(f, StageOne(f, w, xs[0]).world, xs[1..], d0);
    }
  }

  lemma {:induction false} StagingCompletes(f: Faults, w: World, xs: seq<Write>)
    requires Distinct(xs)
    ensures var r := StageAll(f, w, xs);
      && (forall i :: 0 <= i < r.done ==> Staged(r.world.disk, xs[i]))
      && (forall q :: q !in Paths(xs) ==> Same(w.disk, r.world.disk, Fresh(q)))
    decreases |xs|
  {
    if xs != [] {
      var one := StageOne(f, w, xs[0]);
      StageOneSpec(f, w, xs[0], w.disk);
      if one.ok {
        StagingCompletes(f, one.world, xs[1..]);
        assert xs[0].path !in Paths(xs[1..]);
        assert Same(one.world.disk, StageAll(f, one.world, xs[1..]).world.disk, Fresh(xs[0].path));
        assert Paths(xs) == {xs[0].path} + Paths(xs[1..]);
      } else {
        assert xs[0].path in Paths(xs);
      }
    }
  }

  /** Nothing at the destination of `x` refuses the new bytes. */
  predicate Landable(d: Disk, x: Write) {
    Live(x.path) in d ==> !d[Live(x.path)].Directory? && !d[Live(x.path)].Link? && !x.keepExisting
  }

  /** What the moves left of one touched destination, the moves having started from `d0`. */
  ghost predicate Placed(m: Moved, d0: Disk, d: Disk) {
    var p := m.write.path;
    && (m.saved ==> IsFile(d0, Live(p)) && Saved(p) in d && d[Saved(p)] == d0[Live(p)])
    && (!m.saved ==> Saved(p) !in d)
    && (m.landed ==> Fresh(p) in d0 && Live(p) in d && d[Live(p)] == d0[Fresh(p)] && m.saved == IsFile(d0, Live(p)))
    && (m.landed ==> Landable(d0, m.write))
    && (!m.landed && m.saved ==> Live(p) !in d)
    && (!m.landed && !m.saved ==> Same(d0, d, Live(p)))
  }

  ghost predicate Apart(p: Path, d: Disk, e: Disk) {
    forall q {:trigger Live(q)} {:trigger Saved(q)} {:trigger Fresh(q)} ::
      q != p ==> Same(d, e, Live(q)) && Same(d, e, Saved(q)) && Same(d, e, Fresh(q))
  }

  lemma MoveOneSpec(f: Faults, w: World, x: Write)
    requires Staged(w.disk, x) && Saved(x.path) !in w.disk
    ensures var r := MoveOne(f, w, x);
      && Apart(x.path, w.disk, r.world.disk)
      && |r.touched| <= 1 && (r.ok ==> |r.touched| == 1 && r.touched[0].landed)
      && (!r.ok && |r.touched| == 1 ==> !r.touched[0].landed)
      && (forall m :: m in r.touched ==> m.write == x && Placed(m, w.disk, r.world.disk))
      && (r.touched == [] ==> r.world.disk == w.disk)
  {
  }

  /** Outside `ps`, destinations and saved originals are as they were. */
  ghost predicate Frame(d: Disk, e: Disk, ps: set<Path>) {
    forall q {:trigger Live(q)} {:trigger Saved(q)} ::
      q !in ps ==> Same(d, e, Live(q)) && Same(d, e, Saved(q))
  }

  ghost predicate Ready(d: Disk, xs: seq<Write>) {
    Distinct(xs) && forall x :: x in xs ==> Staged(d, x) && Saved(x.path) !in d
  }

  /** The touched list is a prefix of the writes, each placed as recorded, the later ones untouched. */
  ghost predicate Progress(d0: Disk, d: Disk, xs: seq<Write>, touched: seq<Moved>) {
    && |touched| <= |xs|
    && (forall i :: 0 <= i < |touched| ==> touched[i].write == xs[i] && Placed(touched[i], d0, d))
    && (forall i :: |touched| <= i < |xs| ==> Same(d0, d, Live(xs[i].path)) && Saved(xs[i].path) !in d)
    && (forall i :: 0 <= i < |touched| - 1 ==> touched[i].landed)
  }

  lemma StillReady(d: Disk, e: Disk, xs: seq<Write>)
    requires xs != [] && Ready(d, xs) && Apart(xs[0].path, d, e)
    ensures Ready(e, xs[1..]) && forall y :: y in xs[1..] ==> y.path != xs[0].path
  {
    forall y | y in xs[1..] ensures Staged(e, y) && Saved(y.path) !in e && y.path != xs[0].path {
      assert Same(d, e, Fresh(y.path)) && Same(d, e, Saved(y.path));
    }
  }

  /** Everything before the write the loop stopped at has landed; that one is touched or not, never landed. */
  lemma {:induction false} MoveAllShape(f: Faults, w: World, xs: seq<Write>)
    ensures var r := MoveAll(f, w, xs);
      && (r.ok ==> |r.touched| == |xs| && forall i :: 0 <= i < |xs| ==> r.touched[i].landed)
      && (!r.ok ==>
            var k := StoppedAt(f, w, xs);
            k <= |r.touched| <= k + 1 && forall i :: 0 <= i < |r.touched| ==> (r.touched[i].landed <==> i < k))
    decreases |xs|
  {
    if xs != [] {
      var one := MoveOne(f, w, xs[0]);
      assert one.ok ==> |one.touched| == 1 && one.touched[0].landed;
      assert !one.ok ==> |one.touched| <= 1 && forall m :: m in one.touched ==> !m.landed;
      if one.ok {
        MoveAllShape(f, one.world, xs[1..]);
      }
    }
  }

  lemma {:induction false} MoveAllSpec(f: Faults, w: World, xs: seq<Write>)
    requires Ready(w.disk, xs)
    ensures Frame(w.disk, MoveAll(f, w, xs).world.disk, Paths(xs))
    ensures Progress(w.disk, MoveAll(f, w, xs).world.disk, xs, MoveAll(f, w, xs).touched)
    decreases |xs|
  {
    if xs != [] {
      var x := xs[0];
      var one := MoveOne(f, w, x);
      MoveOneSpec(f, w, x);
      if one.ok {
        StillReady(w.disk, one.world.disk, xs);
        MoveAllSpec(f, one.world, xs[1..]);
        MoveOneThenRest(w.disk, x, one, xs[1..], MoveAll(f, one.world, xs[1..]));
        assert xs == [x] + xs[1..] && Paths(xs) == {x.path} + Paths(xs[1..]);
      } else {
        MoveOneFails(w.disk, xs, one);
      }
    }
  }

  lemma MoveOneFails(d0: Disk, xs: seq<Write>, one: Moves)
    requires xs != [] && Ready(d0, xs) && Apart(xs[0].path, d0, one.world.disk) && |one.touched| <= 1
    requires forall m :: m in one.touched ==> m.write == xs[0] && Placed(m, d0, one.world.disk)
    requires one.touched == [] ==> one.world.disk == d0
    ensures Frame(d0, one.world.disk, Paths(xs)) && Progress(d0, one.world.disk, xs, one.touched)
  {
    assert xs[0].path in Paths(xs);
    forall i | |one.touched| <= i < |xs|
      ensures Same(d0, one.world.disk, Live(xs[i].path)) && Saved(xs[i].path) !in one.world.disk
    {
      assert i > 0 ==> Same(d0, one.world.disk, Live(xs[i].path)) && Same(d0, one.world.disk, Saved(xs[i].path));
    }
  }

  /** Composing one move with the moves after it. */
  lemma MoveOneThenRest(d0: Disk, x: Write, one: Moves, ys: seq<Write>, rest: Moves)
    requires x.path !in Paths(ys) && Saved(x.path) !in d0
    requires forall y :: y in ys ==> Saved(y.path) !in d0
    requires |one.touched| == 1 && one.touched[0].landed && one.touched[0].write == x
    requires Placed(one.touched[0], d0, one.world.disk)
    requires Apart(x.path, d0, one.world.disk)
    requires Frame(one.world.disk, rest.world.disk, Paths(ys))
    requires Progress(one.world.disk, rest.world.disk, ys, rest.touched)
    ensures Frame(d0, rest.world.disk, {x.path} + Paths(ys))
    ensures Progress(d0, rest.world.disk, [x] + ys, one.touched + rest.touched)
  {
    var d1, d2 := one.world.disk, rest.world.disk;
    assert Same(d1, d2, Live(x.path)) && Same(d1, d2, Saved(x.path));
    var all := one.touched + rest.touched;
    forall i | 0 <= i < |all| ensures all[i].write == ([x] + ys)[i] && Placed(all[i], d0, d2) {
      if i > 0 {
        assert Placed(rest.touched[i - 1], d1, d2) && rest.touched[i - 1].write == ys[i - 1];
        var p := ys[i - 1].path;
        assert p in Paths(ys);
        assert Same(d0, d1, Live(p)) && Same(d0, d1, Fresh(p));
      }
    }
    forall i | |all| <= i < |[x] + ys|
      ensures Same(d0, d2, Live(([x] + ys)[i].path)) && Saved(([x] + ys)[i].path) !in d2
    {
      assert ([x] + ys)[i] == ys[i - 1] && ys[i - 1].path in Paths(ys);
      assert Same(d0, d1, Live(ys[i - 1].path));
    }
  }

  /** Going from `w` to `v`, no disk on the way has lost an original of `d0`. */
  ghost predicate Kept(d0: Disk, w: World, v: World) {
    && Extends(w, v)
    && (forall i :: |w.trace| <= i < |v.trace| ==> NoneGone(d0, v.trace[i]))
    && NoneGone(d0, v.disk)
  }

  lemma OneStepKept(d0: Disk, w: World, v: World, p: Path)
    requires NoneGone(d0, w.disk) && Extends(w, v)
    requires forall i :: |w.trace| <= i < |v.trace| ==> Apart(p, w.disk, v.trace[i]) && Conserved(d0, v.trace[i], p)
    requires Apart(p, w.disk, v.disk) && Conserved(d0, v.disk, p)
    ensures Kept(d0, w, v)
  {
    forall d, q | Apart(p, w.disk, d) && Conserved(d0, d, p) ensures Conserved(d0, d, q) {
      assert Conserved(d0, w.disk, q);
      assert q != p ==> Same(w.disk, d, Live(q)) && Same(w.disk, d, Saved(q));
    }
  }

  lemma MoveOneKeepsOriginals(f: Faults, w: World, x: Write, d0: Disk)
    requires Saved(x.path) !in w.disk && NoneGone(d0, w.disk) && Same(d0, w.disk, Live(x.path))
    ensures Kept(d0, w, MoveOne(f, w, x).world)
  {
    OneStepKept(d0, w, MoveOne(f, w, x).world, x.path);
  }

  lemma {:induction false} MovesKeepOriginals(f: Faults, w: World, xs: seq<Write>, d0: Disk)
    requires Ready(w.disk, xs) && NoneGone(d0, w.disk)
    requires forall x :: x in xs ==> Same(d0, w.disk, Live(x.path))
    ensures Kept(d0, w, MoveAll(f, w, xs).world)
    decreases |xs|
  {
    if xs != [] {
      var x := xs[0];
      var one := MoveOne(f, w, x);
      MoveOneKeepsOriginals(f, w, x, d0);
      if one.ok {
        MoveOneSpec(f, w, x);
        StillReady(w.disk, one.world.disk, xs);
        hide MoveOne;
        hide NoneGone;
        hide Ready;
        forall y | y in xs[1..] ensures Same(d0, one.world.disk, Live(y.path)) {
          assert Same(w.disk, one.world.disk, Live(y.path));
        }
        MovesKeepOriginals(f, one.world, xs[1..], d0);
        KeptThrough(d0, w, one.world, MoveAll(f, one.world, xs[1..]).world);
        hide Kept;
      }
    } else {
      hide NoneGone;
    }
  }

  lemma KeptThrough(d0: Disk, w: World, u: World, v: World)
    requires Kept(d0, w, u) && Kept(d0, u, v)
    ensures Kept(d0, w, v)
  {
    hide NoneGone;
    forall i | |w.trace| <= i < |v.trace| ensures NoneGone(d0, v.trace[i]) {
      assert i < |u.trace| ==> v.trace[i] == u.trace[i];
    }
  }

  // ---- rollback --------------------------------------------------------

  function TouchedPaths(touched: seq<Moved>): set<Path> {
    set m | m in touched :: m.write.path
  }

  ghost predicate DistinctMoves(touched: seq<Moved>) {
    forall i, j :: 0 <= i < j < |touched| ==> touched[i].write.path != touched[j].write.path
  }

  /** How the rollback left one touched destination, in the words of its report. */
  ghost predicate Undone(m: Moved, d0: Disk, d: Disk, stranded: set<Path>, lost: set<Path>) {
    var p := m.write.path;
    if p in stranded then
      m.landed && p !in lost && Fresh(p) in d0 && Live(p) in d && d[Live(p)] == d0[Fresh(p)]
      && (m.saved ==> IsFile(d0, Live(p)) && Saved(p) in d && d[Saved(p)] == d0[Live(p)])
    else if p in lost then
      m.saved && !m.landed && IsFile(d0, Live(p)) && Live(p) !in d && Saved(p) in d && d[Saved(p)] == d0[Live(p)]
    else
      Saved(p) !in d && if m.landed && !m.saved then Live(p) !in d else Same(d0, d, Live(p))
  }

  lemma UndoOneSpec(f: Faults, w: World, m: Moved, d0: Disk)
    requires Placed(m, d0, w.disk)
    ensures var r := UndoOne(f, w, m); var p := m.write.path;
      && Apart(p, w.disk, r.world.disk)
      && (r.ok ==> Undone(m, d0, r.world.disk, {}, {}))
      && (!r.ok ==> r.world.disk == w.disk && (m.saved || m.landed))
  {
  }

  /** Taking off the last touched destination leaves the earlier ones placed as they were. */
  lemma EarlierStayPlaced(touched: seq<Moved>, d0: Disk, d: Disk, e: Disk)
    requires touched != [] && DistinctMoves(touched)
    requires forall m :: m in touched ==> Placed(m, d0, d)
    requires Apart(touched[|touched| - 1].write.path, d, e)
    ensures forall m :: m in touched[..|touched| - 1] ==> Placed(m, d0, e)
    ensures touched[|touched| - 1].write.path !in TouchedPaths(touched[..|touched| - 1])
    ensures TouchedPaths(touched) == TouchedPaths(touched[..|touched| - 1]) + {touched[|touched| - 1].write.path}
  {
    var n := |touched| - 1;
    assert touched == touched[..n] + [touched[n]];
    forall m | m in touched[..n] ensures Placed(m, d0, e) {
      assert Placed(m, d0, d);
      assert Same(d, e, Live(m.write.path)) && Same(d, e, Saved(m.write.path));
    }
  }

  lemma {:induction false} RollbackSpec(f: Faults, w: World, touched: seq<Moved>, d0: Disk)
    requires DistinctMoves(touched)
    requires forall m :: m in touched ==> Placed(m, d0, w.disk)
    ensures var r := Rollback(f, w, touched);
      && Frame(w.disk, r.world.disk, TouchedPaths(touched))
      && r.stranded <= TouchedPaths(touched) && r.lost <= TouchedPaths(touched)
      && (forall m :: m in touched ==> Undone(m, d0, r.world.disk, r.stranded, r.lost))
    decreases |touched|
  {
    if touched != [] {
      var n := |touched| - 1;
      var m, before := touched[n], touched[..n];
      var one := UndoOne(f, w, m);
      UndoOneSpec(f, w, m, d0);
      EarlierStayPlaced(touched, d0, w.disk, one.world.disk);
      RollbackSpec(f, one.world, before, d0);
      var rest := Rollback(f, one.world, before);
      var r := Rollback(f, w, touched);
      assert Same(one.world.disk, rest.world.disk, Live(m.write.path))
        && Same(one.world.disk, rest.world.disk, Saved(m.write.path));
      forall k | k in touched ensures Undone(k, d0, r.world.disk, r.stranded, r.lost) {
        if k in before {
          assert Undone(k, d0, rest.world.disk, rest.stranded, rest.lost) && k.write.path in TouchedPaths(before);
        } else {
          assert k == m && Placed(m, d0, w.disk);
        }
      }
    }
  }

  lemma {:induction false} RollbackKeepsOriginals(f: Faults, w: World, touched: seq<Moved>, d0: Disk)
    requires DistinctMoves(touched) && NoneGone(d0, w.disk)
    requires forall m :: m in touched ==> Placed(m, d0, w.disk)
    ensures Kept(d0, w, Rollback(f, w, touched).world)
    decreases |touched|
  {
    if touched != [] {
      var n := |touched| - 1;
      var m := touched[n];
      var one := UndoOne(f, w, m);
      UndoOneSpec(f, w, m, d0);
      EarlierStayPlaced(touched, d0, w.disk, one.world.disk);
      assert Placed(m, d0, w.disk);
      OneStepKept(d0, w, one.world, m.write.path);
      RollbackKeepsOriginals(f, one.world, touched[..n], d0);
    }
  }

  // ---- what an apply guarantees ----------------------------------------

  /** The destination holds the new bytes, with the mode the write asked for. */
  ghost predicate HoldsNew(d: Disk, x: Write) {
    IsFile(d, Live(x.path)) && d[Live(x.path)].data == x.data
    && d[Live(x.path)].mode == (if x.mode.Some? then x.mode.value else DEFAULT_MODE)
  }

  /** The action reported for `x` says what is on disk. */
  ghost predicate Truthful(x: Write, action: Action, d0: Disk, d: Disk) {
    var p := Live(x.path);
    match action
    case Written => HoldsNew(d, x) && (IsFile(d0, p) ==> Saved(x.path) in d && d[Saved(x.path)] == d0[p])
    case Lost => p !in d && IsFile(d0, p) && Saved(x.path) in d && d[Saved(x.path)] == d0[p]
    case RolledBack => if IsSpecial(d0, p) then p !in d else Same(d0, d, p)
    case Failed => Same(d0, d, p)
    case Pending => Same(d0, d, p)
    case _ => false
  }

  /** Every destination outside the pending writes is untouched. */
  ghost predicate OthersUntouched(d0: Disk, d: Disk, pending: seq<Write>) {
    forall q {:trigger Live(q)} :: q !in Paths(pending) ==> Same(d0, d, Live(q))
  }

  /** A failed apply: honest about each write, no original gone, nothing else changed. */
  ghost predicate FailsSafely(d0: Disk, pending: seq<Write>, r: Outcome) {
    && !r.ok
    && r.actions.Keys == Paths(pending)
    && (forall x :: x in pending ==> Truthful(x, r.actions[x.path], d0, r.world.disk))
    && (forall x :: x in pending ==> (r.actions[x.path].Written? <==> x.path in r.stranded))
    && (forall x :: x in pending ==> (r.actions[x.path].Lost? <==> x.path in r.lost))
    && r.stranded + r.lost <= Paths(pending)
    && OthersUntouched(d0, r.world.disk, pending)
    && NoneGone(d0, r.world.disk)
  }

  lemma DiscardKeepsLive(f: Faults, w: World)
    ensures forall q {:trigger Live(q)} :: Same(w.disk, Discard(f, w).disk, Live(q))
    ensures Extends(w, Discard(f, w)) && |Discard(f, w).trace| <= |w.trace| + 1
    ensures forall i :: |w.trace| <= i < |Discard(f, w).trace| ==> Discard(f, w).trace[i] == Discard(f, w).disk
  {
  }

  /** The state an interrupted apply hands to its recovery; `d0` is the disk when the moves began. */
  ghost predicate Attempted(d0: Disk, d: Disk, pending: seq<Write>, touched: seq<Moved>) {
    && Distinct(pending) && |touched| <= |pending|
    && OthersUntouched(d0, d, pending)
    && (forall i :: 0 <= i < |touched| ==>
          touched[i].write == pending[i] && Staged(d0, pending[i]) && Placed(touched[i], d0, d))
    && (forall i :: |touched| <= i < |pending| ==> Same(d0, d, Live(pending[i].path)))
  }

  /** `UndoneAll` is what `RollbackSpec` says of the rollback this recovery runs. */
  ghost predicate UndoneAll(d0: Disk, d: Disk, undo: Undo, touched: seq<Moved>) {
    && Frame(d, undo.world.disk, TouchedPaths(touched))
    && undo.stranded <= TouchedPaths(touched) && undo.lost <= TouchedPaths(touched)
    && forall m :: m in touched ==> Undone(m, d0, undo.world.disk, undo.stranded, undo.lost)
  }

  lemma RecoverUndoes(f: Faults, w: World, pending: seq<Write>, touched: seq<Moved>, d0: Disk)
    requires Attempted(d0, w.disk, pending, touched)
    ensures DistinctMoves(touched) && TouchedPaths(touched) <= Paths(pending)
    ensures forall m :: m in touched ==> Placed(m, d0, w.disk)
    ensures UndoneAll(d0, w.disk, Rollback(f, w, touched), touched)
  {
    forall m | m in touched ensures Placed(m, d0, w.disk) && m.write in pending {}
    RollbackSpec(f, w, touched, d0);
  }

  /** One write after the recovery: its reported action is what happened to it. */
  lemma WriteRecovered(
      f: Faults, w: World, pending: seq<Write>, touched: seq<Moved>, current: Option<Path>, d0: Disk, i: nat)
    requires i < |pending| && Attempted(d0, w.disk, pending, touched)
    requires UndoneAll(d0, w.disk, Rollback(f, w, touched), touched)
    ensures var r := Recover(f, w, pending, touched, current); var p := pending[i].path;
      && p in r.actions && Truthful(pending[i], r.actions[p], d0, r.world.disk)
      && (r.actions[p].Written? <==> p in r.stranded) && (r.actions[p].Lost? <==> p in r.lost)
  {
    var undo := Rollback(f, w, touched);
    var x := pending[i];
    var after := Recover(f, w, pending, touched, current).world.disk;
    DiscardKeepsLive(f, undo.world);
    assert Same(undo.world.disk, Discard(f, undo.world).disk, Live(x.path));
    assert x.path in Paths(pending);
    hide Rollback;
    hide Discard;
    if i < |touched| {
      LandedAt(d0, w.disk, pending, touched, i);
      assert touched[i] in touched;
      TouchedIsTruthful(undo, touched, current, x, touched[i], d0, w.disk, after);
    } else {
      assert x.path !in TouchedPaths(touched);
      assert Same(w.disk, undo.world.disk, Live(x.path));
    }
    hide Attempted;
    hide Undone;
    hide Truthful;
  }

  /** What is reported of a touched destination is what the rollback left there. */
  lemma TouchedIsTruthful(
      undo: Undo, touched: seq<Moved>, current: Option<Path>, x: Write, m: Moved, d0: Disk, d: Disk, after: Disk)
    requires m.write == x && Staged(d0, x) && Placed(m, d0, d) && (InPaths(x.path, touched) <==> m.landed)
    requires Undone(m, d0, undo.world.disk, undo.stranded, undo.lost)
    requires after == undo.world.disk
      || (undo.stranded == {} && undo.lost == {} && Same(undo.world.disk, after, Live(x.path)))
    ensures Truthful(x, FinalAction(undo, touched, current, x.path), d0, after)
    ensures var action := FinalAction(undo, touched, current, x.path);
      (action.Written? <==> x.path in undo.stranded) && (action.Lost? <==> x.path in undo.lost)
  {
    hide InPaths;
  }

  lemma LandedAt(d0: Disk, d: Disk, pending: seq<Write>, touched: seq<Moved>, i: nat)
    requires Attempted(d0, d, pending, touched) && i < |touched|
    ensures InPaths(pending[i].path, touched) <==> touched[i].landed
    ensures touched[i].write == pending[i]
  {
    if touched[i].landed {
      assert touched[i].write.path == pending[i].path;
    }
    forall j | 0 <= j < |touched| && touched[j].write.path == pending[i].path ensures j == i {
      assert touched[j].write == pending[j];
    }
  }

  /** Dropping the staging tree after a clean rollback drops no original. */
  lemma CleanRollbackHoldsOriginals(d0: Disk, d: Disk, undo: Undo, touched: seq<Moved>, q: Path)
    requires UndoneAll(d0, d, undo, touched) && undo.stranded == {} && undo.lost == {}
    requires q !in TouchedPaths(touched) ==> Same(d0, d, Live(q))
    requires forall m :: m in touched ==> Placed(m, d0, d)
    ensures IsFile(d0, Live(q)) ==> Same(d0, undo.world.disk, Live(q))
  {
    if q in TouchedPaths(touched) {
      var m :| m in touched && m.write.path == q;
      assert Undone(m, d0, undo.world.disk, {}, {}) && Placed(m, d0, d);
    } else {
      assert Same(d, undo.world.disk, Live(q));
    }
  }

  lemma RecoverKeepsOriginals(
      f: Faults, w: World, pending: seq<Write>, touched: seq<Moved>, current: Option<Path>, d0: Disk)
    requires Attempted(d0, w.disk, pending, touched) && NoneGone(d0, w.disk)
    ensures Kept(d0, w, Recover(f, w, pending, touched, current).world)
  {
    var undo := Rollback(f, w, touched);
    RecoverUndoes(f, w, pending, touched, d0);
    RollbackKeepsOriginals(f, w, touched, d0);
    if undo.stranded == {} && undo.lost == {} {
      DiscardKeepsLive(f, undo.world);
      var after := Discard(f, undo.world);
      forall q ensures Conserved(d0, after.disk, q) {
        assert Same(undo.world.disk, after.disk, Live(q));
        if q !in TouchedPaths(touched) && q in Paths(pending) {
          var i :| 0 <= i < |pending| && pending[i].path == q;
          assert forall j :: 0 <= j < |touched| ==> touched[j] in touched;
        }
        CleanRollbackHoldsOriginals(d0, w.disk, undo, touched, q);
      }
    }
  }

  lemma RecoverSpec(
      f: Faults, w: World, pending: seq<Write>, touched: seq<Moved>, current: Option<Path>, d0: Disk)
    requires Attempted(d0, w.disk, pending, touched) && NoneGone(d0, w.disk)
    ensures FailsSafely(d0, pending, Recover(f, w, pending, touched, current))
  {
    var r := Recover(f, w, pending, touched, current);
    var undo := Rollback(f, w, touched);
    RecoverUndoes(f, w, pending, touched, d0);
    RecoverKeepsOriginals(f, w, pending, touched, current, d0);
    DiscardKeepsLive(f, undo.world);
    forall i | 0 <= i < |pending|
      ensures var p := pending[i].path;
        && Truthful(pending[i], r.actions[p], d0, r.world.disk)
        && (r.actions[p].Written? <==> p in r.stranded) && (r.actions[p].Lost? <==> p in r.lost)
    {
      WriteRecovered(f, w, pending, touched, current, d0, i);
    }
    forall q | q !in Paths(pending) ensures Same(d0, r.world.disk, Live(q)) {
      assert Same(undo.world.disk, r.world.disk, Live(q)) && Same(w.disk, undo.world.disk, Live(q));
    }
  }

  /** A run directory of its own: nothing is staged or saved yet. */
  ghost predicate Unstaged(w: World) {
    forall p :: p in w.disk ==> p.Live?
  }

  /** A completed apply: every pending destination holds its new bytes and nothing else changed. */
  ghost predicate Completed(d0: Disk, pending: seq<Write>, r: Outcome) {
    && r.ok
    && r.actions == (map p | p in Paths(pending) :: Written)
    && (forall x :: x in pending ==> HoldsNew(r.world.disk, x))
    && OthersUntouched(d0, r.world.disk, pending)
  }

  lemma MovesFromStaged(f: Faults, w: World, pending: seq<Write>)
    requires Distinct(pending) && Unstaged(w)
    requires StageAll(f, w, pending).done == |pending|
    ensures var s := StageAll(f, w, pending).world; var r := MoveAll(f, s, pending);
      && Untouched(w.disk, s.disk) && Ready(s.disk, pending) && NoneGone(w.disk, s.disk)
      && Attempted(s.disk, r.world.disk, pending, r.touched)
      && Kept(s.disk, s, r.world) && NoneGone(s.disk, s.disk)
      && (r.ok ==> forall x :: x in pending ==> HoldsNew(r.world.disk, x))
  {
    var s := StageAll(f, w, pending).world;
    var r := MoveAll(f, s, pending);
    StagingTouchesNothing(f, w, pending, w.disk);
    StagingCompletes(f, w, pending);
    forall x | x in pending ensures Staged(s.disk, x) && Saved(x.path) !in s.disk {
      assert Same(w.disk, s.disk, Saved(x.path));
    }
    MoveAllSpec(f, s, pending);
    MoveAllShape(f, s, pending);
    MovesKeepOriginals(f, s, pending, s.disk);
    if r.ok {
      forall x | x in pending ensures HoldsNew(r.world.disk, x) {
        var i :| 0 <= i < |pending| && pending[i] == x;
        assert Placed(r.touched[i], s.disk, r.world.disk);
      }
    }
  }

  /** Moving the reference disk along: only destinations and saved originals matter. */
  lemma FailsSafelyFrom(d: Disk, d0: Disk, pending: seq<Write>, r: Outcome)
    requires Untouched(d, d0) && FailsSafely(d0, pending, r)
    ensures FailsSafely(d, pending, r)
  {
    forall x | x in pending ensures Truthful(x, r.actions[x.path], d, r.world.disk) {
      assert Same(d, d0, Live(x.path)) && Truthful(x, r.actions[x.path], d0, r.world.disk);
    }
    forall q | q !in Paths(pending) ensures Same(d, r.world.disk, Live(q)) {
      assert Same(d, d0, Live(q)) && Same(d0, r.world.disk, Live(q));
    }
    forall q ensures Conserved(d, r.world.disk, q) {
      assert Same(d, d0, Live(q)) && Conserved(d0, r.world.disk, q);
    }
  }

  lemma ApplyCompletes(f: Faults, w: World, pending: seq<Write>)
    requires Distinct(pending) && Unstaged(w) && Apply(f, w, pending).ok
    ensures Completed(w.disk, pending, Apply(f, w, pending))
  {
    if pending != [] {
      var s := StageAll(f, Tick(w), pending).world;
      var moves := MoveAll(f, s, pending);
      var r := Apply(f, w, pending);
      MovesFromStaged(f, Tick(w), pending);
      DiscardKeepsLive(f, moves.world);
      forall x | x in pending ensures HoldsNew(r.world.disk, x) {
        assert HoldsNew(moves.world.disk, x) && Same(moves.world.disk, r.world.disk, Live(x.path));
      }
      forall q | q !in Paths(pending) ensures Same(w.disk, r.world.disk, Live(q)) {
        assert Same(w.disk, s.disk, Live(q)) && Same(s.disk, moves.world.disk, Live(q))
               && Same(moves.world.disk, r.world.disk, Live(q));
      }
    }
  }

  lemma ApplyFails(f: Faults, w: World, pending: seq<Write>)
    requires Distinct(pending) && Unstaged(w) && !Apply(f, w, pending).ok
    ensures FailsSafely(w.disk, pending, Apply(f, w, pending))
  {
    var w1 := Tick(w);
    if f(w.clock) {
      RecoverSpec(f, w1, pending, [], None, w.disk);
    } else {
      var staged := StageAll(f, w1, pending);
      var s := staged.world;
      StagingTouchesNothing(f, w1, pending, w.disk);
      if staged.done < |pending| {
        RecoverSpec(f, s, pending, [], Some(pending[staged.done].path), s.disk);
      } else {
        MovesFromStaged(f, w1, pending);
        var moves := MoveAll(f, s, pending);
        RecoverSpec(f, moves.world, pending, moves.touched, Some(pending[StoppedAt(f, s, pending)].path), s.disk);
      }
      FailsSafelyFrom(w.disk, s.disk, pending, Apply(f, w, pending));
    }
  }

  /**
   All or nothing, under every fault schedule: the apply returns with every
   pending destination replaced, or it raises having told the truth about each.
   */
  lemma ApplyIsAllOrNothing(f: Faults, w: World, pending: seq<Write>)
    requires Distinct(pending) && Unstaged(w)
    ensures Apply(f, w, pending).ok ==> Completed(w.disk, pending, Apply(f, w, pending))
    ensures !Apply(f, w, pending).ok ==> FailsSafely(w.disk, pending, Apply(f, w, pending))
  {
    if Apply(f, w, pending).ok {
      ApplyCompletes(f, w, pending);
    } else {
      ApplyFails(f, w, pending);
    }
  }

  lemma FailureKeepsOriginals(f: Faults, w: World, pending: seq<Write>)
    requires Distinct(pending) && Unstaged(w) && !Apply(f, w, pending).ok
    ensures Kept(w.disk, Tick(w), Apply(f, w, pending).world)
  {
    var w1 := Tick(w);
    var staged := StageAll(f, w1, pending);
    var s := staged.world;
    StagingTouchesNothing(f, w1, pending, w.disk);
    if f(w.clock) {
      RecoverKeepsOriginals(f, w1, pending, [], None, w.disk);
    } else if staged.done < |pending| {
      var at := Some(pending[staged.done].path);
      RecoverKeepsOriginals(f, s, pending, [], at, s.disk);
      KeptFrom(w.disk, w1, s, s, Recover(f, s, pending, [], at).world);
    } else {
      MovesFromStaged(f, w1, pending);
      var moves := MoveAll(f, s, pending);
      var at := Some(pending[StoppedAt(f, s, pending)].path);
      RecoverKeepsOriginals(f, moves.world, pending, moves.touched, at, s.disk);
      KeptFrom(w.disk, w1, s, moves.world, Recover(f, moves.world, pending, moves.touched, at).world);
    }
  }

  /**
   A kill at any moment loses no original: each disk an apply passes through
   still has every original, at its destination or saved, until the last one of
   a completed apply, where every destination holds its new bytes.
   */
  lemma NoStepLosesAnOriginal(f: Faults, w: World, pending: seq<Write>, i: nat)
    requires Distinct(pending) && Unstaged(w)
    requires |w.trace| <= i < |Apply(f, w, pending).world.trace|
    ensures var r := Apply(f, w, pending);
      || NoneGone(w.disk, r.world.trace[i])
      || (r.ok && i == |r.world.trace| - 1 && forall x :: x in pending ==> HoldsNew(r.world.trace[i], x))
  {
    if !Apply(f, w, pending).ok {
      FailureKeepsOriginals(f, w, pending);
    } else {
      ApplyCompletes(f, w, pending);
      if pending != [] {
        var moved := MovesKept(f, w, pending);
        DiscardAddsOne(f, moved);
        hide Apply;
        hide Discard;
        hide NoneGone;
        hide HoldsNew;
        assert i < |moved.trace| ==> Apply(f, w, pending).world.trace[i] == moved.trace[i];
      }
    }
  }

  /** Up to the end of a completed move loop every original is kept. */
  lemma MovesKept(f: Faults, w: World, pending: seq<Write>) returns (moved: World)
    requires Distinct(pending) && Unstaged(w) && pending != [] && Apply(f, w, pending).ok
    ensures Kept(w.disk, Tick(w), moved) && Apply(f, w, pending).world == Discard(f, moved)
  {
    var s := StageAll(f, Tick(w), pending).world;
    moved := MoveAll(f, s, pending).world;
    StagingTouchesNothing(f, Tick(w), pending, w.disk);
    MovesFromStaged(f, Tick(w), pending);
    KeptFrom(w.disk, Tick(w), s, s, moved);
    hide Kept;
    hide Discard;
  }

  lemma DiscardAddsOne(f: Faults, w: World)
    ensures var v := Discard(f, w);
      && w.trace <= v.trace && |v.trace| <= |w.trace| + 1
      && (|v.trace| > |w.trace| ==> v.trace[|w.trace|] == v.disk)
  {
  }

  /** Staging from `w`, then losing nothing from `v` on, loses nothing from `w` on. */
  lemma KeptFrom(d: Disk, w: World, s: World, v: World, u: World)
    requires d == w.disk && Extends(w, s) && Untouched(d, s.disk)
    requires forall i :: |w.trace| <= i < |s.trace| ==> Untouched(d, s.trace[i])
    requires Kept(s.disk, s, v) && Kept(s.disk, v, u)
    ensures Kept(d, w, u)
  {
    forall e, q | Untouched(d, e) ensures Conserved(d, e, q) {
      assert Same(d, e, Live(q));
    }
    forall e, q | NoneGone(s.disk, e) ensures Conserved(d, e, q) {
      assert Same(d, s.disk, Live(q)) && Conserved(s.disk, e, q);
    }
    forall i | |w.trace| <= i < |u.trace| ensures NoneGone(d, u.trace[i]) {
      if i < |s.trace| {
        assert u.trace[i] == s.trace[i];
      } else if i < |v.trace| {
        assert u.trace[i] == v.trace[i];
      }
    }
  }

  // ---- when a clean rollback restores everything -----------------------

  /** A special file (FIFO, socket, device) that an earlier-than-last write would replace. */
  ghost predicate Exposed(d: Disk, pending: seq<Write>) {
    exists i :: 0 <= i < |pending| - 1 && IsSpecial(d, Live(pending[i].path))
                && forall j :: 0 <= j <= i ==> Landable(d, pending[j])
  }

  ghost predicate CleanFailure(r: Outcome) {
    !r.ok && r.stranded == {} && r.lost == {}
  }

  ghost predicate Restored(d0: Disk, d: Disk, pending: seq<Write>) {
    forall x :: x in pending ==> Same(d0, d, Live(x.path))
  }

  lemma LandedMeansLandable(f: Faults, w: World, pending: seq<Write>, i: nat)
    requires Distinct(pending) && Unstaged(w) && !Apply(f, w, pending).ok
    requires i < |Apply(f, w, pending).touched| && Apply(f, w, pending).touched[i].landed
    ensures i < |pending| - 1 && Apply(f, w, pending).touched[i].write == pending[i]
    ensures forall j :: 0 <= j <= i ==> Landable(w.disk, pending[j])
  {
    var w1 := Tick(w);
    var staged := StageAll(f, w1, pending);
    MovesFromStaged(f, w1, pending);
    MoveAllShape(f, staged.world, pending);
    var moves := MoveAll(f, staged.world, pending);
    forall j | 0 <= j <= i ensures Landable(w.disk, pending[j]) {
      assert Placed(moves.touched[j], staged.world.disk, moves.world.disk);
      assert Same(w.disk, staged.world.disk, Live(pending[j].path));
    }
  }

  /** A destination reported rolled back had its new bytes landed. */
  lemma RolledBackHadLanded(f: Faults, w: World, pending: seq<Write>, p: Path) returns (i: nat)
    requires !Apply(f, w, pending).ok && p in Apply(f, w, pending).actions
    requires Apply(f, w, pending).actions[p] == RolledBack
    ensures var t := Apply(f, w, pending).touched; i < |t| && t[i].landed && t[i].write.path == p
  {
    var t := Apply(f, w, pending).touched;
    assert InPaths(p, t);
    i :| 0 <= i < |t| && t[i].landed && t[i].write.path == p;
  }

  lemma RestoresUnlessExposed(f: Faults, w: World, pending: seq<Write>)
    requires Distinct(pending) && Unstaged(w) && CleanFailure(Apply(f, w, pending))
    requires !Restored(w.disk, Apply(f, w, pending).world.disk, pending)
    ensures Exposed(w.disk, pending)
  {
    var r := Apply(f, w, pending);
    ApplyIsAllOrNothing(f, w, pending);
    var x :| x in pending && !Same(w.disk, r.world.disk, Live(x.path));
    assert Truthful(x, r.actions[x.path], w.disk, r.world.disk);
    var i := RolledBackHadLanded(f, w, pending, x.path);
    LandedMeansLandable(f, w, pending, i);
  }

  /** No file-system call numbered from `a` up to `b` fails. */
  ghost predicate Calm(f: Faults, a: nat, b: nat) {
    forall n :: a <= n < b ==> !f(n)
  }

  const NO_FAULT: Faults := n => false

  lemma {:induction false} CalmStaging(f: Faults, w: World, xs: seq<Write>)
    requires Calm(f, w.clock, StageAll(NO_FAULT, w, xs).world.clock)
    ensures w.clock <= StageAll(NO_FAULT, w, xs).world.clock
    ensures StageAll(f, w, xs) == StageAll(NO_FAULT, w, xs) && StageAll(f, w, xs).done == |xs|
    decreases |xs|
  {
    if xs != [] {
      var one := StageOne(NO_FAULT, w, xs[0]);
      assert one.ok && w.clock < one.world.clock;
      ClockRises(one.world, xs[1..]);
      CalmStaging(f, one.world, xs[1..]);
      assert StageOne(f, w, xs[0]) == one;
    }
  }

  lemma {:induction false} ClockRises(w: World, xs: seq<Write>)
    ensures w.clock <= StageAll(NO_FAULT, w, xs).world.clock
    ensures w.clock <= MoveAll(NO_FAULT, w, xs).world.clock
    decreases |xs|
  {
    if xs != [] {
      ClockRises(StageOne(NO_FAULT, w, xs[0]).world, xs[1..]);
      ClockRises(MoveOne(NO_FAULT, w, xs[0]).world, xs[1..]);
    }
  }

  lemma StillLandable(d: Disk, e: Disk, xs: seq<Write>, n: nat)
    requires 0 < n <= |xs| && Distinct(xs) && Apart(xs[0].path, d, e)
    requires forall j :: 0 <= j < n ==> Landable(d, xs[j])
    ensures forall j :: 0 <= j < n - 1 ==> Landable(e, xs[1..][j])
  {
    forall j | 0 <= j < n - 1 ensures Landable(e, xs[1..][j]) {
      assert Landable(d, xs[j + 1]) && Same(d, e, Live(xs[j + 1].path));
    }
  }

  /** With nothing in the way, `n` calm moves all land; then a fault at the next call stops the rest. */
  lemma {:induction false} CalmMoves(f: Faults, w: World, xs: seq<Write>, n: nat)
    requires Ready(w.disk, xs) && n < |xs| && forall j :: 0 <= j < n ==> Landable(w.disk, xs[j])
    requires var c := MoveAll(NO_FAULT, w, xs[..n]).world.clock; Calm(f, w.clock, c) && f(c)
    ensures var r := MoveAll(f, w, xs);
      && !r.ok && |r.touched| == n && StoppedAt(f, w, xs) == n
      && r.world.clock == MoveAll(NO_FAULT, w, xs[..n]).world.clock + 1
    decreases |xs|
  {
    if n > 0 {
      var one := MoveOne(NO_FAULT, w, xs[0]);
      assert xs[..n][0] == xs[0] && xs[..n][1..] == xs[1..][..n - 1];
      ClockRises(one.world, xs[..n][1..]);
      CalmMove(f, w, xs[0]);
      StillReady(w.disk, one.world.disk, xs);
      StillLandable(w.disk, one.world.disk, xs, n);
      CalmMoves(f, one.world, xs[1..], n - 1);
    }
  }

  lemma CalmMove(f: Faults, w: World, x: Write)
    requires Staged(w.disk, x) && Saved(x.path) !in w.disk && Landable(w.disk, x)
    requires Calm(f, w.clock, MoveOne(NO_FAULT, w, x).world.clock)
    ensures MoveOne(f, w, x) == MoveOne(NO_FAULT, w, x) && MoveOne(f, w, x).ok
    ensures |MoveOne(f, w, x).touched| == 1 && Apart(x.path, w.disk, MoveOne(f, w, x).world.disk)
  {
    MoveOneSpec(f, w, x);
  }

  lemma {:induction false} CalmRollback(f: Faults, w: World, touched: seq<Moved>, d0: Disk)
    requires DistinctMoves(touched) && forall n :: n >= w.clock ==> !f(n)
    requires forall m :: m in touched ==> Placed(m, d0, w.disk) && IsFile(d0, Fresh(m.write.path))
    ensures Rollback(f, w, touched).stranded == {} && Rollback(f, w, touched).lost == {}
    decreases |touched|
  {
    if touched != [] {
      var n := |touched| - 1;
      var m := touched[n];
      var one := UndoOne(f, w, m);
      UndoOneSpec(f, w, m, d0);
      assert Placed(m, d0, w.disk);
      EarlierStayPlaced(touched, d0, w.disk, one.world.disk);
      CalmRollback(f, one.world, touched[..n], d0);
    }
  }

  /** `f` fails only the first call made for the write after `i`. */
  ghost predicate OnlyFaultAfter(f: Faults, w: World, pending: seq<Write>, i: nat)
    requires i < |pending|
  {
    var s := StageAll(NO_FAULT, Tick(w), pending).world;
    forall n :: f(n) <==> n == MoveAll(NO_FAULT, s, pending[..i + 1]).world.clock
  }

  lemma LandableStaged(d: Disk, e: Disk, xs: seq<Write>, i: nat)
    requires i < |xs| && Untouched(d, e) && forall j :: 0 <= j <= i ==> Landable(d, xs[j])
    ensures forall j :: 0 <= j <= i ==> Landable(e, xs[j])
  {
    forall j | 0 <= j <= i ensures Landable(e, xs[j]) {
      assert Same(d, e, Live(xs[j].path));
    }
  }

  lemma OneFaultStages(f: Faults, w: World, pending: seq<Write>, i: nat)
    requires i < |pending| && OnlyFaultAfter(f, w, pending, i)
    ensures !f(w.clock) && StageAll(f, Tick(w), pending).done == |pending|
    ensures StageAll(f, Tick(w), pending).world == StageAll(NO_FAULT, Tick(w), pending).world
  {
    var s := StageAll(NO_FAULT, Tick(w), pending).world;
    ClockRises(Tick(w), pending);
    ClockRises(s, pending[..i + 1]);
    CalmStaging(f, Tick(w), pending);
  }

  lemma OneFaultMoves(f: Faults, s: World, pending: seq<Write>, i: nat)
    requires Ready(s.disk, pending) && i < |pending| - 1
    requires forall j :: 0 <= j <= i ==> Landable(s.disk, pending[j])
    requires forall n :: f(n) <==> n == MoveAll(NO_FAULT, s, pending[..i + 1]).world.clock
    ensures var r := MoveAll(f, s, pending);
      !r.ok && |r.touched| == i + 1 && (forall n :: n >= r.world.clock ==> !f(n))
      && StoppedAt(f, s, pending) == i + 1
  {
    CalmMoves(f, s, pending, i + 1);
  }

  /** Such a run fails cleanly with `i` landed. */
  lemma OneFaultAfter(f: Faults, w: World, pending: seq<Write>, i: nat)
    requires Distinct(pending) && Unstaged(w) && i < |pending| - 1
    requires forall j :: 0 <= j <= i ==> Landable(w.disk, pending[j])
    requires OnlyFaultAfter(f, w, pending, i)
    ensures CleanFailure(Apply(f, w, pending)) && InPaths(pending[i].path, Apply(f, w, pending).touched)
  {
    var s := StageAll(f, Tick(w), pending).world;
    OneFaultStages(f, w, pending, i);
    MovesFromStaged(f, Tick(w), pending);
    LandableStaged(w.disk, s.disk, pending, i);
    OneFaultMoves(f, s, pending, i);
    MoveAllShape(f, s, pending);
    var moves := MoveAll(f, s, pending);
    CalmRollback(f, moves.world, moves.touched, s.disk);
    assert moves.touched[i].landed;
  }

  lemma ExposedCanLose(w: World, pending: seq<Write>) returns (f: Faults)
    requires Distinct(pending) && Unstaged(w) && Exposed(w.disk, pending)
    ensures CleanFailure(Apply(f, w, pending))
    ensures !Restored(w.disk, Apply(f, w, pending).world.disk, pending)
  {
    var i :| 0 <= i < |pending| - 1 && IsSpecial(w.disk, Live(pending[i].path))
             && forall j :: 0 <= j <= i ==> Landable(w.disk, pending[j]);
    var s := StageAll(NO_FAULT, Tick(w), pending).world;
    var c := MoveAll(NO_FAULT, s, pending[..i + 1]).world.clock;
    f := n => n == c;
    OneFaultAfter(f, w, pending, i);
    ApplyIsAllOrNothing(f, w, pending);
    var r := Apply(f, w, pending);
    var x := pending[i];
    assert Truthful(x, r.actions[x.path], w.disk, r.world.disk);
    assert r.actions[x.path] == RolledBack;
    assert !Same(w.disk, r.world.disk, Live(x.path));
  }

  /**
   What the apply promises of a failure that reports nothing stranded or lost
   holds for all fault schedules exactly when no special file is exposed.
   */
  lemma CleanFailureRestoresIffNotExposed(w: World, pending: seq<Write>)
    requires Distinct(pending) && Unstaged(w)
    ensures (forall f: Faults {:trigger Apply(f, w, pending)} :: CleanFailure(Apply(f, w, pending)) ==>
               Restored(w.disk, Apply(f, w, pending).world.disk, pending))
            <==> !Exposed(w.disk, pending)
  {
    if Exposed(w.disk, pending) {
      var f := ExposedCanLose(w, pending);
      assert CleanFailure(Apply(f, w, pending));
    } else {
      forall f: Faults | CleanFailure(Apply(f, w, pending))
        ensures Restored(w.disk, Apply(f, w, pending).world.disk, pending)
      {
        if !Restored(w.disk, Apply(f, w, pending).world.disk, pending) {
          RestoresUnlessExposed(f, w, pending);
        }
      }
    }
  }

  // ---- preflight -------------------------------------------------------

  /**
   What preflight sees beside the entries at the destinations: `barred` paths
   have a symlinked component, or an ancestor that is unwritable or no directory;
   `readable` files can be read; `special` is what reading a special file gives,
   if it gives anything; `staging` says whether the staging prefix can be used.
   */
  datatype Sight = Sight(
    barred: Path -> bool, readable: Path -> bool, special: Path -> Option<(Bytes, nat)>, staging: bool)

  /** The bytes and the mode that reading a destination gives. */
  function Content(d: Disk, sight: Sight, p: Path): Option<(Bytes, nat)>
    requires Live(p) in d
  {
    match d[Live(p)]
    case File(_, data, mode) => if sight.readable(p) then Some((data, mode)) else None
    case Special => sight.special(p)
    case _ => None
  }

  /** One planned write, with the action preflight gives it. */
  function PreflightOne(d: Disk, sight: Sight, x: Write): Write {
    var p := Live(x.path);
    if sight.barred(x.path) || (p in d && (d[p].Link? || d[p].Directory?)) then x.(action := Conflict)
    else if p !in d then x
    else
      var content := Content(d, sight, x.path);
      if content.None? then x.(action := Conflict)
      else if content.value.0 == x.data then x.(action := Identical)
      else if x.adopt then x.(action := Adopt, mode := Some(content.value.1))
      else if x.keepExisting then x.(action := AlreadyStaged)
      else x.(action := Conflict)
  }

  function Preflighted(d: Disk, sight: Sight, writes: seq<Write>): (r: seq<Write>)
    ensures |r| == |writes|
  {
    seq(|writes|, i requires 0 <= i < |writes| => PreflightOne(d, sight, writes[i]))
  }

  predicate AnyConflict(writes: seq<Write>) {
    exists i :: 0 <= i < |writes| && writes[i].action.Conflict?
  }

  predicate AnyPending(writes: seq<Write>) {
    exists i :: 0 <= i < |writes| && IsPending(writes[i])
  }

  /** A conflict, or writes to stage under a prefix that cannot be used. */
  predicate Blocks(sight: Sight, writes: seq<Write>) {
    AnyConflict(writes) || (!sight.staging && AnyPending(writes))
  }

  lemma NoneYet()
    ensures !AnyConflict([]) && !AnyPending([])
  {
  }

  lemma AnyMore(writes: seq<Write>, x: Write)
    ensures AnyConflict(writes + [x]) <==> AnyConflict(writes) || x.action.Conflict?
    ensures AnyPending(writes + [x]) <==> AnyPending(writes) || IsPending(x)
  {
    var all := writes + [x];
    assert all[|writes|] == x;
    assert forall i :: 0 <= i < |writes| ==> all[i] == writes[i];
  }

  /** As the plan is made: every write a creation, under its own path, and none both adopting and keeping. */
  ghost predicate Planned(writes: seq<Write>) {
    Distinct(writes) && forall x :: x in writes ==> x.action.Create? && !(x.adopt && x.keepExisting)
  }

  /** What preflight leaves pending: nothing there to create over, and something readable to adopt. */
  lemma PendingIsVetted(d: Disk, sight: Sight, writes: seq<Write>, x: Write)
    requires Planned(writes) && x in PendingOf(Preflighted(d, sight, writes))
    ensures Distinct(Preflighted(d, sight, writes))
    ensures x.action.Create? || x.action.Adopt?
    ensures x.action.Create? ==> Live(x.path) !in d
    ensures x.action.Adopt? ==> !x.keepExisting && Live(x.path) in d && Content(d, sight, x.path).Some?
    ensures Landable(d, x)
  {
    var all := Preflighted(d, sight, writes);
    PendingAreDistinct(all);
    hide PendingOf;
    hide Distinct;
    hide PreflightOne;
    var i :| 0 <= i < |all| && all[i] == x;
    assert writes[i] in writes;
    OneIsVetted(d, sight, writes[i]);
  }

  lemma OneIsVetted(d: Disk, sight: Sight, x: Write)
    requires x.action.Create? && !(x.adopt && x.keepExisting)
    ensures var y := PreflightOne(d, sight, x);
      && y.path == x.path
      && (y.action.Create? ==> Live(y.path) !in d)
      && (y.action.Adopt? ==> !y.keepExisting && Live(y.path) in d && Content(d, sight, y.path).Some?)
      && (IsPending(y) ==> Landable(d, y))
  {
  }

  /** A special file that gave bytes to preflight and would be replaced by an adoption before the last write. */
  ghost predicate AdoptsSpecial(d: Disk, pending: seq<Write>) {
    exists i :: 0 <= i < |pending| - 1 && pending[i].action.Adopt? && IsSpecial(d, Live(pending[i].path))
  }

  /**
   Over the destinations that preflight saw, every failure that reports nothing
   stranded or lost restores them, for all fault schedules, exactly unless an
   adoption before the last write stands on a special file that could be read.
   */
  lemma PreflightedRestoresIff(w: World, sight: Sight, writes: seq<Write>)
    requires Planned(writes) && Unstaged(w)
    ensures var pending := PendingOf(Preflighted(w.disk, sight, writes));
      (forall f: Faults {:trigger Apply(f, w, pending)} :: CleanFailure(Apply(f, w, pending)) ==>
         Restored(w.disk, Apply(f, w, pending).world.disk, pending))
      <==> !AdoptsSpecial(w.disk, pending)
  {
    var all := Preflighted(w.disk, sight, writes);
    var pending := PendingOf(all);
    assert Distinct(all);
    PendingAreDistinct(all);
    forall i | 0 <= i < |pending|
      ensures Landable(w.disk, pending[i])
      ensures IsSpecial(w.disk, Live(pending[i].path)) ==> pending[i].action.Adopt?
    {
      assert pending[i] in pending;
      PendingIsVetted(w.disk, sight, writes, pending[i]);
    }
    assert Exposed(w.disk, pending) <==> AdoptsSpecial(w.disk, pending);
    hide *;
    CleanFailureRestoresIffNotExposed(w, pending);
  }

  // ---- what preflight refuses, and what a migration leaves --------------

  /** Reading the destination gives these bytes, of a file with this mode. */
  ghost predicate Reads(d: Disk, sight: Sight, p: Path, data: Bytes, mode: nat) {
    && Live(p) in d
    && (|| (d[Live(p)].File? && sight.readable(p) && d[Live(p)].data == data && d[Live(p)].mode == mode)
        || (d[Live(p)].Special? && sight.special(p) == Some((data, mode))))
  }

  /** The destination cannot be written through, or what stands there cannot be read. */
  ghost predicate Obstructed(d: Disk, sight: Sight, p: Path) {
    sight.barred(p) || (Live(p) in d && forall data, mode :: !Reads(d, sight, p, data, mode))
  }

  /** Other bytes than the planned ones stand at the destination. */
  ghost predicate StandsDifferent(d: Disk, sight: Sight, x: Write) {
    exists data, mode :: Reads(d, sight, x.path, data, mode) && data != x.data
  }

  lemma PreflightCases(d: Disk, sight: Sight, x: Write)
    requires x.action.Create?
    ensures var y := PreflightOne(d, sight, x); var p := x.path;
      && y == x.(action := y.action, mode := y.mode)
      && (y.action == Conflict <==>
            Obstructed(d, sight, p) || (StandsDifferent(d, sight, x) && !x.adopt && !x.keepExisting))
      && (y.action == Create <==> !sight.barred(p) && Live(p) !in d)
      && (y.action == Adopt <==> !Obstructed(d, sight, p) && StandsDifferent(d, sight, x) && x.adopt)
      && (y.action == AlreadyStaged <==>
            !Obstructed(d, sight, p) && StandsDifferent(d, sight, x) && !x.adopt && x.keepExisting)
      && (y.action == Identical <==> !sight.barred(p) && exists mode :: Reads(d, sight, p, x.data, mode))
      && (y.action == Adopt ==> y.mode.Some? && exists data :: Reads(d, sight, p, data, y.mode.value))
      && (y.action != Adopt ==> y.mode == x.mode)
  {
    var p := x.path;
    if Live(p) in d {
      var content := if d[Live(p)].Link? || d[Live(p)].Directory? then None else Content(d, sight, p);
      forall data, mode: nat ensures Reads(d, sight, p, data, mode) <==> content == Some((data, mode)) {}
      if content.Some? {
        assert Reads(d, sight, p, content.value.0, content.value.1);
      }
    }
  }

  /** The write has bytes to stage: a creation over nothing, or an adoption of other bytes. */
  ghost predicate ToStage(d: Disk, sight: Sight, x: Write) {
    || (!sight.barred(x.path) && Live(x.path) !in d)
    || (!Obstructed(d, sight, x.path) && StandsDifferent(d, sight, x) && x.adopt)
  }

  lemma OneBlocks(d: Disk, sight: Sight, x: Write)
    requires x.action.Create?
    ensures var y := PreflightOne(d, sight, x);
      && (y.action == Conflict <==>
            Obstructed(d, sight, x.path) || (StandsDifferent(d, sight, x) && !x.adopt && !x.keepExisting))
      && (IsPending(y) <==> ToStage(d, sight, x))
  {
    hide PreflightOne;
    PreflightCases(d, sight, x);
  }

  /**
   Preflight blocks exactly if some destination is obstructed, or holds other
   bytes that the write neither adopts nor keeps, or there is something to stage
   and the staging prefix cannot be used.
   */
  lemma PreflightBlocksIff(d: Disk, sight: Sight, writes: seq<Write>)
    requires Planned(writes)
    ensures Blocks(sight, Preflighted(d, sight, writes)) <==>
      || (exists x :: x in writes && Obstructed(d, sight, x.path))
      || (exists x :: x in writes && StandsDifferent(d, sight, x) && !x.adopt && !x.keepExisting)
      || (!sight.staging && exists x :: x in writes && ToStage(d, sight, x))
  {
    hide Obstructed;
    hide StandsDifferent;
    hide ToStage;
    hide IsPending;
    var all := Preflighted(d, sight, writes);
    forall i | 0 <= i < |writes|
      ensures all[i].action == Conflict <==>
        || Obstructed(d, sight, writes[i].path)
        || (StandsDifferent(d, sight, writes[i]) && !writes[i].adopt && !writes[i].keepExisting)
      ensures IsPending(all[i]) <==> ToStage(d, sight, writes[i])
      ensures writes[i] in writes
    {
      assert writes[i] in writes;
      OneBlocks(d, sight, writes[i]);
    }
    hide PreflightOne;
    hide Preflighted;
    if x :| x in writes && Obstructed(d, sight, x.path) {
      var i :| 0 <= i < |writes| && writes[i] == x;
      assert all[i].action.Conflict?;
    }
    if x :| x in writes && StandsDifferent(d, sight, x) && !x.adopt && !x.keepExisting {
      var i :| 0 <= i < |writes| && writes[i] == x;
      assert all[i].action.Conflict?;
    }
    if x :| x in writes && ToStage(d, sight, x) {
      var i :| 0 <= i < |writes| && writes[i] == x;
      assert IsPending(all[i]);
    }
  }

  /** The planned bytes stand at the destination, in a file or in what a special file gives. */
  ghost predicate HoldsPlanned(d: Disk, sight: Sight, x: Write) {
    && Live(x.path) in d
    && (|| (d[Live(x.path)].File? && d[Live(x.path)].data == x.data)
        || (d[Live(x.path)].Special? && exists mode :: sight.special(x.path) == Some((x.data, mode))))
  }

  /**
   A migration that preflight does not block and that goes through leaves every
   planned byte at its destination, but for kept files, which stay as they were
   like everything outside the plan. What is created has the planned mode or the
   default, and what is adopted the mode it had.
   */
  lemma MigratedHoldsPlan(f: Faults, w: World, sight: Sight, writes: seq<Write>, x: Write)
    requires Planned(writes) && Unstaged(w) && x in writes && !Blocks(sight, Preflighted(w.disk, sight, writes))
    requires Apply(f, w, PendingOf(Preflighted(w.disk, sight, writes))).ok
    ensures var d := Apply(f, w, PendingOf(Preflighted(w.disk, sight, writes))).world.disk;
      && (!x.keepExisting || Live(x.path) !in w.disk ==> HoldsPlanned(d, sight, x))
      && (x.keepExisting && Live(x.path) in w.disk ==> Same(w.disk, d, Live(x.path)))
      && (Live(x.path) !in w.disk ==>
            d[Live(x.path)].File?
            && d[Live(x.path)].mode == if x.mode.Some? then x.mode.value else DEFAULT_MODE)
      && (x.adopt && StandsDifferent(w.disk, sight, x) ==>
            d[Live(x.path)].File? && exists data :: Reads(w.disk, sight, x.path, data, d[Live(x.path)].mode))
      && (forall q {:trigger Live(q)} :: (forall y :: y in writes ==> y.path != q) ==> Same(w.disk, d, Live(q)))
  {
    hide Apply;
    hide PendingOf;
    hide Preflighted;
    hide PreflightOne;
    hide Blocks;
    var all := Preflighted(w.disk, sight, writes);
    var pending := PendingOf(all);
    PreflightedKeepsPaths(w.disk, sight, writes);
    PendingAreDistinct(all);
    ApplyCompletes(f, w, pending);
    var d := Apply(f, w, pending).world.disk;
    PreflightBlocksIff(w.disk, sight, writes);
    PreflightCases(w.disk, sight, x);
    var y := PreflightOne(w.disk, sight, x);
    PlannedOnce(w.disk, sight, writes, x);
    assert y in pending <==> IsPending(y);
    if IsPending(y) {
      assert HoldsNew(d, y);
    } else {
      assert x.path !in Paths(pending);
      assert Same(w.disk, d, Live(x.path));
    }
    forall q | forall z :: z in writes ==> z.path != q ensures Same(w.disk, d, Live(q)) {
      OutsideThePlan(w.disk, sight, writes, q);
    }
  }

  /** A planned write's path is pending exactly if it is. */
  lemma PreflightedKeepsPaths(d: Disk, sight: Sight, writes: seq<Write>)
    requires Distinct(writes)
    ensures var all := Preflighted(d, sight, writes);
      Distinct(all) && forall k :: 0 <= k < |all| ==> all[k].path == writes[k].path
  {
    forall k | 0 <= k < |writes| ensures PreflightOne(d, sight, writes[k]).path == writes[k].path {}
    hide PreflightOne;
  }

  lemma PlannedOnce(d: Disk, sight: Sight, writes: seq<Write>, x: Write)
    requires Planned(writes) && x in writes
    ensures var pending := PendingOf(Preflighted(d, sight, writes)); var y := PreflightOne(d, sight, x);
      && (y in pending <==> IsPending(y))
      && (!IsPending(y) ==> x.path !in Paths(pending))
  {
    hide PreflightOne;
    hide PendingOf;
    var all := Preflighted(d, sight, writes);
    PreflightedKeepsPaths(d, sight, writes);
    PendingAreDistinct(all);
    var k :| 0 <= k < |writes| && writes[k] == x;
    assert all[k] == PreflightOne(d, sight, x);
    forall z | z in all && z.path == x.path ensures z == all[k] {
      var j :| 0 <= j < |all| && all[j] == z;
      assert all[j].path == writes[j].path;
    }
  }

  lemma OutsideThePlan(d: Disk, sight: Sight, writes: seq<Write>, q: Path)
    requires Planned(writes) && forall z :: z in writes ==> z.path != q
    ensures q !in Paths(PendingOf(Preflighted(d, sight, writes)))
  {
    hide PreflightOne;
    hide PendingOf;
    var all := Preflighted(d, sight, writes);
    PreflightedKeepsPaths(d, sight, writes);
    PendingAreDistinct(all);
    forall z | z in all ensures z.path != q {
      var j :| 0 <= j < |all| && all[j] == z;
      assert writes[j] in writes && all[j].path == writes[j].path;
    }
  }

  // ---- the migration object --------------------------------------------

  predicate IsPending(x: Write) {
    x.action.Create? || x.action.Adopt?
  }

  /** The planned writes once each pending one carries its final action. */
  function WithActions(writes: seq<Write>, actions: map<Path, Action>): (r: seq<Write>)
    ensures |r| == |writes|
  {
    seq(|writes|, i requires 0 <= i < |writes| =>
      if IsPending(writes[i]) && writes[i].path in actions
      then writes[i].(action := actions[writes[i].path]) else writes[i])
  }

  /** The planned writes sit under distinct paths, so the pending ones do. */
  lemma {:induction false} PendingAreDistinct(writes: seq<Write>)
    requires Distinct(writes)
    ensures Distinct(PendingOf(writes))
    ensures forall x :: x in PendingOf(writes) <==> x in writes && IsPending(x)
  {
    if writes != [] {
      PendingAreDistinct(writes[1..]);
      forall x | x in PendingOf(writes[1..]) ensures x.path != writes[0].path {
        var i :| 0 <= i < |writes[1..]| && writes[1..][i] == x;
      }
    }
  }

  datatype MigrationError = Refused | Reverted(stranded: set<Path>, lost: set<Path>)

  class Migrator {
    const faults: Faults
    var disk: Disk
    var clock: nat
    var serial: nat
    ghost var trace: seq<Disk>
    var blocked: bool
    var writes: seq<Write>

    constructor (faults: Faults, disk: Disk, writes: seq<Write>, blocked: bool)
      ensures this.faults == faults && State() == World(disk, 0, 0, [])
      ensures this.writes == writes && this.blocked == blocked
    {
      this.faults, this.disk, this.writes, this.blocked := faults, disk, writes, blocked;
      clock, serial, trace := 0, 0, [];
    }

    ghost function State(): World
      reads this
    {
      World(disk, clock, serial, trace)
    }

    /** Preflight: each planned write gets its action, and what cannot be written blocks the migration. */
    method Preflight(sight: Sight)
      modifies this`writes, this`blocked
      ensures writes == Preflighted(disk, sight, old(writes))
      ensures blocked == (old(blocked) || Blocks(sight, writes))
    {
      hide AnyConflict;
      hide AnyPending;
      var i, pending := 0, false;
      assert !AnyConflict(writes[..0]) && !AnyPending(writes[..0]) by { NoneYet(); }
      while i < |writes|
        invariant 0 <= i <= |writes| == |old(writes)|
        invariant forall k :: 0 <= k < i ==> writes[k] == PreflightOne(disk, sight, old(writes)[k])
        invariant forall k :: i <= k < |writes| ==> writes[k] == old(writes)[k]
        invariant blocked <==> old(blocked) || AnyConflict(writes[..i])
        invariant pending <==> AnyPending(writes[..i])
      {
        var x := writes[i];
        var p := Live(x.path);
        if sight.barred(x.path) || (p in disk && (disk[p].Link? || disk[p].Directory?)) {
          x := x.(action := Conflict);
        } else if p in disk {
          var content := Content(disk, sight, x.path);
          if content.None? {
            x := x.(action := Conflict);
          } else if content.value.0 == x.data {
            x := x.(action := Identical);
          } else if x.adopt {
            x := x.(action := Adopt, mode := Some(content.value.1));
          } else if x.keepExisting {
            x := x.(action := AlreadyStaged);
          } else {
            x := x.(action := Conflict);
          }
        }
        AnyMore(writes[..i], x);
        blocked := blocked || x.action.Conflict?;
        pending := pending || IsPending(x);
        assert writes[i := x][..i + 1] == writes[..i] + [x];
        writes := writes[i := x];
        i := i + 1;
      }
      assert writes[..i] == writes && writes == Preflighted(disk, sight, old(writes));
      if pending && !sight.staging {
        blocked := true;
      }
    }

    /** One file-system call that changes nothing the model keeps: does it fail? */
    method Call() returns (ok: bool)
      modifies this`clock
      ensures State() == Tick(old(State())) && ok == !faults(old(clock))
    {
      ok := !faults(clock);
      clock := clock + 1;
    }

    method Replace(src: Place, dst: Place) returns (ok: bool)
      modifies this`disk, this`clock, this`trace
      ensures Step(State(), ok) == Rename(faults, old(State()), src, dst)
    {
      ok := Call();
      ok := ok && src in disk && !(dst in disk && disk[dst].Directory?);
      if ok {
        disk := (disk - {src})[dst := disk[src]];
        trace := trace + [disk];
      }
    }

    method Remove(p: Place) returns (ok: bool)
      modifies this`disk, this`clock, this`trace
      ensures Step(State(), ok) == Unlink(faults, old(State()), p)
    {
      ok := Call();
      ok := ok && p in disk && !disk[p].Directory?;
      if ok {
        disk := disk - {p};
        trace := trace + [disk];
      }
    }

    method Stage(x: Write) returns (ok: bool)
      modifies this`disk, this`clock, this`serial, this`trace
      ensures Step(State(), ok) == StageOne(faults, old(State()), x)
    {
      ok := Call();
      if !ok { return; }
      ok := Call();
      disk := disk[Fresh(x.path) := File(serial, if ok then x.data else [], DEFAULT_MODE)];
      serial := serial + 1;
      trace := trace + [disk];
      if ok && x.mode.Some? {
        ok := Call();
        if ok {
          disk := disk[Fresh(x.path) := disk[Fresh(x.path)].(mode := x.mode.value)];
          trace := trace + [disk];
        }
      }
    }

    /** One turn of the move loop: what it appended to `touched`, and whether it went through. */
    method Move(x: Write) returns (touched: seq<Moved>, ok: bool)
      modifies this`disk, this`clock, this`trace
      ensures Moves(State(), touched, ok) == MoveOne(faults, old(State()), x)
    {
      touched := [];
      ok := Call();
      if !ok { return; }
      ok := Call();
      if !ok || (Live(x.path) in disk && disk[Live(x.path)].Link?) { return [], false; }
      if x.keepExisting && Live(x.path) in disk { return [], false; }
      var moved := Moved(x, false, false);
      if IsFile(disk, Live(x.path)) {
        ok := Call();
        if !ok { return [moved], false; }
        ok := Replace(Live(x.path), Saved(x.path));
        if !ok { return [moved], false; }
        moved := moved.(saved := true);
      }
      ok := Replace(Fresh(x.path), Live(x.path));
      touched := [moved.(landed := ok)];
    }

    method RollBack(touched: seq<Moved>) returns (stranded: set<Path>, lost: set<Path>)
      modifies this`disk, this`clock, this`trace
      ensures Undo(State(), stranded, lost) == Rollback(faults, old(State()), touched)
    {
      stranded, lost := {}, {};
      var i := |touched|;
      assert touched[..i] == touched;
      while i > 0
        invariant 0 <= i <= |touched|
        invariant Rollback(faults, old(State()), touched) ==
          var r := Rollback(faults, State(), touched[..i]);
          Undo(r.world, r.stranded + stranded, r.lost + lost)
      {
        assert touched[..i][..i - 1] == touched[..i - 1];
        i := i - 1;
        var m := touched[i];
        var ok := true;
        if m.saved {
          ok := Replace(Saved(m.write.path), Live(m.write.path));
        } else if m.landed {
          ok := Remove(Live(m.write.path));
        }
        if !ok {
          if m.landed { stranded := stranded + {m.write.path}; } else { lost := lost + {m.write.path}; }
        }
      }
    }

    method DiscardStaging()
      modifies this`disk, this`clock, this`trace
      ensures State() == Discard(faults, old(State()))
    {
      var ok := Call();
      if ok {
        disk := map p | p in disk && p.Live? :: disk[p];
        trace := trace + [disk];
      }
    }

    method FailWith(pending: seq<Write>, touched: seq<Moved>, current: Option<Path>)
        returns (stranded: set<Path>, lost: set<Path>)
      modifies this
      ensures var r := Recover(faults, old(State()), pending, touched, current);
        State() == r.world && stranded == r.stranded && lost == r.lost
        && writes == WithActions(old(writes), r.actions)
      ensures blocked == old(blocked)
    {
      stranded, lost := RollBack(touched);
      var undo := Undo(World(disk, clock, serial, []), stranded, lost);
      if stranded == {} && lost == {} {
        DiscardStaging();
      }
      writes := WithActions(writes, map p | p in Paths(pending) :: FinalAction(undo, touched, current, p));
    }

    /** The staging loop: how many writes it completed. */
    method StageEach(pending: seq<Write>) returns (done: nat)
      modifies this`disk, this`clock, this`serial, this`trace
      ensures Batch(State(), done) == StageAll(faults, old(State()), pending)
    {
      done := 0;
      while done < |pending|
        invariant 0 <= done <= |pending|
        invariant StageAll(faults, old(State()), pending) ==
          var r := StageAll(faults, State(), pending[done..]); Batch(r.world, r.done + done)
      {
        var ok := Stage(pending[done]);
        if !ok { return; }
        done := done + 1;
      }
    }

    /** The move loop: the touched destinations, and the index of the write it stopped at. */
    method MoveEach(pending: seq<Write>) returns (touched: seq<Moved>, at: nat)
      modifies this`disk, this`clock, this`trace
      ensures Moves(State(), touched, at == |pending|) == MoveAll(faults, old(State()), pending)
      ensures at <= |pending|
      ensures at < |pending| ==> at == StoppedAt(faults, old(State()), pending)
    {
      hide MoveOne;
      touched, at := [], 0;
      while at < |pending|
        invariant 0 <= at <= |pending|
        invariant MoveAll(faults, old(State()), pending) ==
          var r := MoveAll(faults, State(), pending[at..]); Moves(r.world, touched + r.touched, r.ok)
        invariant !MoveAll(faults, old(State()), pending).ok ==>
          StoppedAt(faults, old(State()), pending) == at + StoppedAt(faults, State(), pending[at..])
      {
        assert pending[at..][0] == pending[at] && pending[at..][1..] == pending[at + 1..];
        ghost var was, rest := touched, MoveAll(faults, State(), pending[at..]);
        var more, ok := Move(pending[at]);
        touched := touched + more;
        if !ok { return; }
        at := at + 1;
        assert was + rest.touched == touched + MoveAll(faults, State(), pending[at..]).touched;
      }
    }

    /**
     Write every pending destination, all of them or none. `Ok` carries the
     destinations written; `Reverted` the stranded and the lost ones.
     */
    method Run() returns (result: Result<seq<Path>, MigrationError>)
      modifies this
      ensures blocked == old(blocked)
      ensures blocked ==> result == Err(Refused) && State() == old(State()) && writes == old(writes)
      ensures !blocked ==>
        var r := Apply(faults, old(State()), PendingOf(old(writes)));
        State() == r.world && result.Ok? == r.ok
        && writes == WithActions(old(writes), r.actions)
        && (r.ok ==> result.value == seq(|r.touched|, i requires 0 <= i < |r.touched| => r.touched[i].write.path))
        && (!r.ok ==> result.error == Reverted(r.stranded, r.lost))
    {
      if blocked { return Err(Refused); }
      var pending := PendingOf(writes);
      if pending == [] {
        assert writes == WithActions(writes, map[]);
        return Ok([]);
      }
      var ok := Call();
      if !ok {
        var stranded, lost := FailWith(pending, [], None);
        return Err(Reverted(stranded, lost));
      }
      var done := StageEach(pending);
      if done < |pending| {
        var stranded, lost := FailWith(pending, [], Some(pending[done].path));
        return Err(Reverted(stranded, lost));
      }
      var touched, at := MoveEach(pending);
      if at < |pending| {
        var stranded, lost := FailWith(pending, touched, Some(pending[at].path));
        return Err(Reverted(stranded, lost));
      }
      DiscardStaging();
      writes := WithActions(writes, map p | p in Paths(pending) :: Written);
      return Ok(seq(|touched|, k requires 0 <= k < |touched| => touched[k].write.path));
    }
  }
}
