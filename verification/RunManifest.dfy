/**
 The dispatch manifest of a multi-voice run: what `complete`, `error` and
 `reset` do to it and to the voices' output files.
 */
module RunManifest {
  import opened Basics
  import Snapshot

  datatype Status = Pending | Complete | Error | Skipped

  /** A finished attempt, kept in a voice's history by `reset`. */
  datatype Attempt = Attempt(status: Status, elapsed: Option<int>, finish: Option<string>, detail: Option<string>,
                             resetAt: real, movedTo: Option<string>)

  datatype Voice = Voice(id: string, file: string, status: Status, elapsed: Option<int>, finish: Option<string>,
                         detail: Option<string>, history: seq<Attempt>)

  datatype Manifest = Manifest(created: real, voices: seq<Voice>)

  /** An output file: its contents and when it was last written. */
  datatype Output = Output(contents: string, mtime: real)

  type Files = map<string, Output>

  datatype Command =
    | CompleteVoice(voice: string, elapsed: Option<int>, finish: Option<string>)
    | ErrorVoice(voice: string, elapsed: Option<int>, detail: string)
    | ResetVoice(voice: string, now: real)

  // ---- names -----------------------------------------------------------

  function Decimal(n: nat): (r: string)
    ensures r != "" && forall i :: 0 <= i < |r| ==> '0' <= r[i] <= '9'
  {
    (if n < 10 then "" else Decimal(n / 10)) + ["0123456789"[n % 10]]
  }

  lemma {:induction false} DecimalIsInjective(n: nat, m: nat)
    requires Decimal(n) == Decimal(m)
    ensures n == m
  {
    assert Decimal(n)[|Decimal(n)| - 1] == Decimal(m)[|Decimal(m)| - 1];
    assert n % 10 == m % 10;
    assert (n < 10) == (m < 10);
    if n >= 10 {
      var d := |Decimal(n)| - 1;
      assert Decimal(n)[..d] == Decimal(n / 10) && Decimal(m)[..d] == Decimal(m / 10);
      DecimalIsInjective(n / 10, m / 10);
    }
  }

  const ATTEMPT := ".attempt"

  /** `{file}.attempt{n}` */
  function Aside(file: string, n: nat): string {
    file + ATTEMPT + Decimal(n)
  }

  /** The part of a path after its last separator. */
  function Base(path: string): string {
    if path == "" then "" else if path[|path| - 1] == '/' then "" else Base(path[..|path| - 1]) + [path[|path| - 1]]
  }

  predicate Digits(x: string) {
    forall i :: 0 <= i < |x| ==> '0' <= x[i] <= '9'
  }

  lemma LongerDigits(a: string, x: string, b: string, y: string)
    requires Digits(x) && |x| > |y|
    ensures a + ATTEMPT + x != b + ATTEMPT + y
  {
    var s, r := a + ATTEMPT + x, b + ATTEMPT + y;
    if |s| == |r| {
      var k := |r| - |y| - 1;
      assert r[k] == 't';
      assert s[k] == x[k - |a| - |ATTEMPT|];
    }
  }

  /** No two files are moved aside to one name, nor one file twice. */
  lemma AsideIsInjective(f: string, n: nat, g: string, m: nat)
    requires Aside(f, n) == Aside(g, m)
    ensures f == g && n == m
  {
    var s, x, y := Aside(f, n), Decimal(n), Decimal(m);
    if |x| > |y| {
      LongerDigits(f, x, g, y);
    } else if |y| > |x| {
      LongerDigits(g, y, f, x);
    }
    assert s[|s| - |x|..] == x && s[|s| - |y|..] == y;
    DecimalIsInjective(n, m);
    assert s[..|f|] == f && s[..|g|] == g;
  }

  // ---- loading and finding ---------------------------------------------

  ghost predicate UniqueIds(m: Manifest) {
    forall i, j :: 0 <= i < j < |m.voices| ==> m.voices[i].id != m.voices[j].id
  }

  ghost predicate Loadable(m: Manifest) {
    m.voices != [] && UniqueIds(m)
  }

  ghost function Load(saved: Option<Manifest>): Option<Manifest> {
    if saved.Some? && Loadable(saved.value) then saved else None
  }

  function IndexFrom(vs: seq<Voice>, id: string, i: nat): (r: Option<nat>)
    requires i <= |vs|
    ensures r.Some? ==> i <= r.value < |vs| && vs[r.value].id == id
    ensures r.None? ==> forall j :: i <= j < |vs| ==> vs[j].id != id
    decreases |vs| - i
  {
    if i == |vs| then None else if vs[i].id == id then Some(i) else IndexFrom(vs, id, i + 1)
  }

  // ---- updates ---------------------------------------------------------

  /** What one command does to the voice at `i`, once it has passed its checks. */
  datatype Update =
    | Completed(i: nat, elapsed: Option<int>, finish: Option<string>)
    | Errored(i: nat, elapsed: Option<int>, detail: string)
    | Reset(i: nat, at: real, moved: bool)

  /** The time an output must not predate: the run's creation or the voice's last reset. */
  function Floor(created: real, history: seq<Attempt>): real {
    if history == [] then created
    else
      var n := |history| - 1;
      var before := Floor(created, history[..n]);
      if history[n].resetAt > before then history[n].resetAt else before
  }

  predicate Fresh(m: Manifest, v: Voice, files: Files) {
    v.file in files && files[v.file].contents != "" && files[v.file].mtime >= Floor(m.created, v.history) - 1.0
  }

  /** The checks of a command against the manifest it has loaded. */
  function Prepare(c: Command, m: Manifest, files: Files): (r: Option<Update>)
    ensures r.Some? ==> r.value.i < |m.voices| && m.voices[r.value.i].id == c.voice
  {
    match IndexFrom(m.voices, c.voice, 0)
    case None => None
    case Some(i) =>
      match c
      case CompleteVoice(_, elapsed, finish) =>
        if Fresh(m, m.voices[i], files) then Some(Completed(i, elapsed, finish)) else None
      case ErrorVoice(_, elapsed, detail) => Some(Errored(i, elapsed, detail))
      case ResetVoice(_, now) => Some(Reset(i, now, m.voices[i].file in files))
  }

  function UpdatedVoice(v: Voice, u: Update): Voice {
    match u
    case Completed(_, elapsed, finish) =>
      v.(status := Complete, detail := None,
         elapsed := if elapsed.Some? then elapsed else v.elapsed,
         finish := if finish.Some? && finish.value != "" then finish else v.finish)
    case Errored(_, elapsed, detail) =>
      v.(status := Error, detail := Some(detail), elapsed := if elapsed.Some? then elapsed else v.elapsed)
    case Reset(_, at, moved) =>
      var movedTo := if moved then Some(Base(Aside(v.file, |v.history| + 1))) else None;
      v.(status := Pending, elapsed := None, finish := None, detail := None,
         history := v.history + [Attempt(v.status, v.elapsed, v.finish, v.detail, at, movedTo)])
  }

  function Apply(m: Manifest, u: Update): Manifest {
    if u.i < |m.voices| then m.(voices := m.voices[u.i := UpdatedVoice(m.voices[u.i], u)]) else m
  }

  function Fold(m: Manifest, us: seq<Update>): Manifest {
    if us == [] then m else Apply(Fold(m, us[..|us| - 1]), us[|us| - 1])
  }

  predicate Moves(u: Update) {
    u.Reset? && u.moved
  }

  function AsideOf(m: Manifest, u: Update): string
    requires u.i < |m.voices|
  {
    Aside(m.voices[u.i].file, |m.voices[u.i].history| + 1)
  }

  /** The files after a command: a reset moves the output aside, over whatever has that name. */
  function Renamed(files: Files, m: Manifest, u: Update): Files
    requires u.i < |m.voices|
  {
    var file := m.voices[u.i].file;
    if Moves(u) && file in files then (files - {file})[AsideOf(m, u) := files[file]] else files
  }

  // ---- what updates keep -----------------------------------------------

  /** The same voices with the same files, each with at least the history it had. */
  ghost predicate Grows(m: Manifest, n: Manifest) {
    && n.created == m.created && |n.voices| == |m.voices|
    && forall i :: 0 <= i < |m.voices| ==>
         && n.voices[i].id == m.voices[i].id && n.voices[i].file == m.voices[i].file
         && m.voices[i].history <= n.voices[i].history
  }

  lemma {:induction false} FoldGrows(m: Manifest, us: seq<Update>)
    ensures Grows(m, Fold(m, us))
  {
    if us != [] {
      FoldGrows(m, us[..|us| - 1]);
    }
  }

  lemma {:induction false} FloorIsMaximum(created: real, history: seq<Attempt>, t: real)
    ensures t >= Floor(created, history) <==> t >= created && forall a :: a in history ==> t >= a.resetAt
  {
    if history != [] {
      var n := |history| - 1;
      FloorIsMaximum(created, history[..n], t);
      assert history == history[..n] + [history[n]];
    }
  }

  /**
   `complete` goes through exactly for a voice whose output is there, not empty,
   and no older than the run and every reset, to a second.
   */
  lemma CompleteNeedsFreshOutput(m: Manifest, files: Files, i: nat, elapsed: Option<int>, finish: Option<string>)
    requires Loadable(m) && i < |m.voices|
    ensures Prepare(CompleteVoice(m.voices[i].id, elapsed, finish), m, files).Some? <==>
            var v := m.voices[i];
            && v.file in files && files[v.file].contents != ""
            && files[v.file].mtime >= m.created - 1.0
            && forall a :: a in v.history ==> files[v.file].mtime >= a.resetAt - 1.0
  {
    FoundAt(m, i);
    var v := m.voices[i];
    if v.file in files {
      FloorIsMaximum(m.created, v.history, files[v.file].mtime + 1.0);
    }
  }

  lemma FoundAt(m: Manifest, i: nat)
    requires UniqueIds(m) && i < |m.voices|
    ensures IndexFrom(m.voices, m.voices[i].id, 0) == Some(i)
  {
  }

  // ---- the commands ----------------------------------------------------

  /** What one command comes to on a run directory; nothing when it exits with an error. */
  ghost function Outcome(c: Command, saved: Option<Manifest>, files: Files): Option<Update> {
    var m := Load(saved);
    if m.None? then None else Prepare(c, m.value, files)
  }

  /** Everything but voice `i` is as it was, and of that voice its name, its file and the given history. */
  ghost predicate OnlyVoice(m: Manifest, n: Manifest, i: nat, history: seq<Attempt>) {
    && n.created == m.created && |n.voices| == |m.voices| && i < |m.voices|
    && (forall j :: 0 <= j < |m.voices| && j != i ==> n.voices[j] == m.voices[j])
    && n.voices[i].id == m.voices[i].id && n.voices[i].file == m.voices[i].file && n.voices[i].history == history
  }

  /** The voice to complete has no output, an empty one, or one older than the run or a reset. */
  ghost predicate StaleFor(c: Command, m: Manifest, files: Files, i: int)
    requires 0 <= i < |m.voices|
  {
    var v := m.voices[i];
    && c.CompleteVoice? && v.id == c.voice
    && (|| v.file !in files || files[v.file].contents == ""
        || files[v.file].mtime < m.created - 1.0
        || exists a :: a in v.history && files[v.file].mtime < a.resetAt - 1.0)
  }

  lemma StaleIff(c: Command, m: Manifest, files: Files, i: nat)
    requires i < |m.voices| && c.CompleteVoice? && m.voices[i].id == c.voice
    ensures StaleFor(c, m, files, i) <==> !Fresh(m, m.voices[i], files)
  {
    var v := m.voices[i];
    if v.file in files {
      FloorIsMaximum(m.created, v.history, files[v.file].mtime + 1.0);
    }
  }

  /** A command is refused exactly for a manifest that does not load, an unknown voice, or a stale output. */
  lemma RefusedIff(c: Command, saved: Option<Manifest>, files: Files)
    ensures Outcome(c, saved, files).None? <==>
      || saved.None? || saved.value.voices == []
      || (exists i, j :: 0 <= i < j < |saved.value.voices| && saved.value.voices[i].id == saved.value.voices[j].id)
      || (forall i :: 0 <= i < |saved.value.voices| ==> saved.value.voices[i].id != c.voice)
      || (exists i :: 0 <= i < |saved.value.voices| && StaleFor(c, saved.value, files, i))
  {
    if saved.Some? && Loadable(saved.value) {
      if i: nat :| i < |saved.value.voices| && saved.value.voices[i].id == c.voice {
        FoundAt(saved.value, i);
        if c.CompleteVoice? {
          StaleIff(c, saved.value, files, i);
        }
      }
    }
    hide Fresh;
  }

  /** `complete`: the voice is complete, without a detail, and with what was given where it was given. */
  lemma CompletedVoice(m: Manifest, files: Files, voice: string, elapsed: Option<int>, finish: Option<string>)
    requires Outcome(CompleteVoice(voice, elapsed, finish), Some(m), files).Some?
    ensures var u := Outcome(CompleteVoice(voice, elapsed, finish), Some(m), files).value; var n := Apply(m, u);
      && OnlyVoice(m, n, u.i, m.voices[u.i].history) && m.voices[u.i].id == voice
      && n.voices[u.i].status == Complete && n.voices[u.i].detail == None
      && n.voices[u.i].elapsed == (if elapsed == None then m.voices[u.i].elapsed else elapsed)
      && n.voices[u.i].finish == (if finish == None || finish == Some("") then m.voices[u.i].finish else finish)
      && Renamed(files, m, u) == files
  {
  }

  /** `error`: the voice is in error for the given detail; how it last finished stays. */
  lemma ErroredVoice(m: Manifest, files: Files, voice: string, elapsed: Option<int>, detail: string)
    requires Outcome(ErrorVoice(voice, elapsed, detail), Some(m), files).Some?
    ensures var u := Outcome(ErrorVoice(voice, elapsed, detail), Some(m), files).value; var n := Apply(m, u);
      && OnlyVoice(m, n, u.i, m.voices[u.i].history) && m.voices[u.i].id == voice
      && n.voices[u.i].status == Error && n.voices[u.i].detail == Some(detail)
      && n.voices[u.i].elapsed == (if elapsed == None then m.voices[u.i].elapsed else elapsed)
      && n.voices[u.i].finish == m.voices[u.i].finish
      && Renamed(files, m, u) == files
  {
  }

  /**
   `reset`: the voice is pending and blank, its attempt is the last entry of its
   history, and its output, if there was one, has the name the entry records.
   */
  lemma ResetVoiceIs(m: Manifest, files: Files, voice: string, now: real)
    requires Outcome(ResetVoice(voice, now), Some(m), files).Some?
    ensures var u := Outcome(ResetVoice(voice, now), Some(m), files).value; var n := Apply(m, u);
      var v := m.voices[u.i]; var aside := v.file + ".attempt" + Decimal(|v.history| + 1);
      && OnlyVoice(m, n, u.i, v.history + [Attempt(v.status, v.elapsed, v.finish, v.detail, now,
                                                   if v.file in files then Some(Base(aside)) else None)])
      && v.id == voice && n.voices[u.i].status == Pending
      && n.voices[u.i].elapsed == None && n.voices[u.i].finish == None && n.voices[u.i].detail == None
      && Renamed(files, m, u) == if v.file in files then (files - {v.file})[aside := files[v.file]] else files
  {
    hide Decimal;
  }

  class RunDirectory {
    var saved: Option<Manifest>
    var files: Files

    method LoadManifest() returns (m: Option<Manifest>)
      ensures m == Load(saved)
    {
      if saved.None? || saved.value.voices == [] {
        return None;
      }
      var voices := saved.value.voices;
      var ids := seq(|voices|, i requires 0 <= i < |voices| => voices[i].id);
      Snapshot.FullSetIsDistinct(ids);
      assert forall i :: 0 <= i < |voices| ==> ids[i] == voices[i].id;
      if |set x | x in ids| != |ids| {
        return None;
      }
      m := saved;
    }

    method FindVoice(m: Manifest, id: string) returns (i: Option<nat>)
      ensures i == IndexFrom(m.voices, id, 0)
    {
      var k := 0;
      while k < |m.voices|
        invariant 0 <= k <= |m.voices| && IndexFrom(m.voices, id, 0) == IndexFrom(m.voices, id, k)
      {
        if m.voices[k].id == id {
          return Some(k);
        }
        k := k + 1;
      }
      i := None;
    }

    method FloorOf(m: Manifest, v: Voice) returns (floor: real)
      ensures floor == Floor(m.created, v.history)
    {
      floor := m.created;
      var k := 0;
      while k < |v.history|
        invariant 0 <= k <= |v.history| && floor == Floor(m.created, v.history[..k])
      {
        assert v.history[..k + 1][..k] == v.history[..k];
        if v.history[k].resetAt > floor {
          floor := v.history[k].resetAt;
        }
        k := k + 1;
      }
      assert v.history[..k] == v.history;
    }

    method CmdComplete(voice: string, elapsed: Option<int>, finish: Option<string>) returns (ok: bool)
      modifies this
      ensures var u := Outcome(CompleteVoice(voice, elapsed, finish), old(saved), old(files));
        && files == old(files) && (ok <==> u.Some?)
        && saved == if ok then Some(Apply(old(saved).value, u.value)) else old(saved)
    {
      var loaded := LoadManifest();
      if loaded.None? {
        return false;
      }
      var m := loaded.value;
      var found := FindVoice(m, voice);
      if found.None? {
        return false;
      }
      var v := m.voices[found.value];
      if v.file !in files || files[v.file].contents == "" {
        return false;
      }
      var floor := FloorOf(m, v);
      if files[v.file].mtime < floor - 1.0 {
        return false;
      }
      v := v.(status := Complete);
      if elapsed.Some? {
        v := v.(elapsed := elapsed);
      }
      if finish.Some? && finish.value != "" {
        v := v.(finish := finish);
      }
      v := v.(detail := None);
      saved := Some(m.(voices := m.voices[found.value := v]));
      ok := true;
    }

    method CmdError(voice: string, elapsed: Option<int>, detail: string) returns (ok: bool)
      modifies this
      ensures var u := Outcome(ErrorVoice(voice, elapsed, detail), old(saved), old(files));
        && files == old(files) && (ok <==> u.Some?)
        && saved == if ok then Some(Apply(old(saved).value, u.value)) else old(saved)
    {
      var loaded := LoadManifest();
      if loaded.None? {
        return false;
      }
      var m := loaded.value;
      var found := FindVoice(m, voice);
      if found.None? {
        return false;
      }
      var v := m.voices[found.value];
      v := v.(status := Error);
      v := v.(detail := Some(detail));
      if elapsed.Some? {
        v := v.(elapsed := elapsed);
      }
      saved := Some(m.(voices := m.voices[found.value := v]));
      ok := true;
    }

    method CmdReset(voice: string, now: real) returns (ok: bool)
      modifies this
      ensures var u := Outcome(ResetVoice(voice, now), old(saved), old(files));
        && (ok <==> u.Some?)
        && saved == (if ok then Some(Apply(old(saved).value, u.value)) else old(saved))
        && files == if ok then Renamed(old(files), old(saved).value, u.value) else old(files)
    {
      var loaded := LoadManifest();
      if loaded.None? {
        return false;
      }
      var m := loaded.value;
      var found := FindVoice(m, voice);
      if found.None? {
        return false;
      }
      var v := m.voices[found.value];
      var attempt := Attempt(v.status, v.elapsed, v.finish, v.detail, now, None);
      v := v.(history := v.history + [attempt]);
      if v.file in files {
        var aside := Aside(v.file, |v.history|);
        files := (files - {v.file})[aside := files[v.file]];
        attempt := attempt.(movedTo := Some(Base(aside)));
        v := v.(history := v.history[|v.history| - 1 := attempt]);
      }
      assert v.history == m.voices[found.value].history + [attempt];
      v := v.(status := Pending);
      v := v.(elapsed := None, finish := None, detail := None);
      saved := Some(m.(voices := m.voices[found.value := v]));
      ok := true;
    }
  }
}
