/**
 Gate B: validate hash-bound execution records against the repository and
 aggregate the verdict. Reading an artifact, matching its PASS markers and
 resolving a path are what a `Repo` answers.
 */
module GateB {
  import opened Basics
  import opened Records
  import Chars

  /**
   `contained(p)`: the relative path `p` stays in the repository. `read(p, hash)`:
   the artifact's text, when it resolves inside and has that digest.
   `passes(text, class, marker)`: it ends with the canonical trailer and carries its marker.
   */
  datatype Repo = Repo(
    contained: string -> bool, read: (string, Value) -> Option<string>,
    passes: (string, string, Value) -> bool, parse: string -> Value)

  /** What records are held to; `exact` compares the whole snapshot rather than a prefix. */
  datatype Terms = Terms(
    snapshot: Option<string>, exact: bool, intent: Option<string>, intentPath: Option<string>,
    manifest: Option<string>, targets: Option<seq<string>>)

  // ---- one execution ---------------------------------------------------

  datatype Judged = Judged(defects: Defects, seen: Seen)

  function ClassDefects(klass: Value, kind: Option<string>): Defects {
    Unless(KnownClass(klass), "unknown class")
      + Unless(KnownClass(klass) ==> Admissible(kind, klass), "incompatible class")
  }

  function ResultDefects(result: Value, recordPass: bool): Defects {
    Unless(result.Str? && result.s in RESULTS, "unknown result")
    + Unless(recordPass && result.Str? && result.s in RESULTS ==> result.s == "PASS", "not PASS beneath a PASS record")
  }

  /** The checks that look at this entry alone. */
  function TermDefects(f: map<string, Value>, recordPass: bool, kind: Option<string>, repo: Repo): Defects {
    var cwd := Get(f, "cwd");
    ClassDefects(Get(f, "evidence_class"), kind)
    + Unless(IsCommand(Get(f, "command")), "malformed command")
    + Unless(Filled(cwd) && repo.contained(cwd.s), "cwd escapes")
    + Unless(ValidToolchain(Get(f, "toolchain_digests")), "no executable identity")
    + ResultDefects(Get(f, "result"), recordPass)
    + Unless(Filled(Get(f, "run_id")), "run_id is empty")
  }

  function TextDefects(
      f: map<string, Value>, index: nat, claim: string, recordPass: bool, producer: bool, kind: Option<string>,
      seen: Seen, repo: Repo): Defects
  {
    var tool := Get(f, "tool");
    Unless(IsTool(tool), "malformed tool")
    + Unless(IsTool(tool) ==> tool.s !in seen.tools, "duplicate tool")
    + TermDefects(f, recordPass, kind, repo)
    + PathDefects(f, index, claim, producer, seen)
    + Unless("pass_marker" in f ==> IsPath(f["pass_marker"]), "pass_marker is empty")
  }

  function ArtifactDefects(f: map<string, Value>, repo: Repo): Defects {
    var path := Get(f, "raw_output_path");
    var text := if Filled(path) then repo.read(path.s, Get(f, "raw_output_hash")) else None;
    if text.None? then ["unresolvable artifact"]
    else
      var klass := Get(f, "evidence_class");
      Unless(Get(f, "result") == Str("PASS") && klass.Str? ==>
               repo.passes(text.value, klass.s, Get(f, "pass_marker")), "not a PASS artifact")
  }

  function JudgeExecution(
      x: Value, index: nat, claim: string, recordPass: bool, producer: bool, kind: Option<string>,
      seen: Seen, repo: Repo): Judged
  {
    if !x.Obj? then Judged(["not an object"], seen)
    else if Missing(x.fields, EXECUTION_FIELDS) != [] then Judged(Missing(x.fields, EXECUTION_FIELDS), seen)
    else
      var text := TextDefects(x.fields, index, claim, recordPass, producer, kind, seen, repo);
      Judged(if text != [] then text else ArtifactDefects(x.fields, repo), Advance(x.fields, index, seen))
  }

  /** The entries from `i` on. */
  function CohortFrom(
      xs: seq<Value>, i: nat, claim: string, recordPass: bool, producer: bool, kind: Option<string>,
      seen: Seen, repo: Repo): Defects
    requires i <= |xs|
    decreases |xs| - i
  {
    if i == |xs| then []
    else
      var one := JudgeExecution(xs[i], i, claim, recordPass, producer, kind, seen, repo);
      one.defects + CohortFrom(xs, i + 1, claim, recordPass, producer, kind, one.seen, repo)
  }

  /** An entry without defects: its tool and its artifact are its own, and from here on they are taken. */
  ghost predicate Claims(x: Value, index: nat, before: Seen, after: Seen) {
    && x.Obj? && IsTool(Get(x.fields, "tool")) && IsPath(Get(x.fields, "raw_output_path"))
    && var tool, path := Get(x.fields, "tool").s, Get(x.fields, "raw_output_path").s;
      && tool !in before.tools && after.tools == before.tools + {tool}
      && (path in before.paths ==> before.paths[path] == index) && after.paths == before.paths[path := index]
  }

  /** What is taken stays taken, by the execution that took it first. */
  ghost predicate Keeps(before: Seen, after: Seen) {
    && before.tools <= after.tools
    && forall p :: p in before.paths ==> p in after.paths && after.paths[p] == before.paths[p]
  }

  lemma Untouched(seen: Seen)
    ensures Keeps(seen, seen)
  {
  }

  lemma JudgedClaims(
      x: Value, index: nat, claim: string, recordPass: bool, producer: bool, kind: Option<string>, seen: Seen,
      repo: Repo)
    ensures var r := JudgeExecution(x, index, claim, recordPass, producer, kind, seen, repo);
      Keeps(seen, r.seen) && (r.defects == [] ==> Claims(x, index, seen, r.seen))
  {
    var r := JudgeExecution(x, index, claim, recordPass, producer, kind, seen, repo);
    if r.defects == [] {
      assert ArtifactDefects(x.fields, repo) == [];
      var path := Get(x.fields, "raw_output_path");
      assert Filled(path) && path.s != "";
    }
  }

  /** What a cohort entry is judged against, and the cross-execution state it updates. */
  class Cohort {
    const claim: string
    const recordPass: bool
    const producer: bool
    const kind: Option<string>
    var seenTools: set<string>
    var seenPaths: map<string, nat>

    constructor (claim: string, recordPass: bool, producer: bool, kind: Option<string>)
      ensures this.claim == claim && this.recordPass == recordPass && this.producer == producer && this.kind == kind
      ensures Taken() == NOTHING_SEEN
    {
      this.claim, this.recordPass, this.producer, this.kind := claim, recordPass, producer, kind;
      seenTools, seenPaths := {}, map[];
    }

    function Taken(): Seen
      reads this
    {
      Seen(seenTools, seenPaths)
    }

    /** The tool is well formed and new to the cohort, which it then belongs to. */
    method CheckTool(tool: Value) returns (defects: Defects)
      modifies `seenTools
      ensures defects == Unless(IsTool(tool), "malformed tool")
                         + Unless(IsTool(tool) ==> tool.s !in old(seenTools), "duplicate tool")
      ensures seenTools == old(seenTools) + if IsTool(tool) then {tool.s} else {}
    {
      defects := [];
      if !IsTool(tool) {
        defects := defects + ["malformed tool"];
      } else if tool.s in seenTools {
        defects := defects + ["duplicate tool"];
      } else {
        seenTools := seenTools + {tool.s};
      }
    }

    /** The artifact is the entry's own: `setdefault` leaves it with the first execution that named it. */
    method CheckPath(path: Value, run: Value, index: nat) returns (defects: Defects)
      modifies `seenPaths
      ensures defects ==
        if !IsPath(path) then []
        else Unless(path.s in old(seenPaths) ==> old(seenPaths)[path.s] == index, "duplicate artifact")
             + Unless(producer && run.Str? ==> path.s == ProducerArtifact(claim, run.s), "not this run's artifact")
      ensures seenPaths ==
        if IsPath(path) && path.s !in old(seenPaths) then old(seenPaths)[path.s := index] else old(seenPaths)
    {
      defects := [];
      if IsPath(path) {
        if path.s !in seenPaths {
          seenPaths := seenPaths[path.s := index];
        }
        var first := seenPaths[path.s];
        if first != index {
          defects := defects + ["duplicate artifact"];
        }
        if producer && run.Str? && path.s != ProducerArtifact(claim, run.s) {
          defects := defects + ["not this run's artifact"];
        }
      }
    }

    method CheckClass(klass: Value) returns (defects: Defects)
      ensures defects == ClassDefects(klass, kind)
    {
      defects := [];
      if !KnownClass(klass) {
        defects := defects + ["unknown class"];
      } else if !Admissible(kind, klass) {
        defects := defects + ["incompatible class"];
      }
    }

    method CheckResult(result: Value) returns (defects: Defects)
      ensures defects == ResultDefects(result, recordPass)
    {
      defects := [];
      if !result.Str? || result.s !in RESULTS {
        defects := defects + ["unknown result"];
      } else if recordPass && result.s != "PASS" {
        defects := defects + ["not PASS beneath a PASS record"];
      }
    }

    /** The checks between the tool and the artifact, which touch nothing of the cohort. */
    method CheckTerms(f: map<string, Value>, repo: Repo) returns (defects: Defects)
      ensures defects == TermDefects(f, recordPass, kind, repo)
    {
      hide ClassDefects;
      hide ResultDefects;
      hide Unless;
      var cwd := Get(f, "cwd");
      defects := CheckClass(Get(f, "evidence_class"));
      defects := defects + Unless(IsCommand(Get(f, "command")), "malformed command");
      defects := defects + Unless(Filled(cwd) && repo.contained(cwd.s), "cwd escapes");
      defects := defects + Unless(ValidToolchain(Get(f, "toolchain_digests")), "no executable identity");
      var more := CheckResult(Get(f, "result"));
      defects := defects + more;
      defects := defects + Unless(Filled(Get(f, "run_id")), "run_id is empty");
    }

    /**
     One entry. Without defects its tool and artifact are its own and are taken
     from here on; with or without, nothing taken before is given up.
     */
    method Check(x: Value, index: nat, repo: Repo) returns (defects: Defects)
      modifies this
      ensures Keeps(old(Taken()), Taken())
      ensures defects == [] ==> Claims(x, index, old(Taken()), Taken())
      ensures Judged(defects, Taken())
        == JudgeExecution(x, index, claim, recordPass, producer, kind, old(Taken()), repo)
    {
      ghost var before := Taken();
      JudgedClaims(x, index, claim, recordPass, producer, kind, before, repo);
      Untouched(before);
      hide Claims;
      hide Keeps;
      hide TermDefects;
      hide ArtifactDefects;
      if !x.Obj? { return ["not an object"]; }
      var f := x.fields;
      defects := Missing(f, EXECUTION_FIELDS);
      if defects != [] { return; }
      var own := CheckTool(Get(f, "tool"));
      var terms := CheckTerms(f, repo);
      var path := CheckPath(Get(f, "raw_output_path"), Get(f, "run_id"), index);
      defects := own + terms + path;
      if "pass_marker" in f && !IsPath(f["pass_marker"]) {
        defects := defects + ["pass_marker is empty"];
      }
      if defects == [] {
        defects := ArtifactDefects(f, repo);
      }
      assert Judged(defects, Taken()) == JudgeExecution(x, index, claim, recordPass, producer, kind, before, repo);
    }

    method CheckAll(xs: seq<Value>, repo: Repo) returns (defects: Defects)
      requires Taken() == NOTHING_SEEN
      modifies this
      ensures defects == CohortFrom(xs, 0, claim, recordPass, producer, kind, NOTHING_SEEN, repo)
    {
      hide JudgeExecution;
      hide Claims;
      hide Keeps;
      defects := [];
      var i := 0;
      while i < |xs|
        invariant 0 <= i <= |xs|
        invariant CohortFrom(xs, 0, claim, recordPass, producer, kind, NOTHING_SEEN, repo)
               == defects + CohortFrom(xs, i, claim, recordPass, producer, kind, Taken(), repo)
      {
        var more := Check(xs[i], i, repo);
        defects := defects + more;
        i := i + 1;
      }
    }
  }

  function CohortDefects(r: map<string, Value>, b: map<string, Value>, kind: Option<string>, repo: Repo): Defects {
    var xs := Get(b, "executions");
    var claim := Get(r, "claim_id");
    if !xs.Arr? || xs.items == [] then ["no executions"]
    else
      var cohort := CohortFrom(xs.items, 0, if claim.Str? then claim.s else "", Get(r, "result") == Str("PASS"),
                               Get(b, "profile") == Str(PRODUCER_PROFILE), kind, NOTHING_SEEN, repo);
      if cohort != [] then cohort
      else DerivationDefects(b, if xs.items[0].Obj? then xs.items[0].fields else map[], repo.parse)
  }

  // ---- one record ------------------------------------------------------

  predicate SnapshotMatches(snapshot: Value, e: Terms) {
    Wanted(e.snapshot) ==>
      snapshot.Str? && if e.exact then snapshot.s == e.snapshot.value else e.snapshot.value <= snapshot.s
  }

  /** Tools with a PASS execution in the cohort. */
  function PassingTools(xs: seq<Value>): set<string> {
    set x | x in xs && x.Obj? && Get(x.fields, "result") == Str("PASS") && Get(x.fields, "tool").Str? ::
      Get(x.fields, "tool").s
  }

  function CoverageDefects(record: Value, evidence: seq<string>): Defects {
    Unless(forall t :: t in evidence ==> t in PassingTools(Executions(record)), "required tool without PASS")
  }

  /** The record-level artifact of a record from before the cohort schema. */
  function LegacyArtifactDefects(r: map<string, Value>, b: map<string, Value>, repo: Repo): Defects {
    var path := Get(b, "raw_output_path");
    var text := if Filled(path) then repo.read(path.s, Get(b, "raw_output_hash")) else None;
    if text.None? then ["unresolvable artifact"]
    else
      var configuration := if Get(b, "configuration").Obj? then Get(b, "configuration").fields else map[];
      var klass := Get(r, "evidence_class");
      Unless(klass.Str? && repo.passes(text.value, klass.s, Get(configuration, "pass_marker")), "not a PASS artifact")
  }

  function Bound(
      r: map<string, Value>, b: map<string, Value>, v3: bool, e: Terms, kind: Option<string>, repo: Repo): Defects {
    DirtySnapshotDefects(r, b)
    + Unless(SnapshotMatches(Get(b, "source_snapshot"), e), "stale snapshot")
    + Unless(Wanted(e.intent) ==> Get(b, "intent_hash") == Str(e.intent.value), "stale intent")
    + ManifestBindingDefects(b, e.manifest)
    + Unless(Admissible(kind, Get(r, "evidence_class")), "incompatible class")
    + (if !v3 then [] else
         ProducerDefects(b, e.targets)
         + (var path := Get(b, "intent_path");
            Unless(Filled(path) && repo.contained(path.s)
              && (e.intentPath.Some? ==> path.s == e.intentPath.value), "intent path"))
         + CohortDefects(r, b, kind, repo))
    + (if v3 || Get(r, "result") != Str("PASS") then [] else LegacyArtifactDefects(r, b, repo))
  }

  function ValidateRecord(
      record: Value, e: Terms, kind: Option<string>, evidence: Option<seq<string>>, repo: Repo): Defects {
    if !record.Obj? then ["not an object"]
    else
      var r := record.fields;
      if Missing(r, TOP_FIELDS) != [] then Missing(r, TOP_FIELDS)
      else if !Get(r, "bindings").Obj? then ShapeDefects(r) + ["bindings is not an object"]
      else
        var b, v3 := Get(r, "bindings").fields, IsSchemaV3(record);
        var shape := ShapeDefects(r) + BindingDefects(b, v3) + WaiverDefects(Get(r, "waiver"));
        if shape != [] then shape
        else
          Bound(r, b, v3, e, kind, repo)
          + if evidence.Some? && evidence.value != [] && Get(r, "result") == Str("PASS")
            then CoverageDefects(record, evidence.value) else []
  }

  // ---- the run ---------------------------------------------------------

  datatype Status = DuplicateRecord | MissingRecord | Invalid | Fail | Incomplete | Unwaived | Pass(waived: bool)

  /** The record, or an entry of its cohort, rests on an assumed or unverified class. */
  predicate RestsOnAssumption(record: Value) {
    record.Obj?
    && (Assumed(Get(record.fields, "evidence_class"))
        || exists x :: x in Executions(record) && x.Obj? && Assumed(Get(x.fields, "evidence_class")))
  }

  datatype Run = Run(
    records: seq<Value>, required: seq<string>, manifest: Option<Manifest>, terms: Terms, repo: Repo, binding: string)

  function EvidenceOf(m: Option<Manifest>, claim: string): Option<seq<string>> {
    if m.Some? && claim in m.value.evidence then Some(m.value.evidence[claim]) else None
  }

  function RecordDefects(run: Run, claim: string, record: Value): Defects {
    ValidateRecord(record, run.terms, KindOf(run.manifest, claim), EvidenceOf(run.manifest, claim), run.repo)
    + SharedArtifactDefects(claim, record, run.required, IndexRecords(run.records).byClaim)
  }

  function StatusOf(run: Run, claim: string): Status {
    var index := IndexRecords(run.records);
    if claim in index.duplicates then DuplicateRecord
    else if claim !in index.byClaim then MissingRecord
    else
      var record := index.byClaim[claim];
      if RecordDefects(run, claim, record) != [] || !record.Obj? then Invalid
      else
        var result, waiver := Get(record.fields, "result"), Get(record.fields, "waiver");
        if result == Str("FAIL") then Fail
        else if result == Str("INCOMPLETE") then Incomplete
        else if RestsOnAssumption(record) && !Truthy(waiver) then Unwaived
        else Pass(Truthy(waiver))
  }

  /** The scope of a verdict: the profiles evidence carries, the waived claims, and the freshness binding. */
  datatype Verdict = FAILED | INCOMPLETE | VERIFIED(profiles: set<Value>, waived: multiset<string>, binding: string)

  function Profiles(index: Index, required: seq<string>): set<Value> {
    set c | c in required :: ProfileOf(index, c)
  }

  function WaivedClaims(run: Run, required: seq<string>): multiset<string> {
    if required == [] then multiset{}
    else
      (if StatusOf(run, required[0]) == Pass(true) then multiset{required[0]} else multiset{})
      + WaivedClaims(run, required[1..])
  }

  ghost predicate AnyFails(run: Run, claims: seq<string>) {
    exists i :: 0 <= i < |claims| && StatusOf(run, claims[i]).Fail?
  }

  ghost predicate AllPass(run: Run, claims: seq<string>) {
    forall i :: 0 <= i < |claims| ==> StatusOf(run, claims[i]).Pass?
  }

  ghost function VerdictOf(run: Run): Verdict {
    if AnyFails(run, run.required) then FAILED
    else if run.required == [] || !AllPass(run, run.required) then INCOMPLETE
    else VERIFIED(Profiles(IndexRecords(run.records), run.required), WaivedClaims(run, run.required), run.binding)
  }

  lemma NoneJudged(run: Run)
    ensures run.required[0..] == run.required && WaivedClaims(run, []) == multiset{}
    ensures !AnyFails(run, run.required[..0]) && AllPass(run, run.required[..0])
  {
  }

  lemma OneJudged(run: Run, i: nat)
    requires i < |run.required|
    ensures var c := run.required[i];
      && (AnyFails(run, run.required[..i + 1]) <==> AnyFails(run, run.required[..i]) || StatusOf(run, c).Fail?)
      && (AllPass(run, run.required[..i + 1]) <==> AllPass(run, run.required[..i]) && StatusOf(run, c).Pass?)
      && WaivedClaims(run, run.required[i..]) ==
         (if StatusOf(run, c) == Pass(true) then multiset{c} else multiset{}) + WaivedClaims(run, run.required[i + 1..])
  {
    hide StatusOf;
    var before, c := run.required[..i], run.required[i];
    assert run.required[..i + 1] == before + [c];
    assert forall k :: 0 <= k < i ==> (before + [c])[k] == before[k];
    assert (before + [c])[i] == c;
    assert run.required[i..][0] == c && run.required[i..][1..] == run.required[i + 1..];
  }

  /** The loop over required claims: its three lists, then the verdict. */
  method Judge(run: Run) returns (verdict: Verdict)
    ensures verdict == VerdictOf(run)
  {
    hide StatusOf;
    hide Profiles;
    hide IndexRecords;
    hide AnyFails;
    hide AllPass;
    hide WaivedClaims;
    NoneJudged(run);
    var failed, incomplete, waived := false, false, multiset{};
    var i := 0;
    while i < |run.required|
      invariant 0 <= i <= |run.required|
      invariant failed <==> AnyFails(run, run.required[..i])
      invariant !failed ==> (!incomplete <==> AllPass(run, run.required[..i]))
      invariant WaivedClaims(run, run.required) == waived + WaivedClaims(run, run.required[i..])
    {
      var c := run.required[i];
      OneJudged(run, i);
      match StatusOf(run, c) {
        case Fail => failed := true;
        case Pass(w) => if w { waived := waived + multiset{c}; }
        case _ => incomplete := true;
      }
      i := i + 1;
    }
    assert run.required[..i] == run.required && run.required[i..] == [];
    if failed { return FAILED; }
    if incomplete || run.required == [] { return INCOMPLETE; }
    return VERIFIED(Profiles(IndexRecords(run.records), run.required), waived, run.binding);
  }
}
