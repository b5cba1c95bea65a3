/**
 The coverage dashboard: the same judgement as Gate B from record text alone,
 with no repository, so it sees a subset of the defects and names more gaps.
 */
module Dashboard {
  import opened Basics
  import opened Records
  import Chars

  // ---- one execution ---------------------------------------------------

  function ExecutionDefects(
      f: map<string, Value>, index: nat, claim: string, producer: bool, kind: Option<string>, seen: Seen): Defects
  {
    var tool, klass, cwd, result := Get(f, "tool"), Get(f, "evidence_class"), Get(f, "cwd"), Get(f, "result");
    Unless(IsTool(tool), "malformed tool")
    + Unless(IsTool(tool) ==> tool.s !in seen.tools, "duplicate tool")
    + Unless(KnownClass(klass), "unknown class")
    + Unless(KnownClass(klass) ==> Admissible(kind, klass), "incompatible class")
    + Unless(IsCommand(Get(f, "command")), "malformed command")
    + Unless(Filled(cwd), "cwd is not a path")
    + Unless(ValidToolchain(Get(f, "toolchain_digests")), "no executable identity")
    + Unless(result.Str? && result.s in RESULTS, "unknown result")
    + Unless(Filled(Get(f, "run_id")), "run_id is empty")
    + PathDefects(f, index, claim, producer, seen)
    + Unless("pass_marker" in f ==> IsPath(f["pass_marker"]), "pass_marker is empty")
  }

  datatype Judged = Judged(defects: Defects, seen: Seen)

  function JudgeExecution(
      x: Value, index: nat, claim: string, producer: bool, kind: Option<string>, seen: Seen): Judged
  {
    if !x.Obj? then Judged(["not an object"], seen)
    else if Missing(x.fields, EXECUTION_FIELDS) != [] then Judged(Missing(x.fields, EXECUTION_FIELDS), seen)
    else
      Judged(ExecutionDefects(x.fields, index, claim, producer, kind, seen), Advance(x.fields, index, seen))
  }

  function CohortFrom(
      xs: seq<Value>, i: nat, claim: string, producer: bool, kind: Option<string>, seen: Seen): Defects
    requires i <= |xs|
    decreases |xs| - i
  {
    if i == |xs| then []
    else
      var one := JudgeExecution(xs[i], i, claim, producer, kind, seen);
      one.defects + CohortFrom(xs, i + 1, claim, producer, kind, one.seen)
  }

  function CohortDefects(
      r: map<string, Value>, b: map<string, Value>, kind: Option<string>, parse: string -> Value): Defects {
    var xs := Get(b, "executions");
    var claim := Get(r, "claim_id");
    if !xs.Arr? || xs.items == [] then ["no executions"]
    else
      var cohort := CohortFrom(xs.items, 0, if claim.Str? then claim.s else "",
                               Get(b, "profile") == Str(PRODUCER_PROFILE), kind, NOTHING_SEEN);
      if cohort != [] then cohort
      else DerivationDefects(b, if xs.items[0].Obj? then xs.items[0].fields else map[], parse)
  }

  // ---- one record ------------------------------------------------------

  function ValidateRecord(
      record: Value, kind: Option<string>, targets: Option<seq<string>>, manifest: Option<string>,
      parse: string -> Value): Defects
  {
    if !record.Obj? then ["not an object"]
    else
      var r := record.fields;
      if Missing(r, TOP_FIELDS) != [] then Missing(r, TOP_FIELDS)
      else if !Get(r, "bindings").Obj? then
        ShapeDefects(r) + WaiverDefects(Get(r, "waiver")) + ["bindings is not an object"]
      else
        var b, v3 := Get(r, "bindings").fields, IsSchemaV3(record);
        var shape := ShapeDefects(r) + WaiverDefects(Get(r, "waiver")) + BindingDefects(b, v3);
        if shape != [] then shape
        else
          DirtySnapshotDefects(r, b)
          + ManifestBindingDefects(b, manifest)
          + (if v3 then ProducerDefects(b, targets) else [])
          + Unless(Admissible(kind, Get(r, "evidence_class")), "incompatible class")
          + (if v3 then CohortDefects(r, b, kind, parse) else [])
  }

  // ---- one row ---------------------------------------------------------

  datatype Status =
    | DuplicateRecord | MissingRecord | Invalid | Fail | Incomplete | Unwaived | EvidenceGap | DependencyGap | Pass

  datatype Row = Row(claim: string, status: Status, waived: bool)

  predicate Reads(x: Value, key: string, value: string) {
    x.Obj? && Get(x.fields, key) == Str(value)
  }

  /** Cohort entries that did not PASS, or whose tool cannot be read. */
  function NonPassing(xs: seq<Value>): seq<nat> {
    if xs == [] then []
    else
      var n := |xs| - 1;
      NonPassing(xs[..n])
      + if Reads(xs[n], "result", "PASS") && Get(xs[n].fields, "tool").Str? then [] else [n]
  }

  /** Required tools with no passing execution behind them. */
  function EvidenceGaps(evidence: seq<string>, xs: seq<Value>): seq<string> {
    if evidence == [] then []
    else
      (if exists x :: x in xs && Reads(x, "tool", evidence[0]) && Reads(x, "result", "PASS") then [] else [evidence[0]])
      + EvidenceGaps(evidence[1..], xs)
  }

  /** What the dashboard is handed: no repository, and no freshness expectation beyond the manifest it holds. */
  datatype View = View(
    records: seq<Value>, required: seq<string>, manifest: Option<Manifest>, manifestHash: Option<string>,
    parse: string -> Value)

  function Targets(m: Option<Manifest>): Option<seq<string>> {
    if m.Some? then Some(m.value.required) else None
  }

  function RecordStatus(view: View, claim: string, record: Value): Status {
    var index := IndexRecords(view.records);
    var defects :=
      ValidateRecord(record, KindOf(view.manifest, claim), Targets(view.manifest), view.manifestHash, view.parse)
      + SharedArtifactDefects(claim, record, view.required, index.byClaim);
    if defects != [] || !record.Obj? then Invalid
    else
      var result := Get(record.fields, "result");
      if result == Str("FAIL") then Fail
      else if result == Str("INCOMPLETE") then Incomplete
      else if (Assumed(Get(record.fields, "evidence_class"))
               || exists x :: x in Executions(record) && x.Obj? && Assumed(Get(x.fields, "evidence_class")))
              && !Truthy(Get(record.fields, "waiver")) then Unwaived
      else Pass
  }

  function EvaluateClaim(view: View, claim: string): Row {
    var index := IndexRecords(view.records);
    if claim in index.duplicates then Row(claim, DuplicateRecord, false)
    else if claim !in index.byClaim then Row(claim, MissingRecord, false)
    else
      var record := index.byClaim[claim];
      var status := RecordStatus(view, claim, record);
      var waived := status != Invalid && record.Obj? && Truthy(Get(record.fields, "waiver"));
      var cohort := Executions(record);
      if status != Pass then Row(claim, status, waived)
      else if NonPassing(cohort) != [] then Row(claim, EvidenceGap, waived)
      else if KindOf(view.manifest, claim) == Some(SYSTEM_CLAIM) && claim in view.manifest.value.evidence
              && EvidenceGaps(view.manifest.value.evidence[claim], cohort) != [] then Row(claim, EvidenceGap, waived)
      else Row(claim, Pass, waived)
  }

  function Rows(view: View): (r: seq<Row>)
    ensures |r| == |view.required|
  {
    seq(|view.required|, i requires 0 <= i < |view.required| => EvaluateClaim(view, view.required[i]))
  }

  // ---- dependencies ----------------------------------------------------

  /** A dependency the run evaluated and did not find passing. */
  predicate HasGap(rows: seq<Row>, m: Option<Manifest>, claim: string) {
    KindOf(m, claim) == Some(SYSTEM_CLAIM) && claim in m.value.depends
    && exists i :: 0 <= i < |rows| && rows[i].claim in m.value.depends[claim] && !rows[i].status.Pass?
  }

  function WithGap(row: Row, rows: seq<Row>, m: Option<Manifest>): Row {
    if row.status.Pass? && HasGap(rows, m, row.claim) then row.(status := DependencyGap) else row
  }

  /** Rows rewritten in place; the statuses consulted are those from before the loop. */
  method ApplyDependencyCoverage(rows: array<Row>, m: Option<Manifest>)
    modifies rows
    ensures forall i :: 0 <= i < rows.Length ==> rows[i] == WithGap(old(rows[i]), old(rows[..]), m)
  {
    var statuses := rows[..];
    var i := 0;
    while i < rows.Length
      invariant 0 <= i <= rows.Length
      invariant forall k :: 0 <= k < i ==> rows[k] == WithGap(old(rows[k]), statuses, m)
      invariant forall k :: i <= k < rows.Length ==> rows[k] == old(rows[k])
    {
      rows[i] := WithGap(rows[i], statuses, m);
      i := i + 1;
    }
  }

  function FinalRows(view: View): (r: seq<Row>)
    ensures |r| == |view.required|
  {
    var rows := Rows(view);
    seq(|rows|, i requires 0 <= i < |rows| => WithGap(rows[i], rows, view.manifest))
  }

  // ---- the verdict -----------------------------------------------------

  datatype Verdict = FAILED | INCOMPLETE | VERIFIED(profiles: set<Value>, waived: multiset<string>)

  function Waived(rows: seq<Row>): multiset<string> {
    if rows == [] then multiset{}
    else (if rows[0].waived then multiset{rows[0].claim} else multiset{}) + Waived(rows[1..])
  }

  function ComputeVerdict(rows: seq<Row>, index: Index, required: seq<string>): Verdict {
    if required == [] then INCOMPLETE
    else if exists i :: 0 <= i < |rows| && rows[i].status.Fail? then FAILED
    else if exists i :: 0 <= i < |rows| && !rows[i].status.Pass? then INCOMPLETE
    else VERIFIED(set i | 0 <= i < |rows| :: ProfileOf(index, rows[i].claim), Waived(rows))
  }

  function VerdictOf(view: View): Verdict {
    ComputeVerdict(FinalRows(view), IndexRecords(view.records), view.required)
  }
}
