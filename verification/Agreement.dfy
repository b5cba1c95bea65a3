/**
 The dashboard is a sound view of Gate B: what the gate accepts it accepts,
 and a VERIFIED or FAILED gate verdict is also the dashboard's.
 */
module Agreement {
  import opened Basics
  import opened Records
  import Chars
  import GateB
  import Dashboard

  /** Both judges over one set of records and one manifest, with nothing pinned by the operator. */
  ghost predicate SameRun(run: GateB.Run, view: Dashboard.View) {
    && run.records == view.records && run.manifest == view.manifest && run.repo.parse == view.parse
    && run.terms.manifest == view.manifestHash && run.terms.targets == Dashboard.Targets(view.manifest)
    && (forall c :: c in run.required <==> c in view.required)
    && NoRepeats(run.required)
  }

  ghost predicate NoRepeats(required: seq<string>) {
    forall i, j :: 0 <= i < j < |required| ==> required[i] != required[j]
  }

  // ---- records ---------------------------------------------------------

  /** What a defect-free entry is to Gate B. */
  ghost predicate SoundEntry(x: Value, recordPass: bool) {
    && x.Obj? && IsTool(Get(x.fields, "tool")) && Filled(RawPath(x)) && "raw_output_path" in x.fields
    && KnownClass(Get(x.fields, "evidence_class"))
    && (recordPass ==> Get(x.fields, "result") == Str("PASS"))
  }

  lemma EntryAgrees(
      x: Value, index: nat, claim: string, recordPass: bool, producer: bool, kind: Option<string>, seen: Seen,
      repo: GateB.Repo)
    requires GateB.JudgeExecution(x, index, claim, recordPass, producer, kind, seen, repo).defects == []
    ensures Dashboard.JudgeExecution(x, index, claim, producer, kind, seen).defects == []
    ensures Dashboard.JudgeExecution(x, index, claim, producer, kind, seen).seen
         == GateB.JudgeExecution(x, index, claim, recordPass, producer, kind, seen, repo).seen
           == Advance(x.fields, index, seen)
    ensures SoundEntry(x, recordPass) && IsPath(RawPath(x))
    ensures RawPath(x).s in seen.paths ==> seen.paths[RawPath(x).s] == index
    ensures Get(x.fields, "tool").s !in seen.tools
  {
    hide Advance;
    assert Missing(x.fields, EXECUTION_FIELDS) == [];
    assert EXECUTION_FIELDS[5] == "raw_output_path" && "raw_output_path" in x.fields;
    assert GateB.TextDefects(x.fields, index, claim, recordPass, producer, kind, seen, repo) == [];
    assert GateB.ArtifactDefects(x.fields, repo) == [];
    NonBlank(RawPath(x).s);
  }

  lemma AdvanceGrows(x: Value, index: nat, seen: Seen)
    requires x.Obj? && IsPath(RawPath(x)) && IsTool(Get(x.fields, "tool"))
    requires forall p :: p in seen.paths ==> seen.paths[p] < index
    ensures var next := Advance(x.fields, index, seen);
      && seen.paths.Keys <= next.paths.Keys && RawPath(x).s in next.paths
      && seen.tools <= next.tools && Get(x.fields, "tool").s in next.tools
      && forall p :: p in next.paths ==> next.paths[p] < index + 1
  {
  }

  lemma NonBlank(s: string)
    requires !Chars.Blank(s)
    ensures s != ""
  {
  }

  lemma {:induction false} CohortAgrees(
      xs: seq<Value>, i: nat, claim: string, recordPass: bool, producer: bool, kind: Option<string>, seen: Seen,
      repo: GateB.Repo)
    requires i <= |xs| && GateB.CohortFrom(xs, i, claim, recordPass, producer, kind, seen, repo) == []
    ensures Dashboard.CohortFrom(xs, i, claim, producer, kind, seen) == []
    decreases |xs| - i
  {
    if i < |xs| {
      hide GateB.JudgeExecution;
      hide Dashboard.JudgeExecution;
      hide Advance;
      var one := GateB.JudgeExecution(xs[i], i, claim, recordPass, producer, kind, seen, repo);
      assert one.defects == [];
      EntryAgrees(xs[i], i, claim, recordPass, producer, kind, seen, repo);
      CohortAgrees(xs, i + 1, claim, recordPass, producer, kind, one.seen, repo);
    }
  }

  /** Neither the tool nor the artifact of an entry has been used. */
  ghost predicate Unused(x: Value, used: Seen) {
    && x.Obj? && IsTool(Get(x.fields, "tool")) && IsPath(RawPath(x))
    && Get(x.fields, "tool").s !in used.tools && RawPath(x).s !in used.paths
  }

  /** A defect-free cohort: every entry sound, no two with one tool or one artifact. */
  ghost predicate SoundFrom(xs: seq<Value>, i: nat, recordPass: bool, used: Seen) {
    && (forall k :: i <= k < |xs| ==> SoundEntry(xs[k], recordPass) && Unused(xs[k], used))
    && (forall j, k :: i <= j < k < |xs| ==>
          RawPath(xs[j]) != RawPath(xs[k]) && Get(xs[j].fields, "tool") != Get(xs[k].fields, "tool"))
  }

  lemma SoundStep(xs: seq<Value>, i: nat, recordPass: bool, used: Seen, more: Seen)
    requires i < |xs| && SoundEntry(xs[i], recordPass) && Unused(xs[i], used)
    requires SoundFrom(xs, i + 1, recordPass, more) && used.paths.Keys <= more.paths.Keys && used.tools <= more.tools
    requires RawPath(xs[i]).s in more.paths && Get(xs[i].fields, "tool").s in more.tools
    ensures SoundFrom(xs, i, recordPass, used)
  {
  }

  lemma {:induction false} CohortIsSound(
      xs: seq<Value>, i: nat, claim: string, recordPass: bool, producer: bool, kind: Option<string>, seen: Seen,
      repo: GateB.Repo)
    requires i <= |xs| && GateB.CohortFrom(xs, i, claim, recordPass, producer, kind, seen, repo) == []
    requires forall p :: p in seen.paths ==> seen.paths[p] < i
    ensures SoundFrom(xs, i, recordPass, seen)
    decreases |xs| - i
  {
    if i < |xs| {
      hide GateB.JudgeExecution;
      hide Advance;
      hide SoundEntry;
      hide SoundFrom;
      var one := GateB.JudgeExecution(xs[i], i, claim, recordPass, producer, kind, seen, repo);
      assert one.defects == [];
      EntryAgrees(xs[i], i, claim, recordPass, producer, kind, seen, repo);
      assert SoundEntry(xs[i], recordPass) && xs[i].Obj?;
      AdvanceGrows(xs[i], i, seen);
      CohortIsSound(xs, i + 1, claim, recordPass, producer, kind, one.seen, repo);
      assert Unused(xs[i], seen);
      SoundStep(xs, i, recordPass, seen, one.seen);
    }
  }

  /** What every defect-free record is, to either judge. */
  ghost predicate SoundRecord(record: Value) {
    && record.Obj? && Get(record.fields, "result").Str? && Get(record.fields, "result").s in RESULTS
    && WaiverDefects(Get(record.fields, "waiver")) == []
    && SoundFrom(Executions(record), 0, Get(record.fields, "result") == Str("PASS"), NOTHING_SEEN)
    && (IsSchemaV3(record) ==> Executions(record) != [])
  }

  lemma RecordAgrees(record: Value, e: GateB.Terms, kind: Option<string>, evidence: Option<seq<string>>,
      repo: GateB.Repo)
    requires GateB.ValidateRecord(record, e, kind, evidence, repo) == []
    ensures Dashboard.ValidateRecord(record, kind, e.targets, e.manifest, repo.parse) == []
    ensures SoundRecord(record)
    ensures evidence.Some? && Get(record.fields, "result") == Str("PASS") ==>
              forall t :: t in evidence.value ==> t in GateB.PassingTools(Executions(record))
  {
    hide DerivationDefects;
    hide ProducerDefects;
    hide BindingDefects;
    var r := record.fields;
    var b, v3 := Get(r, "bindings").fields, IsSchemaV3(record);
    assert GateB.Bound(r, b, v3, e, kind, repo) == [];
    assert ShapeDefects(r) == [] && WaiverDefects(Get(r, "waiver")) == [] && BindingDefects(b, v3) == [];
    if v3 {
      assert GateB.CohortDefects(r, b, kind, repo) == [];
      CohortDefectsAgree(r, b, kind, repo);
    } else {
      assert "executions" !in b && Executions(record) == [];
    }
  }

  lemma CohortDefectsAgree(r: map<string, Value>, b: map<string, Value>, kind: Option<string>, repo: GateB.Repo)
    requires GateB.CohortDefects(r, b, kind, repo) == []
    ensures Dashboard.CohortDefects(r, b, kind, repo.parse) == []
    ensures Get(b, "executions").Arr? && Get(b, "executions").items != []
    ensures SoundFrom(Get(b, "executions").items, 0, Get(r, "result") == Str("PASS"), NOTHING_SEEN)
  {
    hide DerivationDefects;
    hide GateB.JudgeExecution;
    hide Dashboard.JudgeExecution;
    var xs, claim := Get(b, "executions").items, Get(r, "claim_id");
    var id := if claim.Str? then claim.s else "";
    var pass, producer := Get(r, "result") == Str("PASS"), Get(b, "profile") == Str(PRODUCER_PROFILE);
    assert GateB.CohortFrom(xs, 0, id, pass, producer, kind, NOTHING_SEEN, repo) == [];
    CohortAgrees(xs, 0, id, pass, producer, kind, NOTHING_SEEN, repo);
    CohortIsSound(xs, 0, id, pass, producer, kind, NOTHING_SEEN, repo);
  }

  // ---- rows ------------------------------------------------------------

  lemma SameCiters(xs: seq<string>, ys: seq<string>, byClaim: map<string, Value>, claim: string, record: Value)
    requires forall c :: c in xs <==> c in ys
    ensures SharedArtifactDefects(claim, record, xs, byClaim) == SharedArtifactDefects(claim, record, ys, byClaim)
  {
    forall p ensures Citers(xs, byClaim, p) == Citers(ys, byClaim, p) {}
  }

  lemma {:induction false} AllPassing(xs: seq<Value>)
    requires forall k :: 0 <= k < |xs| ==> SoundEntry(xs[k], true)
    ensures Dashboard.NonPassing(xs) == []
  {
    if xs != [] {
      assert SoundEntry(xs[|xs| - 1], true);
      AllPassing(xs[..|xs| - 1]);
    }
  }

  lemma {:induction false} NoEvidenceGaps(evidence: seq<string>, xs: seq<Value>)
    requires forall t :: t in evidence ==> t in GateB.PassingTools(xs)
    ensures Dashboard.EvidenceGaps(evidence, xs) == []
  {
    if evidence != [] {
      var t := evidence[0];
      assert t in GateB.PassingTools(xs);
      var x :| x in xs && x.Obj? && Get(x.fields, "result") == Str("PASS") && Get(x.fields, "tool") == Str(t);
      assert Dashboard.Reads(x, "tool", t) && Dashboard.Reads(x, "result", "PASS");
      NoEvidenceGaps(evidence[1..], xs);
    }
  }

  /** No gate defects, so no dashboard defects either, and a PASS leaves no gap in the cohort. */
  lemma DefectFreeAgrees(run: GateB.Run, view: Dashboard.View, claim: string, record: Value)
    requires SameRun(run, view) && GateB.RecordDefects(run, claim, record) == []
    ensures record.Obj? && Get(record.fields, "result").Str? && Get(record.fields, "result").s in RESULTS
    ensures Dashboard.ValidateRecord(record, KindOf(view.manifest, claim), Dashboard.Targets(view.manifest),
      view.manifestHash, view.parse)
            + SharedArtifactDefects(claim, record, view.required, IndexRecords(view.records).byClaim) == []
    ensures Get(record.fields, "result") == Str("PASS") ==>
              Dashboard.NonPassing(Executions(record)) == []
              && (GateB.EvidenceOf(run.manifest, claim).Some? ==>
                    Dashboard.EvidenceGaps(GateB.EvidenceOf(run.manifest, claim).value, Executions(record)) == [])
  {
    hide GateB.ValidateRecord;
    hide Dashboard.ValidateRecord;
    hide SharedArtifactDefects;
    var kind, evidence := KindOf(run.manifest, claim), GateB.EvidenceOf(run.manifest, claim);
    RecordAgrees(record, run.terms, kind, evidence, run.repo);
    SameCiters(run.required, view.required, IndexRecords(run.records).byClaim, claim, record);
    if Get(record.fields, "result") == Str("PASS") {
      AllPassing(Executions(record));
      if evidence.Some? { NoEvidenceGaps(evidence.value, Executions(record)); }
    }
  }

  lemma FailAgrees(run: GateB.Run, view: Dashboard.View, claim: string)
    requires SameRun(run, view) && claim in run.required && GateB.StatusOf(run, claim).Fail?
    ensures Dashboard.EvaluateClaim(view, claim).status.Fail?
  {
    hide GateB.RecordDefects;
    hide Dashboard.ValidateRecord;
    hide SharedArtifactDefects;
    hide GateB.RestsOnAssumption;
    hide Dashboard.NonPassing;
    hide Dashboard.EvidenceGaps;
    hide Truthy;
    var record := IndexRecords(run.records).byClaim[claim];
    assert GateB.RecordDefects(run, claim, record) == [];
    DefectFreeAgrees(run, view, claim, record);
    assert Dashboard.RecordStatus(view, claim, record).Fail?;
  }

  /** What a passing status says of the claim's record. */
  lemma PassMeans(run: GateB.Run, claim: string) returns (record: Value)
    requires GateB.StatusOf(run, claim).Pass?
    ensures var index := IndexRecords(run.records);
      claim !in index.duplicates && claim in index.byClaim && record == index.byClaim[claim]
    ensures record.Obj? && GateB.RecordDefects(run, claim, record) == []
    ensures Get(record.fields, "result") != Str("FAIL") && Get(record.fields, "result") != Str("INCOMPLETE")
    ensures GateB.StatusOf(run, claim).waived == Truthy(Get(record.fields, "waiver"))
    ensures GateB.RestsOnAssumption(record) ==> Truthy(Get(record.fields, "waiver"))
  {
    hide GateB.RecordDefects;
    record := IndexRecords(run.records).byClaim[claim];
  }

  lemma PassStatusAgrees(run: GateB.Run, view: Dashboard.View, claim: string, record: Value)
    requires SameRun(run, view) && GateB.RecordDefects(run, claim, record) == [] && record.Obj?
    requires Get(record.fields, "result") != Str("FAIL") && Get(record.fields, "result") != Str("INCOMPLETE")
    requires GateB.RestsOnAssumption(record) ==> Truthy(Get(record.fields, "waiver"))
    ensures Dashboard.RecordStatus(view, claim, record) == Dashboard.Pass
  {
    DefectFreeAgrees(run, view, claim, record);
    hide GateB.RecordDefects;
    hide Dashboard.ValidateRecord;
    hide SharedArtifactDefects;
    hide Truthy;
  }

  lemma PassAgrees(run: GateB.Run, view: Dashboard.View, claim: string)
    requires SameRun(run, view) && claim in run.required && GateB.StatusOf(run, claim).Pass?
    ensures Dashboard.EvaluateClaim(view, claim)
      == Dashboard.Row(claim, Dashboard.Pass, GateB.StatusOf(run, claim).waived)
  {
    hide GateB.RecordDefects;
    hide GateB.StatusOf;
    hide Dashboard.ValidateRecord;
    hide Dashboard.RecordStatus;
    hide SharedArtifactDefects;
    var record := PassMeans(run, claim);
    PassStatusAgrees(run, view, claim, record);
    DefectFreeAgrees(run, view, claim, record);
    OnlyPassLeft(Get(record.fields, "result"));
  }

  lemma OnlyPassLeft(result: Value)
    requires result.Str? && result.s in RESULTS && result != Str("FAIL") && result != Str("INCOMPLETE")
    ensures result == Str("PASS")
  {
  }

  // ---- verdicts --------------------------------------------------------

  lemma {:induction false} GateWaivers(run: GateB.Run, required: seq<string>, c: string)
    ensures GateB.WaivedClaims(run, required)[c] ==
            if GateB.StatusOf(run, c) == GateB.Pass(true) then multiset(required)[c] else 0
  {
    if required != [] {
      hide GateB.StatusOf;
      GateWaivers(run, required[1..], c);
      assert required == [required[0]] + required[1..];
    }
  }

  lemma {:induction false} DashboardWaivers(rows: seq<Dashboard.Row>, required: seq<string>, waived: set<string>,
      c: string)
    requires |rows| == |required|
    requires forall i :: 0 <= i < |rows| ==> rows[i].claim == required[i] && (rows[i].waived <==> required[i] in waived)
    ensures Dashboard.Waived(rows)[c] == if c in waived then multiset(required)[c] else 0
  {
    if rows != [] {
      DashboardWaivers(rows[1..], required[1..], waived, c);
      assert required == [required[0]] + required[1..];
    }
  }

  /** Gate B FAILED forces the dashboard to FAILED. */
  lemma FailedForcesFailed(run: GateB.Run, view: Dashboard.View)
    requires SameRun(run, view) && GateB.VerdictOf(run).FAILED?
    ensures Dashboard.VerdictOf(view).FAILED?
  {
    hide GateB.StatusOf;
    hide Dashboard.EvaluateClaim;
    var i :| 0 <= i < |run.required| && GateB.StatusOf(run, run.required[i]).Fail?;
    var c := run.required[i];
    FailAgrees(run, view, c);
    var k :| 0 <= k < |view.required| && view.required[k] == c;
    assert Dashboard.Rows(view)[k] == Dashboard.EvaluateClaim(view, c);
    assert Dashboard.FinalRows(view)[k].status.Fail?;
  }

  /** When the gate passes every claim, so does the dashboard, dependencies included. */
  lemma VerifiedRows(run: GateB.Run, view: Dashboard.View)
    requires SameRun(run, view) && GateB.AllPass(run, run.required)
    ensures forall i :: 0 <= i < |view.required| ==>
              var c := view.required[i];
              GateB.StatusOf(run, c).Pass?
              && Dashboard.FinalRows(view)[i] == Dashboard.Row(c, Dashboard.Pass, GateB.StatusOf(run, c).waived)
  {
    hide GateB.StatusOf;
    hide Dashboard.EvaluateClaim;
    var rows := Dashboard.Rows(view);
    forall i | 0 <= i < |view.required|
      ensures var c := view.required[i];
        GateB.StatusOf(run, c).Pass? && rows[i] == Dashboard.Row(c, Dashboard.Pass, GateB.StatusOf(run, c).waived)
    {
      assert view.required[i] in run.required;
      PassAgrees(run, view, view.required[i]);
    }
    forall i | 0 <= i < |rows| ensures Dashboard.FinalRows(view)[i] == rows[i] {
      assert forall k :: 0 <= k < |rows| ==> rows[k].status.Pass?;
    }
  }

  /**
   Gate B VERIFIED forces the dashboard to VERIFIED over the same profiles; its
   waived list is the gate's exactly when it was asked for each waived claim once.
   */
  lemma VerifiedForcesVerified(run: GateB.Run, view: Dashboard.View)
    requires SameRun(run, view) && GateB.VerdictOf(run).VERIFIED?
    ensures var gate, dashboard := GateB.VerdictOf(run), Dashboard.VerdictOf(view);
      && dashboard.VERIFIED? && dashboard.profiles == gate.profiles
      && (dashboard.waived == gate.waived <==> forall c :: c in gate.waived ==> multiset(view.required)[c] == 1)
  {
    hide GateB.StatusOf;
    hide Dashboard.EvaluateClaim;
    var rows := Dashboard.FinalRows(view);
    VerifiedRows(run, view);
    var gate, dashboard := GateB.VerdictOf(run), Dashboard.VerdictOf(view);
    assert |view.required| > 0 by { assert run.required[0] in view.required; }
    SameProfiles(run, view, rows);
    var waived := set c | c in view.required && GateB.StatusOf(run, c) == GateB.Pass(true);
    forall c
      ensures gate.waived[c] == if c in waived then 1 else 0
      ensures dashboard.waived[c] == if c in waived then multiset(view.required)[c] else 0
    {
      GateWaivers(run, run.required, c);
      DashboardWaivers(rows, view.required, waived, c);
      OnceEach(run.required, c);
    }
    SameWaivers(gate.waived, dashboard.waived, waived, multiset(view.required));
  }

  lemma SameWaivers(gate: multiset<string>, dashboard: multiset<string>, waived: set<string>, asked: multiset<string>)
    requires forall c :: gate[c] == if c in waived then 1 else 0
    requires forall c :: dashboard[c] == if c in waived then asked[c] else 0
    ensures dashboard == gate <==> forall c :: c in gate ==> asked[c] == 1
  {
    if dashboard == gate {
      forall c | c in gate ensures asked[c] == 1 {
        assert dashboard[c] == gate[c];
      }
    }
  }

  lemma SameProfiles(run: GateB.Run, view: Dashboard.View, rows: seq<Dashboard.Row>)
    requires SameRun(run, view) && |rows| == |view.required|
    requires forall i :: 0 <= i < |rows| ==> rows[i].claim == view.required[i]
    ensures GateB.Profiles(IndexRecords(run.records), run.required)
         == set i | 0 <= i < |rows| :: ProfileOf(IndexRecords(view.records), rows[i].claim)
  {
    var index := IndexRecords(run.records);
    forall p | p in GateB.Profiles(index, run.required)
      ensures p in set i | 0 <= i < |rows| :: ProfileOf(index, rows[i].claim)
    {
      var c :| c in run.required && ProfileOf(index, c) == p;
      var i :| 0 <= i < |view.required| && view.required[i] == c;
      assert rows[i].claim == c;
    }
    forall p | p in set i | 0 <= i < |rows| :: ProfileOf(index, rows[i].claim)
      ensures p in GateB.Profiles(index, run.required)
    {
      var i :| 0 <= i < |rows| && ProfileOf(index, rows[i].claim) == p;
      assert view.required[i] in run.required;
    }
  }

  lemma {:induction false} OnceEach(xs: seq<string>, c: string)
    requires NoRepeats(xs)
    ensures multiset(xs)[c] == if c in xs then 1 else 0
  {
    if xs != [] {
      OnceEach(xs[1..], c);
      assert xs == [xs[0]] + xs[1..];
    }
  }
}
