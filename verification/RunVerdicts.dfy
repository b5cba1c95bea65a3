/** The verdicts of both judges on a whole run, exactly, in terms of its records. */
module RunVerdicts {
  import opened Basics
  import opened Records
  import opened Acceptance
  import GateB
  import Dashboard
  import Agreement

  // ---- records of a run ------------------------------------------------

  /** The claim has one record, this one. */
  ghost predicate Only(records: seq<Value>, c: string, record: Value) {
    IsLast(records, c, record) && !HasTwoRecords(records, c)
  }

  lemma LastIsOne(records: seq<Value>, c: string, a: Value, b: Value)
    requires IsLast(records, c, a) && IsLast(records, c, b)
    ensures a == b
  {
    var i :| ClaimsAt(records, i, c) && records[i] == a && forall j :: i < j ==> !ClaimsAt(records, j, c);
    var k :| ClaimsAt(records, k, c) && records[k] == b && forall j :: k < j ==> !ClaimsAt(records, j, c);
    assert i == k;
  }

  lemma LastIsClaims(records: seq<Value>, c: string, a: Value)
    requires IsLast(records, c, a)
    ensures HasRecord(records, c)
  {
    var i :| ClaimsAt(records, i, c) && records[i] == a && forall j :: i < j ==> !ClaimsAt(records, j, c);
  }

  lemma OnlyIff(records: seq<Value>, c: string, record: Value)
    ensures var index := IndexRecords(records);
      Only(records, c, record) <==> c !in index.duplicates && c in index.byClaim && index.byClaim[c] == record
  {
    IndexIff(records, c);
    var index := IndexRecords(records);
    if IsLast(records, c, record) {
      LastIsClaims(records, c, record);
      LastIsOne(records, c, record, index.byClaim[c]);
    }
    hide IndexRecords;
    hide IsLast;
    hide HasTwoRecords;
  }

  /** The record, or an entry of its cohort, names the path as its raw output. */
  ghost predicate Cites(record: Value, p: string) {
    && p != "" && record.Obj? && Get(record.fields, "bindings").Obj?
    && (|| Get(Get(record.fields, "bindings").fields, "raw_output_path") == Str(p)
        || exists x :: x in Executions(record) && x.Obj? && Get(x.fields, "raw_output_path") == Str(p))
  }

  lemma CitesIff(record: Value, p: string)
    ensures p in Cited(record) <==> Cites(record, p)
  {
    if x :| x in Executions(record) && x.Obj? && Get(x.fields, "raw_output_path") == Str(p) {
      assert RawPath(x) == Str(p);
    }
    hide Executions;
  }

  /** No other required claim's record cites an artifact that this one cites. */
  ghost predicate Unshared(records: seq<Value>, required: seq<string>, claim: string, record: Value) {
    record.Obj? && Get(record.fields, "bindings").Obj? && HasCohort(Get(record.fields, "bindings").fields) ==>
      forall c, other, p :: c in required && c != claim && IsLast(records, c, other) && Cites(record, p) ==>
        !Cites(other, p)
  }

  lemma UnsharedIff(records: seq<Value>, required: seq<string>, claim: string, record: Value)
    ensures SharedArtifactDefects(claim, record, required, IndexRecords(records).byClaim) == [] <==>
            Unshared(records, required, claim, record)
  {
    var byClaim := IndexRecords(records).byClaim;
    if record.Obj? && Get(record.fields, "bindings").Obj? {
      CohortSchemaIff(record);
    }
    forall p, c ensures c in Citers(required, byClaim, p) <==> exists other ::
        c in required && IsLast(records, c, other) && Cites(other, p)
    {
      CiterIff(records, required, c, p);
    }
    forall p ensures p in Cited(record) <==> Cites(record, p) {
      CitesIff(record, p);
    }
    hide IndexRecords;
    hide IsLast;
    hide Cites;
    hide Cited;
    hide Citers;
    hide HasCohort;
  }

  lemma CiterIff(records: seq<Value>, required: seq<string>, c: string, p: string)
    ensures c in Citers(required, IndexRecords(records).byClaim, p) <==>
            exists other :: c in required && IsLast(records, c, other) && Cites(other, p)
  {
    IndexIff(records, c);
    var byClaim := IndexRecords(records).byClaim;
    if c in byClaim {
      CitesIff(byClaim[c], p);
    }
    if other :| c in required && IsLast(records, c, other) && Cites(other, p) {
      LastIsClaims(records, c, other);
      LastIsOne(records, c, other, byClaim[c]);
    }
    hide IndexRecords;
    hide IsLast;
    hide Cites;
    hide Cited;
  }

  /** The record or an entry of it is of a class that assumes rather than shows. */
  ghost predicate Assumes(record: Value) {
    && record.Obj?
    && (|| Get(record.fields, "evidence_class") == Str("externally-assumed")
        || Get(record.fields, "evidence_class") == Str("unverified")
        || exists x :: x in Executions(record) && x.Obj?
             && (Get(x.fields, "evidence_class") == Str("externally-assumed")
                 || Get(x.fields, "evidence_class") == Str("unverified")))
  }

  lemma AssumesIff(record: Value)
    ensures GateB.RestsOnAssumption(record) <==> Assumes(record)
  {
    forall x: Value ensures Assumed(x) <==> x == Str("externally-assumed") || x == Str("unverified") {}
    hide Executions;
    hide Assumed;
  }

  // ---- Gate B ----------------------------------------------------------

  /** The record that discharges a claim at the gate. */
  ghost predicate GateDischarges(run: GateB.Run, c: string, record: Value) {
    && Only(run.records, c, record)
    && GateAccepted(record, run.terms, KindOf(run.manifest, c), GateB.EvidenceOf(run.manifest, c), run.repo)
    && Unshared(run.records, run.required, c, record)
    && Get(record.fields, "result") == Str("PASS")
    && (Assumes(record) ==> Truthy(Get(record.fields, "waiver")))
  }

  /** An accepted record that says the claim fails. */
  ghost predicate GateFails(run: GateB.Run, c: string, record: Value) {
    && Only(run.records, c, record)
    && GateAccepted(record, run.terms, KindOf(run.manifest, c), GateB.EvidenceOf(run.manifest, c), run.repo)
    && Unshared(run.records, run.required, c, record)
    && Get(record.fields, "result") == Str("FAIL")
  }

  lemma GateRecordIff(run: GateB.Run, c: string, record: Value)
    ensures GateB.RecordDefects(run, c, record) == [] <==>
      && GateAccepted(record, run.terms, KindOf(run.manifest, c), GateB.EvidenceOf(run.manifest, c), run.repo)
      && Unshared(run.records, run.required, c, record)
  {
    GateAccepts(record, run.terms, KindOf(run.manifest, c), GateB.EvidenceOf(run.manifest, c), run.repo);
    UnsharedIff(run.records, run.required, c, record);
    hide GateB.ValidateRecord;
    hide SharedArtifactDefects;
    hide GateAccepted;
    hide Unshared;
  }

  lemma AcceptedResult(record: Value, kind: Option<string>, targets: Option<seq<string>>, manifest: Option<string>,
      parse: string -> Value)
    requires TextAccepted(record, kind, targets, manifest, parse)
    ensures record.Obj?
    ensures var result := Get(record.fields, "result");
      result == Str("PASS") || result == Str("FAIL") || result == Str("INCOMPLETE")
  {
    hide BoundText;
    hide BindingText;
  }

  lemma GateResult(record: Value, e: GateB.Terms, kind: Option<string>, evidence: Option<seq<string>>, repo: GateB.Repo)
    requires GateAccepted(record, e, kind, evidence, repo)
    ensures record.Obj?
    ensures var result := Get(record.fields, "result");
      result == Str("PASS") || result == Str("FAIL") || result == Str("INCOMPLETE")
  {
    AcceptedResult(record, kind, e.targets, e.manifest, repo.parse);
    hide TextAccepted;
  }

  lemma GateDischargesIff(run: GateB.Run, c: string, record: Value)
    requires Only(run.records, c, record)
    ensures GateDischarges(run, c, record) <==>
      && GateB.RecordDefects(run, c, record) == [] && Get(record.fields, "result") == Str("PASS")
      && (GateB.RestsOnAssumption(record) ==> Truthy(Get(record.fields, "waiver")))
    ensures GateFails(run, c, record) <==>
      GateB.RecordDefects(run, c, record) == [] && Get(record.fields, "result") == Str("FAIL")
    ensures GateB.RecordDefects(run, c, record) == [] ==>
      record.Obj? && var result := Get(record.fields, "result");
        result == Str("PASS") || result == Str("FAIL") || result == Str("INCOMPLETE")
  {
    GateRecordIff(run, c, record);
    AssumesIff(record);
    if GateB.RecordDefects(run, c, record) == [] {
      GateResult(record, run.terms, KindOf(run.manifest, c), GateB.EvidenceOf(run.manifest, c), run.repo);
    }
    hide GateB.RecordDefects;
    hide GateAccepted;
    hide Unshared;
    hide Only;
    hide Assumes;
    hide GateB.RestsOnAssumption;
    hide Truthy;
  }

  ghost predicate GateDischarged(run: GateB.Run, c: string) {
    exists record :: GateDischarges(run, c, record)
  }

  ghost predicate GateFailed(run: GateB.Run, c: string) {
    exists record :: GateFails(run, c, record)
  }

  lemma GateNeedsOnly(run: GateB.Run, c: string, record: Value)
    ensures GateDischarges(run, c, record) || GateFails(run, c, record) ==> Only(run.records, c, record)
  {
    hide Only;
    hide GateAccepted;
    hide Unshared;
  }

  lemma NoStatusWithoutRecord(run: GateB.Run, c: string)
    requires var index := IndexRecords(run.records); c in index.duplicates || c !in index.byClaim
    ensures !GateB.StatusOf(run, c).Pass? && !GateB.StatusOf(run, c).Fail?
  {
  }

  /** The gate's status of a claim, from its record. */
  lemma GateStatusIff(run: GateB.Run, c: string)
    ensures GateB.StatusOf(run, c).Pass? <==> GateDischarged(run, c)
    ensures GateB.StatusOf(run, c).Fail? <==> GateFailed(run, c)
    ensures forall record :: GateDischarges(run, c, record) ==>
              GateB.StatusOf(run, c) == GateB.Pass(Truthy(Get(record.fields, "waiver")))
  {
    var index := IndexRecords(run.records);
    forall record
      ensures GateDischarges(run, c, record) || GateFails(run, c, record) ==>
                c !in index.duplicates && c in index.byClaim && index.byClaim[c] == record
    {
      GateNeedsOnly(run, c, record);
      OnlyIff(run.records, c, record);
      hide *;
    }
    hide IndexRecords;
    hide GateDischarges;
    hide GateFails;
    if c !in index.duplicates && c in index.byClaim {
      var record := index.byClaim[c];
      OnlyIff(run.records, c, record);
      GateDischargesIff(run, c, record);
      GateStatusOf(run, c, record);
      hide Only;
      hide GateB.StatusOf;
      hide GateB.RecordDefects;
      hide GateB.RestsOnAssumption;
      hide Truthy;
    } else {
      NoStatusWithoutRecord(run, c);
      hide GateB.StatusOf;
    }
  }

  /** How the gate looks at the claim's one record. */
  lemma GateStatusOf(run: GateB.Run, c: string, record: Value)
    requires var index := IndexRecords(run.records);
      c !in index.duplicates && c in index.byClaim && index.byClaim[c] == record
    requires GateB.RecordDefects(run, c, record) == [] ==>
      record.Obj? && var result := Get(record.fields, "result");
        result == Str("PASS") || result == Str("FAIL") || result == Str("INCOMPLETE")
    ensures GateB.StatusOf(run, c).Pass? <==>
      && GateB.RecordDefects(run, c, record) == [] && Get(record.fields, "result") == Str("PASS")
      && (GateB.RestsOnAssumption(record) ==> Truthy(Get(record.fields, "waiver")))
    ensures GateB.StatusOf(run, c).Fail? <==>
      GateB.RecordDefects(run, c, record) == [] && Get(record.fields, "result") == Str("FAIL")
    ensures GateB.StatusOf(run, c).Pass? ==>
      GateB.StatusOf(run, c) == GateB.Pass(Truthy(Get(record.fields, "waiver")))
  {
    hide GateB.RecordDefects;
    hide IndexRecords;
    hide GateB.RestsOnAssumption;
    hide Truthy;
  }

  /**
   Gate B's verdict on a run: FAILED exactly if some required claim's one,
   accepted record says FAIL; VERIFIED exactly if none does, something is
   required, and every required claim is discharged by its one record.
   */
  lemma GateVerdictIff(run: GateB.Run)
    ensures GateB.VerdictOf(run).FAILED? <==> exists c :: c in run.required && GateFailed(run, c)
    ensures GateB.VerdictOf(run).VERIFIED? <==>
            run.required != [] && forall c :: c in run.required ==> GateDischarged(run, c)
  {
    forall c
      ensures GateB.StatusOf(run, c).Pass? <==> GateDischarged(run, c)
      ensures GateB.StatusOf(run, c).Fail? <==> GateFailed(run, c)
    {
      GateStatusIff(run, c);
    }
    AnyAndAll(run);
    NeverBoth(run);
    hide GateB.StatusOf;
    hide GateDischarged;
    hide GateFailed;
    hide GateB.AnyFails;
    hide GateB.AllPass;
    hide IndexRecords;
    hide GateB.Profiles;
    hide GateB.WaivedClaims;
  }

  lemma AnyAndAll(run: GateB.Run)
    ensures GateB.AnyFails(run, run.required) <==> exists c :: c in run.required && GateB.StatusOf(run, c).Fail?
    ensures GateB.AllPass(run, run.required) <==> forall c :: c in run.required ==> GateB.StatusOf(run, c).Pass?
  {
    hide GateB.StatusOf;
    if c :| c in run.required && GateB.StatusOf(run, c).Fail? {
      var i :| 0 <= i < |run.required| && run.required[i] == c;
    }
    if GateB.AllPass(run, run.required) {
      forall c | c in run.required ensures GateB.StatusOf(run, c).Pass? {
        var i :| 0 <= i < |run.required| && run.required[i] == c;
      }
    }
  }

  lemma NeverBoth(run: GateB.Run)
    ensures GateB.AllPass(run, run.required) ==> !GateB.AnyFails(run, run.required)
  {
    hide GateB.StatusOf;
  }

  /** The profile a discharging record asserts. */
  ghost predicate Asserts(run: GateB.Run, c: string, record: Value, profile: Value) {
    && GateDischarges(run, c, record) && record.Obj? && Get(record.fields, "bindings").Obj?
    && Get(Get(record.fields, "bindings").fields, "profile") == profile
  }

  /**
   What a VERIFIED verdict says besides: the profiles of the discharging records
   and no others, each waived claim as often as it is required, and the binding.
   */
  lemma GateScope(run: GateB.Run)
    requires GateB.VerdictOf(run).VERIFIED?
    ensures var v := GateB.VerdictOf(run);
      && v.binding == run.binding
      && (forall p :: p in v.profiles <==> exists c, record :: c in run.required && Asserts(run, c, record, p))
      && (forall c, record :: c in run.required && GateDischarges(run, c, record) ==>
            v.waived[c] == if Truthy(Get(record.fields, "waiver")) then multiset(run.required)[c] else 0)
      && (forall c :: c !in run.required ==> v.waived[c] == 0)
  {
    GateVerdictIff(run);
    var v := GateB.VerdictOf(run);
    forall c
      ensures v.waived[c] == if GateB.StatusOf(run, c) == GateB.Pass(true) then multiset(run.required)[c] else 0
    {
      Agreement.GateWaivers(run, run.required, c);
    }
    forall c, record | c in run.required && GateDischarges(run, c, record)
      ensures GateB.StatusOf(run, c) == GateB.Pass(Truthy(Get(record.fields, "waiver")))
      ensures forall p :: Asserts(run, c, record, p) <==> p == ProfileOf(IndexRecords(run.records), c)
    {
      GateStatusIff(run, c);
      ProfileIs(run, c, record);
      hide *;
    }
    hide GateB.StatusOf;
    hide GateDischarges;
    hide Asserts;
    hide IndexRecords;
    hide ProfileOf;
    hide Truthy;
    forall p | p in v.profiles ensures exists c, record :: c in run.required && Asserts(run, c, record, p) {
      var c :| c in run.required && ProfileOf(IndexRecords(run.records), c) == p;
      var record :| GateDischarges(run, c, record);
      assert Asserts(run, c, record, p);
    }
    forall p, c, record | c in run.required && Asserts(run, c, record, p) ensures p in v.profiles {
      AssertsDischarges(run, c, record, p);
    }
  }

  lemma AssertsDischarges(run: GateB.Run, c: string, record: Value, p: Value)
    requires Asserts(run, c, record, p)
    ensures GateDischarges(run, c, record)
  {
    hide GateDischarges;
  }

  lemma ProfileIs(run: GateB.Run, c: string, record: Value)
    requires GateDischarges(run, c, record)
    ensures forall p :: Asserts(run, c, record, p) <==> p == ProfileOf(IndexRecords(run.records), c)
  {
    OnlyIff(run.records, c, record);
    BindingsAreThere(run, c, record);
    hide Only;
    hide GateAccepted;
    hide IndexRecords;
    hide Unshared;
    hide Assumes;
  }

  lemma BindingsAreThere(run: GateB.Run, c: string, record: Value)
    requires GateDischarges(run, c, record)
    ensures record.Obj? && Get(record.fields, "bindings").Obj?
  {
    hide Only;
    hide Unshared;
    hide Assumes;
    hide HeadText;
    hide BindingText;
    hide BoundText;
    hide HeldTo;
    hide LegacyBacked;
    hide AllBacked;
  }

  // ---- the dashboard ---------------------------------------------------

  /** The record that discharges a claim at the dashboard, before its dependencies are looked at. */
  ghost predicate BoardDischarges(view: Dashboard.View, c: string, record: Value) {
    && Only(view.records, c, record)
    && TextAccepted(record, KindOf(view.manifest, c), Dashboard.Targets(view.manifest), view.manifestHash, view.parse)
    && Unshared(view.records, view.required, c, record)
    && Get(record.fields, "result") == Str("PASS")
    && (Assumes(record) ==> Truthy(Get(record.fields, "waiver")))
    && (forall x :: x in Executions(record) ==>
          x.Obj? && Get(x.fields, "result") == Str("PASS") && Get(x.fields, "tool").Str?)
    && (KindOf(view.manifest, c) == Some(SYSTEM_CLAIM) && c in view.manifest.value.evidence ==>
          forall t :: t in view.manifest.value.evidence[c] ==> PassesFor(record, t))
  }

  ghost predicate BoardFails(view: Dashboard.View, c: string, record: Value) {
    && Only(view.records, c, record)
    && TextAccepted(record, KindOf(view.manifest, c), Dashboard.Targets(view.manifest), view.manifestHash, view.parse)
    && Unshared(view.records, view.required, c, record)
    && Get(record.fields, "result") == Str("FAIL")
  }

  ghost predicate BoardDischarged(view: Dashboard.View, c: string) {
    exists record :: BoardDischarges(view, c, record)
  }

  ghost predicate BoardFailed(view: Dashboard.View, c: string) {
    exists record :: BoardFails(view, c, record)
  }

  lemma {:induction false} NonPassingIff(xs: seq<Value>)
    ensures Dashboard.NonPassing(xs) == [] <==>
      forall x :: x in xs ==> x.Obj? && Get(x.fields, "result") == Str("PASS") && Get(x.fields, "tool").Str?
  {
    if xs != [] {
      var n := |xs| - 1;
      NonPassingIff(xs[..n]);
      assert xs == xs[..n] + [xs[n]];
    }
  }

  lemma {:induction false} EvidenceGapsIff(evidence: seq<string>, record: Value)
    ensures Dashboard.EvidenceGaps(evidence, Executions(record)) == [] <==>
            forall t :: t in evidence ==> PassesFor(record, t)
  {
    hide Executions;
    if evidence != [] {
      EvidenceGapsIff(evidence[1..], record);
      assert evidence == [evidence[0]] + evidence[1..];
      assert PassesFor(record, evidence[0]) <==>
        exists x :: x in Executions(record) && Dashboard.Reads(x, "tool", evidence[0])
                    && Dashboard.Reads(x, "result", "PASS");
    }
  }

  /** What the dashboard reads off a claim's one record. */
  ghost predicate BoardAccepts(view: Dashboard.View, c: string, record: Value) {
    && TextAccepted(record, KindOf(view.manifest, c), Dashboard.Targets(view.manifest), view.manifestHash, view.parse)
    && Unshared(view.records, view.required, c, record)
  }

  lemma BoardRecordIff(view: Dashboard.View, c: string, record: Value)
    ensures Dashboard.ValidateRecord(
              record, KindOf(view.manifest, c), Dashboard.Targets(view.manifest), view.manifestHash, view.parse)
            + SharedArtifactDefects(c, record, view.required, IndexRecords(view.records).byClaim) == [] <==>
            BoardAccepts(view, c, record)
  {
    DashboardAccepts(
      record, KindOf(view.manifest, c), Dashboard.Targets(view.manifest), view.manifestHash, view.parse);
    UnsharedIff(view.records, view.required, c, record);
    hide Dashboard.ValidateRecord;
    hide SharedArtifactDefects;
    hide TextAccepted;
    hide Unshared;
    hide IndexRecords;
  }

  lemma BoardResult(view: Dashboard.View, c: string, record: Value)
    requires BoardAccepts(view, c, record)
    ensures record.Obj?
    ensures var result := Get(record.fields, "result");
      result == Str("PASS") || result == Str("FAIL") || result == Str("INCOMPLETE")
  {
    AcceptedResult(
      record, KindOf(view.manifest, c), Dashboard.Targets(view.manifest), view.manifestHash, view.parse);
    hide TextAccepted;
    hide Unshared;
  }

  /** The status the dashboard reads off a record, given whether it has defects. */
  lemma BoardStatusOf(view: Dashboard.View, c: string, record: Value, accepted: bool)
    requires accepted <==>
      Dashboard.ValidateRecord(
        record, KindOf(view.manifest, c), Dashboard.Targets(view.manifest), view.manifestHash, view.parse)
      + SharedArtifactDefects(c, record, view.required, IndexRecords(view.records).byClaim) == []
    requires accepted ==>
      record.Obj? && var result := Get(record.fields, "result");
        result == Str("PASS") || result == Str("FAIL") || result == Str("INCOMPLETE")
    ensures var status := Dashboard.RecordStatus(view, c, record);
      && (status.Pass? <==>
            accepted && Get(record.fields, "result") == Str("PASS")
            && (GateB.RestsOnAssumption(record) ==> Truthy(Get(record.fields, "waiver"))))
      && (status.Fail? <==> accepted && Get(record.fields, "result") == Str("FAIL"))
      && (status.Invalid? <==> !accepted)
  {
    hide Dashboard.ValidateRecord;
    hide SharedArtifactDefects;
    hide IndexRecords;
    hide Executions;
    hide Assumed;
    hide Truthy;
    hide Dashboard.Targets;
    hide KindOf;
  }

  lemma BoardStatusIff(view: Dashboard.View, c: string, record: Value)
    ensures Dashboard.RecordStatus(view, c, record).Pass? <==>
      && BoardAccepts(view, c, record) && Get(record.fields, "result") == Str("PASS")
      && (Assumes(record) ==> Truthy(Get(record.fields, "waiver")))
    ensures Dashboard.RecordStatus(view, c, record).Fail? <==>
      BoardAccepts(view, c, record) && Get(record.fields, "result") == Str("FAIL")
    ensures Dashboard.RecordStatus(view, c, record).Invalid? <==> !BoardAccepts(view, c, record)
  {
    BoardRecordIff(view, c, record);
    AssumesIff(record);
    if BoardAccepts(view, c, record) {
      BoardResult(view, c, record);
    }
    hide *;
    BoardStatusOf(view, c, record, BoardAccepts(view, c, record));
  }

  /** The dashboard's row of a claim with one record, given the status it reads off it. */
  lemma BoardRowFrom(view: Dashboard.View, c: string, record: Value)
    requires var index := IndexRecords(view.records);
      c !in index.duplicates && c in index.byClaim && index.byClaim[c] == record
    ensures var row, status := Dashboard.EvaluateClaim(view, c), Dashboard.RecordStatus(view, c, record);
      && (row.status.Pass? <==>
            && status.Pass? && Dashboard.NonPassing(Executions(record)) == []
            && (KindOf(view.manifest, c) == Some(SYSTEM_CLAIM) && c in view.manifest.value.evidence ==>
                  Dashboard.EvidenceGaps(view.manifest.value.evidence[c], Executions(record)) == []))
      && (row.status.Fail? <==> status.Fail?)
      && (row.waived <==> !status.Invalid? && record.Obj? && Truthy(Get(record.fields, "waiver")))
      && row.claim == c
  {
    hide Dashboard.RecordStatus;
    hide Dashboard.NonPassing;
    hide Dashboard.EvidenceGaps;
    hide IndexRecords;
    hide Executions;
    hide Truthy;
    hide KindOf;
  }

  /** A claim's row before dependencies, from its record. */
  lemma BoardRowOf(view: Dashboard.View, c: string, record: Value)
    requires Only(view.records, c, record)
    ensures var row := Dashboard.EvaluateClaim(view, c);
      && (row.status.Pass? <==> BoardDischarges(view, c, record))
      && (row.status.Fail? <==> BoardFails(view, c, record))
      && (BoardAccepts(view, c, record) ==> (row.waived <==> Truthy(Get(record.fields, "waiver"))))
      && (!BoardAccepts(view, c, record) ==> !row.waived)
  {
    hide Only;
    hide TextAccepted;
    hide Unshared;
    hide Assumes;
    hide PassesFor;
    hide Dashboard.EvaluateClaim;
    hide Dashboard.RecordStatus;
    hide Dashboard.NonPassing;
    hide Dashboard.EvidenceGaps;
    hide IndexRecords;
    hide Executions;
    hide Truthy;
    hide Dashboard.Targets;
    OnlyIff(view.records, c, record);
    BoardRowFrom(view, c, record);
    BoardStatusIff(view, c, record);
    NonPassingIff(Executions(record));
    if KindOf(view.manifest, c) == Some(SYSTEM_CLAIM) && c in view.manifest.value.evidence {
      EvidenceGapsIff(view.manifest.value.evidence[c], record);
    }
    if BoardAccepts(view, c, record) {
      BoardResult(view, c, record);
    }
  }

  lemma NoRowWithoutRecord(view: Dashboard.View, c: string)
    requires var index := IndexRecords(view.records); c in index.duplicates || c !in index.byClaim
    ensures var row := Dashboard.EvaluateClaim(view, c); !row.status.Pass? && !row.status.Fail? && !row.waived
  {
  }

  /** The dashboard's row of a claim before dependencies. */
  lemma BoardClaimIff(view: Dashboard.View, c: string)
    ensures var row := Dashboard.EvaluateClaim(view, c);
      && (row.status.Pass? <==> BoardDischarged(view, c))
      && (row.status.Fail? <==> BoardFailed(view, c))
  {
    var index := IndexRecords(view.records);
    forall record
      ensures BoardDischarges(view, c, record) || BoardFails(view, c, record) ==>
                c !in index.duplicates && c in index.byClaim && index.byClaim[c] == record
    {
      OnlyIff(view.records, c, record);
      hide IndexRecords;
      hide Only;
    }
    hide IndexRecords;
    hide BoardDischarges;
    hide BoardFails;
    hide Dashboard.EvaluateClaim;
    if c !in index.duplicates && c in index.byClaim {
      OnlyIff(view.records, c, index.byClaim[c]);
      BoardRowOf(view, c, index.byClaim[c]);
      hide Only;
      hide BoardAccepts;
      hide Truthy;
    } else {
      NoRowWithoutRecord(view, c);
    }
  }

  /** The claim is a system claim with a judged dependency that is not discharged. */
  ghost predicate FallsShort(view: Dashboard.View, c: string) {
    && KindOf(view.manifest, c) == Some(SYSTEM_CLAIM) && c in view.manifest.value.depends
    && exists d :: d in view.required && d in view.manifest.value.depends[c] && !BoardDischarged(view, d)
  }

  lemma RowsAre(view: Dashboard.View)
    ensures forall i :: 0 <= i < |view.required| ==>
      && Dashboard.Rows(view)[i].claim == view.required[i]
      && (Dashboard.Rows(view)[i].status.Pass? <==> BoardDischarged(view, view.required[i]))
      && (Dashboard.Rows(view)[i].status.Fail? <==> BoardFailed(view, view.required[i]))
  {
    forall i | 0 <= i < |view.required|
      ensures Dashboard.EvaluateClaim(view, view.required[i]).claim == view.required[i]
      ensures Dashboard.EvaluateClaim(view, view.required[i]).status.Pass? <==> BoardDischarged(view, view.required[i])
      ensures Dashboard.EvaluateClaim(view, view.required[i]).status.Fail? <==> BoardFailed(view, view.required[i])
    {
      BoardClaimIff(view, view.required[i]);
      RowIsClaims(view, view.required[i]);
      hide *;
    }
    hide Dashboard.EvaluateClaim;
    hide BoardDischarged;
    hide BoardFailed;
  }

  lemma RowIsClaims(view: Dashboard.View, c: string)
    ensures Dashboard.EvaluateClaim(view, c).claim == c
  {
  }

  /** The dashboard's final rows: what passes is discharged and does not fall short; failures stay. */
  lemma FinalRowsAre(view: Dashboard.View, i: nat)
    requires i < |view.required|
    ensures var row, c := Dashboard.FinalRows(view)[i], view.required[i];
      && row.claim == c
      && (row.status.Pass? <==> BoardDischarged(view, c) && !FallsShort(view, c))
      && (row.status.DependencyGap? <==> BoardDischarged(view, c) && FallsShort(view, c))
      && (row.status.Fail? <==> BoardFailed(view, c))
  {
    RowsAre(view);
    var rows, c := Dashboard.Rows(view), view.required[i];
    hide Dashboard.Rows;
    hide BoardDischarged;
    hide BoardFailed;
    assert Dashboard.HasGap(rows, view.manifest, c) <==> FallsShort(view, c) by {
      GapIff(view, c);
    }
    NotYetGap(view, i);
    hide Dashboard.HasGap;
    hide FallsShort;
  }

  lemma NotYetGap(view: Dashboard.View, i: nat)
    requires i < |view.required|
    ensures !Dashboard.Rows(view)[i].status.DependencyGap?
  {
    NoRowHasGap(view, view.required[i]);
    hide Dashboard.EvaluateClaim;
  }

  lemma NoRowHasGap(view: Dashboard.View, c: string)
    ensures !Dashboard.EvaluateClaim(view, c).status.DependencyGap?
  {
    hide IndexRecords;
    hide KindOf;
    hide Executions;
    hide Dashboard.NonPassing;
    hide Dashboard.EvidenceGaps;
    hide Dashboard.ValidateRecord;
    hide SharedArtifactDefects;
    hide Truthy;
  }

  lemma GapIff(view: Dashboard.View, c: string)
    ensures Dashboard.HasGap(Dashboard.Rows(view), view.manifest, c) <==> FallsShort(view, c)
  {
    RowsAre(view);
    var rows := Dashboard.Rows(view);
    hide Dashboard.Rows;
    hide BoardDischarged;
    hide BoardFailed;
    if FallsShort(view, c) {
      var d :| d in view.required && d in view.manifest.value.depends[c] && !BoardDischarged(view, d);
      var i :| 0 <= i < |view.required| && view.required[i] == d;
      assert rows[i].claim == d;
    }
    if Dashboard.HasGap(rows, view.manifest, c) {
      var i :| 0 <= i < |rows| && rows[i].claim in view.manifest.value.depends[c] && !rows[i].status.Pass?;
      assert view.required[i] in view.required;
    }
  }

  /**
   The dashboard's verdict: FAILED exactly if some required claim's one, accepted
   record says FAIL; VERIFIED exactly if something is required, none fails, and
   every required claim is discharged and does not fall short, which it then
   cannot.
   */
  lemma BoardVerdictIff(view: Dashboard.View)
    ensures Dashboard.VerdictOf(view).FAILED? <==> exists c :: c in view.required && BoardFailed(view, c)
    ensures Dashboard.VerdictOf(view).VERIFIED? <==>
            view.required != [] && forall c :: c in view.required ==> BoardDischarged(view, c)
  {
    hide Dashboard.FinalRows;
    hide IndexRecords;
    hide BoardDischarged;
    hide BoardFailed;
    hide Dashboard.Waived;
    SomeFails(view);
    AllPass(view);
    var final := Dashboard.FinalRows(view);
    assert view.required != [] ==> final != [];
    PassIsNoFail(final);
  }

  lemma PassIsNoFail(rows: seq<Dashboard.Row>)
    ensures (forall i :: 0 <= i < |rows| ==> rows[i].status.Pass?) ==>
            !(exists i :: 0 <= i < |rows| && rows[i].status.Fail?)
  {
  }

  lemma SomeFails(view: Dashboard.View)
    ensures (exists i :: 0 <= i < |view.required| && Dashboard.FinalRows(view)[i].status.Fail?) <==>
            exists c :: c in view.required && BoardFailed(view, c)
  {
    var final := Dashboard.FinalRows(view);
    forall i | 0 <= i < |view.required| ensures final[i].status.Fail? <==> BoardFailed(view, view.required[i]) {
      FinalRowsAre(view, i);
      hide *;
    }
    hide Dashboard.FinalRows;
    hide BoardFailed;
    if c :| c in view.required && BoardFailed(view, c) {
      var i :| 0 <= i < |view.required| && view.required[i] == c;
      assert final[i].status.Fail?;
    }
  }

  lemma AllPass(view: Dashboard.View)
    ensures (forall i :: 0 <= i < |view.required| ==> Dashboard.FinalRows(view)[i].status.Pass?) <==>
            forall c :: c in view.required ==> BoardDischarged(view, c)
  {
    var final := Dashboard.FinalRows(view);
    forall i | 0 <= i < |view.required|
      ensures final[i].status.Pass? <==> BoardDischarged(view, view.required[i]) && !FallsShort(view, view.required[i])
    {
      FinalRowsAre(view, i);
      hide *;
    }
    hide Dashboard.FinalRows;
    hide BoardDischarged;
    if forall c :: c in view.required ==> BoardDischarged(view, c) {
      forall i | 0 <= i < |view.required| ensures final[i].status.Pass? {
        assert view.required[i] in view.required;
        assert !FallsShort(view, view.required[i]);
      }
    } else {
      hide FallsShort;
      var c :| c in view.required && !BoardDischarged(view, c);
      var i :| 0 <= i < |view.required| && view.required[i] == c;
      assert !final[i].status.Pass?;
    }
  }
}
