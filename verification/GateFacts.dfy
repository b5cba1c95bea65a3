/** What a VERIFIED run of Gate B establishes about the whole body of evidence. */
module GateFacts {
  import opened Basics
  import opened Records
  import opened GateB
  import opened Agreement
  import Manifests

  /** The judged set: every declared obligation, or the named ones with the dependencies they drag in. */
  function JudgedSet(m: Manifest, named: Option<seq<string>>): seq<string> {
    if named.None? then m.required else Expand(m, named.value, named.value)
  }

  function RecordOf(run: Run, claim: string): Value {
    var index := IndexRecords(run.records);
    if claim in index.byClaim then index.byClaim[claim] else Null
  }

  /** A passing claim's record is sound, cites nothing another required claim cites, and is its own. */
  lemma PassingRecord(run: Run, claim: string)
    requires claim in run.required && StatusOf(run, claim).Pass?
    ensures var record := RecordOf(run, claim);
      && SoundRecord(record) && ClaimOf(record) == Some(claim)
      && Get(record.fields, "result") == Str("PASS")
      && SharedArtifactDefects(claim, record, run.required, IndexRecords(run.records).byClaim) == []
      && (RestsOnAssumption(record) ==> Truthy(Get(record.fields, "waiver")))
      && (EvidenceOf(run.manifest, claim).Some? ==>
            forall t :: t in EvidenceOf(run.manifest, claim).value ==> t in PassingTools(Executions(record)))
  {
    hide StatusOf;
    hide ValidateRecord;
    hide SharedArtifactDefects;
    var record := PassMeans(run, claim);
    RecordAgrees(record, run.terms, KindOf(run.manifest, claim), EvidenceOf(run.manifest, claim), run.repo);
    OnlyPassLeft(Get(record.fields, "result"));
  }

  /**
   One artifact discharges one execution of one claim: over a VERIFIED run of
   cohort-schema records, the raw path determines the claim and the entry.
   */
  lemma ArtifactsAreInjective(run: Run, c: string, i: nat, d: string, j: nat)
    requires VerdictOf(run).VERIFIED? && c in run.required && d in run.required
    requires IsSchemaV3(RecordOf(run, c)) && IsSchemaV3(RecordOf(run, d))
    requires i < |Executions(RecordOf(run, c))| && j < |Executions(RecordOf(run, d))|
    ensures IsPath(RawPath(Executions(RecordOf(run, c))[i]))
    ensures RawPath(Executions(RecordOf(run, c))[i]) == RawPath(Executions(RecordOf(run, d))[j]) ==> c == d && i == j
  {
    hide StatusOf;
    hide IsSchemaV3;
    hide SharedArtifactDefects;
    hide Executions;
    PassingRecord(run, c);
    PassingRecord(run, d);
    var p, q := RawPath(Executions(RecordOf(run, c))[i]), RawPath(Executions(RecordOf(run, d))[j]);
    assert SoundFrom(Executions(RecordOf(run, c)), 0, true, NOTHING_SEEN)
           && SoundFrom(Executions(RecordOf(run, d)), 0, true, NOTHING_SEEN);
    if p == q {
      CitesItsEntries(RecordOf(run, c), i);
      CitesItsEntries(RecordOf(run, d), j);
      CitedOnce(run, c, d, p.s);
    }
  }

  lemma CitedOnce(run: Run, c: string, d: string, path: string)
    requires d in run.required && IsSchemaV3(RecordOf(run, c)) && IsSchemaV3(RecordOf(run, d))
    requires SharedArtifactDefects(c, RecordOf(run, c), run.required, IndexRecords(run.records).byClaim) == []
    requires path in Cited(RecordOf(run, c)) && path in Cited(RecordOf(run, d))
    ensures c == d
  {
    var byClaim := IndexRecords(run.records).byClaim;
    assert d in Citers(run.required, byClaim, path);
    assert Citers(run.required, byClaim, path) <= {c};
  }

  lemma CitesItsEntries(record: Value, i: nat)
    requires IsSchemaV3(record) && i < |Executions(record)| && IsPath(RawPath(Executions(record)[i]))
    ensures RawPath(Executions(record)[i]).s in Cited(record)
  {
    assert Executions(record)[i] in Executions(record);
  }

  /** A required system claim is composed of judged, passing parts, with a PASS from every tool it requires. */
  lemma SystemClaimsAreComposed(run: Run, named: Option<seq<string>>, v: Value, claim: string)
    requires VerdictOf(run).VERIFIED? && Manifests.LoadManifest(v).Ok?
      && run.manifest == Some(Manifests.LoadManifest(v).value)
    requires forall c :: c in run.required <==> c in JudgedSet(run.manifest.value, named)
    requires named.Some? ==> forall c :: c in named.value ==> c in run.manifest.value.kinds
    requires claim in run.required && KindOf(run.manifest, claim) == Some(SYSTEM_CLAIM)
    ensures claim in run.manifest.value.depends && claim in run.manifest.value.evidence
    ensures forall t :: t in run.manifest.value.evidence[claim] ==>
              exists x :: x in Executions(RecordOf(run, claim)) && x.Obj?
                          && Get(x.fields, "tool") == Str(t) && Get(x.fields, "result") == Str("PASS")
    ensures forall d :: d in run.manifest.value.depends[claim] ==> d in run.required && StatusOf(run, d).Pass?
  {
    hide StatusOf;
    var m := run.manifest.value;
    Manifests.LoadedIsWellFounded(v);
    PassingRecord(run, claim);
    forall t | t in m.evidence[claim]
      ensures exists x :: x in Executions(RecordOf(run, claim)) && x.Obj?
                          && Get(x.fields, "tool") == Str(t) && Get(x.fields, "result") == Str("PASS")
    {
      assert t in PassingTools(Executions(RecordOf(run, claim)));
    }
    forall d | d in m.depends[claim] ensures d in run.required && StatusOf(run, d).Pass? {
      assert Manifests.DependsWell(m.depends[claim], m.kinds);
      if named.Some? {
        OnlyNamedClaimsDrag(m, named.value, named.value, claim);
        ExpandCloses(m, named.value, named.value);
      }
    }
  }

  /** What expansion adds is never a system claim, so one pass closes the set. */
  lemma {:induction false} OnlyNamedClaimsDrag(m: Manifest, named: seq<string>, required: seq<string>, claim: string)
    requires Manifests.WellFounded(m) && claim in Expand(m, named, required)
    requires claim in m.kinds && m.kinds[claim] == SYSTEM_CLAIM
    ensures claim in required
  {
    if named != [] {
      var c := named[0];
      var deps := if c in m.kinds && m.kinds[c] == SYSTEM_CLAIM && c in m.depends then m.depends[c] else [];
      OnlyNamedClaimsDrag(m, named[1..], required + Absent(deps, required), claim);
      assert c in m.depends ==> Manifests.DependsWell(m.depends[c], m.kinds);
    }
  }

  /** Nothing assumed passes unattributed: each assumed entry's record carries a waiver naming who allowed what. */
  lemma AssumptionsAreWaived(run: Run, claim: string)
    requires VerdictOf(run).VERIFIED? && claim in run.required && RestsOnAssumption(RecordOf(run, claim))
    ensures Attributable(Get(RecordOf(run, claim).fields, "waiver"))
    ensures claim in VerdictOf(run).waived
  {
    PassingRecord(run, claim);
    AcceptedWaiver(Get(RecordOf(run, claim).fields, "waiver"));
    PassIsWaived(run, claim);
    hide *;
    ListedAsWaived(run, claim);
  }

  lemma AcceptedWaiver(waiver: Value)
    requires WaiverDefects(waiver) == [] && Truthy(waiver)
    ensures Attributable(waiver)
  {
    assert Unfilled(waiver.fields, WAIVER_FIELDS) == [];
    hide Filled;
  }

  lemma PassIsWaived(run: Run, claim: string)
    requires StatusOf(run, claim).Pass? && RestsOnAssumption(RecordOf(run, claim))
    ensures StatusOf(run, claim) == Pass(true)
  {
    var record := PassMeans(run, claim);
    hide StatusOf;
    hide RestsOnAssumption;
  }

  lemma ListedAsWaived(run: Run, claim: string)
    requires VerdictOf(run).VERIFIED? && claim in run.required && StatusOf(run, claim) == Pass(true)
    ensures claim in VerdictOf(run).waived
  {
    hide StatusOf;
    GateWaivers(run, run.required, claim);
  }
}
