/**
 What each judge demands of a record and of a run, condition by condition on
 the record's text and the repository: both directions, for every record.
 */
module Acceptance {
  import opened Basics
  import opened Records
  import Chars
  import GateB
  import Dashboard

  // ---- one record's text -----------------------------------------------

  /** Which evidence may stand for which kind of obligation: nothing may for a kind nobody knows. */
  ghost predicate MayStand(kind: Option<string>, klass: string) {
    match kind
    case None => true
    case Some(k) =>
      || (k == "invariant" && klass in EVIDENCE_CLASSES && klass != "test-witnessed")
      || (k == "witness" && klass in {"test-witnessed", "conformance-tested", "externally-assumed", "unverified"})
      || (k == SYSTEM_CLAIM && klass in EVIDENCE_CLASSES)
  }

  lemma MayStandIff(kind: Option<string>, v: Value)
    requires KnownClass(v)
    ensures Admissible(kind, v) <==> MayStand(kind, v.s)
  {
  }

  ghost predicate HasAll(fields: map<string, Value>, names: seq<string>) {
    forall i :: 0 <= i < |names| ==> names[i] in fields
  }

  /** A binding that is there and says something; only `seeds` may be null. */
  ghost predicate Usable(b: map<string, Value>, name: string) {
    && name in b && b[name] != Str("") && b[name] != Arr([]) && b[name] != Obj(map[])
    && (b[name] == Null ==> name == "seeds" || name == "waiver")
  }

  ghost predicate AllUsable(b: map<string, Value>, names: seq<string>) {
    forall i :: 0 <= i < |names| ==> Usable(b, names[i])
  }

  lemma {:induction false} UsableIff(b: map<string, Value>, names: seq<string>)
    ensures UnusableBindings(b, names) == [] <==> AllUsable(b, names)
  {
    if names != [] {
      UsableIff(b, names[1..]);
      assert names == [names[0]] + names[1..];
    }
  }

  /** A record of the cohort schema: it says so, or it has a cohort. */
  ghost predicate HasCohort(b: map<string, Value>) {
    "executions" in b || Get(b, "parser_schema_version") == Str("fv-evidence-run/v3")
  }

  ghost predicate HeadText(r: map<string, Value>) {
    && Get(r, "claim_id").Str? && Get(r, "claim_id").s != ""
    && Get(r, "required").Bool?
    && Get(r, "evidence_class").Str? && Get(r, "evidence_class").s in EVIDENCE_CLASSES
    && (Get(r, "result") == Str("PASS") || Get(r, "result") == Str("FAIL") || Get(r, "result") == Str("INCOMPLETE"))
    && Filled(Get(r, "scope"))
    && (Truthy(Get(r, "waiver")) ==> Attributable(Get(r, "waiver")))
  }

  ghost predicate BindingText(b: map<string, Value>) {
    && AllUsable(b, BINDING_FIELDS) && (HasCohort(b) ==> Usable(b, "intent_path") && Usable(b, "executions"))
    && Get(b, "profile").Str? && Chars.ProfileId(Get(b, "profile").s)
    && Get(b, "required_targets").Arr? && Get(b, "required_targets").items != []
    && (forall v :: v in Get(b, "required_targets").items ==> v.Str? && Chars.ObligationId(v.s))
    && Filled(Get(b, "intent_hash")) && Filled(Get(b, "obligation_manifest_hash"))
    && Filled(Get(b, "environment_policy")) && Filled(Get(b, "parser_schema_version")) && Filled(Get(b, "run_id"))
    && (HasCohort(b) ==> Filled(Get(b, "intent_path")))
    && (Get(b, "profile") == Str("producer-trusted-execution") ==> ValidToolchain(Get(b, "toolchain_digests")))
  }

  lemma HeadIff(r: map<string, Value>)
    ensures ShapeDefects(r) == [] && WaiverDefects(Get(r, "waiver")) == [] <==> HeadText(r)
  {
    hide Filled;
    hide Truthy;
    AttributableIff(Get(r, "waiver"));
    hide Attributable;
    hide WaiverDefects;
  }

  lemma AttributableIff(waiver: Value)
    ensures WaiverDefects(waiver) == [] <==> (Truthy(waiver) ==> Attributable(waiver))
  {
    hide Filled;
    hide Truthy;
  }

  lemma UsableMore(b: map<string, Value>)
    ensures UnusableBindings(b, BINDING_FIELDS) == [] <==> AllUsable(b, BINDING_FIELDS)
    ensures UnusableBindings(b, BINDING_FIELDS + V3_BINDING_FIELDS) == [] <==>
            AllUsable(b, BINDING_FIELDS) && Usable(b, "intent_path") && Usable(b, "executions")
  {
    UsableIff(b, BINDING_FIELDS);
    UsableIff(b, BINDING_FIELDS + V3_BINDING_FIELDS);
    UsableSplits(b, BINDING_FIELDS, V3_BINDING_FIELDS);
    hide Usable;
    assert V3_BINDING_FIELDS[0] == "intent_path" && V3_BINDING_FIELDS[1] == "executions";
    assert AllUsable(b, V3_BINDING_FIELDS) <==> Usable(b, "intent_path") && Usable(b, "executions");
  }

  lemma UsableSplits(b: map<string, Value>, xs: seq<string>, ys: seq<string>)
    ensures AllUsable(b, xs + ys) <==> AllUsable(b, xs) && AllUsable(b, ys)
  {
    hide Usable;
    var all := xs + ys;
    if AllUsable(b, all) {
      forall i | 0 <= i < |xs| ensures Usable(b, xs[i]) { assert all[i] == xs[i]; }
      forall i | 0 <= i < |ys| ensures Usable(b, ys[i]) { assert all[|xs| + i] == ys[i]; }
    }
  }

  lemma AssertedIff(b: map<string, Value>, v3: bool)
    ensures AssertedFieldDefects(b, v3) == [] <==>
      && Get(b, "profile").Str? && Chars.ProfileId(Get(b, "profile").s)
      && Get(b, "required_targets").Arr? && Get(b, "required_targets").items != []
      && (forall v :: v in Get(b, "required_targets").items ==> v.Str? && Chars.ObligationId(v.s))
      && Filled(Get(b, "intent_hash")) && Filled(Get(b, "obligation_manifest_hash"))
      && Filled(Get(b, "environment_policy")) && Filled(Get(b, "parser_schema_version")) && Filled(Get(b, "run_id"))
      && (v3 ==> Filled(Get(b, "intent_path")))
  {
    var names := ASSERTED_FIELDS + (if v3 then ["intent_path"] else []);
    assert names[0] == "intent_hash" && names[1] == "obligation_manifest_hash" && names[2] == "environment_policy"
           && names[3] == "parser_schema_version" && names[4] == "run_id";
    assert v3 ==> names[5] == "intent_path";
    TargetIdsIff(Get(b, "required_targets"));
    hide Filled;
    hide Chars.ProfileId;
    hide ObligationIds;
  }

  lemma TargetIdsIff(v: Value)
    ensures ObligationIds(v) <==>
      v.Arr? && v.items != [] && forall x :: x in v.items ==> x.Str? && Chars.ObligationId(x.s)
  {
    hide Chars.ObligationId;
  }

  lemma BindingIff(b: map<string, Value>)
    ensures BindingDefects(b, HasCohort(b)) == [] <==> BindingText(b)
  {
    hide AssertedFieldDefects;
    hide UnusableBindings;
    hide AllUsable;
    hide Usable;
    hide Filled;
    hide ValidToolchain;
    hide Chars.ProfileId;
    hide Chars.ObligationId;
    hide HasCohort;
    UsableMore(b);
    AssertedIff(b, HasCohort(b));
    assert BINDING_FIELDS + [] == BINDING_FIELDS;
  }

  // ---- a cohort --------------------------------------------------------

  ghost predicate EntryText(x: Value, claim: string, producer: bool, kind: Option<string>) {
    && x.Obj? && HasAll(x.fields, EXECUTION_FIELDS)
    && var f := x.fields;
      && Get(f, "tool").Str? && Chars.ToolId(Get(f, "tool").s)
      && Get(f, "evidence_class").Str? && Get(f, "evidence_class").s in EVIDENCE_CLASSES
      && MayStand(kind, Get(f, "evidence_class").s)
      && Get(f, "command").Arr? && Get(f, "command").items != []
      && (forall v :: v in Get(f, "command").items ==> v.Str? && v.s != "")
      && Filled(Get(f, "cwd")) && ValidToolchain(Get(f, "toolchain_digests"))
      && (Get(f, "result") == Str("PASS") || Get(f, "result") == Str("FAIL") || Get(f, "result") == Str("INCOMPLETE"))
      && Filled(Get(f, "run_id"))
      && (producer && Get(f, "raw_output_path").Str? && Get(f, "raw_output_path").s != "" ==>
            Get(f, "raw_output_path").s == ".fv/evidence/raw/" + claim + "-" + Get(f, "run_id").s + ".log")
      && ("pass_marker" in f ==> f["pass_marker"].Str? && f["pass_marker"].s != "")
  }

  /** Beyond its text: the entry runs inside the repository and its artifact resolves, and passes if the entry does. */
  ghost predicate EntryBacked(x: Value, recordPass: bool, repo: GateB.Repo)
    requires x.Obj?
  {
    var f := x.fields;
    && Get(f, "cwd").Str? && repo.contained(Get(f, "cwd").s)
    && (recordPass ==> Get(f, "result") == Str("PASS"))
    && Filled(Get(f, "raw_output_path"))
    && var text := repo.read(Get(f, "raw_output_path").s, Get(f, "raw_output_hash"));
      && text.Some?
      && (Get(f, "result") == Str("PASS") && Get(f, "evidence_class").Str? ==>
            repo.passes(text.value, Get(f, "evidence_class").s, Get(f, "pass_marker")))
  }

  function ToolOf(x: Value): Value {
    if x.Obj? then Get(x.fields, "tool") else Null
  }

  /** The entry's tool and artifact are taken by nothing before. */
  ghost predicate Fresh(x: Value, seen: Seen) {
    && (IsTool(ToolOf(x)) ==> ToolOf(x).s !in seen.tools)
    && (IsPath(RawPath(x)) ==> RawPath(x).s !in seen.paths)
  }

  /** From `i` on no two entries share a tool or an artifact, with each other or with what is taken. */
  ghost predicate Apart(xs: seq<Value>, i: nat, seen: Seen) {
    && (forall k :: i <= k < |xs| ==> Fresh(xs[k], seen))
    && (forall j, k :: i <= j < k < |xs| ==>
          ToolOf(xs[j]) != ToolOf(xs[k]) && (IsPath(RawPath(xs[j])) ==> RawPath(xs[j]) != RawPath(xs[k])))
  }

  lemma CommandIff(v: Value)
    ensures IsCommand(v) <==> v.Arr? && v.items != [] && forall x :: x in v.items ==> x.Str? && x.s != ""
  {
  }

  lemma ResultIff(v: Value)
    ensures v.Str? && v.s in RESULTS <==> v == Str("PASS") || v == Str("FAIL") || v == Str("INCOMPLETE")
  {
  }

  lemma DashboardEntryIff(x: Value, index: nat, claim: string, producer: bool, kind: Option<string>, seen: Seen)
    requires forall p :: p in seen.paths ==> seen.paths[p] < index
    ensures Dashboard.JudgeExecution(x, index, claim, producer, kind, seen).defects == [] <==>
            EntryText(x, claim, producer, kind) && Fresh(x, seen)
    ensures x.Obj? && HasAll(x.fields, EXECUTION_FIELDS) ==>
            Dashboard.JudgeExecution(x, index, claim, producer, kind, seen).seen == Advance(x.fields, index, seen)
  {
    if x.Obj? && HasAll(x.fields, EXECUTION_FIELDS) {
      var f := x.fields;
      CommandIff(Get(f, "command"));
      ResultIff(Get(f, "result"));
      if KnownClass(Get(f, "evidence_class")) { MayStandIff(kind, Get(f, "evidence_class")); }
      hide IsCommand;
      hide ValidToolchain;
      hide Filled;
      hide Admissible;
      hide MayStand;
      hide Chars.ToolId;
      hide Advance;
      FilledIsString(Get(f, "run_id"));
    }
  }

  lemma FilledIsString(v: Value)
    ensures Filled(v) ==> v.Str? && v.s != ""
  {
  }

  lemma GateTermsIff(f: map<string, Value>, recordPass: bool, kind: Option<string>, repo: GateB.Repo)
    ensures GateB.TermDefects(f, recordPass, kind, repo) == [] <==>
      && Get(f, "evidence_class").Str? && Get(f, "evidence_class").s in EVIDENCE_CLASSES
      && MayStand(kind, Get(f, "evidence_class").s)
      && Get(f, "command").Arr? && Get(f, "command").items != []
      && (forall v :: v in Get(f, "command").items ==> v.Str? && v.s != "")
      && Filled(Get(f, "cwd")) && repo.contained(Get(f, "cwd").s)
      && ValidToolchain(Get(f, "toolchain_digests"))
      && (Get(f, "result") == Str("PASS") || Get(f, "result") == Str("FAIL") || Get(f, "result") == Str("INCOMPLETE"))
      && (recordPass ==> Get(f, "result") == Str("PASS"))
      && Filled(Get(f, "run_id"))
  {
    CommandIff(Get(f, "command"));
    ResultIff(Get(f, "result"));
    if KnownClass(Get(f, "evidence_class")) { MayStandIff(kind, Get(f, "evidence_class")); }
    FilledIsString(Get(f, "cwd"));
    hide IsCommand;
    hide ValidToolchain;
    hide Filled;
    hide Admissible;
    hide MayStand;
  }

  lemma GateTextIff(
      x: Value, index: nat, claim: string, recordPass: bool, producer: bool, kind: Option<string>, seen: Seen,
      repo: GateB.Repo)
    requires x.Obj? && HasAll(x.fields, EXECUTION_FIELDS)
    requires forall p :: p in seen.paths ==> seen.paths[p] < index
    ensures GateB.TextDefects(x.fields, index, claim, recordPass, producer, kind, seen, repo) == [] <==>
      && EntryText(x, claim, producer, kind) && Fresh(x, seen)
      && repo.contained(Get(x.fields, "cwd").s) && (recordPass ==> Get(x.fields, "result") == Str("PASS"))
  {
    var f := x.fields;
    GateTermsIff(f, recordPass, kind, repo);
    FilledIsString(Get(f, "run_id"));
    FilledIsString(Get(f, "cwd"));
    hide GateB.TermDefects;
    hide ValidToolchain;
    hide Filled;
    hide MayStand;
    hide HasAll;
    hide Chars.ToolId;
  }

  lemma GateArtifactIff(f: map<string, Value>, repo: GateB.Repo)
    ensures GateB.ArtifactDefects(f, repo) == [] <==>
      && Filled(Get(f, "raw_output_path"))
      && var text := repo.read(Get(f, "raw_output_path").s, Get(f, "raw_output_hash"));
        && text.Some?
        && (Get(f, "result") == Str("PASS") && Get(f, "evidence_class").Str? ==>
              repo.passes(text.value, Get(f, "evidence_class").s, Get(f, "pass_marker")))
  {
    FilledIsString(Get(f, "raw_output_path"));
    hide Filled;
  }

  lemma GateEntryIff(
      x: Value, index: nat, claim: string, recordPass: bool, producer: bool, kind: Option<string>, seen: Seen,
      repo: GateB.Repo)
    requires forall p :: p in seen.paths ==> seen.paths[p] < index
    ensures GateB.JudgeExecution(x, index, claim, recordPass, producer, kind, seen, repo).defects == [] <==>
            EntryText(x, claim, producer, kind) && Fresh(x, seen) && EntryBacked(x, recordPass, repo)
    ensures x.Obj? && HasAll(x.fields, EXECUTION_FIELDS) ==>
            GateB.JudgeExecution(x, index, claim, recordPass, producer, kind, seen, repo).seen ==
            Advance(x.fields, index, seen)
  {
    if x.Obj? && HasAll(x.fields, EXECUTION_FIELDS) {
      GateTextIff(x, index, claim, recordPass, producer, kind, seen, repo);
      GateArtifactIff(x.fields, repo);
      if EntryText(x, claim, producer, kind) { FilledIsString(Get(x.fields, "cwd")); }
      hide GateB.TextDefects;
      hide GateB.ArtifactDefects;
      hide Filled;
      hide Fresh;
      hide Advance;
      hide HasAll;
    }
  }

  /** Taking an entry's tool and artifact, as far as the rest can tell. */
  lemma ApartStep(xs: seq<Value>, i: nat, seen: Seen)
    requires i < |xs| && xs[i].Obj? && IsTool(ToolOf(xs[i]))
    ensures Apart(xs, i, seen) <==> Fresh(xs[i], seen) && Apart(xs, i + 1, Advance(xs[i].fields, i, seen))
  {
    var next := Advance(xs[i].fields, i, seen);
    forall k | i < k < |xs|
      ensures Fresh(xs[k], next) <==>
        && Fresh(xs[k], seen) && ToolOf(xs[k]) != ToolOf(xs[i])
        && (IsPath(RawPath(xs[i])) ==> RawPath(xs[k]) != RawPath(xs[i]))
    {
      TakenBy(xs[i], xs[k], i, seen);
    }
    hide Fresh;
    hide Advance;
    hide ToolOf;
    hide RawPath;
    hide IsTool;
  }

  lemma TakenBy(x: Value, y: Value, i: nat, seen: Seen)
    requires x.Obj? && IsTool(ToolOf(x))
    ensures Fresh(y, Advance(x.fields, i, seen)) <==>
      Fresh(y, seen) && ToolOf(y) != ToolOf(x) && (IsPath(RawPath(x)) ==> RawPath(y) != RawPath(x))
  {
    hide Chars.ToolId;
  }

  lemma AdvanceBelow(f: map<string, Value>, i: nat, seen: Seen)
    requires forall p :: p in seen.paths ==> seen.paths[p] < i
    ensures forall p :: p in Advance(f, i, seen).paths ==> Advance(f, i, seen).paths[p] < i + 1
  {
    hide IsTool;
  }

  ghost predicate AllText(xs: seq<Value>, i: nat, claim: string, producer: bool, kind: Option<string>) {
    forall k :: i <= k < |xs| ==> EntryText(xs[k], claim, producer, kind)
  }

  ghost predicate AllBacked(xs: seq<Value>, i: nat, recordPass: bool, repo: GateB.Repo) {
    forall k :: i <= k < |xs| ==> xs[k].Obj? && EntryBacked(xs[k], recordPass, repo)
  }

  lemma TextIsTool(x: Value, claim: string, producer: bool, kind: Option<string>)
    requires EntryText(x, claim, producer, kind)
    ensures x.Obj? && HasAll(x.fields, EXECUTION_FIELDS) && IsTool(ToolOf(x))
  {
  }

  lemma {:induction false} DashboardCohortIff(
      xs: seq<Value>, i: nat, claim: string, producer: bool, kind: Option<string>, seen: Seen)
    requires i <= |xs| && forall p :: p in seen.paths ==> seen.paths[p] < i
    ensures Dashboard.CohortFrom(xs, i, claim, producer, kind, seen) == [] <==>
            AllText(xs, i, claim, producer, kind) && Apart(xs, i, seen)
    decreases |xs| - i
  {
    if i < |xs| {
      DashboardEntryIff(xs[i], i, claim, producer, kind, seen);
      hide EntryText;
      hide Fresh;
      hide HasAll;
      hide Dashboard.JudgeExecution;
      hide Advance;
      hide IsTool;
      if EntryText(xs[i], claim, producer, kind) {
        TextIsTool(xs[i], claim, producer, kind);
        AdvanceBelow(xs[i].fields, i, seen);
        ApartStep(xs, i, seen);
        hide Apart;
        DashboardCohortIff(xs, i + 1, claim, producer, kind, Advance(xs[i].fields, i, seen));
      }
    }
  }

  lemma NothingApart(xs: seq<Value>, seen: Seen)
    ensures Apart(xs, |xs|, seen)
  {
  }

  lemma {:induction false} GateCohortIff(
      xs: seq<Value>, i: nat, claim: string, recordPass: bool, producer: bool, kind: Option<string>, seen: Seen,
      repo: GateB.Repo)
    requires i <= |xs| && forall p :: p in seen.paths ==> seen.paths[p] < i
    ensures GateB.CohortFrom(xs, i, claim, recordPass, producer, kind, seen, repo) == [] <==>
            AllText(xs, i, claim, producer, kind) && Apart(xs, i, seen) && AllBacked(xs, i, recordPass, repo)
    decreases |xs| - i
  {
    hide EntryText;
    hide EntryBacked;
    hide Fresh;
    hide HasAll;
    hide GateB.JudgeExecution;
    hide Advance;
    hide IsTool;
    hide Apart;
    if i == |xs| {
      NothingApart(xs, seen);
    } else {
      GateEntryIff(xs[i], i, claim, recordPass, producer, kind, seen, repo);
      if EntryText(xs[i], claim, producer, kind) {
        TextIsTool(xs[i], claim, producer, kind);
        AdvanceBelow(xs[i].fields, i, seen);
        ApartStep(xs, i, seen);
        GateCohortIff(xs, i + 1, claim, recordPass, producer, kind, Advance(xs[i].fields, i, seen), repo);
      }
    }
  }

  // ---- one record, to the dashboard ------------------------------------

  function Configuration(b: map<string, Value>): map<string, Value> {
    if Get(b, "configuration").Obj? then Get(b, "configuration").fields else map[]
  }

  /** The record-level bindings describe the first entry. */
  ghost predicate Derived(b: map<string, Value>, f: map<string, Value>, parse: string -> Value) {
    && Get(b, "raw_output_path") == Get(f, "raw_output_path") && Get(b, "raw_output_hash") == Get(f, "raw_output_hash")
    && Get(f, "command") == (if Get(b, "command").Str? then parse(Get(b, "command").s) else Get(b, "command"))
    && Get(Configuration(b), "cwd") == Get(f, "cwd")
    && Get(Configuration(b), "pass_marker") == Get(f, "pass_marker")
  }

  /** The declared targets are the manifest's, each once. */
  ghost predicate TargetsMatch(declared: Value, targets: Option<seq<string>>) {
    targets.Some? && declared.Arr? ==>
      && (forall i, j :: 0 <= i < j < |declared.items| ==> declared.items[i] != declared.items[j])
      && (forall t :: Str(t) in declared.items <==> t in targets.value)
  }

  /** A snapshot of a tree with uncommitted changes. */
  ghost predicate Dirty(v: Value) {
    v.Str? && |v.s| >= 6 && v.s[|v.s| - 6..] == "+dirty"
  }

  ghost predicate CohortText(
      r: map<string, Value>, b: map<string, Value>, kind: Option<string>, targets: Option<seq<string>>,
      parse: string -> Value)
  {
    && Get(b, "profile") == Str("producer-trusted-execution")
    && TargetsMatch(Get(b, "required_targets"), targets)
    && Get(b, "executions").Arr? && Get(b, "executions").items != []
    && var xs := Get(b, "executions").items;
      && AllText(xs, 0, if Get(r, "claim_id").Str? then Get(r, "claim_id").s else "", true, kind)
      && Apart(xs, 0, NOTHING_SEEN)
      && xs[0].Obj? && Derived(b, xs[0].fields, parse)
  }

  /** What the bindings of a well-formed record say, for its result and class and against the manifest. */
  ghost predicate BoundText(
      r: map<string, Value>, b: map<string, Value>, kind: Option<string>, targets: Option<seq<string>>,
      manifest: Option<string>, parse: string -> Value)
  {
    && (Get(r, "result") == Str("PASS") ==> !Dirty(Get(b, "source_snapshot")))
    && (manifest.Some? && manifest.value != "" ==> Get(b, "obligation_manifest_hash") == Str(manifest.value))
    && Get(r, "evidence_class").Str? && MayStand(kind, Get(r, "evidence_class").s)
    && (HasCohort(b) ==> CohortText(r, b, kind, targets, parse))
  }

  /** Everything about a record that its own text shows, and the manifest it is held against. */
  ghost predicate TextAccepted(
      record: Value, kind: Option<string>, targets: Option<seq<string>>, manifest: Option<string>,
      parse: string -> Value)
  {
    && record.Obj? && HasAll(record.fields, TOP_FIELDS) && Get(record.fields, "bindings").Obj?
    && var r, b := record.fields, Get(record.fields, "bindings").fields;
      HeadText(r) && BindingText(b) && BoundText(r, b, kind, targets, manifest, parse)
  }

  lemma DerivedIff(b: map<string, Value>, f: map<string, Value>, parse: string -> Value)
    ensures DerivationDefects(b, f, parse) == [] <==> Derived(b, f, parse)
  {
  }

  lemma TargetsIff(b: map<string, Value>, targets: Option<seq<string>>)
    requires Get(b, "required_targets").Arr? && forall v :: v in Get(b, "required_targets").items ==> v.Str?
    ensures ProducerDefects(b, targets) == [] <==>
            Get(b, "profile") == Str("producer-trusted-execution") && TargetsMatch(Get(b, "required_targets"), targets)
  {
    var items := Get(b, "required_targets").items;
    if targets.Some? {
      var wanted := set t | t in targets.value;
      forall t ensures t in Strings(items) <==> Str(t) in items {}
      if Strings(items) == wanted {
        assert forall t :: Str(t) in items <==> t in targets.value;
      }
      if forall t :: Str(t) in items <==> t in targets.value {
        assert Strings(items) == wanted;
      }
    }
  }

  lemma DirtyIff(r: map<string, Value>, b: map<string, Value>)
    ensures DirtySnapshotDefects(r, b) == [] <==>
            (Get(r, "result") == Str("PASS") ==> !Dirty(Get(b, "source_snapshot")))
  {
    assert |DIRTY_SUFFIX| == 6;
  }

  lemma CohortSchemaIff(record: Value)
    requires record.Obj? && Get(record.fields, "bindings").Obj?
    ensures IsSchemaV3(record) <==> HasCohort(Get(record.fields, "bindings").fields)
  {
  }

  lemma FirstIsObject(xs: seq<Value>, claim: string, producer: bool, kind: Option<string>)
    requires xs != [] && AllText(xs, 0, claim, producer, kind)
    ensures xs[0].Obj?
  {
    assert EntryText(xs[0], claim, producer, kind);
  }

  lemma DashboardCohortTextIff(
      r: map<string, Value>, b: map<string, Value>, kind: Option<string>, targets: Option<seq<string>>,
      parse: string -> Value)
    requires Get(b, "profile") == Str("producer-trusted-execution") && TargetsMatch(Get(b, "required_targets"), targets)
    ensures Dashboard.CohortDefects(r, b, kind, parse) == [] <==> CohortText(r, b, kind, targets, parse)
  {
    var xs := Get(b, "executions");
    var claim := if Get(r, "claim_id").Str? then Get(r, "claim_id").s else "";
    hide AllText;
    hide Apart;
    hide Derived;
    hide DerivationDefects;
    hide TargetsMatch;
    hide Dashboard.CohortFrom;
    if xs.Arr? && xs.items != [] {
      DashboardCohortIff(xs.items, 0, claim, true, kind, NOTHING_SEEN);
      if AllText(xs.items, 0, claim, true, kind) {
        FirstIsObject(xs.items, claim, true, kind);
        DerivedIff(b, xs.items[0].fields, parse);
      }
    }
  }

  /** The checks both judges make of bindings that are well formed, but for the cohort. */
  lemma CommonBoundIff(
      r: map<string, Value>, b: map<string, Value>, kind: Option<string>, targets: Option<seq<string>>,
      manifest: Option<string>)
    requires HeadText(r) && BindingText(b)
    ensures DirtySnapshotDefects(r, b) == [] && ManifestBindingDefects(b, manifest) == []
            && Admissible(kind, Get(r, "evidence_class")) <==>
      && (Get(r, "result") == Str("PASS") ==> !Dirty(Get(b, "source_snapshot")))
      && (manifest.Some? && manifest.value != "" ==> Get(b, "obligation_manifest_hash") == Str(manifest.value))
      && Get(r, "evidence_class").Str? && MayStand(kind, Get(r, "evidence_class").s)
    ensures ProducerDefects(b, targets) == [] <==>
            Get(b, "profile") == Str("producer-trusted-execution") && TargetsMatch(Get(b, "required_targets"), targets)
  {
    DirtyIff(r, b);
    ShapeIsKnown(r);
    MayStandIff(kind, Get(r, "evidence_class"));
    TargetsAreStrings(b);
    TargetsIff(b, targets);
    hide HeadText;
    hide BindingText;
    hide DirtySnapshotDefects;
    hide ProducerDefects;
    hide TargetsMatch;
    hide Dirty;
    hide MayStand;
    hide Admissible;
  }

  lemma DashboardBoundIff(
      record: Value, kind: Option<string>, targets: Option<seq<string>>, manifest: Option<string>,
      parse: string -> Value)
    requires record.Obj? && Get(record.fields, "bindings").Obj?
    requires HeadText(record.fields) && BindingText(Get(record.fields, "bindings").fields)
    ensures var r, b, v3 := record.fields, Get(record.fields, "bindings").fields, IsSchemaV3(record);
      DirtySnapshotDefects(r, b) + ManifestBindingDefects(b, manifest)
      + (if v3 then ProducerDefects(b, targets) else [])
      + Unless(Admissible(kind, Get(r, "evidence_class")), "incompatible class")
      + (if v3 then Dashboard.CohortDefects(r, b, kind, parse) else []) == [] <==>
      BoundText(r, b, kind, targets, manifest, parse)
  {
    var r, b := record.fields, Get(record.fields, "bindings").fields;
    CohortSchemaIff(record);
    CommonBoundIff(r, b, kind, targets, manifest);
    if ProducerDefects(b, targets) == [] {
      DashboardCohortTextIff(r, b, kind, targets, parse);
    }
    CohortTextNeeds(r, b, kind, targets, parse);
    hide HeadText;
    hide BindingText;
    hide CohortText;
    hide DirtySnapshotDefects;
    hide ManifestBindingDefects;
    hide ProducerDefects;
    hide Dashboard.CohortDefects;
    hide TargetsMatch;
    hide HasCohort;
    hide IsSchemaV3;
    hide Dirty;
    hide MayStand;
    hide Admissible;
  }

  lemma ShapeIff(record: Value)
    requires record.Obj? && Get(record.fields, "bindings").Obj?
    ensures var r, b := record.fields, Get(record.fields, "bindings").fields;
      ShapeDefects(r) == [] && WaiverDefects(Get(r, "waiver")) == [] && BindingDefects(b, IsSchemaV3(record)) == [] <==>
      HeadText(r) && BindingText(b)
  {
    CohortSchemaIff(record);
    HeadIff(record.fields);
    BindingIff(Get(record.fields, "bindings").fields);
    hide *;
  }

  /** A record without defects has its fields and bindings, and neither these nor what they bind is at fault. */
  lemma DashboardUnfolds(
      record: Value, kind: Option<string>, targets: Option<seq<string>>, manifest: Option<string>,
      parse: string -> Value)
    ensures Dashboard.ValidateRecord(record, kind, targets, manifest, parse) == [] <==>
      && record.Obj? && HasAll(record.fields, TOP_FIELDS) && Get(record.fields, "bindings").Obj?
      && var r, b, v3 := record.fields, Get(record.fields, "bindings").fields, IsSchemaV3(record);
        && ShapeDefects(r) == [] && WaiverDefects(Get(r, "waiver")) == [] && BindingDefects(b, v3) == []
        && DirtySnapshotDefects(r, b) + ManifestBindingDefects(b, manifest)
           + (if v3 then ProducerDefects(b, targets) else [])
           + Unless(Admissible(kind, Get(r, "evidence_class")), "incompatible class")
           + (if v3 then Dashboard.CohortDefects(r, b, kind, parse) else []) == []
  {
    hide ShapeDefects;
    hide WaiverDefects;
    hide BindingDefects;
    hide DirtySnapshotDefects;
    hide ManifestBindingDefects;
    hide ProducerDefects;
    hide Admissible;
    hide Dashboard.CohortDefects;
    hide IsSchemaV3;
  }

  /** The dashboard finds no defect in a record exactly if its text is accepted. */
  lemma DashboardAccepts(
      record: Value, kind: Option<string>, targets: Option<seq<string>>, manifest: Option<string>,
      parse: string -> Value)
    ensures Dashboard.ValidateRecord(record, kind, targets, manifest, parse) == [] <==>
            TextAccepted(record, kind, targets, manifest, parse)
  {
    hide Dashboard.ValidateRecord;
    hide HeadText;
    hide BindingText;
    hide BoundText;
    hide ShapeDefects;
    hide BindingDefects;
    hide WaiverDefects;
    hide DirtySnapshotDefects;
    hide ManifestBindingDefects;
    hide ProducerDefects;
    hide Dashboard.CohortDefects;
    hide HasCohort;
    hide IsSchemaV3;
    hide Admissible;
    hide HasAll;
    DashboardUnfolds(record, kind, targets, manifest, parse);
    if record.Obj? && HasAll(record.fields, TOP_FIELDS) && Get(record.fields, "bindings").Obj? {
      var r, b := record.fields, Get(record.fields, "bindings").fields;
      ShapeIff(record);
      if HeadText(r) && BindingText(b) {
        DashboardBoundIff(record, kind, targets, manifest, parse);
      }
    }
  }

  lemma ShapeIsKnown(r: map<string, Value>)
    requires HeadText(r)
    ensures KnownClass(Get(r, "evidence_class"))
  {
  }

  lemma TargetsAreStrings(b: map<string, Value>)
    requires BindingText(b)
    ensures Get(b, "required_targets").Arr? && forall v :: v in Get(b, "required_targets").items ==> v.Str?
  {
  }

  lemma CohortTextNeeds(
      r: map<string, Value>, b: map<string, Value>, kind: Option<string>, targets: Option<seq<string>>,
      parse: string -> Value)
    ensures CohortText(r, b, kind, targets, parse) ==>
      Get(b, "profile") == Str("producer-trusted-execution") && TargetsMatch(Get(b, "required_targets"), targets)
  {
  }

  // ---- one record, to Gate B -------------------------------------------

  /** The record is of the tree, the intent and, for a cohort, the intent file that the gate holds it to. */
  ghost predicate HeldTo(b: map<string, Value>, e: GateB.Terms, repo: GateB.Repo) {
    && (e.snapshot.Some? && e.snapshot.value != "" ==>
          && Get(b, "source_snapshot").Str?
          && if e.exact then Get(b, "source_snapshot").s == e.snapshot.value
             else e.snapshot.value <= Get(b, "source_snapshot").s)
    && (e.intent.Some? && e.intent.value != "" ==> Get(b, "intent_hash") == Str(e.intent.value))
    && (HasCohort(b) ==>
          && Filled(Get(b, "intent_path")) && repo.contained(Get(b, "intent_path").s)
          && (e.intentPath.Some? ==> Get(b, "intent_path") == Str(e.intentPath.value)))
  }

  /** A passing record from before the cohort schema has an artifact that resolves and passes for its class. */
  ghost predicate LegacyBacked(r: map<string, Value>, b: map<string, Value>, repo: GateB.Repo) {
    Get(r, "result") == Str("PASS") && !HasCohort(b) ==>
      && Filled(Get(b, "raw_output_path"))
      && var text := repo.read(Get(b, "raw_output_path").s, Get(b, "raw_output_hash"));
        && text.Some? && Get(r, "evidence_class").Str?
        && repo.passes(text.value, Get(r, "evidence_class").s, Get(Configuration(b), "pass_marker"))
  }

  /** Some entry of the cohort passes for the tool. */
  ghost predicate PassesFor(record: Value, tool: string) {
    exists x :: x in Executions(record) && x.Obj? && Get(x.fields, "tool") == Str(tool)
                && Get(x.fields, "result") == Str("PASS")
  }

  /** What the gate demands beyond the text: the tree it is of, and artifacts that resolve and pass. */
  ghost predicate GateAccepted(
      record: Value, e: GateB.Terms, kind: Option<string>, evidence: Option<seq<string>>, repo: GateB.Repo)
  {
    && TextAccepted(record, kind, e.targets, e.manifest, repo.parse)
    && var r, b := record.fields, Get(record.fields, "bindings").fields;
      && HeldTo(b, e, repo) && LegacyBacked(r, b, repo)
      && (HasCohort(b) && Get(b, "executions").Arr? ==>
            AllBacked(Get(b, "executions").items, 0, Get(r, "result") == Str("PASS"), repo))
      && (evidence.Some? && Get(r, "result") == Str("PASS") ==>
            forall t :: t in evidence.value ==> PassesFor(record, t))
  }

  lemma GateCohortTextIff(
      r: map<string, Value>, b: map<string, Value>, kind: Option<string>, targets: Option<seq<string>>,
      repo: GateB.Repo)
    requires Get(b, "profile") == Str("producer-trusted-execution") && TargetsMatch(Get(b, "required_targets"), targets)
    ensures GateB.CohortDefects(r, b, kind, repo) == [] <==>
      && CohortText(r, b, kind, targets, repo.parse)
      && (Get(b, "executions").Arr? ==>
            AllBacked(Get(b, "executions").items, 0, Get(r, "result") == Str("PASS"), repo))
  {
    var xs := Get(b, "executions");
    var claim := if Get(r, "claim_id").Str? then Get(r, "claim_id").s else "";
    hide AllText;
    hide AllBacked;
    hide Apart;
    hide Derived;
    hide DerivationDefects;
    hide TargetsMatch;
    hide GateB.CohortFrom;
    if xs.Arr? && xs.items != [] {
      GateCohortIff(xs.items, 0, claim, Get(r, "result") == Str("PASS"), true, kind, NOTHING_SEEN, repo);
      if AllText(xs.items, 0, claim, true, kind) {
        FirstIsObject(xs.items, claim, true, kind);
        DerivedIff(b, xs.items[0].fields, repo.parse);
      }
    }
  }

  lemma LegacyIff(r: map<string, Value>, b: map<string, Value>, repo: GateB.Repo)
    requires !HasCohort(b) && Get(r, "result") == Str("PASS")
    ensures GateB.LegacyArtifactDefects(r, b, repo) == [] <==> LegacyBacked(r, b, repo)
  {
    FilledIsString(Get(b, "raw_output_path"));
    hide Filled;
  }

  lemma HeldToIff(b: map<string, Value>, e: GateB.Terms, repo: GateB.Repo)
    ensures HeldTo(b, e, repo) <==>
      && GateB.SnapshotMatches(Get(b, "source_snapshot"), e)
      && (Wanted(e.intent) ==> Get(b, "intent_hash") == Str(e.intent.value))
      && (HasCohort(b) ==>
            var path := Get(b, "intent_path");
            Filled(path) && repo.contained(path.s) && (e.intentPath.Some? ==> path.s == e.intentPath.value))
  {
    FilledIsString(Get(b, "intent_path"));
    hide Filled;
    hide HasCohort;
  }

  lemma GateBoundIff(record: Value, e: GateB.Terms, kind: Option<string>, repo: GateB.Repo)
    requires record.Obj? && Get(record.fields, "bindings").Obj?
    requires HeadText(record.fields) && BindingText(Get(record.fields, "bindings").fields)
    ensures var r, b := record.fields, Get(record.fields, "bindings").fields;
      GateB.Bound(r, b, IsSchemaV3(record), e, kind, repo) == [] <==>
      && BoundText(r, b, kind, e.targets, e.manifest, repo.parse)
      && HeldTo(b, e, repo) && LegacyBacked(r, b, repo)
      && (HasCohort(b) && Get(b, "executions").Arr? ==>
            AllBacked(Get(b, "executions").items, 0, Get(r, "result") == Str("PASS"), repo))
  {
    var r, b := record.fields, Get(record.fields, "bindings").fields;
    CohortSchemaIff(record);
    CommonBoundIff(r, b, kind, e.targets, e.manifest);
    HeldToIff(b, e, repo);
    if ProducerDefects(b, e.targets) == [] {
      GateCohortTextIff(r, b, kind, e.targets, repo);
    }
    if !HasCohort(b) && Get(r, "result") == Str("PASS") {
      LegacyIff(r, b, repo);
    }
    LegacyOnlyThen(r, b, repo);
    CohortTextNeeds(r, b, kind, e.targets, repo.parse);
    hide HeadText;
    hide BindingText;
    hide CohortText;
    hide HeldTo;
    hide LegacyBacked;
    hide AllBacked;
    hide DirtySnapshotDefects;
    hide ManifestBindingDefects;
    hide ProducerDefects;
    hide GateB.SnapshotMatches;
    hide GateB.CohortDefects;
    hide GateB.LegacyArtifactDefects;
    hide TargetsMatch;
    hide HasCohort;
    hide IsSchemaV3;
    hide Dirty;
    hide MayStand;
    hide Admissible;
    hide Filled;
  }

  lemma LegacyOnlyThen(r: map<string, Value>, b: map<string, Value>, repo: GateB.Repo)
    ensures HasCohort(b) || Get(r, "result") != Str("PASS") ==> LegacyBacked(r, b, repo)
  {
  }

  lemma CoverageIff(record: Value, evidence: seq<string>)
    ensures GateB.CoverageDefects(record, evidence) == [] <==> forall t :: t in evidence ==> PassesFor(record, t)
  {
    forall t ensures t in GateB.PassingTools(Executions(record)) <==> PassesFor(record, t) {}
    hide GateB.PassingTools;
    hide PassesFor;
  }

  lemma GateUnfolds(
      record: Value, e: GateB.Terms, kind: Option<string>, evidence: Option<seq<string>>, repo: GateB.Repo)
    ensures GateB.ValidateRecord(record, e, kind, evidence, repo) == [] <==>
      && record.Obj? && HasAll(record.fields, TOP_FIELDS) && Get(record.fields, "bindings").Obj?
      && var r, b, v3 := record.fields, Get(record.fields, "bindings").fields, IsSchemaV3(record);
        && ShapeDefects(r) == [] && WaiverDefects(Get(r, "waiver")) == [] && BindingDefects(b, v3) == []
        && GateB.Bound(r, b, v3, e, kind, repo) == []
        && (evidence.Some? && evidence.value != [] && Get(r, "result") == Str("PASS") ==>
              GateB.CoverageDefects(record, evidence.value) == [])
  {
    hide ShapeDefects;
    hide WaiverDefects;
    hide BindingDefects;
    hide GateB.Bound;
    hide GateB.CoverageDefects;
    hide IsSchemaV3;
  }

  /** Gate B finds no defect in a record exactly if it is accepted. */
  lemma GateAccepts(
      record: Value, e: GateB.Terms, kind: Option<string>, evidence: Option<seq<string>>, repo: GateB.Repo)
    ensures GateB.ValidateRecord(record, e, kind, evidence, repo) == [] <==>
            GateAccepted(record, e, kind, evidence, repo)
  {
    hide GateB.ValidateRecord;
    hide HeadText;
    hide BindingText;
    hide BoundText;
    hide HeldTo;
    hide LegacyBacked;
    hide AllBacked;
    hide PassesFor;
    hide ShapeDefects;
    hide BindingDefects;
    hide WaiverDefects;
    hide GateB.Bound;
    hide GateB.CoverageDefects;
    hide HasCohort;
    hide IsSchemaV3;
    hide HasAll;
    GateUnfolds(record, e, kind, evidence, repo);
    if record.Obj? && HasAll(record.fields, TOP_FIELDS) && Get(record.fields, "bindings").Obj? {
      var r, b := record.fields, Get(record.fields, "bindings").fields;
      ShapeIff(record);
      if HeadText(r) && BindingText(b) {
        GateBoundIff(record, e, kind, repo);
      }
      if evidence.Some? {
        CoverageIff(record, evidence.value);
      }
    }
  }
}
