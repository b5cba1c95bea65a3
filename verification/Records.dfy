/**
 Evidence records, and the rules both judges apply to them: what a view
 without the repository can tell from record text alone.
 */
module Records {
  import opened Basics
  import Chars

  /** A decoded JSON value. */
  datatype Value =
    | Null | Bool(b: bool) | Num(n: int) | Str(s: string)
    | Arr(items: seq<Value>) | Obj(fields: map<string, Value>)

  /** `dict.get`: a missing key reads as null. */
  function Get(fields: map<string, Value>, key: string): Value {
    if key in fields then fields[key] else Null
  }

  predicate Truthy(v: Value) {
    match v
    case Null => false
    case Bool(b) => b
    case Num(n) => n != 0
    case Str(s) => s != ""
    case Arr(items) => items != []
    case Obj(fields) => fields != map[]
  }

  /** A string holding something besides whitespace. */
  predicate Filled(v: Value) {
    v.Str? && !Chars.Blank(v.s)
  }

  const EVIDENCE_CLASSES: set<string> := {
    "code-enforced", "proof-discharged", "bounded-checked", "test-witnessed", "conformance-tested",
    "externally-assumed", "unverified"}
  const ASSUMED_CLASSES: set<string> := {"externally-assumed", "unverified"}
  const RESULTS: set<string> := {"PASS", "FAIL", "INCOMPLETE"}
  const TOP_FIELDS: seq<string> := ["claim_id", "required", "evidence_class", "result", "scope", "bindings", "waiver"]
  const BINDING_FIELDS: seq<string> := [
    "source_snapshot", "intent_hash", "obligation_manifest_hash", "profile", "required_targets", "environment_policy",
    "toolchain_digests", "command", "configuration", "seeds", "raw_output_hash", "parser_schema_version", "run_id"]
  const V3_BINDING_FIELDS: seq<string> := ["intent_path", "executions"]
  const EXECUTION_FIELDS: seq<string> := [
    "tool", "evidence_class", "command", "cwd", "toolchain_digests", "raw_output_path", "raw_output_hash", "result",
    "run_id"]
  const NULLABLE: set<string> := {"seeds", "waiver"}
  const WAIVER_FIELDS: seq<string> := ["id", "approver", "scope"]
  const ASSERTED_FIELDS: seq<string> := [
    "intent_hash", "obligation_manifest_hash", "environment_policy", "parser_schema_version", "run_id"]
  const EVIDENCE_SCHEMA_V3 := "fv-evidence-run/v3"
  const PRODUCER_PROFILE := "producer-trusted-execution"
  const DIRTY_SUFFIX := "+dirty"
  const SYSTEM_CLAIM := "system_claim"

  /** The evidence classes that may discharge an obligation of this kind; `None` for an unknown kind. */
  function Compatible(kind: string): Option<set<string>> {
    if kind == "invariant" then
      Some({"code-enforced", "proof-discharged", "bounded-checked", "conformance-tested", "externally-assumed",
        "unverified"})
    else if kind == "witness" then Some({"test-witnessed", "conformance-tested", "externally-assumed", "unverified"})
    else if kind == SYSTEM_CLAIM then Some(EVIDENCE_CLASSES)
    else None
  }

  function ProducerArtifact(claim: string, run: string): string {
    ".fv/evidence/raw/" + claim + "-" + run + ".log"
  }

  // ---- defects ---------------------------------------------------------

  type Defects = seq<string>

  function Unless(ok: bool, defect: string): Defects {
    if ok then [] else [defect]
  }

  /** One defect per missing field. */
  function Missing(fields: map<string, Value>, names: seq<string>): (r: Defects)
    ensures r == [] <==> forall i :: 0 <= i < |names| ==> names[i] in fields
  {
    if names == [] then [] else Unless(names[0] in fields, "missing " + names[0]) + Missing(fields, names[1..])
  }

  predicate Empty(v: Value, name: string) {
    v == Str("") || v == Arr([]) || v == Obj(map[]) || (v.Null? && name !in NULLABLE)
  }

  function UnusableBindings(fields: map<string, Value>, names: seq<string>): Defects {
    if names == [] then []
    else
      Unless(names[0] in fields && !Empty(fields[names[0]], names[0]), "missing or empty binding " + names[0])
      + UnusableBindings(fields, names[1..])
  }

  function Unfilled(fields: map<string, Value>, names: seq<string>): (r: Defects)
    ensures r == [] <==> forall i :: 0 <= i < |names| ==> Filled(Get(fields, names[i]))
  {
    if names == [] then []
    else Unless(Filled(Get(fields, names[0])), "blank " + names[0]) + Unfilled(fields, names[1..])
  }

  predicate Hex64(s: string) {
    |s| == 64 && forall i :: 0 <= i < |s| ==> '0' <= s[i] <= '9' || 'a' <= s[i] <= 'f'
  }

  predicate ValidToolchain(v: Value) {
    && v.Obj?
    && (var x := Get(v.fields, "executable"); x.Str? && x.s != "")
    && (var x := Get(v.fields, "sha256"); x.Str? && Hex64(x.s))
    && Get(v.fields, "version").Str?
    && (Get(v.fields, "version_exit_code").Num? || Get(v.fields, "version_exit_code").Bool?)
  }

  predicate KnownClass(v: Value) {
    v.Str? && v.s in EVIDENCE_CLASSES
  }

  predicate Assumed(v: Value) {
    v.Str? && v.s in ASSUMED_CLASSES
  }

  /** The class may stand for an obligation of this kind, when the kind is known at all. */
  predicate Admissible(kind: Option<string>, v: Value) {
    kind.Some? ==> Compatible(kind.value).Some? && v.Str? && v.s in Compatible(kind.value).value
  }

  /** A waiver that names who allowed what. */
  predicate Attributable(waiver: Value) {
    waiver.Obj? && forall i :: 0 <= i < |WAIVER_FIELDS| ==> Filled(Get(waiver.fields, WAIVER_FIELDS[i]))
  }

  function WaiverDefects(waiver: Value): Defects {
    if !Truthy(waiver) then []
    else if !waiver.Obj? then ["waiver is not an object"]
    else Unless(Unfilled(waiver.fields, WAIVER_FIELDS) == [], "waiver is not attributable")
  }

  predicate ObligationIds(v: Value) {
    v.Arr? && v.items != [] && forall i :: 0 <= i < |v.items| ==> v.items[i].Str? && Chars.ObligationId(v.items[i].s)
  }

  function AssertedFieldDefects(b: map<string, Value>, v3: bool): Defects {
    var profile := Get(b, "profile");
    Unless(profile.Str? && Chars.ProfileId(profile.s), "malformed profile")
    + Unless(ObligationIds(Get(b, "required_targets")), "malformed required_targets")
    + Unfilled(b, ASSERTED_FIELDS + (if v3 then ["intent_path"] else []))
  }

  predicate EndsWith(s: string, suffix: string) {
    |suffix| <= |s| && s[|s| - |suffix|..] == suffix
  }

  function DirtySnapshotDefects(r: map<string, Value>, b: map<string, Value>): Defects {
    var snapshot := Get(b, "source_snapshot");
    Unless(!(Get(r, "result") == Str("PASS") && snapshot.Str? && EndsWith(snapshot.s, DIRTY_SUFFIX)), "dirty snapshot")
  }

  /** An expectation that is absent or empty is not checked. */
  predicate Wanted(e: Option<string>) {
    e.Some? && e.value != ""
  }

  function ManifestBindingDefects(b: map<string, Value>, expected: Option<string>): Defects {
    Unless(Wanted(expected) ==> Get(b, "obligation_manifest_hash") == Str(expected.value), "stale manifest")
  }

  function Strings(items: seq<Value>): set<string> {
    set v | v in items && v.Str? :: v.s
  }

  predicate Repeats(items: seq<Value>) {
    exists i, j :: 0 <= i < j < |items| && items[i] == items[j]
  }

  /** Only the producer writes the cohort schema, and it writes every obligation its manifest declares. */
  function ProducerDefects(b: map<string, Value>, targets: Option<seq<string>>): Defects {
    var declared := Get(b, "required_targets");
    Unless(Get(b, "profile") == Str(PRODUCER_PROFILE), "not the producer profile")
    + if targets.None? || !declared.Arr? then []
      else
        Unless(!Repeats(declared.items), "repeated target")
        + Unless(Strings(declared.items) == (set t | t in targets.value), "foreign required targets")
  }

  predicate IsSchemaV3(record: Value) {
    record.Obj? && Get(record.fields, "bindings").Obj?
    && var b := Get(record.fields, "bindings").fields;
       Get(b, "parser_schema_version") == Str(EVIDENCE_SCHEMA_V3) || "executions" in b
  }

  /** Record-level shape: claim, class, result, scope and bindings, before anything is compared. */
  function ShapeDefects(r: map<string, Value>): Defects {
    Unless(Get(r, "claim_id").Str? && Get(r, "claim_id").s != "", "claim_id is empty")
    + Unless(Get(r, "required").Bool?, "required is not boolean")
    + Unless(KnownClass(Get(r, "evidence_class")), "unknown class")
    + Unless(Get(r, "result").Str? && Get(r, "result").s in RESULTS, "unknown result")
    + Unless(Filled(Get(r, "scope")), "scope is empty")
  }

  function BindingDefects(b: map<string, Value>, v3: bool): Defects {
    UnusableBindings(b, BINDING_FIELDS + (if v3 then V3_BINDING_FIELDS else []))
    + Unless(
        Get(b, "profile") == Str(PRODUCER_PROFILE) ==> ValidToolchain(Get(b, "toolchain_digests")),
        "no executable identity")
    + AssertedFieldDefects(b, v3)
  }

  /** The legacy record-level bindings are those of the first execution. `parse` is `json.loads`, or null on error. */
  function DerivationDefects(b: map<string, Value>, primary: map<string, Value>, parse: string -> Value): Defects {
    var command := if Get(b, "command").Str? then parse(Get(b, "command").s) else Get(b, "command");
    var configuration := if Get(b, "configuration").Obj? then Get(b, "configuration").fields else map[];
    Unless(Get(b, "raw_output_path") == Get(primary, "raw_output_path")
           && Get(b, "raw_output_hash") == Get(primary, "raw_output_hash"), "raw output not derived")
    + Unless(command == Get(primary, "command"), "command not derived")
    + Unless(Get(configuration, "cwd") == Get(primary, "cwd"), "cwd not derived")
    + Unless(Get(configuration, "pass_marker") == Get(primary, "pass_marker"), "pass_marker not derived")
  }

  // ---- artifacts across records ----------------------------------------

  function Executions(record: Value): seq<Value> {
    if record.Obj? && Get(record.fields, "bindings").Obj?
      && Get(Get(record.fields, "bindings").fields, "executions").Arr? then
      Get(Get(record.fields, "bindings").fields, "executions").items
    else []
  }

  function RawPath(v: Value): Value {
    if v.Obj? then Get(v.fields, "raw_output_path") else Null
  }

  /** Raw artifacts a record commits to. */
  function Cited(record: Value): set<string> {
    if record.Obj? && Get(record.fields, "bindings").Obj? then
      (set v | v in Executions(record) && RawPath(v).Str? && RawPath(v).s != "" :: RawPath(v).s)
      + (var p := RawPath(Get(record.fields, "bindings")); if p.Str? && p.s != "" then {p.s} else {})
    else {}
  }

  /** Required claims whose record cites `path`. */
  function Citers(required: seq<string>, byClaim: map<string, Value>, path: string): set<string> {
    set c | c in required && c in byClaim && path in Cited(byClaim[c])
  }

  function SharedArtifactDefects(
      claim: string, record: Value, required: seq<string>, byClaim: map<string, Value>): Defects {
    if !IsSchemaV3(record) then []
    else Unless(forall p :: p in Cited(record) ==> Citers(required, byClaim, p) <= {claim}, "shared artifact")
  }

  lemma CitersStep(required: seq<string>, c: string, byClaim: map<string, Value>, path: string)
    ensures Citers(required + [c], byClaim, path) ==
            Citers(required, byClaim, path) + (if c in byClaim && path in Cited(byClaim[c]) then {c} else {})
  {
  }

  ghost predicate Indexes(cited: map<string, set<string>>, required: seq<string>, byClaim: map<string, Value>) {
    forall p :: Citers(required, byClaim, p) == if p in cited then cited[p] else {}
  }

  /** The index over a run: which required claims cite each artifact. */
  method CitedArtifactIndex(required: seq<string>, byClaim: map<string, Value>)
      returns (cited: map<string, set<string>>)
    ensures Indexes(cited, required, byClaim)
  {
    cited := map[];
    for i := 0 to |required|
      invariant Indexes(cited, required[..i], byClaim)
    {
      var c := required[i];
      var own := if c in byClaim then Cited(byClaim[c]) else {};
      ghost var was := cited;
      cited := map p | p in cited.Keys + own :: (if p in cited then cited[p] else {}) + (if p in own then {c} else {});
      assert required[..i + 1] == required[..i] + [c];
      forall p ensures Citers(required[..i + 1], byClaim, p) == if p in cited then cited[p] else {} {
        CitersStep(required[..i], c, byClaim, p);
      }
    }
    assert required[..|required|] == required;
  }

  /** Records by claim id, the last one winning, and the ids that occur twice. */
  datatype Index = Index(byClaim: map<string, Value>, duplicates: set<string>)

  function ClaimOf(record: Value): Option<string> {
    if record.Obj? && Get(record.fields, "claim_id").Str? then Some(Get(record.fields, "claim_id").s) else None
  }

  function IndexRecords(records: seq<Value>): (r: Index)
    ensures forall c :: c in r.byClaim ==> ClaimOf(r.byClaim[c]) == Some(c) && r.byClaim[c] in records
  {
    if records == [] then Index(map[], {})
    else
      var n := |records| - 1;
      var before := IndexRecords(records[..n]);
      match ClaimOf(records[n])
      case None => before
      case Some(c) =>
        Index(before.byClaim[c := records[n]],
              if c in before.byClaim then before.duplicates + {c} else before.duplicates)
  }

  /** Record `i` is the claim's. */
  ghost predicate ClaimsAt(records: seq<Value>, i: int, c: string) {
    0 <= i < |records| && ClaimOf(records[i]) == Some(c)
  }

  ghost predicate HasRecord(records: seq<Value>, c: string) {
    exists i :: ClaimsAt(records, i, c)
  }

  ghost predicate HasTwoRecords(records: seq<Value>, c: string) {
    exists i, j :: i < j && ClaimsAt(records, i, c) && ClaimsAt(records, j, c)
  }

  /** The claim's last record. */
  ghost predicate IsLast(records: seq<Value>, c: string, record: Value) {
    exists i :: ClaimsAt(records, i, c) && records[i] == record && forall j :: i < j ==> !ClaimsAt(records, j, c)
  }

  lemma RecordsMore(records: seq<Value>, x: Value, c: string)
    ensures var all, own := records + [x], ClaimOf(x) == Some(c);
      && (HasRecord(all, c) <==> HasRecord(records, c) || own)
      && (HasTwoRecords(all, c) <==> HasTwoRecords(records, c) || (HasRecord(records, c) && own))
  {
    var n, all := |records|, records + [x];
    forall i ensures ClaimsAt(all, i, c) <==> ClaimsAt(records, i, c) || (i == n && ClaimOf(x) == Some(c)) {}
    hide ClaimOf;
    if i :| ClaimsAt(records, i, c) {
      assert ClaimsAt(all, i, c);
      if ClaimOf(x) == Some(c) { assert i < n && ClaimsAt(all, n, c); }
    }
    if i, j :| i < j && ClaimsAt(records, i, c) && ClaimsAt(records, j, c) {
      assert ClaimsAt(all, i, c) && ClaimsAt(all, j, c);
    }
    if ClaimOf(x) == Some(c) {
      assert ClaimsAt(all, n, c);
    }
  }

  lemma LastMore(records: seq<Value>, x: Value, c: string, record: Value)
    ensures ClaimOf(x) == Some(c) ==> IsLast(records + [x], c, x)
    ensures ClaimOf(x) != Some(c) && IsLast(records, c, record) ==> IsLast(records + [x], c, record)
  {
    var n, all := |records|, records + [x];
    forall i ensures ClaimsAt(all, i, c) <==> ClaimsAt(records, i, c) || (i == n && ClaimOf(x) == Some(c)) {}
    hide ClaimOf;
    if ClaimOf(x) == Some(c) {
      assert ClaimsAt(all, n, c) && all[n] == x;
    } else if IsLast(records, c, record) {
      var i :| ClaimsAt(records, i, c) && records[i] == record && forall j :: i < j ==> !ClaimsAt(records, j, c);
      assert ClaimsAt(all, i, c) && all[i] == record;
    }
  }

  /** The index holds each claim's last record, and names the claims that two records carry. */
  lemma {:induction false} IndexIff(records: seq<Value>, c: string)
    ensures var r := IndexRecords(records);
      && (c in r.byClaim <==> HasRecord(records, c))
      && (c in r.byClaim ==> IsLast(records, c, r.byClaim[c]))
      && (c in r.duplicates <==> HasTwoRecords(records, c))
  {
    if records != [] {
      var n := |records| - 1;
      IndexIff(records[..n], c);
      RecordsMore(records[..n], records[n], c);
      var before := IndexRecords(records[..n]);
      if c in before.byClaim {
        LastMore(records[..n], records[n], c, before.byClaim[c]);
      } else {
        LastMore(records[..n], records[n], c, Null);
      }
      assert records == records[..n] + [records[n]];
      hide HasRecord;
      hide HasTwoRecords;
      hide IsLast;
      hide ClaimOf;
    }
  }

  /** The profile a claim's record asserts; it lands in the verdict scope. */
  function ProfileOf(index: Index, claim: string): Value {
    if claim in index.byClaim && index.byClaim[claim].Obj? && Get(index.byClaim[claim].fields, "bindings").Obj?
    then Get(Get(index.byClaim[claim].fields, "bindings").fields, "profile") else Null
  }

  // ---- one cohort entry ------------------------------------------------

  /** What the entries before this one have used: a tool, or an artifact, discharges one execution. */
  datatype Seen = Seen(tools: set<string>, paths: map<string, nat>)

  const NOTHING_SEEN := Seen({}, map[])

  predicate IsTool(v: Value) {
    v.Str? && Chars.ToolId(v.s)
  }

  predicate IsPath(v: Value) {
    v.Str? && v.s != ""
  }

  predicate IsCommand(v: Value) {
    v.Arr? && v.items != [] && forall i :: 0 <= i < |v.items| ==> v.items[i].Str? && v.items[i].s != ""
  }

  function Advance(f: map<string, Value>, index: nat, seen: Seen): Seen {
    var tool, path := Get(f, "tool"), Get(f, "raw_output_path");
    Seen(if IsTool(tool) then seen.tools + {tool.s} else seen.tools,
         if IsPath(path) && path.s !in seen.paths then seen.paths[path.s := index] else seen.paths)
  }

  /** The entry's artifact is its own, and for the producer the one its run id names. */
  function PathDefects(f: map<string, Value>, index: nat, claim: string, producer: bool, seen: Seen): Defects {
    var path, run := Get(f, "raw_output_path"), Get(f, "run_id");
    if !IsPath(path) then []
    else
      Unless(path.s in seen.paths ==> seen.paths[path.s] == index, "duplicate artifact")
      + Unless(producer && run.Str? ==> path.s == ProducerArtifact(claim, run.s), "not this run's artifact")
  }

  // ---- the obligation manifest -----------------------------------------

  /** Required ids in declared order, their kinds, and each system claim's dependencies and required tools. */
  datatype Manifest = Manifest(
    required: seq<string>, kinds: map<string, string>, depends: map<string, seq<string>>,
    evidence: map<string, seq<string>>)

  function KindOf(m: Option<Manifest>, claim: string): Option<string> {
    if m.Some? && claim in m.value.kinds then Some(m.value.kinds[claim]) else None
  }

  /** A required system claim drags its dependencies into the judged set. */
  function Expand(m: Manifest, named: seq<string>, required: seq<string>): seq<string> {
    if named == [] then required
    else
      var c := named[0];
      var deps := if c in m.kinds && m.kinds[c] == SYSTEM_CLAIM && c in m.depends then m.depends[c] else [];
      Expand(m, named[1..], required + Absent(deps, required))
  }

  /** The entries of `ids` not in `required`. */
  function Absent(ids: seq<string>, required: seq<string>): (r: seq<string>)
    ensures forall c :: c in r <==> c in ids && c !in required
  {
    if ids == [] then [] else (if ids[0] in required then [] else [ids[0]]) + Absent(ids[1..], required)
  }

  lemma {:induction false} ExpandCloses(m: Manifest, named: seq<string>, required: seq<string>)
    ensures forall c :: c in required ==> c in Expand(m, named, required)
    ensures forall c, d ::
              c in named && c in m.kinds && m.kinds[c] == SYSTEM_CLAIM && c in m.depends && d in m.depends[c]
              ==> d in Expand(m, named, required)
  {
    if named != [] {
      var c := named[0];
      var deps := if c in m.kinds && m.kinds[c] == SYSTEM_CLAIM && c in m.depends then m.depends[c] else [];
      ExpandCloses(m, named[1..], required + Absent(deps, required));
    }
  }

  /** The claim is a dependency of a system claim named. */
  ghost predicate PulledIn(m: Manifest, named: seq<string>, c: string) {
    exists n :: n in named && KindOf(Some(m), n) == Some(SYSTEM_CLAIM) && n in m.depends && c in m.depends[n]
  }

  /** Naming claims adds their dependencies and nothing else, after what was named, each dependency once. */
  lemma {:induction false} ExpandIff(m: Manifest, named: seq<string>, required: seq<string>)
    ensures required <= Expand(m, named, required)
    ensures forall c :: c in Expand(m, named, required) <==> c in required || PulledIn(m, named, c)
    ensures Distinct(required) && (forall n :: n in m.depends ==> Distinct(m.depends[n])) ==>
              Distinct(Expand(m, named, required))
  {
    if named != [] {
      var n := named[0];
      var deps := if n in m.kinds && m.kinds[n] == SYSTEM_CLAIM && n in m.depends then m.depends[n] else [];
      var more := Absent(deps, required);
      AbsentIsDistinct(deps, required);
      ExpandIff(m, named[1..], required + more);
      forall c ensures PulledIn(m, named, c) <==> c in deps || PulledIn(m, named[1..], c) {
        assert named == [n] + named[1..];
      }
      hide PulledIn;
      assert required <= required + more;
    }
  }

  lemma {:induction false} AbsentIsDistinct(ids: seq<string>, required: seq<string>)
    ensures Distinct(ids) ==> Distinct(Absent(ids, required))
    ensures Distinct(ids) && Distinct(required) ==> Distinct(required + Absent(ids, required))
  {
    if ids != [] {
      AbsentIsDistinct(ids[1..], required);
      assert Distinct(ids) ==> ids[0] !in ids[1..];
    }
    if Distinct(ids) && Distinct(required) {
      var more := Absent(ids, required);
      forall i, j | 0 <= i < |required| && 0 <= j < |more| ensures required[i] != more[j] {
        assert required[i] in required && more[j] in more;
      }
    }
  }
}
