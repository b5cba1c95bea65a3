/** Migrating legacy obligation claims: what is translated, what blocks, and the manifest that comes of it. */
module Obligations {
  import opened Basics
  import opened Records
  import opened ClaimIds
  import Chars
  import Snapshot
  import Utf8

  /** `_dedup`: first occurrences, in order. */
  function Deduped(xs: seq<string>): (r: seq<string>)
    ensures Distinct(r) && (forall x :: x in r <==> x in xs) && (r == [] <==> xs == [])
  {
    if xs == [] then []
    else
      var n := |xs| - 1;
      var before := Deduped(xs[..n]);
      assert xs == xs[..n] + [xs[n]];
      if xs[n] in before then before else before + [xs[n]]
  }

  function Strings(items: seq<Value>): (r: seq<string>)
    requires forall i :: 0 <= i < |items| ==> items[i].Str?
    ensures |r| == |items| && forall i :: 0 <= i < |items| ==> r[i] == items[i].s
  {
    seq(|items|, i requires 0 <= i < |items| => items[i].s)
  }

  /** `_id_strings`: a nonempty, deduplicated list of well-formed ids. */
  function IdStrings(v: Value, wellFormed: string -> bool): (r: Option<seq<string>>)
    ensures r.Some? ==> r.value != [] && Distinct(r.value) && forall x :: x in r.value ==> wellFormed(x)
  {
    if v.Arr? && v.items != [] && forall i :: 0 <= i < |v.items| ==> v.items[i].Str? && wellFormed(v.items[i].s)
    then Some(Deduped(Strings(v.items)))
    else None
  }

  datatype Problem =
    | NoDetail(claim: string) | EmptyRecordId(claim: string) | BadTargets(claim: string) | BadLayers(claim: string)
    | Unprefixed(claim: string) | UnmappableTargets(claim: string) | SelfDependent(claim: string)

  datatype SystemClaim = SystemClaim(legacy: string, id: string, required: bool, dependsOn: seq<string>,
                                     layers: seq<string>, carried: map<string, Value>)

  /** The translation so far; targets are listed in the order they were first met. */
  datatype State = State(invariants: seq<string>, witnesses: seq<string>, targetIds: map<string, string>,
                         owners: map<string, seq<string>>, claims: seq<SystemClaim>, problems: seq<Problem>)

  /** What a claim that passes every check contributes. */
  datatype Plan = Plan(id: string, targets: seq<string>, migrated: seq<string>, layers: seq<string>)

  predicate AllMap(targets: seq<string>) {
    forall i :: 0 <= i < |targets| ==> EvidenceClaimId(targets[i]).Some?
  }

  function MigratedAll(targets: seq<string>): (r: seq<string>)
    requires AllMap(targets)
    ensures |r| == |targets| && forall i :: 0 <= i < |targets| ==> EvidenceClaimId(targets[i]) == Some(r[i])
  {
    seq(|targets|, i requires 0 <= i < |targets| => EvidenceClaimId(targets[i]).value)
  }

  /** The checks on one claim, in their order. */
  function Checked(id: string, detail: map<string, map<string, Value>>): (r: Result<Plan, Problem>)
  {
    if id !in detail then Err(NoDetail(id))
    else
      var fields := detail[id];
      var claimId := EvidenceClaimId(id);
      var targets := IdStrings(Get(fields, "required_targets"), Chars.ObligationId);
      var layers := IdStrings(Get(fields, "layers"), Chars.ToolId);
      if claimId.None? then Err(EmptyRecordId(id))
      else if targets.None? then Err(BadTargets(id))
      else if layers.None? then Err(BadLayers(id))
      else if exists t :: t in targets.value && ':' !in t then Err(Unprefixed(id))
      else if !AllMap(targets.value) then Err(UnmappableTargets(id))
      else if claimId.value in Deduped(MigratedAll(targets.value)) then Err(SelfDependent(id))
      else Ok(Plan(claimId.value, targets.value, MigratedAll(targets.value), layers.value))
  }

  /** A target tested rather than proved becomes a witness. */
  predicate IsWitness(target: string) {
    var colon := Colon(target);
    var prefix := if colon.Some? then target[..colon.value] else target;
    prefix == "proptest" || prefix == "proptests" || "test" <= prefix
  }

  function Listed(xs: seq<string>, x: string): (r: seq<string>)
    ensures Distinct(xs) ==> Distinct(r)
    ensures forall y :: y in r <==> y in xs || y == x
  {
    if x in xs then xs else xs + [x]
  }

  /** `_own` */
  function Owned(owners: map<string, seq<string>>, migrated: string, legacy: string): map<string, seq<string>> {
    owners[migrated := Listed(if migrated in owners then owners[migrated] else [], legacy)]
  }

  function AddTarget(s: State, target: string, migrated: string): State {
    s.(invariants := if IsWitness(target) then s.invariants else Listed(s.invariants, target),
       witnesses := if IsWitness(target) then Listed(s.witnesses, target) else s.witnesses,
       targetIds := s.targetIds[target := migrated],
       owners := Owned(s.owners, migrated, target))
  }

  function AddTargets(s: State, targets: seq<string>, migrated: seq<string>): State
    requires |targets| == |migrated|
  {
    if targets == [] then s
    else
      var n := |targets| - 1;
      AddTarget(AddTargets(s, targets[..n], migrated[..n]), targets[n], migrated[n])
  }

  /** The optional fields of a system claim that are copied when they have the right type. */
  function Carried(fields: map<string, Value>): map<string, Value> {
    map k | k in {"evidence_class", "scope", "waiver"} && k in fields &&
            (if k == "evidence_class" then fields[k].Str? else fields[k].Obj?) :: fields[k]
  }

  function AddClaim(s: State, id: string, fields: map<string, Value>, required: bool, plan: Plan): State
    requires |plan.targets| == |plan.migrated|
  {
    var t := AddTargets(s, plan.targets, plan.migrated);
    t.(owners := Owned(t.owners, plan.id, id),
       claims := t.claims + [SystemClaim(id, plan.id, required, Deduped(plan.migrated), plan.layers, Carried(fields))])
  }

  function TranslateOne(
      s: State, id: string, detail: map<string, map<string, Value>>, required: map<string, bool>): State {
    match Checked(id, detail)
    case Err(problem) => s.(problems := s.problems + [problem])
    case Ok(plan) => AddClaim(s, id, detail[id], id in required && required[id], plan)
  }

  function Translated(ids: seq<string>, detail: map<string, map<string, Value>>, required: map<string, bool>): State {
    if ids == [] then State([], [], map[], map[], [], [])
    else
      var n := |ids| - 1;
      TranslateOne(Translated(ids[..n], detail, required), ids[n], detail, required)
  }

  /** The loops of `_migrate_obligations` over the claims and their targets. */
  class Translation {
    var invariants: seq<string>
    var witnesses: seq<string>
    var targetIds: map<string, string>
    var owners: map<string, seq<string>>
    var claims: seq<SystemClaim>
    var problems: seq<Problem>

    constructor ()
      ensures Current() == State([], [], map[], map[], [], [])
    {
      invariants, witnesses, targetIds, owners, claims, problems := [], [], map[], map[], [], [];
    }

    function Current(): State
      reads this
    {
      State(invariants, witnesses, targetIds, owners, claims, problems)
    }

    method Own(migrated: string, legacy: string)
      modifies `owners
      ensures owners == Owned(old(owners), migrated, legacy)
    {
      if migrated !in owners {
        owners := owners[migrated := []];
      }
      if legacy !in owners[migrated] {
        owners := owners[migrated := owners[migrated] + [legacy]];
      }
    }

    method RecordTarget(target: string, migrated: string)
      modifies `invariants, `witnesses, `targetIds, `owners
      ensures Current() == AddTarget(old(Current()), target, migrated)
    {
      hide IsWitness;
      if IsWitness(target) {
        if target !in witnesses {
          witnesses := witnesses + [target];
        }
      } else if target !in invariants {
        invariants := invariants + [target];
      }
      targetIds := targetIds[target := migrated];
      Own(migrated, target);
    }

    method RecordTargets(targets: seq<string>, migrated: seq<string>)
      requires |targets| == |migrated|
      modifies `invariants, `witnesses, `targetIds, `owners
      ensures Current() == AddTargets(old(Current()), targets, migrated)
    {
      hide AddTarget;
      var i := 0;
      while i < |targets|
        invariant 0 <= i <= |targets| && Current() == AddTargets(old(Current()), targets[..i], migrated[..i])
      {
        assert targets[..i + 1][..i] == targets[..i] && migrated[..i + 1][..i] == migrated[..i];
        RecordTarget(targets[i], migrated[i]);
        i := i + 1;
      }
      assert targets[..i] == targets && migrated[..i] == migrated;
    }

    method TranslateClaim(id: string, detail: map<string, map<string, Value>>, required: map<string, bool>)
      modifies this
      ensures Current() == TranslateOne(old(Current()), id, detail, required)
    {
      hide IdStrings;
      hide EvidenceClaimId;
      hide AddTargets;
      if id !in detail {
        problems := problems + [NoDetail(id)];
        return;
      }
      var fields := detail[id];
      var claimId := EvidenceClaimId(id);
      if claimId.None? {
        problems := problems + [EmptyRecordId(id)];
        return;
      }
      var targets := IdStrings(Get(fields, "required_targets"), Chars.ObligationId);
      if targets.None? {
        problems := problems + [BadTargets(id)];
        return;
      }
      var layers := IdStrings(Get(fields, "layers"), Chars.ToolId);
      if layers.None? {
        problems := problems + [BadLayers(id)];
        return;
      }
      if exists t :: t in targets.value && ':' !in t {
        problems := problems + [Unprefixed(id)];
        return;
      }
      var mapped, migrated := MigrateTargets(targets.value);
      if !mapped {
        problems := problems + [UnmappableTargets(id)];
        return;
      }
      var dependsOn := Deduped(migrated);
      if claimId.value in dependsOn {
        problems := problems + [SelfDependent(id)];
        return;
      }
      RecordTargets(targets.value, migrated);
      Own(claimId.value, id);
      claims := claims +
        [SystemClaim(id, claimId.value, id in required && required[id], dependsOn, layers.value, Carried(fields))];
    }

    method Translate(ids: seq<string>, detail: map<string, map<string, Value>>, required: map<string, bool>)
      requires Current() == State([], [], map[], map[], [], [])
      modifies this
      ensures Current() == Translated(ids, detail, required)
    {
      hide TranslateOne;
      var i := 0;
      while i < |ids|
        invariant 0 <= i <= |ids| && Current() == Translated(ids[..i], detail, required)
      {
        assert ids[..i + 1][..i] == ids[..i];
        TranslateClaim(ids[i], detail, required);
        i := i + 1;
      }
      assert ids[..i] == ids;
    }
  }

  method MigrateTargets(targets: seq<string>) returns (mapped: bool, migrated: seq<string>)
    ensures mapped <==> AllMap(targets)
    ensures mapped ==> migrated == MigratedAll(targets)
  {
    hide EvidenceClaimId;
    mapped, migrated := true, [];
    var i := 0;
    while i < |targets|
      invariant 0 <= i <= |targets| && (mapped <==> AllMap(targets[..i]))
      invariant mapped ==>
                  |migrated| == i && forall j :: 0 <= j < i ==> EvidenceClaimId(targets[j]) == Some(migrated[j])
    {
      assert targets[..i + 1] == targets[..i] + [targets[i]];
      var id := EvidenceClaimId(targets[i]);
      if id.None? {
        mapped := false;
      } else {
        migrated := migrated + [id.value];
      }
      i := i + 1;
    }
    assert targets[..i] == targets;
  }

  // ---- blocking --------------------------------------------------------

  /** Two legacy ids that migrate to one. */
  predicate Collides(s: State) {
    exists k :: k in s.owners && |s.owners[k]| > 1
  }

  predicate BothKinds(s: State) {
    exists t :: t in s.invariants && t in s.witnesses
  }

  /** The migration is refused. */
  predicate Unsupported(s: State) {
    s.problems != [] || BothKinds(s) || Collides(s)
  }

  // ---- the manifest ----------------------------------------------------

  predicate CharBelow(a: char, b: char) {
    a < b
  }

  function ById(ids: map<string, string>): (string, string) -> bool {
    (a, b) => a in ids && b in ids && Utf8.Lex(CharBelow, ids[a], ids[b])
  }

  function Named(id: string, legacy: string): map<string, Value> {
    if id == legacy then map["id" := Str(id)] else map["id" := Str(id), "legacy_id" := Str(legacy)]
  }

  function TargetItem(s: State, target: string): Value
    requires target in s.targetIds
  {
    Obj(Named(s.targetIds[target], target))
  }

  function TargetItems(s: State, targets: seq<string>): (r: seq<Value>)
    requires forall t :: t in targets ==> t in s.targetIds
    ensures |r| == |targets|
    ensures forall i :: 0 <= i < |targets| ==> targets[i] in s.targetIds && r[i] == TargetItem(s, targets[i])
  {
    seq(|targets|, i requires 0 <= i < |targets| => assert targets[i] in targets; TargetItem(s, targets[i]))
  }

  function StrList(xs: seq<string>): (r: Value)
    ensures r.Arr? && |r.items| == |xs| && forall i :: 0 <= i < |xs| ==> r.items[i] == Str(xs[i])
  {
    Arr(seq(|xs|, i requires 0 <= i < |xs| => Str(xs[i])))
  }

  function ClaimItem(c: SystemClaim): Value {
    Obj(c.carried + Named(c.id, c.legacy) +
        map["required" := Bool(c.required), "depends_on" := StrList(c.dependsOn),
            "required_evidence" := StrList(c.layers)])
  }

  function ClaimItems(claims: seq<SystemClaim>): (r: seq<Value>)
    ensures |r| == |claims| && forall i :: 0 <= i < |claims| ==> r[i] == ClaimItem(claims[i])
  {
    seq(|claims|, i requires 0 <= i < |claims| => ClaimItem(claims[i]))
  }

  predicate Recorded(s: State) {
    (forall t :: t in s.invariants ==> t in s.targetIds) && forall t :: t in s.witnesses ==> t in s.targetIds
  }

  function SortedTargets(s: State, targets: seq<string>): (r: seq<string>)
    ensures multiset(r) == multiset(targets)
  {
    Snapshot.SortKeeps(ById(s.targetIds), targets);
    Snapshot.Sort(ById(s.targetIds), targets)
  }

  lemma SortedMembers(s: State, targets: seq<string>)
    ensures forall t :: t in SortedTargets(s, targets) <==> t in targets
  {
    forall t ensures t in SortedTargets(s, targets) <==> t in targets {
      assert t in multiset(SortedTargets(s, targets)) <==> t in multiset(targets);
    }
  }

  /** The document the migration writes. */
  function ManifestOf(s: State): Value
    requires Recorded(s)
  {
    SortedMembers(s, s.invariants);
    SortedMembers(s, s.witnesses);
    Obj(map["version" := Num(1),
            "invariants" := Arr(TargetItems(s, SortedTargets(s, s.invariants))),
            "witnesses" := Arr(TargetItems(s, SortedTargets(s, s.witnesses))),
            "system_claims" := Arr(ClaimItems(s.claims))])
  }
}
