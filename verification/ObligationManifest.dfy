/** A translation that blocks on nothing yields a manifest that Gate B loads, but for one kind of claim. */
module ObligationManifest {
  import opened Basics
  import opened Records
  import opened ClaimIds
  import opened Obligations
  import Chars
  import Manifests
  import Snapshot

  // ---- what every translation keeps ------------------------------------

  ghost predicate Has(owners: map<string, seq<string>>, migrated: string, legacy: string) {
    migrated in owners && legacy in owners[migrated]
  }

  ghost predicate TargetOk(s: State, t: string) {
    t in s.targetIds && EvidenceClaimId(t) == Some(s.targetIds[t]) && Has(s.owners, s.targetIds[t], t)
  }

  ghost predicate DependencyOk(s: State, d: string) {
    exists t :: t in s.targetIds && s.targetIds[t] == d
  }

  ghost predicate ClaimOk(s: State, c: SystemClaim) {
    && EvidenceClaimId(c.legacy) == Some(c.id) && Has(s.owners, c.id, c.legacy)
    && c.dependsOn != [] && Distinct(c.dependsOn) && (forall d :: d in c.dependsOn ==> DependencyOk(s, d))
    && c.layers != [] && Distinct(c.layers) && (forall l :: l in c.layers ==> Chars.ToolId(l))
  }

  /** Targets are recorded once, under one kind, with the id they migrate to; claims depend on recorded targets. */
  ghost predicate Sound(s: State) {
    && Distinct(s.invariants) && Distinct(s.witnesses)
    && (forall t :: t in s.invariants ==> !IsWitness(t)) && (forall t :: t in s.witnesses ==> IsWitness(t))
    && (forall t :: t in s.targetIds <==> t in s.invariants || t in s.witnesses)
    && (forall t :: t in s.targetIds ==> TargetOk(s, t))
    && (forall i :: 0 <= i < |s.claims| ==> ClaimOk(s, s.claims[i]))
  }

  lemma OwnedKeeps(owners: map<string, seq<string>>, migrated: string, legacy: string)
    ensures Has(Owned(owners, migrated, legacy), migrated, legacy)
    ensures forall k, l :: Has(owners, k, l) ==> Has(Owned(owners, migrated, legacy), k, l)
  {
  }

  lemma AddTargetKeeps(s: State, target: string, migrated: string)
    requires Sound(s) && EvidenceClaimId(target) == Some(migrated)
    ensures var t := AddTarget(s, target, migrated);
      Sound(t) && t.claims == s.claims && t.problems == s.problems
      && s.targetIds.Keys + {target} == t.targetIds.Keys && t.targetIds[target] == migrated
      && forall x :: x in s.targetIds ==> t.targetIds[x] == s.targetIds[x]
  {
    hide IsWitness;
    hide EvidenceClaimId;
    hide Owned;
    OwnedKeeps(s.owners, migrated, target);
    var t := AddTarget(s, target, migrated);
    forall x | x in t.targetIds ensures TargetOk(t, x) {
      if x in s.targetIds { assert TargetOk(s, x); }
    }
    forall i | 0 <= i < |t.claims| ensures ClaimOk(t, t.claims[i]) {
      assert ClaimOk(s, s.claims[i]);
      forall d | d in t.claims[i].dependsOn ensures DependencyOk(t, d) {
        DependencyStays(s, t, d);
      }
    }
  }

  lemma DependencyStays(s: State, t: State, d: string)
    requires DependencyOk(s, d) && s.targetIds.Keys <= t.targetIds.Keys
    requires forall x :: x in s.targetIds ==> TargetOk(s, x)
    requires forall x :: x in s.targetIds ==> TargetOk(t, x)
    ensures DependencyOk(t, d)
  {
    hide EvidenceClaimId;
    var x :| x in s.targetIds && s.targetIds[x] == d;
    assert TargetOk(s, x) && TargetOk(t, x);
    assert t.targetIds[x] == d;
  }

  lemma {:induction false} AddTargetsKeep(s: State, targets: seq<string>, migrated: seq<string>)
    requires Sound(s) && |targets| == |migrated|
    requires forall i :: 0 <= i < |targets| ==> EvidenceClaimId(targets[i]) == Some(migrated[i])
    ensures var t := AddTargets(s, targets, migrated);
      Sound(t) && t.claims == s.claims && t.problems == s.problems
      && (forall x :: x in t.targetIds <==> x in s.targetIds || x in targets)
      && (forall m :: m in migrated ==> DependencyOk(t, m))
  {
    hide Sound;
    hide EvidenceClaimId;
    hide AddTarget;
    if targets != [] {
      var n := |targets| - 1;
      AddTargetsKeep(s, targets[..n], migrated[..n]);
      var before := AddTargets(s, targets[..n], migrated[..n]);
      AddTargetKeeps(before, targets[n], migrated[n]);
      var t := AddTargets(s, targets, migrated);
      assert targets == targets[..n] + [targets[n]] && migrated == migrated[..n] + [migrated[n]];
      forall m | m in migrated ensures DependencyOk(t, m) {
        if m in migrated[..n] {
          assert DependencyOk(before, m);
          var x :| x in before.targetIds && before.targetIds[x] == m;
          assert t.targetIds[x] == m;
        } else {
          assert t.targetIds[targets[n]] == m;
        }
      }
    }
  }

  lemma AddClaimKeeps(s: State, id: string, detail: map<string, map<string, Value>>, required: bool, plan: Plan)
    requires Sound(s) && Checked(id, detail) == Ok(plan)
    ensures var t := AddClaim(s, id, detail[id], required, plan);
      Sound(t) && t.problems == s.problems && |t.claims| == |s.claims| + 1 && t.claims[..|s.claims|] == s.claims
      && t.claims[|s.claims|].legacy == id
      && forall x :: x in t.targetIds <==> x in s.targetIds || x in plan.targets
  {
    PlanFacts(id, detail, plan);
    AddTargetsKeep(s, plan.targets, plan.migrated);
    var u := AddTargets(s, plan.targets, plan.migrated);
    var claim := SystemClaim(id, plan.id, required, Deduped(plan.migrated), plan.layers, Carried(detail[id]));
    hide Sound;
    hide Checked;
    hide Deduped;
    hide AddTargets;
    AppendKeeps(u, claim);
  }

  lemma AppendKeeps(u: State, c: SystemClaim)
    requires Sound(u) && EvidenceClaimId(c.legacy) == Some(c.id)
    requires c.dependsOn != [] && Distinct(c.dependsOn) && forall d :: d in c.dependsOn ==> DependencyOk(u, d)
    requires c.layers != [] && Distinct(c.layers) && forall l :: l in c.layers ==> Chars.ToolId(l)
    ensures Sound(u.(owners := Owned(u.owners, c.id, c.legacy), claims := u.claims + [c]))
  {
    hide EvidenceClaimId;
    hide IsWitness;
    hide Owned;
    hide Distinct;
    hide Chars.ToolId;
    OwnedKeeps(u.owners, c.id, c.legacy);
    var t := u.(owners := Owned(u.owners, c.id, c.legacy), claims := u.claims + [c]);
    forall x | x in t.targetIds ensures TargetOk(t, x) {
      assert TargetOk(u, x);
    }
    forall i | 0 <= i < |t.claims| ensures ClaimOk(t, t.claims[i]) {
      if i < |u.claims| { assert ClaimOk(u, u.claims[i]); }
      forall d | d in t.claims[i].dependsOn ensures DependencyOk(t, d) {
        assert DependencyOk(u, d);
      }
    }
  }

  lemma PlanFacts(id: string, detail: map<string, map<string, Value>>, plan: Plan)
    requires Checked(id, detail) == Ok(plan)
    ensures id in detail && EvidenceClaimId(id) == Some(plan.id)
    ensures plan.targets != [] && |plan.migrated| == |plan.targets| && plan.layers != [] && Distinct(plan.layers)
    ensures forall i :: 0 <= i < |plan.targets| ==> EvidenceClaimId(plan.targets[i]) == Some(plan.migrated[i])
    ensures forall l :: l in plan.layers ==> Chars.ToolId(l)
  {
    hide EvidenceClaimId;
  }

  /** A claim for each id, in order, unless there was a problem. */
  ghost predicate Follows(s: State, ids: seq<string>) {
    && (s.problems == [] ==> |s.claims| == |ids| && forall i :: 0 <= i < |ids| ==> s.claims[i].legacy == ids[i])
    && (forall i :: 0 <= i < |s.claims| ==> s.claims[i].legacy in ids)
    && (forall i, j :: 0 <= i < j < |s.claims| ==> s.claims[i].legacy != s.claims[j].legacy)
  }

  lemma FollowsMore(s: State, t: State, ids: seq<string>, id: string)
    requires Follows(s, ids) && id !in ids && t.problems == s.problems
    requires |t.claims| == |s.claims| + 1 && t.claims[..|s.claims|] == s.claims && t.claims[|s.claims|].legacy == id
    ensures Follows(t, ids + [id])
  {
    assert forall i :: 0 <= i < |s.claims| ==> t.claims[i] == t.claims[..|s.claims|][i];
  }

  /** Every translation is sound, and one without problems has a claim for each id, in order. */
  lemma {:induction false} TranslatedIsSound(ids: seq<string>, detail: map<string, map<string, Value>>,
      required: map<string, bool>)
    requires Distinct(ids)
    ensures Sound(Translated(ids, detail, required)) && Follows(Translated(ids, detail, required), ids)
  {
    if ids != [] {
      var n := |ids| - 1;
      TranslatedIsSound(ids[..n], detail, required);
      var s := Translated(ids[..n], detail, required);
      assert ids == ids[..n] + [ids[n]] && ids[n] !in ids[..n];
      hide Checked;
      hide AddClaim;
      hide Sound;
      match Checked(ids[n], detail)
      case Err(problem) =>
        ProblemKeeps(s, problem);
      case Ok(plan) =>
        PlanFacts(ids[n], detail, plan);
        var wanted := ids[n] in required && required[ids[n]];
        AddClaimKeeps(s, ids[n], detail, wanted, plan);
        FollowsMore(s, AddClaim(s, ids[n], detail[ids[n]], wanted, plan), ids[..n], ids[n]);
    }
  }

  lemma ProblemKeeps(s: State, problem: Problem)
    requires Sound(s)
    ensures Sound(s.(problems := s.problems + [problem]))
  {
    var t := s.(problems := s.problems + [problem]);
    forall x | x in t.targetIds ensures TargetOk(t, x) { assert TargetOk(s, x); }
    forall i | 0 <= i < |t.claims| ensures ClaimOk(t, t.claims[i]) {
      assert ClaimOk(s, s.claims[i]);
      forall d | d in t.claims[i].dependsOn ensures DependencyOk(t, d) { assert DependencyOk(s, d); }
    }
  }

  /** No target is ever both an invariant and a witness: that check of the migration cannot fire. */
  lemma NeverBothKinds(ids: seq<string>, detail: map<string, map<string, Value>>, required: map<string, bool>)
    requires Distinct(ids)
    ensures !BothKinds(Translated(ids, detail, required))
  {
    TranslatedIsSound(ids, detail, required);
    hide Translated;
    hide IsWitness;
    hide TargetOk;
    hide ClaimOk;
  }

  // ---- the ids of the manifest -----------------------------------------

  /** Without a collision, ids that meet were spelled the same. */
  lemma SameIdSameSpelling(s: State, k: string, a: string, b: string)
    requires !Collides(s) && Has(s.owners, k, a) && Has(s.owners, k, b)
    ensures a == b
  {
    assert |s.owners[k]| <= 1;
  }

  lemma SortedDistinct(s: State, targets: seq<string>)
    requires Distinct(targets)
    ensures Distinct(SortedTargets(s, targets))
  {
    var sorted := SortedTargets(s, targets);
    Snapshot.FullSetIsDistinct(targets);
    Snapshot.FullSetIsDistinct(sorted);
    SortedMembers(s, targets);
    hide SortedTargets;
    assert (set t | t in sorted) == (set t | t in targets);
    assert |multiset(sorted)| == |multiset(targets)|;
  }

  // ---- loading ---------------------------------------------------------

  /** Entries load when each is an object with a usable id. */
  lemma {:induction false} EntriesLoad(items: seq<Value>, kind: string)
    requires forall i :: 0 <= i < |items| ==>
      items[i].Obj? && Get(items[i].fields, "id").Str? && Manifests.UsableId(Get(items[i].fields, "id"))
    ensures var r := Manifests.Entries(items, kind);
      && r.Ok? && |r.value| == |items|
      && forall i :: 0 <= i < |items| ==>
           r.value[i] == Manifests.Declared(Get(items[i].fields, "id").s, kind, items[i].fields)
  {
    if items != [] {
      EntriesLoad(items[1..], kind);
    }
  }

  lemma StrListLoads(xs: seq<string>, wellFormed: string -> bool)
    requires xs != [] && Distinct(xs) && forall x :: x in xs ==> wellFormed(x)
    ensures Manifests.StrictIds(StrList(xs), wellFormed) == Ok(xs)
  {
    var v := StrList(xs);
    forall i | 0 <= i < |v.items| ensures v.items[i].Str? && wellFormed(v.items[i].s) {
      assert xs[i] in xs;
    }
    assert seq(|v.items|, i requires 0 <= i < |v.items| => if v.items[i].Str? then v.items[i].s else "") == xs;
  }

  /** The three parts of the manifest as the loader declares them. */
  ghost predicate Declares(ds: seq<Manifests.Declared>, ids: seq<string>, kind: string) {
    |ds| == |ids| && forall i :: 0 <= i < |ds| ==> ds[i].id == ids[i] && ds[i].kind == kind
  }

  ghost function TargetIdsOf(s: State, targets: seq<string>): (r: seq<string>)
    requires forall t :: t in targets ==> t in s.targetIds
    ensures |r| == |targets|
    ensures forall i :: 0 <= i < |targets| ==> targets[i] in s.targetIds && r[i] == s.targetIds[targets[i]]
  {
    seq(|targets|, i requires 0 <= i < |targets| => assert targets[i] in targets; s.targetIds[targets[i]])
  }

  ghost function ClaimIdsOf(s: State): (r: seq<string>)
    ensures |r| == |s.claims| && forall i :: 0 <= i < |r| ==> r[i] == s.claims[i].id
  {
    seq(|s.claims|, i requires 0 <= i < |s.claims| => s.claims[i].id)
  }

  lemma TargetsLoad(s: State, targets: seq<string>, kind: string)
    requires Sound(s) && forall t :: t in targets ==> t in s.targetIds
    ensures var r := Manifests.Entries(TargetItems(s, targets), kind);
      r.Ok? && Declares(r.value, TargetIdsOf(s, targets), kind)
  {
    hide EvidenceClaimId;
    hide IsWitness;
    hide ClaimOk;
    var items := TargetItems(s, targets);
    forall i | 0 <= i < |items| ensures items[i].Obj? && Get(items[i].fields, "id") == Str(s.targetIds[targets[i]])
                                     && Manifests.UsableId(Get(items[i].fields, "id"))
    {
      assert targets[i] in targets && TargetOk(s, targets[i]);
      IdIsStable(targets[i]);
    }
    EntriesLoad(items, kind);
  }

  lemma ClaimItemFields(c: SystemClaim)
    ensures ClaimItem(c).Obj? && Get(ClaimItem(c).fields, "id") == Str(c.id)
    ensures Get(ClaimItem(c).fields, "depends_on") == StrList(c.dependsOn)
    ensures Get(ClaimItem(c).fields, "required_evidence") == StrList(c.layers)
  {
  }

  lemma ClaimsLoad(s: State)
    requires Sound(s)
    ensures var r := Manifests.Entries(ClaimItems(s.claims), SYSTEM_CLAIM);
      && r.Ok? && Declares(r.value, ClaimIdsOf(s), SYSTEM_CLAIM)
      && forall i :: 0 <= i < |s.claims| ==> r.value[i].item == ClaimItem(s.claims[i]).fields
  {
    hide EvidenceClaimId;
    hide IsWitness;
    hide TargetOk;
    hide ClaimItem;
    var items := ClaimItems(s.claims);
    forall i | 0 <= i < |items| ensures items[i].Obj? && Get(items[i].fields, "id") == Str(s.claims[i].id)
                                     && Manifests.UsableId(Get(items[i].fields, "id"))
    {
      assert ClaimOk(s, s.claims[i]);
      ClaimItemFields(s.claims[i]);
      IdIsStable(s.claims[i].legacy);
    }
    EntriesLoad(items, SYSTEM_CLAIM);
  }

  ghost function AllIds(s: State): seq<string>
    requires Recorded(s)
  {
    SortedMembers(s, s.invariants);
    SortedMembers(s, s.witnesses);
    TargetIdsOf(s, SortedTargets(s, s.invariants)) + TargetIdsOf(s, SortedTargets(s, s.witnesses)) + ClaimIdsOf(s)
  }

  lemma SoundIsRecorded(s: State)
    requires Sound(s)
    ensures Recorded(s)
  {
    hide IsWitness;
    hide TargetOk;
    hide ClaimOk;
  }

  /** What the loader makes of the manifest's three collections. */
  ghost predicate Collected(s: State, ds: seq<Manifests.Declared>)
    requires Recorded(s)
  {
    var n := |s.invariants| + |s.witnesses|;
    && Manifests.Ids(ds) == AllIds(s)
    && (forall i :: 0 <= i < |ds| ==>
          ds[i].kind == if i < |s.invariants| then "invariant" else if i < n then "witness" else SYSTEM_CLAIM)
    && (forall i :: 0 <= i < |s.claims| && n + i < |ds| ==> ds[n + i].item == ClaimItem(s.claims[i]).fields)
  }

  lemma SortedLength(s: State, targets: seq<string>)
    ensures |SortedTargets(s, targets)| == |targets|
  {
    assert |multiset(SortedTargets(s, targets))| == |multiset(targets)|;
  }

  lemma CollectLoads(s: State)
    requires Sound(s) && Recorded(s)
    ensures var r := Manifests.Collect(ManifestOf(s).fields, Manifests.COLLECTIONS);
      r.Ok? && Collected(s, r.value)
  {
    SortedMembers(s, s.invariants);
    SortedMembers(s, s.witnesses);
    var inv, wit := SortedTargets(s, s.invariants), SortedTargets(s, s.witnesses);
    TargetsLoad(s, inv, "invariant");
    TargetsLoad(s, wit, "witness");
    ClaimsLoad(s);
    SortedLength(s, s.invariants);
    SortedLength(s, s.witnesses);
    var fields := ManifestOf(s).fields;
    assert fields["invariants"] == Arr(TargetItems(s, inv)) && fields["witnesses"] == Arr(TargetItems(s, wit));
    assert fields["system_claims"] == Arr(ClaimItems(s.claims));
    CollectThree(fields);
    var a := Manifests.Entries(TargetItems(s, inv), "invariant").value;
    var b := Manifests.Entries(TargetItems(s, wit), "witness").value;
    var c := Manifests.Entries(ClaimItems(s.claims), SYSTEM_CLAIM).value;
    hide *;
    Assemble(s, a, b, c);
  }

  lemma CollectThree(fields: map<string, Value>)
    requires "invariants" in fields && "witnesses" in fields && "system_claims" in fields
    requires fields["invariants"].Arr? && fields["witnesses"].Arr? && fields["system_claims"].Arr?
    requires Manifests.Entries(fields["invariants"].items, "invariant").Ok?
    requires Manifests.Entries(fields["witnesses"].items, "witness").Ok?
    requires Manifests.Entries(fields["system_claims"].items, SYSTEM_CLAIM).Ok?
    ensures Manifests.Collect(fields, Manifests.COLLECTIONS) ==
      Ok(Manifests.Entries(fields["invariants"].items, "invariant").value
         + (Manifests.Entries(fields["witnesses"].items, "witness").value
            + Manifests.Entries(fields["system_claims"].items, SYSTEM_CLAIM).value))
  {
    hide Manifests.Entries;
    var cs := Manifests.COLLECTIONS;
    assert cs[1..][0] == cs[1] && cs[1..][1..] == cs[2..] && cs[2..][1..] == [];
    var c := Manifests.Entries(fields["system_claims"].items, SYSTEM_CLAIM).value;
    var none: seq<Manifests.Declared> := [];
    assert c + none == c;
    assert Manifests.Collect(fields, cs[2..]) == Ok(c);
    assert Manifests.Collect(fields, cs[1..]) ==
           Ok(Manifests.Entries(fields["witnesses"].items, "witness").value + c);
  }

  lemma Assemble(s: State, a: seq<Manifests.Declared>, b: seq<Manifests.Declared>, c: seq<Manifests.Declared>)
    requires Recorded(s)
    requires forall t :: t in SortedTargets(s, s.invariants) <==> t in s.invariants
    requires forall t :: t in SortedTargets(s, s.witnesses) <==> t in s.witnesses
    requires Declares(a, TargetIdsOf(s, SortedTargets(s, s.invariants)), "invariant") && |a| == |s.invariants|
    requires Declares(b, TargetIdsOf(s, SortedTargets(s, s.witnesses)), "witness") && |b| == |s.witnesses|
    requires Declares(c, ClaimIdsOf(s), SYSTEM_CLAIM)
    requires forall i :: 0 <= i < |s.claims| ==> i < |c| && c[i].item == ClaimItem(s.claims[i]).fields
    ensures Collected(s, a + (b + c))
  {
    hide SortedTargets;
    hide ClaimItem;
    IdsDeclared(a, TargetIdsOf(s, SortedTargets(s, s.invariants)), "invariant");
    IdsDeclared(b, TargetIdsOf(s, SortedTargets(s, s.witnesses)), "witness");
    IdsDeclared(c, ClaimIdsOf(s), SYSTEM_CLAIM);
    IdsAppend(a, b + c);
    IdsAppend(b, c);
    AllIdsAre(s);
    hide AllIds;
    hide TargetIdsOf;
    hide ClaimIdsOf;
    hide Manifests.Ids;
  }

  lemma IdsDeclared(ds: seq<Manifests.Declared>, ids: seq<string>, kind: string)
    requires Declares(ds, ids, kind)
    ensures Manifests.Ids(ds) == ids
  {
  }

  lemma IdsAppend(a: seq<Manifests.Declared>, b: seq<Manifests.Declared>)
    ensures Manifests.Ids(a + b) == Manifests.Ids(a) + Manifests.Ids(b)
  {
  }

  lemma AllIdsAre(s: State)
    requires Recorded(s)
    requires forall t :: t in SortedTargets(s, s.invariants) <==> t in s.invariants
    requires forall t :: t in SortedTargets(s, s.witnesses) <==> t in s.witnesses
    ensures AllIds(s) == TargetIdsOf(s, SortedTargets(s, s.invariants))
                         + (TargetIdsOf(s, SortedTargets(s, s.witnesses)) + ClaimIdsOf(s))
  {
    hide SortedTargets;
    hide TargetIdsOf;
    hide ClaimIdsOf;
  }

  // ---- when it loads ---------------------------------------------------

  /** The legacy spelling behind each id of the manifest. */
  ghost function Spellings(s: State): (r: seq<string>)
    ensures |r| == |s.invariants| + |s.witnesses| + |s.claims|
  {
    SortedLength(s, s.invariants);
    SortedLength(s, s.witnesses);
    SortedTargets(s, s.invariants) + SortedTargets(s, s.witnesses)
    + seq(|s.claims|, i requires 0 <= i < |s.claims| => s.claims[i].legacy)
  }

  lemma SpellingsOwn(s: State)
    requires Sound(s) && Recorded(s)
    ensures |AllIds(s)| == |Spellings(s)|
    ensures forall i :: 0 <= i < |AllIds(s)| ==>
      EvidenceClaimId(Spellings(s)[i]) == Some(AllIds(s)[i]) && Has(s.owners, AllIds(s)[i], Spellings(s)[i])
  {
    SortedMembers(s, s.invariants);
    SortedMembers(s, s.witnesses);
    SortedLength(s, s.invariants);
    SortedLength(s, s.witnesses);
    hide SortedTargets;
    hide EvidenceClaimId;
    hide IsWitness;
    hide Has;
    var inv, wit := SortedTargets(s, s.invariants), SortedTargets(s, s.witnesses);
    var n := |inv| + |wit|;
    forall i | 0 <= i < |AllIds(s)|
      ensures EvidenceClaimId(Spellings(s)[i]) == Some(AllIds(s)[i]) && Has(s.owners, AllIds(s)[i], Spellings(s)[i])
    {
      if i < |inv| {
        assert inv[i] in inv && TargetOk(s, inv[i]);
      } else if i < n {
        assert wit[i - |inv|] in wit && TargetOk(s, wit[i - |inv|]);
      } else {
        assert ClaimOk(s, s.claims[i - n]);
      }
    }
  }

  /** Ids repeat exactly when spellings do. */
  lemma IdsRepeatAsSpellings(s: State)
    requires Sound(s) && Recorded(s) && !Collides(s)
    ensures Distinct(AllIds(s)) <==> Distinct(Spellings(s))
  {
    SpellingsOwn(s);
    hide AllIds;
    hide Spellings;
    hide EvidenceClaimId;
    hide Has;
    hide Collides;
    hide Sound;
    forall i, j | 0 <= i < j < |AllIds(s)|
      ensures AllIds(s)[i] == AllIds(s)[j] <==> Spellings(s)[i] == Spellings(s)[j]
    {
      if AllIds(s)[i] == AllIds(s)[j] {
        SameIdSameSpelling(s, AllIds(s)[i], Spellings(s)[i], Spellings(s)[j]);
      }
    }
  }

  /** No claim is spelled like a target. */
  ghost predicate ClaimsAreNotTargets(s: State) {
    forall i :: 0 <= i < |s.claims| ==> s.claims[i].legacy !in s.targetIds
  }

  lemma SpellingsDistinctIff(s: State, ids: seq<string>)
    requires Sound(s) && Follows(s, ids)
    ensures Distinct(Spellings(s)) <==> ClaimsAreNotTargets(s)
  {
    SortedMembers(s, s.invariants);
    SortedMembers(s, s.witnesses);
    SortedLength(s, s.invariants);
    SortedLength(s, s.witnesses);
    SortedDistinct(s, s.invariants);
    SortedDistinct(s, s.witnesses);
    hide SortedTargets;
    hide TargetOk;
    hide ClaimOk;
    hide IsWitness;
    var inv, wit := SortedTargets(s, s.invariants), SortedTargets(s, s.witnesses);
    var own := seq(|s.claims|, i requires 0 <= i < |s.claims| => s.claims[i].legacy);
    assert Spellings(s) == inv + wit + own;
    KindsAreApart(s);
    hide Spellings;
    hide Sound;
    if !ClaimsAreNotTargets(s) {
      var i :| 0 <= i < |s.claims| && s.claims[i].legacy in s.targetIds;
      SpellingRepeats(inv + wit, own, i);
    } else {
      forall i, j | 0 <= i < j < |inv + wit + own| ensures (inv + wit + own)[i] != (inv + wit + own)[j] {
        SpellingsApart(s, inv, wit, own, i, j);
      }
    }
  }

  lemma SpellingRepeats(targets: seq<string>, own: seq<string>, i: nat)
    requires i < |own| && own[i] in targets
    ensures !Distinct(targets + own)
  {
    var k :| 0 <= k < |targets| && targets[k] == own[i];
    var all := targets + own;
    assert all[k] == all[|targets| + i];
  }

  lemma KindsAreApart(s: State)
    requires Sound(s)
    ensures forall t :: t in s.invariants ==> t !in s.witnesses
    ensures forall t :: t in s.targetIds <==> t in s.invariants || t in s.witnesses
  {
    hide TargetOk;
    hide ClaimOk;
    hide IsWitness;
  }

  lemma SpellingsApart(s: State, inv: seq<string>, wit: seq<string>, own: seq<string>, i: nat, j: nat)
    requires Distinct(inv) && Distinct(wit) && Distinct(own) && i < j < |inv + wit + own|
    requires forall t :: t in inv ==> t !in wit && t in s.targetIds
    requires forall t :: t in wit ==> t in s.targetIds
    requires forall k :: 0 <= k < |own| ==> own[k] !in s.targetIds
    ensures (inv + wit + own)[i] != (inv + wit + own)[j]
  {
    var n := |inv| + |wit|;
    if j < |inv| {
    } else if j < n {
      assert wit[j - |inv|] in wit;
      if i < |inv| { assert inv[i] in inv; }
    } else if i < |inv| {
      assert inv[i] in inv;
    } else if i < n {
      assert wit[i - |inv|] in wit;
    } else {
      assert own[i - n] != own[j - n];
    }
  }

  /** Claims resolve when their dependencies and evidence are strict lists and the dependencies are declared. */
  lemma {:induction false} ResolvesWhen(ds: seq<Manifests.Declared>, kinds: map<string, string>, m: Manifest)
    requires forall d :: d in ds && d.kind == SYSTEM_CLAIM ==> Resolvable(d, kinds)
    ensures Manifests.ResolveClaims(ds, kinds, m).Ok?
  {
    if ds != [] {
      assert ds == [ds[0]] + ds[1..];
      assert ds[0] in ds;
      if ds[0].kind != SYSTEM_CLAIM {
        ResolvesWhen(ds[1..], kinds, m);
      } else {
        assert Resolvable(ds[0], kinds);
        var deps := Manifests.StrictIds(Get(ds[0].item, "depends_on"), Chars.ObligationId);
        var evidence := Manifests.StrictIds(Get(ds[0].item, "required_evidence"), Chars.ToolId);
        ResolvesWhen(ds[1..], kinds,
          m.(depends := m.depends[ds[0].id := deps.value], evidence := m.evidence[ds[0].id := evidence.value]));
      }
    }
  }

  ghost predicate Resolvable(d: Manifests.Declared, kinds: map<string, string>) {
    var deps := Manifests.StrictIds(Get(d.item, "depends_on"), Chars.ObligationId);
    && deps.Ok? && Manifests.DependsWell(deps.value, kinds)
    && Manifests.StrictIds(Get(d.item, "required_evidence"), Chars.ToolId).Ok?
  }

  lemma TargetPosition(s: State, t: string) returns (k: nat)
    requires Sound(s) && Recorded(s) && t in s.targetIds
    ensures k < |s.invariants| + |s.witnesses| && k < |AllIds(s)| && AllIds(s)[k] == s.targetIds[t]
  {
    SortedMembers(s, s.invariants);
    SortedMembers(s, s.witnesses);
    SortedLength(s, s.invariants);
    SortedLength(s, s.witnesses);
    hide SortedTargets;
    hide IsWitness;
    hide TargetOk;
    hide ClaimOk;
    var inv, wit := SortedTargets(s, s.invariants), SortedTargets(s, s.witnesses);
    if t in s.invariants {
      k :| 0 <= k < |inv| && inv[k] == t;
    } else {
      var i :| 0 <= i < |wit| && wit[i] == t;
      k := |inv| + i;
    }
  }

  lemma DeclaredKind(s: State, ds: seq<Manifests.Declared>, k: nat)
    requires Recorded(s) && Collected(s, ds) && Manifests.Unrepeated(Manifests.Ids(ds)) && k < |AllIds(s)|
    requires k < |s.invariants| + |s.witnesses|
    ensures AllIds(s)[k] in Manifests.Kinds(ds) && Manifests.Kinds(ds)[AllIds(s)[k]] in {"invariant", "witness"}
  {
    Manifests.KindsSpec(ds);
    hide AllIds;
    hide Manifests.Kinds;
    assert |Manifests.Ids(ds)| == |ds|;
    assert ds[k].id == AllIds(s)[k];
  }

  /** A dependency of a claim is the id of a recorded target, hence declared as an invariant or a witness. */
  lemma DependencyIsDeclared(s: State, ds: seq<Manifests.Declared>, d: string)
    requires Sound(s) && Recorded(s) && Collected(s, ds) && Manifests.Unrepeated(Manifests.Ids(ds))
      && DependencyOk(s, d)
    ensures d in Manifests.Kinds(ds) && Manifests.Kinds(ds)[d] in {"invariant", "witness"}
    ensures Chars.ObligationId(d)
  {
    var t :| t in s.targetIds && s.targetIds[t] == d;
    assert TargetOk(s, t);
    IdIsStable(t);
    assert EvidenceClaimId(t) == Some(d);
    hide *;
    var k := TargetPosition(s, t);
    DeclaredKind(s, ds, k);
  }

  /** A system claim of the document sits behind the targets. */
  lemma KindPlace(s: State, ds: seq<Manifests.Declared>, k: nat)
    requires Recorded(s) && Collected(s, ds) && k < |ds| && ds[k].kind == SYSTEM_CLAIM
    ensures |s.invariants| + |s.witnesses| <= k
  {
    hide AllIds;
    hide ClaimItem;
    hide Manifests.Ids;
    hide Recorded;
  }

  lemma ItemPlace(s: State, ds: seq<Manifests.Declared>, i: nat)
    requires Recorded(s) && Collected(s, ds) && i < |s.claims| && |s.invariants| + |s.witnesses| + i < |ds|
    ensures ds[|s.invariants| + |s.witnesses| + i].item == ClaimItem(s.claims[i]).fields
  {
    hide AllIds;
    hide ClaimItem;
    hide Manifests.Ids;
    hide Recorded;
  }

  lemma CollectedLength(s: State, ds: seq<Manifests.Declared>)
    requires Sound(s) && Recorded(s) && Collected(s, ds)
    ensures |ds| == |s.invariants| + |s.witnesses| + |s.claims|
  {
    SpellingsOwn(s);
    CollectedIds(s, ds);
    hide *;
    assert |Manifests.Ids(ds)| == |ds|;
  }

  lemma ClaimIsOk(s: State, i: nat)
    requires Sound(s) && i < |s.claims|
    ensures ClaimOk(s, s.claims[i])
  {
    hide ClaimOk;
    hide TargetOk;
    hide IsWitness;
  }

  lemma ClaimAt(s: State, ds: seq<Manifests.Declared>, d: Manifests.Declared) returns (c: SystemClaim)
    requires Sound(s) && Recorded(s) && Collected(s, ds) && d in ds && d.kind == SYSTEM_CLAIM
    ensures ClaimOk(s, c) && d.item == ClaimItem(c).fields
  {
    hide *;
    var k: nat :| k < |ds| && ds[k] == d;
    CollectedLength(s, ds);
    KindPlace(s, ds, k);
    var i := k - |s.invariants| - |s.witnesses|;
    ItemPlace(s, ds, i);
    ClaimIsOk(s, i);
    c := s.claims[i];
  }

  lemma ClaimResolves(s: State, ds: seq<Manifests.Declared>, d: Manifests.Declared)
    requires Sound(s) && Recorded(s) && Collected(s, ds) && Manifests.Unrepeated(Manifests.Ids(ds))
    requires d in ds && d.kind == SYSTEM_CLAIM
    ensures Resolvable(d, Manifests.Kinds(ds))
  {
    var c := ClaimAt(s, ds, d);
    ClaimItemFields(c);
    hide Sound;
    hide Collected;
    hide Manifests.Kinds;
    hide ClaimItem;
    hide Resolvable;
    hide Distinct;
    hide DependencyOk;
    hide EvidenceClaimId;
    hide Manifests.StrictIds;
    hide Manifests.Unrepeated;
    hide Chars.ToolId;
    hide Chars.ObligationId;
    forall x | x in c.dependsOn
      ensures x in Manifests.Kinds(ds) && Manifests.Kinds(ds)[x] in {"invariant", "witness"} && Chars.ObligationId(x)
    {
      DependencyIsDeclared(s, ds, x);
    }
    StrListLoads(c.dependsOn, Chars.ObligationId);
    StrListLoads(c.layers, Chars.ToolId);
    ResolvableBy(d, Manifests.Kinds(ds), c.dependsOn, c.layers);
  }

  lemma ResolvableBy(d: Manifests.Declared, kinds: map<string, string>, deps: seq<string>, layers: seq<string>)
    requires Manifests.StrictIds(Get(d.item, "depends_on"), Chars.ObligationId) == Ok(deps)
    requires Manifests.StrictIds(Get(d.item, "required_evidence"), Chars.ToolId) == Ok(layers)
    requires forall x :: x in deps ==> x in kinds && kinds[x] in {"invariant", "witness"}
    ensures Resolvable(d, kinds)
  {
  }

  lemma UnrepeatedIsDistinct(xs: seq<string>)
    ensures Manifests.Unrepeated(xs) <==> Distinct(xs)
  {
  }

  /**
   A translation that is not refused writes a loadable manifest exactly when no claim it has is spelled like a target
   it has.
   */
  lemma StateLoadsIff(ids: seq<string>, detail: map<string, map<string, Value>>, required: map<string, bool>)
    requires Distinct(ids) && !Unsupported(Translated(ids, detail, required))
    ensures var s := Translated(ids, detail, required);
      && Recorded(s)
      && (Manifests.LoadManifest(ManifestOf(s)).Ok? <==> ClaimsAreNotTargets(s))
  {
    TranslatedIsSound(ids, detail, required);
    var s := Translated(ids, detail, required);
    SoundIsRecorded(s);
    assert !Collides(s);
    CollectLoads(s);
    IdsRepeatAsSpellings(s);
    SpellingsDistinctIff(s, ids);
    ManifestIsObject(s);
    var v := ManifestOf(s);
    Manifests.LoadUnfolds(v);
    var ds := Manifests.Collect(v.fields, Manifests.COLLECTIONS).value;
    CollectedIds(s, ds);
    UnrepeatedIsDistinct(Manifests.Ids(ds));
    hide *;
    if Manifests.Unrepeated(Manifests.Ids(ds)) {
      forall d | d in ds && d.kind == SYSTEM_CLAIM ensures Resolvable(d, Manifests.Kinds(ds)) {
        ClaimResolves(s, ds, d);
      }
      ResolvesWhen(ds, Manifests.Kinds(ds), Manifest(Manifests.Ids(ds), Manifests.Kinds(ds), map[], map[]));
    }
  }

  lemma ManifestIsObject(s: State)
    requires Recorded(s)
    ensures ManifestOf(s).Obj?
  {
  }

  lemma CollectedIds(s: State, ds: seq<Manifests.Declared>)
    requires Recorded(s) && Collected(s, ds)
    ensures Manifests.Ids(ds) == AllIds(s)
  {
  }

  /** The recorded targets are the ones the converted claims list. */
  lemma {:induction false} TargetsAreListed(
      ids: seq<string>, detail: map<string, map<string, Value>>, required: map<string, bool>, t: string)
    requires Distinct(ids)
    ensures t in Translated(ids, detail, required).targetIds <==> SomeLists(ids, detail, t)
  {
    if ids != [] {
      var n := |ids| - 1;
      TargetsAreListed(ids[..n], detail, required, t);
      LastClaimAddsItsTargets(ids, detail, required, t);
      hide *;
      SomeListsSplit(ids, detail, t);
    } else {
      hide Lists;
    }
  }

  lemma SomeListsSplit(ids: seq<string>, detail: map<string, map<string, Value>>, t: string)
    requires ids != []
    ensures SomeLists(ids, detail, t) <==> SomeLists(ids[..|ids| - 1], detail, t) || Lists(ids[|ids| - 1], detail, t)
  {
    hide Lists;
    var before := ids[..|ids| - 1];
    if SomeLists(before, detail, t) {
      var i :| 0 <= i < |before| && Lists(before[i], detail, t);
      assert ids[i] == before[i];
    }
    if SomeLists(ids, detail, t) && !Lists(ids[|ids| - 1], detail, t) {
      var i :| 0 <= i < |ids| && Lists(ids[i], detail, t);
      assert before[i] == ids[i];
    }
  }

  lemma LastClaimAddsItsTargets(
      ids: seq<string>, detail: map<string, map<string, Value>>, required: map<string, bool>, t: string)
    requires Distinct(ids) && ids != []
    ensures t in Translated(ids, detail, required).targetIds <==>
      || t in Translated(ids[..|ids| - 1], detail, required).targetIds
      || Lists(ids[|ids| - 1], detail, t)
  {
    var n := |ids| - 1;
    TranslatedIsSound(ids[..n], detail, required);
    var s := Translated(ids[..n], detail, required);
    match Checked(ids[n], detail) {
      case Err(_) =>
      case Ok(plan) =>
        PlanFacts(ids[n], detail, plan);
        AddClaimKeeps(s, ids[n], detail, ids[n] in required && required[ids[n]], plan);
    }
    hide Checked;
    hide AddClaim;
    hide Sound;
  }

  /** The claim is converted and names the target. */
  ghost predicate Lists(id: string, detail: map<string, map<string, Value>>, t: string) {
    Checked(id, detail).Ok? && t in Checked(id, detail).value.targets
  }

  ghost predicate SomeLists(ids: seq<string>, detail: map<string, map<string, Value>>, t: string) {
    exists i :: 0 <= i < |ids| && Lists(ids[i], detail, t)
  }

  /** No legacy claim is spelled like a target that a convertible claim lists. */
  ghost predicate NoClaimIsATarget(ids: seq<string>, detail: map<string, map<string, Value>>) {
    forall i, j :: 0 <= i < |ids| && 0 <= j < |ids| ==> !Lists(ids[j], detail, ids[i])
  }

  /**
   A translation that is not refused writes a manifest Gate B loads exactly
   when no claim is spelled like a target: the owner map takes equal spellings
   for one owner, so that clash alone escapes the collision check.
   */
  lemma MigratedLoadsIff(ids: seq<string>, detail: map<string, map<string, Value>>, required: map<string, bool>)
    requires Distinct(ids) && !Unsupported(Translated(ids, detail, required))
    ensures var s := Translated(ids, detail, required);
      && Recorded(s)
      && (Manifests.LoadManifest(ManifestOf(s)).Ok? <==> NoClaimIsATarget(ids, detail))
  {
    StateLoadsIff(ids, detail, required);
    TranslatedIsSound(ids, detail, required);
    var s := Translated(ids, detail, required);
    assert s.problems == [];
    forall i | 0 <= i < |ids|
      ensures ids[i] in s.targetIds <==> SomeLists(ids, detail, ids[i])
    {
      TargetsAreListed(ids, detail, required, ids[i]);
    }
    FollowsInOrder(s, ids);
    hide *;
    SameCondition(s, ids, detail);
  }

  lemma FollowsInOrder(s: State, ids: seq<string>)
    requires Follows(s, ids) && s.problems == []
    ensures |s.claims| == |ids| && forall i :: 0 <= i < |ids| ==> s.claims[i].legacy == ids[i]
  {
  }

  lemma SameCondition(s: State, ids: seq<string>, detail: map<string, map<string, Value>>)
    requires |s.claims| == |ids| && forall i :: 0 <= i < |ids| ==> s.claims[i].legacy == ids[i]
    requires forall i :: 0 <= i < |ids| ==> (ids[i] in s.targetIds <==> SomeLists(ids, detail, ids[i]))
    ensures ClaimsAreNotTargets(s) <==> NoClaimIsATarget(ids, detail)
  {
    hide Lists;
  }

  function ClaimFields(target: string): map<string, Value> {
    map["required_targets" := Arr([Str(target)]), "layers" := Arr([Str("L")])]
  }

  lemma OneId(x: string, wellFormed: string -> bool)
    requires wellFormed(x)
    ensures IdStrings(Arr([Str(x)]), wellFormed) == Some([x])
  {
    var xs := Obligations.Strings([Str(x)]);
    assert xs == [x];
    assert xs[..0] == [];
    var none: seq<string> := [];
    assert Deduped(none) == none;
    assert none + [x] == [x];
  }

  /** A claim with one prefixed target and one layer passes every check. */
  lemma SimpleClaim(id: string, target: string, detail: map<string, map<string, Value>>)
    requires id in detail && detail[id] == ClaimFields(target) && Chars.ObligationId(target) && ':' in target
    requires EvidenceClaimId(id).Some? && EvidenceClaimId(target).Some?
      && EvidenceClaimId(id) != EvidenceClaimId(target)
    ensures Checked(id, detail) ==
      Ok(Plan(EvidenceClaimId(id).value, [target], [EvidenceClaimId(target).value], ["L"]))
  {
    hide EvidenceClaimId;
    OneId(target, Chars.ObligationId);
    OneId("L", Chars.ToolId);
    hide IdStrings;
    assert MigratedAll([target]) == [EvidenceClaimId(target).value];
  }

  lemma LetterId(c: char)
    requires Chars.IsAlnum(c)
    ensures EvidenceClaimId([c]) == Some([c])
  {
    assert Trimmed([c]);
    SafePartFixes([c]);
    TrimmedIsProducer([c]);
    assert [c][1..] == "";
    assert Colon([c]).None?;
  }

  lemma PairId(a: char, b: char)
    requires Chars.IsAlnum(a) && Chars.IsAlnum(b)
    ensures EvidenceClaimId([a, ':', b]) == Some([a, '.', b]) && Chars.ObligationId([a, ':', b]) && ':' in [a, ':', b]
  {
    PartOf([a], [b]);
    assert [a] + ":" + [b] == [a, ':', b] && [a] + "." + [b] == [a, '.', b];
    assert Trimmed([a]) && Trimmed([b]);
    SafePartFixes([a]);
    SafePartFixes([b]);
    JoinedIsTrimmed([a], [b]);
    TrimmedIsProducer([a, '.', b]);
  }

  /**
   The clash is real: a claim spelled like another claim's target passes every
   check of the migration, and the manifest it writes does not load.
   */
  lemma EqualSpellingEscapes(required: map<string, bool>)
    ensures var ids := ["x", "a:b"]; var detail := map["x" := ClaimFields("a:b"), "a:b" := ClaimFields("c:d")];
      var s := Translated(ids, detail, required);
      && !Unsupported(s) && |s.claims| == 2 && Recorded(s) && Manifests.LoadManifest(ManifestOf(s)).Err?
  {
    var ids, detail := ["x", "a:b"], map["x" := ClaimFields("a:b"), "a:b" := ClaimFields("c:d")];
    Sample();
    hide *;
    SimpleClaim("x", "a:b", detail);
    SimpleClaim("a:b", "c:d", detail);
    Escapes(ids, detail, required);
  }

  lemma Sample()
    ensures EvidenceClaimId("x") == Some("x")
    ensures EvidenceClaimId("a:b") == Some("a.b") && Chars.ObligationId("a:b") && ':' in "a:b"
    ensures EvidenceClaimId("c:d") == Some("c.d") && Chars.ObligationId("c:d") && ':' in "c:d"
  {
    PairId('a', 'b');
    PairId('c', 'd');
    LetterId('x');
    hide *;
    assert ['a', ':', 'b'] == "a:b" && ['a', '.', 'b'] == "a.b" && ['x'] == "x";
    assert ['c', ':', 'd'] == "c:d" && ['c', '.', 'd'] == "c.d";
  }

  lemma Escapes(ids: seq<string>, detail: map<string, map<string, Value>>, required: map<string, bool>)
    requires ids == ["x", "a:b"]
    requires Checked("x", detail) == Ok(Plan("x", ["a:b"], ["a.b"], ["L"])) && "x" in detail
    requires Checked("a:b", detail) == Ok(Plan("a.b", ["c:d"], ["c.d"], ["L"])) && "a:b" in detail
    ensures var s := Translated(ids, detail, required);
      && !Unsupported(s) && |s.claims| == 2 && Recorded(s) && Manifests.LoadManifest(ManifestOf(s)).Err?
  {
    TwoDistinct(ids);
    FirstListsSecond(ids, detail);
    hide *;
    EscapeState(ids, detail, required, "x", "a:b", "c:d", "a.b", "c.d", ["L"]);
    NeverBothKinds(ids, detail, required);
    NotRefused(Translated(ids, detail, required));
    ListedClaimIsRefused(ids, detail, required, 0, 1);
  }

  lemma TwoDistinct(ids: seq<string>)
    requires |ids| == 2 && |ids[0]| != |ids[1]|
    ensures Distinct(ids)
  {
  }

  lemma FirstListsSecond(ids: seq<string>, detail: map<string, map<string, Value>>)
    requires |ids| == 2 && Checked(ids[0], detail).Ok? && Checked(ids[0], detail).value.targets == [ids[1]]
    ensures Lists(ids[0], detail, ids[1])
  {
    hide Checked;
  }

  lemma NotRefused(s: State)
    requires s.problems == [] && !BothKinds(s) && !Collides(s)
    ensures !Unsupported(s)
  {
  }

  lemma ListedClaimIsRefused(
      ids: seq<string>, detail: map<string, map<string, Value>>, required: map<string, bool>, j: nat, i: nat)
    requires Distinct(ids) && !Unsupported(Translated(ids, detail, required))
    requires i < |ids| && j < |ids| && Lists(ids[j], detail, ids[i])
    ensures var s := Translated(ids, detail, required); Recorded(s) && Manifests.LoadManifest(ManifestOf(s)).Err?
  {
    MigratedLoadsIff(ids, detail, required);
    hide Translated;
    hide Lists;
    hide Recorded;
    hide Unsupported;
    hide ManifestOf;
    hide Manifests.LoadManifest;
  }

  /** A claim `t` that is the target of a claim `x`, and has a target `u` of its own. */
  lemma EscapeState(
      ids: seq<string>, detail: map<string, map<string, Value>>, required: map<string, bool>,
      x: string, t: string, u: string, mt: string, mu: string, layers: seq<string>)
    requires ids == [x, t] && x in detail && t in detail && x != mt && x != mu && mt != mu
    requires Checked(x, detail) == Ok(Plan(x, [t], [mt], layers))
    requires Checked(t, detail) == Ok(Plan(mt, [u], [mu], layers))
    ensures var s := Translated(ids, detail, required); s.problems == [] && |s.claims| == 2 && !Collides(s)
  {
    hide Checked;
    hide IsWitness;
    hide Owned;
    hide AddTargets;
    assert ids[..1] == [x] && ids[..1][..0] == [];
    var start := State([], [], map[], map[], [], []);
    assert Translated([], detail, required) == start;
    var one := AddClaim(start, x, detail[x], x in required && required[x], Plan(x, [t], [mt], layers));
    assert Translated(ids[..1], detail, required) == one;
    OneTarget(start, t, mt);
    OwnedNew(map[], mt, t);
    OwnedNew(map[mt := [t]], x, x);
    assert one.owners == map[mt := [t], x := [x]];
    OneTarget(one, u, mu);
    OwnedNew(one.owners, mu, u);
    OwnedAgain(one.owners[mu := [u]], mt, t);
    var two := AddClaim(one, t, detail[t], t in required && required[t], Plan(mt, [u], [mu], layers));
    assert Translated(ids, detail, required) == two;
    assert two.owners == one.owners[mu := [u]];
  }

  lemma OwnedNew(owners: map<string, seq<string>>, k: string, legacy: string)
    requires k !in owners
    ensures Owned(owners, k, legacy) == owners[k := [legacy]]
  {
    var none: seq<string> := [];
    assert Listed(none, legacy) == [legacy];
  }

  lemma OwnedAgain(owners: map<string, seq<string>>, k: string, legacy: string)
    requires k in owners && owners[k] == [legacy]
    ensures Owned(owners, k, legacy) == owners
  {
  }

  lemma OneTarget(s: State, target: string, migrated: string)
    ensures AddTargets(s, [target], [migrated]) == AddTarget(s, target, migrated)
  {
    assert [target][..0] == [] && [migrated][..0] == [];
    assert AddTargets(s, [], []) == s;
  }
}
