/** The obligation manifest the migration writes, entry by entry, from the legacy claims. */
module WrittenManifest {
  import opened Basics
  import opened Records
  import opened ClaimIds
  import opened Obligations
  import opened ObligationManifest
  import Chars
  import Snapshot
  import Utf8

  // ---- one claim -------------------------------------------------------

  /** A nonempty list of well-formed ids, and the ids in it, each once. */
  ghost predicate Enumerates(v: Value, wellFormed: string -> bool, xs: seq<string>) {
    && v.Arr? && v.items != [] && (forall x :: x in v.items ==> x.Str? && wellFormed(x.s))
    && Distinct(xs) && (forall y :: y in xs <==> Str(y) in v.items)
  }

  lemma IdStringsIff(v: Value, wellFormed: string -> bool)
    ensures IdStrings(v, wellFormed).Some? <==>
            v.Arr? && v.items != [] && forall x :: x in v.items ==> x.Str? && wellFormed(x.s)
    ensures IdStrings(v, wellFormed).Some? ==> Enumerates(v, wellFormed, IdStrings(v, wellFormed).value)
  {
    if v.Arr? && v.items != [] && forall x :: x in v.items ==> x.Str? && wellFormed(x.s) {
      var xs := Obligations.Strings(v.items);
      forall y ensures y in xs <==> Str(y) in v.items {
        if y in xs {
          var i :| 0 <= i < |xs| && xs[i] == y;
          assert v.items[i] in v.items;
        }
        if Str(y) in v.items {
          var i :| 0 <= i < |v.items| && v.items[i] == Str(y);
          assert xs[i] == y;
        }
      }
    }
  }

  /** What a legacy claim converts to: its id, its targets with theirs, and its tools. */
  ghost predicate Converts(id: string, detail: map<string, map<string, Value>>, plan: Plan) {
    && id in detail && EvidenceClaimId(id) == Some(plan.id)
    && Enumerates(Get(detail[id], "required_targets"), Chars.ObligationId, plan.targets)
    && Enumerates(Get(detail[id], "layers"), Chars.ToolId, plan.layers)
    && |plan.migrated| == |plan.targets|
    && forall i :: 0 <= i < |plan.targets| ==>
         ':' in plan.targets[i] && EvidenceClaimId(plan.targets[i]) == Some(plan.migrated[i])
         && plan.migrated[i] != plan.id
  }

  /** A claim that passes the checks converts, and one that does not pass them converts to nothing. */
  lemma CheckedIff(id: string, detail: map<string, map<string, Value>>)
    ensures Checked(id, detail).Ok? ==> Converts(id, detail, Checked(id, detail).value)
    ensures Checked(id, detail).Err? ==> forall plan :: !Converts(id, detail, plan)
  {
    hide IdStrings;
    hide EvidenceClaimId;
    hide Chars.ObligationId;
    hide Chars.ToolId;
    if id in detail {
      IdStringsIff(Get(detail[id], "required_targets"), Chars.ObligationId);
      IdStringsIff(Get(detail[id], "layers"), Chars.ToolId);
      var targets := IdStrings(Get(detail[id], "required_targets"), Chars.ObligationId);
      if EvidenceClaimId(id).Some? && targets.Some? {
        TargetsConvertIff(targets.value, EvidenceClaimId(id).value);
        forall plan | Converts(id, detail, plan) ensures Converting(targets.value, EvidenceClaimId(id).value) {
          SameMembersConvert(plan, targets.value, EvidenceClaimId(id).value);
        }
      }
    }
  }

  /** Every target is prefixed and maps to an id that is not the claim's. */
  ghost predicate Converting(targets: seq<string>, own: string) {
    forall t :: t in targets ==> ':' in t && EvidenceClaimId(t).Some? && EvidenceClaimId(t).value != own
  }

  lemma TargetsConvertIff(targets: seq<string>, own: string)
    ensures Converting(targets, own) <==>
      && !(exists t :: t in targets && ':' !in t) && AllMap(targets)
      && own !in Deduped(MigratedAll(targets))
    ensures Converting(targets, own) ==>
      forall i :: 0 <= i < |targets| ==>
        ':' in targets[i] && EvidenceClaimId(targets[i]) == Some(MigratedAll(targets)[i])
        && MigratedAll(targets)[i] != own
  {
    hide EvidenceClaimId;
    if AllMap(targets) {
      var migrated := MigratedAll(targets);
      if own in migrated {
        var i :| 0 <= i < |migrated| && migrated[i] == own;
        assert targets[i] in targets;
      }
      if t :| t in targets && EvidenceClaimId(t) == Some(own) {
        var i :| 0 <= i < |targets| && targets[i] == t;
        assert migrated[i] == own;
      }
    }
    if Converting(targets, own) {
      assert forall i :: 0 <= i < |targets| ==> targets[i] in targets;
    }
  }

  lemma SameMembersConvert(plan: Plan, targets: seq<string>, own: string)
    requires |plan.migrated| == |plan.targets| && plan.id == own
    requires forall i :: 0 <= i < |plan.targets| ==>
      ':' in plan.targets[i] && EvidenceClaimId(plan.targets[i]) == Some(plan.migrated[i])
      && plan.migrated[i] != plan.id
    requires forall t :: t in targets <==> t in plan.targets
    ensures Converting(targets, own)
  {
    hide EvidenceClaimId;
    forall t | t in targets ensures ':' in t && EvidenceClaimId(t).Some? && EvidenceClaimId(t).value != own {
      var i :| 0 <= i < |plan.targets| && plan.targets[i] == t;
    }
  }

  // ---- what blocks -----------------------------------------------------

  /** The spelling is a converted claim's own or one of its targets'. */
  ghost predicate Spelled(ids: seq<string>, detail: map<string, map<string, Value>>, l: string) {
    exists i :: 0 <= i < |ids| && SpelledBy(ids[i], detail, l)
  }

  ghost predicate SpelledBy(id: string, detail: map<string, map<string, Value>>, l: string) {
    Checked(id, detail).Ok? && (l == id || l in Checked(id, detail).value.targets)
  }

  ghost predicate DistinctOwners(owners: map<string, seq<string>>) {
    forall k :: k in owners ==> Distinct(owners[k])
  }

  lemma OwnedIs(owners: map<string, seq<string>>, m: string, x: string)
    requires DistinctOwners(owners)
    ensures DistinctOwners(Owned(owners, m, x))
    ensures forall k, l :: Has(Owned(owners, m, x), k, l) <==> Has(owners, k, l) || (k == m && l == x)
  {
  }

  lemma {:induction false} TargetOwners(s: State, targets: seq<string>, migrated: seq<string>)
    requires DistinctOwners(s.owners) && |targets| == |migrated|
    requires forall i :: 0 <= i < |targets| ==> EvidenceClaimId(targets[i]) == Some(migrated[i])
    ensures var t := AddTargets(s, targets, migrated);
      && DistinctOwners(t.owners)
      && forall k, l :: Has(t.owners, k, l) <==> Has(s.owners, k, l) || (l in targets && EvidenceClaimId(l) == Some(k))
  {
    hide EvidenceClaimId;
    hide Has;
    hide DistinctOwners;
    hide Owned;
    hide IsWitness;
    if targets != [] {
      var n := |targets| - 1;
      TargetOwners(s, targets[..n], migrated[..n]);
      var before := AddTargets(s, targets[..n], migrated[..n]);
      OwnedIs(before.owners, migrated[n], targets[n]);
      assert AddTargets(s, targets, migrated).owners == Owned(before.owners, migrated[n], targets[n]);
      assert targets == targets[..n] + [targets[n]];
    }
  }

  lemma ClaimOwners(s: State, id: string, detail: map<string, map<string, Value>>, required: map<string, bool>)
    requires DistinctOwners(s.owners)
    ensures var t := TranslateOne(s, id, detail, required);
      && DistinctOwners(t.owners)
      && forall k, l :: Has(t.owners, k, l) <==>
           Has(s.owners, k, l) || (SpelledBy(id, detail, l) && EvidenceClaimId(l) == Some(k))
  {
    match Checked(id, detail)
    case Err(_) =>
    case Ok(plan) =>
      PlanFacts(id, detail, plan);
      TargetOwners(s, plan.targets, plan.migrated);
      OwnedIs(AddTargets(s, plan.targets, plan.migrated).owners, plan.id, id);
      hide Checked;
      hide AddTargets;
      hide Owned;
      hide Has;
      hide DistinctOwners;
      hide EvidenceClaimId;
  }

  /** The owner map holds each spelling under the id it migrates to, and nothing else. */
  lemma {:induction false} OwnersAre(
      ids: seq<string>, detail: map<string, map<string, Value>>, required: map<string, bool>)
    ensures var s := Translated(ids, detail, required);
      && DistinctOwners(s.owners)
      && forall k, l :: Has(s.owners, k, l) <==> Spelled(ids, detail, l) && EvidenceClaimId(l) == Some(k)
  {
    hide EvidenceClaimId;
    hide SpelledBy;
    hide TranslateOne;
    if ids != [] {
      var n := |ids| - 1;
      OwnersAre(ids[..n], detail, required);
      ClaimOwners(Translated(ids[..n], detail, required), ids[n], detail, required);
      hide Has;
      hide DistinctOwners;
      forall l ensures Spelled(ids, detail, l) <==> Spelled(ids[..n], detail, l) || SpelledBy(ids[n], detail, l) {
        SpelledSplits(ids, detail, l);
      }
    }
  }

  lemma SpelledSplits(ids: seq<string>, detail: map<string, map<string, Value>>, l: string)
    requires ids != []
    ensures Spelled(ids, detail, l) <==>
            Spelled(ids[..|ids| - 1], detail, l) || SpelledBy(ids[|ids| - 1], detail, l)
  {
    hide SpelledBy;
    var before := ids[..|ids| - 1];
    if i :| 0 <= i < |before| && SpelledBy(before[i], detail, l) {
      assert ids[i] == before[i];
    }
    if i :| 0 <= i < |ids| && SpelledBy(ids[i], detail, l) {
      if i < |before| { assert before[i] == ids[i]; }
    }
  }

  /** Two different legacy spellings in use that migrate to one id. */
  ghost predicate Clashing(ids: seq<string>, detail: map<string, map<string, Value>>) {
    exists l, m :: l != m && Spelled(ids, detail, l) && Spelled(ids, detail, m)
                   && EvidenceClaimId(l).Some? && EvidenceClaimId(l) == EvidenceClaimId(m)
  }

  lemma CollidesIff(ids: seq<string>, detail: map<string, map<string, Value>>, required: map<string, bool>)
    ensures Collides(Translated(ids, detail, required)) <==> Clashing(ids, detail)
  {
    OwnersAre(ids, detail, required);
    var owners := Translated(ids, detail, required).owners;
    hide Translated;
    hide EvidenceClaimId;
    hide Spelled;
    if k :| k in owners && |owners[k]| > 1 {
      var l, m := owners[k][0], owners[k][1];
      assert Has(owners, k, l) && Has(owners, k, m);
    }
    if l, m :| l != m && Spelled(ids, detail, l) && Spelled(ids, detail, m)
               && EvidenceClaimId(l).Some? && EvidenceClaimId(l) == EvidenceClaimId(m) {
      var k := EvidenceClaimId(l).value;
      assert Has(owners, k, l) && Has(owners, k, m);
    }
  }

  lemma TranslatedStep(ids: seq<string>, detail: map<string, map<string, Value>>, required: map<string, bool>)
    requires ids != []
    ensures var n := |ids| - 1;
      Translated(ids, detail, required) ==
      TranslateOne(Translated(ids[..n], detail, required), ids[n], detail, required)
  {
    hide TranslateOne;
  }

  lemma TranslatedNothing(detail: map<string, map<string, Value>>, required: map<string, bool>)
    ensures Translated([], detail, required).problems == [] && Translated([], detail, required).claims == []
  {
    hide TranslateOne;
  }

  lemma {:induction false} ProblemsIff(
      ids: seq<string>, detail: map<string, map<string, Value>>, required: map<string, bool>)
    ensures Translated(ids, detail, required).problems == [] <==>
            forall i :: 0 <= i < |ids| ==> Checked(ids[i], detail).Ok?
  {
    hide *;
    if ids == [] {
      TranslatedNothing(detail, required);
    } else {
      var n := |ids| - 1;
      ProblemsIff(ids[..n], detail, required);
      OneProblem(Translated(ids[..n], detail, required), ids[n], detail, required);
      TranslatedStep(ids, detail, required);
      assert forall i :: 0 <= i < n ==> ids[..n][i] == ids[i];
    }
  }

  lemma OneProblem(s: State, id: string, detail: map<string, map<string, Value>>, required: map<string, bool>)
    ensures TranslateOne(s, id, detail, required).problems == [] <==> s.problems == [] && Checked(id, detail).Ok?
    ensures Checked(id, detail).Ok? ==>
      var plan := Checked(id, detail).value;
      TranslateOne(s, id, detail, required).claims ==
      s.claims + [SystemClaim(id, plan.id, id in required && required[id], Deduped(plan.migrated), plan.layers,
                              Obligations.Carried(detail[id]))]
  {
    if Checked(id, detail).Ok? {
      var plan := Checked(id, detail).value;
      PlanFacts(id, detail, plan);
      SameProblems(s, plan);
      hide AddTargets;
      hide Checked;
      hide EvidenceClaimId;
    }
  }

  lemma {:induction false} TargetsKeepProblems(s: State, targets: seq<string>, migrated: seq<string>)
    requires |targets| == |migrated|
    ensures AddTargets(s, targets, migrated).problems == s.problems
    ensures AddTargets(s, targets, migrated).claims == s.claims
  {
    if targets != [] {
      TargetsKeepProblems(s, targets[..|targets| - 1], migrated[..|targets| - 1]);
    }
  }

  lemma SameProblems(s: State, plan: Plan)
    ensures |plan.targets| == |plan.migrated| ==>
              AddTargets(s, plan.targets, plan.migrated).problems == s.problems
              && AddTargets(s, plan.targets, plan.migrated).claims == s.claims
  {
    if |plan.targets| == |plan.migrated| {
      TargetsKeepProblems(s, plan.targets, plan.migrated);
    }
  }

  /** The migration of obligations is refused exactly if some claim does not convert or two spellings clash. */
  lemma UnsupportedIff(ids: seq<string>, detail: map<string, map<string, Value>>, required: map<string, bool>)
    requires Distinct(ids)
    ensures Unsupported(Translated(ids, detail, required)) <==>
      || (exists id :: id in ids && forall plan :: !Converts(id, detail, plan))
      || Clashing(ids, detail)
  {
    NeverBothKinds(ids, detail, required);
    CollidesIff(ids, detail, required);
    ProblemsIff(ids, detail, required);
    forall id ensures Checked(id, detail).Ok? <==> exists plan :: Converts(id, detail, plan) {
      CheckedIff(id, detail);
      if Checked(id, detail).Ok? {
        assert Converts(id, detail, Checked(id, detail).value);
      }
      hide Checked;
      hide Converts;
    }
    hide Translated;
    hide Checked;
    hide Converts;
    hide Clashing;
    hide Collides;
    hide BothKinds;
    if id :| id in ids && !Checked(id, detail).Ok? {
      var i :| 0 <= i < |ids| && ids[i] == id;
    }
  }

  // ---- what is written -------------------------------------------------

  /** A target whose prefix, up to its first colon, names tests. */
  ghost predicate Tested(t: string) {
    exists k :: 0 <= k < |t| && t[k] == ':' && ':' !in t[..k]
      && (t[..k] == "proptest" || t[..k] == "proptests" || "test" <= t[..k])
  }

  lemma WitnessIff(t: string)
    requires ':' in t
    ensures IsWitness(t) <==> Tested(t)
  {
    var c := Colon(t);
    assert c.Some?;
    if k :| 0 <= k < |t| && t[k] == ':' && ':' !in t[..k] {
      FirstColon(t, c.value, k);
    }
  }

  lemma FirstColon(t: string, i: nat, k: nat)
    requires i < |t| && t[i] == ':' && ':' !in t[..i] && k < |t| && t[k] == ':' && ':' !in t[..k]
    ensures i == k
  {
  }

  /** The entry of a target: the id it migrates to, and its legacy spelling if that differs. */
  ghost predicate IsEntry(x: Value, t: string) {
    && x.Obj? && EvidenceClaimId(t).Some?
    && Get(x.fields, "id") == Str(EvidenceClaimId(t).value)
    && (if EvidenceClaimId(t) == Some(t) then x.fields.Keys == {"id"}
        else x.fields.Keys == {"id", "legacy_id"} && Get(x.fields, "legacy_id") == Str(t))
  }

  lemma EntryIs(s: State, t: string)
    requires t in s.targetIds && EvidenceClaimId(t) == Some(s.targetIds[t])
    ensures IsEntry(TargetItem(s, t), t)
  {
    hide EvidenceClaimId;
  }

  lemma EntryIsOnly(x: Value, t: string, u: string)
    requires IsEntry(x, t) && IsEntry(x, u)
    ensures t == u
  {
    hide EvidenceClaimId;
  }

  /** The listed entries are those of the given targets. */
  ghost predicate EntriesOf(v: Value, targets: seq<string>) {
    && v.Arr? && |v.items| == |targets|
    && (forall x :: x in v.items ==> exists t :: t in targets && IsEntry(x, t))
    && (forall t :: t in targets ==> exists x :: x in v.items && IsEntry(x, t))
  }

  lemma ItemsAreEntries(s: State, targets: seq<string>)
    requires forall t :: t in targets ==> t in s.targetIds && EvidenceClaimId(t) == Some(s.targetIds[t])
    requires forall t :: t in SortedTargets(s, targets) <==> t in targets
    requires |SortedTargets(s, targets)| == |targets|
    ensures EntriesOf(Arr(TargetItems(s, SortedTargets(s, targets))), targets)
  {
    var sorted := SortedTargets(s, targets);
    var items := TargetItems(s, sorted);
    hide EvidenceClaimId;
    hide IsEntry;
    hide SortedTargets;
    forall x | x in items ensures exists t :: t in targets && IsEntry(x, t) {
      var i :| 0 <= i < |items| && items[i] == x;
      assert sorted[i] in sorted;
      EntryIs(s, sorted[i]);
    }
    forall t | t in targets ensures exists x :: x in items && IsEntry(x, t) {
      var i :| 0 <= i < |sorted| && sorted[i] == t;
      EntryIs(s, t);
      assert items[i] in items;
    }
  }

  /**
   The written targets: each distinct target that a converted claim lists has one
   entry, under `witnesses` if its prefix names tests and under `invariants` if not.
   */
  lemma WrittenTargets(ids: seq<string>, detail: map<string, map<string, Value>>, required: map<string, bool>)
    requires Distinct(ids) && !Unsupported(Translated(ids, detail, required))
    ensures var s := Translated(ids, detail, required);
      && Recorded(s)
      && EntriesOf(Get(ManifestOf(s).fields, "invariants"), s.invariants)
      && EntriesOf(Get(ManifestOf(s).fields, "witnesses"), s.witnesses)
      && Distinct(s.invariants) && Distinct(s.witnesses)
      && (forall t :: t in s.witnesses <==> SomeLists(ids, detail, t) && Tested(t))
      && (forall t :: t in s.invariants <==> SomeLists(ids, detail, t) && !Tested(t))
  {
    var s := Translated(ids, detail, required);
    TranslatedIsSound(ids, detail, required);
    SoundIsRecorded(s);
    WrittenEntries(s);
    forall t ensures t in s.targetIds <==> SomeLists(ids, detail, t) {
      TargetsAreListed(ids, detail, required, t);
    }
    forall t | SomeLists(ids, detail, t) ensures IsWitness(t) <==> Tested(t) {
      ListedHasColon(ids, detail, t);
      WitnessIff(t);
    }
    SoundKinds(s);
    hide *;
  }

  // ---- the order of the entries ----------------------------------------

  /** The id the target migrates to. */
  function Key(ids: map<string, string>, t: string): string {
    if t in ids then ids[t] else ""
  }

  /** The targets in order of their ids: none has a higher one than a later target, compared character by character. */
  ghost predicate InOrder(ids: map<string, string>, ts: seq<string>) {
    forall i, j :: 0 <= i < j < |ts| ==> AtMost(Key(ids, ts[i]), Key(ids, ts[j]))
  }

  ghost predicate AtMost(a: string, b: string) {
    a == b || Utf8.Lex(CharBelow, a, b)
  }

  lemma AtMostIsOrder(a: string, b: string, c: string)
    ensures AtMost(a, b) <==> !Utf8.Lex(CharBelow, b, a)
    ensures Utf8.Lex(CharBelow, a, b) ==> AtMost(a, b)
    ensures AtMost(a, b) && AtMost(b, c) ==> AtMost(a, c)
  {
    CharsAreOrdered();
    Utf8.LexTotal(CharBelow, a, b);
    if Utf8.Lex(CharBelow, a, b) && Utf8.Lex(CharBelow, b, c) {
      Utf8.LexTransitive(CharBelow, a, b, c);
    }
    hide Utf8.Lex;
  }

  lemma CharsAreOrdered()
    ensures Utf8.StrictOrder(CharBelow)
  {
  }

  lemma InsertKeepsMembers(less: (string, string) -> bool, x: string, ts: seq<string>)
    ensures forall t :: t in Snapshot.Insert(less, x, ts) <==> t == x || t in ts
  {
    Snapshot.InsertKeeps(less, x, ts);
    forall t ensures t in Snapshot.Insert(less, x, ts) <==> t == x || t in ts {
      assert t in Snapshot.Insert(less, x, ts) <==> t in multiset(Snapshot.Insert(less, x, ts));
    }
  }

  lemma {:induction false} InsertInOrder(ids: map<string, string>, x: string, ts: seq<string>)
    requires x in ids && (forall t :: t in ts ==> t in ids) && InOrder(ids, ts)
    ensures InOrder(ids, Snapshot.Insert(ById(ids), x, ts))
  {
    hide AtMost;
    hide Utf8.Lex;
    if ts != [] {
      var rest := ts[1..];
      assert ts == [ts[0]] + rest;
      FirstIsLeast(ids, ts);
      AtMostIsOrder(Key(ids, x), Key(ids, ts[0]), "");
      AtMostIsOrder(Key(ids, ts[0]), Key(ids, x), "");
      InsertStep(ids, x, ts);
      hide Snapshot.Insert;
      hide InOrder;
      if ById(ids)(ts[0], x) {
        InsertInOrder(ids, x, rest);
        InsertKeepsMembers(ById(ids), x, rest);
        Prepended(ids, ts[0], Snapshot.Insert(ById(ids), x, rest));
      } else {
        forall t | t in ts ensures AtMost(Key(ids, x), Key(ids, t)) {
          AtMostIsOrder(Key(ids, x), Key(ids, ts[0]), Key(ids, t));
        }
        Prepended(ids, x, ts);
      }
    }
  }

  lemma InsertStep(ids: map<string, string>, x: string, ts: seq<string>)
    requires ts != [] && x in ids && ts[0] in ids
    ensures ById(ids)(ts[0], x) <==> Utf8.Lex(CharBelow, Key(ids, ts[0]), Key(ids, x))
    ensures Snapshot.Insert(ById(ids), x, ts) ==
            if ById(ids)(ts[0], x) then [ts[0]] + Snapshot.Insert(ById(ids), x, ts[1..]) else [x] + ts
  {
    hide Utf8.Lex;
  }

  lemma FirstIsLeast(ids: map<string, string>, ts: seq<string>)
    requires ts != [] && InOrder(ids, ts)
    ensures forall t :: t in ts ==> AtMost(Key(ids, ts[0]), Key(ids, t))
    ensures InOrder(ids, ts[1..])
  {
    hide AtMost;
    hide Key;
    forall t | t in ts ensures AtMost(Key(ids, ts[0]), Key(ids, t)) {
      var j :| 0 <= j < |ts| && ts[j] == t;
      AtMostItself(Key(ids, t));
    }
  }

  lemma AtMostItself(a: string)
    ensures AtMost(a, a)
  {
  }

  lemma Prepended(ids: map<string, string>, x: string, ts: seq<string>)
    requires InOrder(ids, ts) && forall t :: t in ts ==> AtMost(Key(ids, x), Key(ids, t))
    ensures InOrder(ids, [x] + ts)
  {
    hide AtMost;
    hide Key;
  }

  lemma {:induction false} SortInOrder(ids: map<string, string>, ts: seq<string>)
    requires forall t :: t in ts ==> t in ids
    ensures InOrder(ids, Snapshot.Sort(ById(ids), ts))
  {
    if ts != [] {
      SortInOrder(ids, ts[1..]);
      var rest := Snapshot.Sort(ById(ids), ts[1..]);
      Snapshot.SortKeeps(ById(ids), ts[1..]);
      forall t | t in rest ensures t in ids {
        assert t in multiset(rest);
      }
      hide InOrder;
      InsertInOrder(ids, ts[0], rest);
    }
  }

  /** The entry's `id`. */
  ghost function IdOf(x: Value): string {
    if x.Obj? && Get(x.fields, "id").Str? then Get(x.fields, "id").s else ""
  }

  ghost predicate EntriesInOrder(v: Value) {
    && v.Arr?
    && forall i, j :: 0 <= i < j < |v.items| ==> AtMost(IdOf(v.items[i]), IdOf(v.items[j]))
  }

  /** The written targets stand in the order of the ids they migrate to. */
  lemma WrittenInOrder(s: State)
    requires Recorded(s)
    ensures EntriesInOrder(Get(ManifestOf(s).fields, "invariants"))
    ensures EntriesInOrder(Get(ManifestOf(s).fields, "witnesses"))
  {
    ItemsInOrder(s, s.invariants);
    ItemsInOrder(s, s.witnesses);
    SortedMembers(s, s.invariants);
    SortedMembers(s, s.witnesses);
    hide SortedTargets;
    hide EntriesInOrder;
  }

  lemma ItemsInOrder(s: State, targets: seq<string>)
    requires forall t :: t in targets ==> t in s.targetIds
    ensures forall t :: t in SortedTargets(s, targets) ==> t in s.targetIds
    ensures EntriesInOrder(Arr(TargetItems(s, SortedTargets(s, targets))))
  {
    SortInOrder(s.targetIds, targets);
    SortedMembers(s, targets);
    var sorted := SortedTargets(s, targets);
    assert sorted == Snapshot.Sort(ById(s.targetIds), targets);
    var items := TargetItems(s, sorted);
    hide SortedTargets;
    hide Snapshot.Sort;
    hide AtMost;
    forall i | 0 <= i < |items| ensures IdOf(items[i]) == Key(s.targetIds, sorted[i]) {
    }
    hide IdOf;
    hide Key;
  }

  lemma SoundKinds(s: State)
    requires Sound(s)
    ensures Distinct(s.invariants) && Distinct(s.witnesses)
    ensures forall t :: t in s.witnesses <==> t in s.targetIds && IsWitness(t)
    ensures forall t :: t in s.invariants <==> t in s.targetIds && !IsWitness(t)
  {
    hide IsWitness;
    hide TargetOk;
    hide ClaimOk;
  }

  lemma WrittenEntries(s: State)
    requires Sound(s)
    ensures Recorded(s)
    ensures EntriesOf(Get(ManifestOf(s).fields, "invariants"), s.invariants)
    ensures EntriesOf(Get(ManifestOf(s).fields, "witnesses"), s.witnesses)
  {
    SoundIsRecorded(s);
    TargetsAreOk(s);
    SortedMembers(s, s.invariants);
    SortedMembers(s, s.witnesses);
    SortedLength(s, s.invariants);
    SortedLength(s, s.witnesses);
    ItemsAreEntries(s, s.invariants);
    ItemsAreEntries(s, s.witnesses);
    hide EntriesOf;
    hide SortedTargets;
    hide EvidenceClaimId;
    hide Sound;
    hide ClaimItems;
  }

  lemma TargetsAreOk(s: State)
    requires Sound(s)
    ensures forall t :: t in s.invariants || t in s.witnesses ==>
      t in s.targetIds && EvidenceClaimId(t) == Some(s.targetIds[t])
  {
    hide IsWitness;
    hide EvidenceClaimId;
    hide ClaimOk;
    forall t | t in s.targetIds ensures EvidenceClaimId(t) == Some(s.targetIds[t]) {
      assert TargetOk(s, t);
    }
  }

  lemma ListedHasColon(ids: seq<string>, detail: map<string, map<string, Value>>, t: string)
    requires SomeLists(ids, detail, t)
    ensures ':' in t
  {
    var i :| 0 <= i < |ids| && Lists(ids[i], detail, t);
    CheckedIff(ids[i], detail);
    var plan := Checked(ids[i], detail).value;
    hide Checked;
    hide EvidenceClaimId;
    hide Enumerates;
    var k :| 0 <= k < |plan.targets| && plan.targets[k] == t;
  }

  /** A written system claim. */
  ghost predicate IsClaimEntry(
      x: Value, id: string, fields: map<string, Value>, required: map<string, bool>, plan: Plan)
  {
    && x.Obj? && EvidenceClaimId(id).Some?
    && Get(x.fields, "id") == Str(EvidenceClaimId(id).value)
    && (if EvidenceClaimId(id) == Some(id) then "legacy_id" !in x.fields else Get(x.fields, "legacy_id") == Str(id))
    && Get(x.fields, "required") == Bool(id in required && required[id])
    && Get(x.fields, "depends_on").Arr? && Get(x.fields, "required_evidence").Arr?
    && (forall m :: Str(m) in Get(x.fields, "depends_on").items <==> m in plan.migrated)
    && (forall v :: v in Get(x.fields, "depends_on").items ==> v.Str?)
    && (forall l :: Str(l) in Get(x.fields, "required_evidence").items <==> l in plan.layers)
    && (forall v :: v in Get(x.fields, "required_evidence").items ==> v.Str?)
    && Get(x.fields, "evidence_class") ==
         (if Get(fields, "evidence_class").Str? then Get(fields, "evidence_class") else Null)
    && Get(x.fields, "scope") == (if Get(fields, "scope").Obj? then Get(fields, "scope") else Null)
    && Get(x.fields, "waiver") == (if Get(fields, "waiver").Obj? then Get(fields, "waiver") else Null)
  }

  lemma StrListIs(xs: seq<string>)
    ensures StrList(xs).Arr? && (forall x :: Str(x) in StrList(xs).items <==> x in xs)
    ensures forall v :: v in StrList(xs).items ==> v.Str?
  {
    forall x ensures Str(x) in StrList(xs).items <==> x in xs {
      if x in xs {
        var i :| 0 <= i < |xs| && xs[i] == x;
        assert StrList(xs).items[i] in StrList(xs).items;
      }
    }
  }

  lemma ClaimEntryIs(
      id: string, detail: map<string, map<string, Value>>, required: map<string, bool>, plan: Plan, c: SystemClaim)
    requires Converts(id, detail, plan)
    requires c == SystemClaim(id, plan.id, id in required && required[id], Deduped(plan.migrated), plan.layers,
                              Obligations.Carried(detail[id]))
    ensures IsClaimEntry(ClaimItem(c), id, detail[id], required, plan)
  {
    hide Get;
    hide ClaimItem;
    hide Obligations.Carried;
    hide EvidenceClaimId;
    hide Enumerates;
    hide StrList;
    hide Deduped;
    StrListIs(c.dependsOn);
    StrListIs(c.layers);
    CarriedFields(detail[id]);
    ClaimFields(c);
  }

  lemma ClaimFields(c: SystemClaim)
    requires c.carried.Keys <= {"evidence_class", "scope", "waiver"}
    ensures ClaimItem(c).Obj?
    ensures var fields := ClaimItem(c).fields;
      && Get(fields, "id") == Str(c.id)
      && (if c.id == c.legacy then "legacy_id" !in fields else Get(fields, "legacy_id") == Str(c.legacy))
      && Get(fields, "required") == Bool(c.required)
      && Get(fields, "depends_on") == StrList(c.dependsOn)
      && Get(fields, "required_evidence") == StrList(c.layers)
      && Get(fields, "evidence_class") == Get(c.carried, "evidence_class")
      && Get(fields, "scope") == Get(c.carried, "scope")
      && Get(fields, "waiver") == Get(c.carried, "waiver")
  {
    hide StrList;
  }

  lemma CarriedFields(fields: map<string, Value>)
    ensures var carried := Obligations.Carried(fields);
      && carried.Keys <= {"evidence_class", "scope", "waiver"}
      && Get(carried, "evidence_class") ==
           (if Get(fields, "evidence_class").Str? then Get(fields, "evidence_class") else Null)
      && Get(carried, "scope") == (if Get(fields, "scope").Obj? then Get(fields, "scope") else Null)
      && Get(carried, "waiver") == (if Get(fields, "waiver").Obj? then Get(fields, "waiver") else Null)
  {
  }

  lemma {:induction false} ClaimsAre(
      ids: seq<string>, detail: map<string, map<string, Value>>, required: map<string, bool>, i: nat)
    requires i < |ids| && forall k :: 0 <= k < |ids| ==> Checked(ids[k], detail).Ok?
    ensures var s, plan := Translated(ids, detail, required), Checked(ids[i], detail).value;
      && |s.claims| == |ids| && ids[i] in detail
      && s.claims[i] == SystemClaim(ids[i], plan.id, ids[i] in required && required[ids[i]], Deduped(plan.migrated),
                                    plan.layers, Obligations.Carried(detail[ids[i]]))
  {
    hide *;
    var n := |ids| - 1;
    assert Checked(ids[n], detail).Ok?;
    OneProblem(Translated(ids[..n], detail, required), ids[n], detail, required);
    TranslatedStep(ids, detail, required);
    CheckedIsListed(ids[i], detail);
    assert forall k :: 0 <= k < n ==> ids[..n][k] == ids[k];
    ClaimsLength(ids[..n], detail, required);
    if i < n {
      ClaimsAre(ids[..n], detail, required, i);
    }
  }

  lemma CheckedIsListed(id: string, detail: map<string, map<string, Value>>)
    ensures Checked(id, detail).Ok? ==> id in detail
  {
    hide EvidenceClaimId;
    hide IdStrings;
  }

  lemma {:induction false} ClaimsLength(
      ids: seq<string>, detail: map<string, map<string, Value>>, required: map<string, bool>)
    requires forall k :: 0 <= k < |ids| ==> Checked(ids[k], detail).Ok?
    ensures |Translated(ids, detail, required).claims| == |ids|
  {
    hide *;
    if ids == [] {
      TranslatedNothing(detail, required);
    } else {
      var n := |ids| - 1;
      assert Checked(ids[n], detail).Ok?;
      OneProblem(Translated(ids[..n], detail, required), ids[n], detail, required);
      TranslatedStep(ids, detail, required);
      assert forall k :: 0 <= k < n ==> ids[..n][k] == ids[k];
      ClaimsLength(ids[..n], detail, required);
    }
  }

  /** The written system claims: one for each legacy claim, in order, each with what its claim says. */
  lemma WrittenClaims(ids: seq<string>, detail: map<string, map<string, Value>>, required: map<string, bool>, i: nat)
    requires Distinct(ids) && !Unsupported(Translated(ids, detail, required)) && i < |ids|
    ensures var s := Translated(ids, detail, required);
      && Recorded(s) && Get(ManifestOf(s).fields, "system_claims").Arr?
      && |Get(ManifestOf(s).fields, "system_claims").items| == |ids|
      && ids[i] in detail && Checked(ids[i], detail).Ok? && Converts(ids[i], detail, Checked(ids[i], detail).value)
      && IsClaimEntry(Get(ManifestOf(s).fields, "system_claims").items[i], ids[i], detail[ids[i]], required,
                      Checked(ids[i], detail).value)
  {
    var s := Translated(ids, detail, required);
    TranslatedIsSound(ids, detail, required);
    SoundIsRecorded(s);
    ProblemsIff(ids, detail, required);
    assert s.problems == [];
    ClaimsAre(ids, detail, required, i);
    CheckedIff(ids[i], detail);
    ClaimEntryIs(ids[i], detail, required, Checked(ids[i], detail).value, s.claims[i]);
    WrittenList(s);
    hide *;
  }

  lemma WrittenList(s: State)
    requires Recorded(s)
    ensures Get(ManifestOf(s).fields, "system_claims") == Arr(ClaimItems(s.claims))
  {
    hide ClaimItems;
    hide SortedTargets;
  }
}
