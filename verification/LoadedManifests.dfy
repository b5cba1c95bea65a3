/** Which obligation manifests each judge loads, and to what: both directions, for every document. */
module LoadedManifests {
  import opened Basics
  import opened Records
  import opened Manifests
  import Chars

  // ---- the declarations in a document ----------------------------------

  /** The items of a collection; one that is absent is empty. */
  function Collection(v: Value, name: string): Value {
    if v.Obj? && name in v.fields then v.fields[name] else Arr([])
  }

  /** A list of objects, each with an id that obligations and the producer both allow. */
  ghost predicate WellListed(v: Value) {
    && v.Arr?
    && forall i :: 0 <= i < |v.items| ==>
         && v.items[i].Obj? && Get(v.items[i].fields, "id").Str?
         && Chars.ObligationId(Get(v.items[i].fields, "id").s) && Chars.ProducerId(Get(v.items[i].fields, "id").s)
  }

  ghost function Declarations(v: Value, kind: string): (ds: seq<Declared>)
    requires WellListed(v)
    ensures |ds| == |v.items|
    ensures forall i :: 0 <= i < |ds| ==>
      ds[i] == Declared(Get(v.items[i].fields, "id").s, kind, v.items[i].fields)
  {
    seq(|v.items|, i requires 0 <= i < |v.items| =>
      Declared(Get(v.items[i].fields, "id").s, kind, v.items[i].fields))
  }

  ghost predicate AllListed(v: Value) {
    && v.Obj? && WellListed(Collection(v, "invariants")) && WellListed(Collection(v, "witnesses"))
    && WellListed(Collection(v, "system_claims"))
  }

  /** Everything declared, in order: the invariants, the witnesses and the system claims. */
  ghost function All(v: Value): seq<Declared>
    requires AllListed(v)
  {
    Declarations(Collection(v, "invariants"), "invariant") + Declarations(Collection(v, "witnesses"), "witness")
    + Declarations(Collection(v, "system_claims"), SYSTEM_CLAIM)
  }

  lemma {:induction false} EntriesIff(items: seq<Value>, kind: string)
    ensures Entries(items, kind).Ok? <==> WellListed(Arr(items))
    ensures Entries(items, kind).Ok? ==> Entries(items, kind).value == Declarations(Arr(items), kind)
  {
    hide Chars.ObligationId;
    hide Chars.ProducerId;
    if items != [] {
      EntriesIff(items[1..], kind);
      ListedFromFirst(items);
      hide WellListed;
    }
  }

  lemma ListedFromFirst(items: seq<Value>)
    requires items != []
    ensures WellListed(Arr(items)) <==>
      && WellListed(Arr(items[1..])) && items[0].Obj? && Get(items[0].fields, "id").Str?
      && Chars.ObligationId(Get(items[0].fields, "id").s) && Chars.ProducerId(Get(items[0].fields, "id").s)
  {
    hide Chars.ObligationId;
    hide Chars.ProducerId;
    assert items == [items[0]] + items[1..];
  }

  lemma CollectIff(v: Value)
    requires v.Obj?
    ensures Collect(v.fields, COLLECTIONS).Ok? <==> AllListed(v)
    ensures AllListed(v) ==> Collect(v.fields, COLLECTIONS).value == All(v)
  {
    var a, b, c := Collection(v, "invariants"), Collection(v, "witnesses"), Collection(v, "system_claims");
    if a.Arr? { EntriesIff(a.items, "invariant"); }
    if b.Arr? { EntriesIff(b.items, "witness"); }
    if c.Arr? { EntriesIff(c.items, SYSTEM_CLAIM); }
    ThreeCollections(v.fields);
    hide WellListed;
    hide Entries;
    hide Collect;
  }

  lemma ThreeCollections(fields: map<string, Value>)
    ensures var a, b, c := CollectionItems(fields, "invariants"), CollectionItems(fields, "witnesses"),
                           CollectionItems(fields, "system_claims");
      && (Collect(fields, COLLECTIONS).Ok? <==>
            && a.Arr? && b.Arr? && c.Arr? && Entries(a.items, "invariant").Ok? && Entries(b.items, "witness").Ok?
            && Entries(c.items, SYSTEM_CLAIM).Ok?)
      && (Collect(fields, COLLECTIONS).Ok? ==>
            Collect(fields, COLLECTIONS).value ==
            Entries(a.items, "invariant").value + Entries(b.items, "witness").value
            + Entries(c.items, SYSTEM_CLAIM).value)
  {
    var last := [("system_claims", SYSTEM_CLAIM)];
    var two := [("witnesses", "witness")] + last;
    CollectStep(fields, "invariants", "invariant", two);
    CollectStep(fields, "witnesses", "witness", last);
    CollectStep(fields, "system_claims", SYSTEM_CLAIM, []);
    assert Collect(fields, []) == Ok([]);
    assert last + [] == last && [("invariants", "invariant")] + two == COLLECTIONS;
    hide Collect;
    hide Entries;
    hide CollectionItems;
  }

  lemma CollectStep(fields: map<string, Value>, name: string, kind: string, rest: seq<(string, string)>)
    ensures var items, all := CollectionItems(fields, name), Collect(fields, [(name, kind)] + rest);
      && (all.Ok? <==> items.Arr? && Entries(items.items, kind).Ok? && Collect(fields, rest).Ok?)
      && (all.Ok? ==> all.value == Entries(items.items, kind).value + Collect(fields, rest).value)
  {
    hide Entries;
    hide CollectionItems;
    assert ([(name, kind)] + rest)[1..] == rest;
  }

  // ---- what each judge accepts -----------------------------------------

  /** A nonempty list of well-formed ids, none repeated. */
  ghost predicate IdList(v: Value, wellFormed: string -> bool) {
    && v.Arr? && v.items != [] && (forall x :: x in v.items ==> x.Str? && wellFormed(x.s))
    && forall i, j :: 0 <= i < j < |v.items| ==> v.items[i] != v.items[j]
  }

  /** The list is these strings, in order. */
  ghost predicate Spells(v: Value, xs: seq<string>) {
    v.Arr? && |v.items| == |xs| && forall i :: 0 <= i < |xs| ==> v.items[i] == Str(xs[i])
  }

  /** The id is declared as an invariant or as a witness. */
  ghost predicate IsLeaf(ds: seq<Declared>, id: string) {
    exists i :: 0 <= i < |ds| && ds[i].id == id && (ds[i].kind == "invariant" || ds[i].kind == "witness")
  }

  /** The id is declared as a system claim. */
  ghost predicate IsSystem(ds: seq<Declared>, id: string) {
    exists i :: 0 <= i < |ds| && ds[i].id == id && ds[i].kind == SYSTEM_CLAIM
  }

  ghost predicate IsDeclared(ds: seq<Declared>, id: string) {
    exists i :: 0 <= i < |ds| && ds[i].id == id
  }

  ghost predicate ClaimResolves(ds: seq<Declared>, item: map<string, Value>) {
    && IdList(Get(item, "depends_on"), Chars.ObligationId)
    && (forall x :: x in Get(item, "depends_on").items ==> x.Str? && IsLeaf(ds, x.s))
    && IdList(Get(item, "required_evidence"), Chars.ToolId)
  }

  ghost predicate DistinctIds(ds: seq<Declared>) {
    forall i, j :: 0 <= i < j < |ds| ==> ds[i].id != ds[j].id
  }

  ghost predicate GateLoadable(v: Value) {
    && AllListed(v) && DistinctIds(All(v))
    && forall i :: 0 <= i < |All(v)| && All(v)[i].kind == SYSTEM_CLAIM ==> ClaimResolves(All(v), All(v)[i].item)
  }

  /** The manifest holds the declared ids in order, their kinds, and what the claims list, and nothing else. */
  ghost predicate Holds(m: Manifest, ds: seq<Declared>) {
    && |m.required| == |ds| && (forall i :: 0 <= i < |ds| ==> m.required[i] == ds[i].id)
    && (forall c :: c in m.kinds <==> IsDeclared(ds, c))
    && (forall i :: 0 <= i < |ds| ==> ds[i].id in m.kinds && m.kinds[ds[i].id] == ds[i].kind)
    && (forall c :: c in m.depends || c in m.evidence ==> IsSystem(ds, c))
  }

  /** Each system claim's dependencies and evidence, as listed. */
  ghost predicate HoldsClaims(m: Manifest, ds: seq<Declared>) {
    forall i :: 0 <= i < |ds| && ds[i].kind == SYSTEM_CLAIM ==>
      && ds[i].id in m.depends && Spells(Get(ds[i].item, "depends_on"), m.depends[ds[i].id])
      && ds[i].id in m.evidence && Spells(Get(ds[i].item, "required_evidence"), m.evidence[ds[i].id])
  }

  lemma StrictIff(v: Value, wellFormed: string -> bool)
    ensures StrictIds(v, wellFormed).Ok? <==> IdList(v, wellFormed)
    ensures StrictIds(v, wellFormed).Ok? ==> Spells(v, StrictIds(v, wellFormed).value)
  {
    if v.Arr? {
      assert forall i :: 0 <= i < |v.items| ==> v.items[i] in v.items;
    }
  }

  lemma DependsIff(ds: seq<Declared>, v: Value, deps: seq<string>)
    requires Unrepeated(Ids(ds)) && Spells(v, deps)
    ensures DependsWell(deps, Kinds(ds)) <==> forall x :: x in v.items ==> x.Str? && IsLeaf(ds, x.s)
  {
    forall d ensures d in Kinds(ds) && (Kinds(ds)[d] == "invariant" || Kinds(ds)[d] == "witness") <==> IsLeaf(ds, d) {
      KindIs(ds, d);
    }
    hide Kinds;
    hide IsLeaf;
    if DependsWell(deps, Kinds(ds)) {
      forall x | x in v.items ensures x.Str? && IsLeaf(ds, x.s) {
        var i :| 0 <= i < |v.items| && v.items[i] == x;
        assert deps[i] in deps;
      }
    }
    if forall x :: x in v.items ==> x.Str? && IsLeaf(ds, x.s) {
      forall d | d in deps ensures IsLeaf(ds, d) {
        var i :| 0 <= i < |deps| && deps[i] == d;
        assert v.items[i] in v.items;
      }
    }
  }

  lemma {:induction false} KindIs(ds: seq<Declared>, c: string)
    requires Unrepeated(Ids(ds))
    ensures c in Kinds(ds) <==> IsDeclared(ds, c)
    ensures forall i :: 0 <= i < |ds| && ds[i].id == c ==> c in Kinds(ds) && Kinds(ds)[c] == ds[i].kind
  {
    DistinctIff(ds);
    if ds != [] {
      var n := |ds| - 1;
      DistinctIff(ds[..n]);
      KindsStep(ds);
      hide *;
      DistinctBefore(ds);
      KindIs(ds[..n], c);
      if ds[n].id == c {
        OnlyLast(ds, c);
      } else {
        NotLast(ds, c);
      }
    }
  }

  lemma KindsStep(ds: seq<Declared>)
    requires ds != []
    ensures Kinds(ds) == Kinds(ds[..|ds| - 1])[ds[|ds| - 1].id := ds[|ds| - 1].kind]
  {
  }

  lemma DistinctBefore(ds: seq<Declared>)
    requires ds != [] && DistinctIds(ds)
    ensures DistinctIds(ds[..|ds| - 1])
  {
  }

  lemma OnlyLast(ds: seq<Declared>, c: string)
    requires ds != [] && DistinctIds(ds) && ds[|ds| - 1].id == c
    ensures forall i :: 0 <= i < |ds| && ds[i].id == c ==> i == |ds| - 1
  {
  }

  lemma NotLast(ds: seq<Declared>, c: string)
    requires ds != [] && ds[|ds| - 1].id != c
    ensures var most := ds[..|ds| - 1];
      && (IsDeclared(ds, c) <==> IsDeclared(most, c))
      && forall i :: 0 <= i < |ds| && ds[i].id == c ==> i < |most| && most[i] == ds[i]
  {
    var most := ds[..|ds| - 1];
    if i :| 0 <= i < |ds| && ds[i].id == c {
      assert most[i].id == c;
    }
    if i :| 0 <= i < |most| && most[i].id == c {
      assert ds[i].id == c;
    }
  }

  lemma DistinctIff(ds: seq<Declared>)
    ensures Unrepeated(Ids(ds)) <==> DistinctIds(ds)
  {
    if Unrepeated(Ids(ds)) {
      forall i, j | 0 <= i < j < |ds| ensures ds[i].id != ds[j].id {
        assert Ids(ds)[i] != Ids(ds)[j];
      }
    }
  }

  /** The remaining claims resolve, whatever has been collected. */
  lemma {:induction false} ResolveIff(ds: seq<Declared>, all: seq<Declared>, m: Manifest)
    requires Unrepeated(Ids(all))
    ensures ResolveClaims(ds, Kinds(all), m).Ok? <==>
      forall i :: 0 <= i < |ds| && ds[i].kind == SYSTEM_CLAIM ==> ClaimResolves(all, ds[i].item)
  {
    if ds != [] {
      assert ds == [ds[0]] + ds[1..];
      if ds[0].kind == SYSTEM_CLAIM {
        OneResolves(ds[0].item, all);
        var deps := StrictIds(Get(ds[0].item, "depends_on"), Chars.ObligationId);
        var evidence := StrictIds(Get(ds[0].item, "required_evidence"), Chars.ToolId);
        hide StrictIds;
        hide ClaimResolves;
        hide Kinds;
        hide DependsWell;
        if ClaimResolves(all, ds[0].item) {
          ResolveIff(ds[1..], all,
            m.(depends := m.depends[ds[0].id := deps.value], evidence := m.evidence[ds[0].id := evidence.value]));
        }
      } else {
        ResolveIff(ds[1..], all, m);
      }
    }
  }

  lemma OneResolves(item: map<string, Value>, all: seq<Declared>)
    requires Unrepeated(Ids(all))
    ensures var deps := StrictIds(Get(item, "depends_on"), Chars.ObligationId);
      var evidence := StrictIds(Get(item, "required_evidence"), Chars.ToolId);
      deps.Ok? && evidence.Ok? && DependsWell(deps.value, Kinds(all)) <==> ClaimResolves(all, item)
  {
    StrictIff(Get(item, "depends_on"), Chars.ObligationId);
    StrictIff(Get(item, "required_evidence"), Chars.ToolId);
    var deps := StrictIds(Get(item, "depends_on"), Chars.ObligationId);
    if deps.Ok? {
      DependsIff(all, Get(item, "depends_on"), deps.value);
    }
    hide StrictIds;
    hide IdList;
    hide Kinds;
    hide DependsWell;
  }

  /** The manifest with a claim's lists added. */
  ghost function WithClaim(m: Manifest, d: Declared): Manifest
    requires StrictIds(Get(d.item, "depends_on"), Chars.ObligationId).Ok?
    requires StrictIds(Get(d.item, "required_evidence"), Chars.ToolId).Ok?
  {
    m.(depends := m.depends[d.id := StrictIds(Get(d.item, "depends_on"), Chars.ObligationId).value],
       evidence := m.evidence[d.id := StrictIds(Get(d.item, "required_evidence"), Chars.ToolId).value])
  }

  lemma ResolveStep(ds: seq<Declared>, kinds: map<string, string>, m: Manifest)
    requires ds != [] && ResolveClaims(ds, kinds, m).Ok?
    ensures ds[0].kind != SYSTEM_CLAIM ==> ResolveClaims(ds, kinds, m) == ResolveClaims(ds[1..], kinds, m)
    ensures ds[0].kind == SYSTEM_CLAIM ==>
      && StrictIds(Get(ds[0].item, "depends_on"), Chars.ObligationId).Ok?
      && StrictIds(Get(ds[0].item, "required_evidence"), Chars.ToolId).Ok?
      && ResolveClaims(ds, kinds, m) == ResolveClaims(ds[1..], kinds, WithClaim(m, ds[0]))
  {
    hide StrictIds;
    hide DependsWell;
  }

  /** Resolving other claims changes nothing about one. */
  lemma {:induction false} OthersStay(ds: seq<Declared>, kinds: map<string, string>, m: Manifest, c: string)
    requires ResolveClaims(ds, kinds, m).Ok?
    requires forall i :: 0 <= i < |ds| && ds[i].kind == SYSTEM_CLAIM ==> ds[i].id != c
    ensures var r := ResolveClaims(ds, kinds, m).value;
      && r.required == m.required && r.kinds == m.kinds
      && (c in r.depends <==> c in m.depends) && (c in m.depends ==> r.depends[c] == m.depends[c])
      && (c in r.evidence <==> c in m.evidence) && (c in m.evidence ==> r.evidence[c] == m.evidence[c])
  {
    if ds != [] {
      ResolveStep(ds, kinds, m);
      hide ResolveClaims;
      hide StrictIds;
      OthersStay(ds[1..], kinds, if ds[0].kind == SYSTEM_CLAIM then WithClaim(m, ds[0]) else m, c);
    }
  }

  lemma {:induction false} ClaimIsAdded(ds: seq<Declared>, kinds: map<string, string>, m: Manifest, i: nat)
    requires ResolveClaims(ds, kinds, m).Ok? && DistinctIds(ds) && i < |ds| && ds[i].kind == SYSTEM_CLAIM
    ensures var r := ResolveClaims(ds, kinds, m).value;
      && ds[i].id in r.depends && Spells(Get(ds[i].item, "depends_on"), r.depends[ds[i].id])
      && ds[i].id in r.evidence && Spells(Get(ds[i].item, "required_evidence"), r.evidence[ds[i].id])
  {
    ResolveStep(ds, kinds, m);
    hide ResolveClaims;
    if i == 0 {
      StrictIff(Get(ds[0].item, "depends_on"), Chars.ObligationId);
      StrictIff(Get(ds[0].item, "required_evidence"), Chars.ToolId);
      hide StrictIds;
      hide Spells;
      hide IdList;
      assert forall k :: 0 <= k < |ds[1..]| ==> ds[1..][k] == ds[k + 1];
      OthersStay(ds[1..], kinds, WithClaim(m, ds[0]), ds[0].id);
    } else {
      hide StrictIds;
      hide Spells;
      ClaimIsAdded(ds[1..], kinds, if ds[0].kind == SYSTEM_CLAIM then WithClaim(m, ds[0]) else m, i - 1);
    }
  }

  /**
   Gate B loads a document exactly if everything in it is listed with a usable id
   of its own and every system claim lists its dependencies, all of them
   invariants or witnesses of the document, and its evidence. What it loads holds
   just what is declared.
   */
  lemma GateLoadsIff(v: Value)
    ensures LoadManifest(v).Ok? <==> GateLoadable(v)
    ensures LoadManifest(v).Ok? ==>
      Holds(LoadManifest(v).value, All(v)) && HoldsClaims(LoadManifest(v).value, All(v))
  {
    if v.Obj? {
      CollectIff(v);
      if AllListed(v) {
        var ds := All(v);
        LoadUnfolds(v);
        DistinctIff(ds);
        if DistinctIds(ds) {
          ResolveIff(ds, ds, Manifest(Ids(ds), Kinds(ds), map[], map[]));
          if LoadManifest(v).Ok? {
            LoadedHolds(ds);
          }
        }
      }
    }
    hide Collect;
    hide ResolveClaims;
    hide Kinds;
    hide Unrepeated;
    hide ClaimResolves;
    hide Holds;
    hide HoldsClaims;
    hide DistinctIds;
  }

  lemma LoadedHolds(ds: seq<Declared>)
    requires Unrepeated(Ids(ds)) && DistinctIds(ds)
    requires ResolveClaims(ds, Kinds(ds), Manifest(Ids(ds), Kinds(ds), map[], map[])).Ok?
    ensures var m := ResolveClaims(ds, Kinds(ds), Manifest(Ids(ds), Kinds(ds), map[], map[])).value;
      Holds(m, ds) && HoldsClaims(m, ds)
  {
    var start := Manifest(Ids(ds), Kinds(ds), map[], map[]);
    var m := ResolveClaims(ds, Kinds(ds), start).value;
    hide ResolveClaims;
    hide Kinds;
    hide Unrepeated;
    hide Spells;
    hide IsSystem;
    hide Holds;
    forall i | 0 <= i < |ds| && ds[i].kind == SYSTEM_CLAIM
      ensures ds[i].id in m.depends && Spells(Get(ds[i].item, "depends_on"), m.depends[ds[i].id])
      ensures ds[i].id in m.evidence && Spells(Get(ds[i].item, "required_evidence"), m.evidence[ds[i].id])
    {
      ClaimIsAdded(ds, Kinds(ds), start, i);
    }
    SameHead(ds, start);
    forall c | c in m.depends || c in m.evidence
      ensures IsSystem(ds, c)
    {
      KeyIsClaim(ds, start, c);
    }
    HoldsFrom(m, ds);
  }

  lemma HoldsFrom(m: Manifest, ds: seq<Declared>)
    requires Unrepeated(Ids(ds)) && m.required == Ids(ds) && m.kinds == Kinds(ds)
    requires forall c :: c in m.depends || c in m.evidence ==> IsSystem(ds, c)
    ensures Holds(m, ds)
  {
    hide *;
    forall c ensures c in m.kinds <==> IsDeclared(ds, c) {
      KindIs(ds, c);
    }
    forall i | 0 <= i < |ds| ensures ds[i].id in m.kinds && m.kinds[ds[i].id] == ds[i].kind {
      KindIs(ds, ds[i].id);
    }
    HoldsBy(m, ds);
  }

  lemma HoldsBy(m: Manifest, ds: seq<Declared>)
    requires m.required == Ids(ds) && forall c :: c in m.kinds <==> IsDeclared(ds, c)
    requires forall i :: 0 <= i < |ds| ==> ds[i].id in m.kinds && m.kinds[ds[i].id] == ds[i].kind
    requires forall c :: c in m.depends || c in m.evidence ==> IsSystem(ds, c)
    ensures Holds(m, ds)
  {
    hide IsSystem;
    hide IsDeclared;
  }

  lemma KeyIsClaim(ds: seq<Declared>, m: Manifest, c: string)
    requires ResolveClaims(ds, Kinds(ds), m).Ok? && c !in m.depends && c !in m.evidence
    ensures var r := ResolveClaims(ds, Kinds(ds), m).value;
      c in r.depends || c in r.evidence ==> IsSystem(ds, c)
  {
    if forall i :: 0 <= i < |ds| && ds[i].kind == SYSTEM_CLAIM ==> ds[i].id != c {
      OthersStay(ds, Kinds(ds), m, c);
    }
    hide ResolveClaims;
    hide Kinds;
  }

  lemma {:induction false} SameHead(ds: seq<Declared>, m: Manifest)
    requires ResolveClaims(ds, Kinds(ds), m).Ok?
    ensures var r := ResolveClaims(ds, Kinds(ds), m).value; r.required == m.required && r.kinds == m.kinds
  {
    HeadStays(ds, Kinds(ds), m);
  }

  lemma {:induction false} HeadStays(ds: seq<Declared>, kinds: map<string, string>, m: Manifest)
    requires ResolveClaims(ds, kinds, m).Ok?
    ensures var r := ResolveClaims(ds, kinds, m).value; r.required == m.required && r.kinds == m.kinds
  {
    if ds != [] {
      ResolveStep(ds, kinds, m);
      hide ResolveClaims;
      hide StrictIds;
      HeadStays(ds[1..], kinds, if ds[0].kind == SYSTEM_CLAIM then WithClaim(m, ds[0]) else m);
    }
  }

  // ---- the dashboard ---------------------------------------------------

  /** A nonempty list of strings that are not blank. */
  ghost predicate NameList(v: Value) {
    v.Arr? && v.items != [] && forall x :: x in v.items ==> Filled(x)
  }

  /** The strings of the list, each once. */
  ghost predicate Names(v: Value, xs: seq<string>) {
    && v.Arr? && (forall x :: x in xs <==> Str(x) in v.items)
    && forall i, j :: 0 <= i < j < |xs| ==> xs[i] != xs[j]
  }

  ghost predicate BoardLoadable(v: Value) {
    && AllListed(v) && DistinctIds(All(v))
    && forall i :: 0 <= i < |All(v)| && All(v)[i].kind == SYSTEM_CLAIM ==>
         NameList(Get(All(v)[i].item, "depends_on")) && NameList(Get(All(v)[i].item, "required_evidence"))
  }

  ghost predicate NamesClaims(m: Manifest, ds: seq<Declared>) {
    forall i :: 0 <= i < |ds| && ds[i].kind == SYSTEM_CLAIM ==>
      && ds[i].id in m.depends && Names(Get(ds[i].item, "depends_on"), m.depends[ds[i].id])
      && ds[i].id in m.evidence && Names(Get(ds[i].item, "required_evidence"), m.evidence[ds[i].id])
  }

  lemma {:induction false} DedupIs(items: seq<Value>)
    ensures forall x :: x in Dedup(items) <==> Str(x) in items
    ensures forall i, j :: 0 <= i < j < |Dedup(items)| ==> Dedup(items)[i] != Dedup(items)[j]
  {
    if items != [] {
      var n := |items| - 1;
      DedupIs(items[..n]);
      assert items == items[..n] + [items[n]];
    }
  }

  lemma LenientIff(v: Value)
    ensures LenientIds(v).Ok? <==> NameList(v)
    ensures LenientIds(v).Ok? ==> Names(v, LenientIds(v).value)
  {
    hide Filled;
    if v.Arr? {
      DedupIs(v.items);
      assert forall i :: 0 <= i < |v.items| ==> v.items[i] in v.items;
    }
    hide Dedup;
  }

  ghost function WithNames(m: Manifest, d: Declared): Manifest
    requires LenientIds(Get(d.item, "depends_on")).Ok? && LenientIds(Get(d.item, "required_evidence")).Ok?
  {
    m.(depends := m.depends[d.id := LenientIds(Get(d.item, "depends_on")).value],
       evidence := m.evidence[d.id := LenientIds(Get(d.item, "required_evidence")).value])
  }

  lemma ReadStep(ds: seq<Declared>, m: Manifest)
    requires ds != []
    ensures ds[0].kind != SYSTEM_CLAIM ==> ReadClaims(ds, m) == ReadClaims(ds[1..], m)
    ensures ds[0].kind == SYSTEM_CLAIM ==>
      var ok := LenientIds(Get(ds[0].item, "depends_on")).Ok? && LenientIds(Get(ds[0].item, "required_evidence")).Ok?;
      if ok then ReadClaims(ds, m) == ReadClaims(ds[1..], WithNames(m, ds[0])) else ReadClaims(ds, m).Err?
  {
    hide LenientIds;
  }

  lemma {:induction false} ReadIff(ds: seq<Declared>, m: Manifest)
    ensures ReadClaims(ds, m).Ok? <==>
      forall i :: 0 <= i < |ds| && ds[i].kind == SYSTEM_CLAIM ==>
        NameList(Get(ds[i].item, "depends_on")) && NameList(Get(ds[i].item, "required_evidence"))
  {
    if ds != [] {
      assert ds == [ds[0]] + ds[1..];
      ReadStep(ds, m);
      hide ReadClaims;
      LenientIff(Get(ds[0].item, "depends_on"));
      LenientIff(Get(ds[0].item, "required_evidence"));
      hide LenientIds;
      hide NameList;
      hide Names;
      if ds[0].kind != SYSTEM_CLAIM {
        ReadIff(ds[1..], m);
      } else if LenientIds(Get(ds[0].item, "depends_on")).Ok? && LenientIds(Get(ds[0].item, "required_evidence")).Ok? {
        ReadIff(ds[1..], WithNames(m, ds[0]));
      }
    }
  }

  lemma {:induction false} OthersStayRead(ds: seq<Declared>, m: Manifest, c: string)
    requires ReadClaims(ds, m).Ok?
    ensures var r := ReadClaims(ds, m).value;
      && r.required == m.required && r.kinds == m.kinds
      && ((forall i :: 0 <= i < |ds| && ds[i].kind == SYSTEM_CLAIM ==> ds[i].id != c) ==>
            && (c in r.depends <==> c in m.depends) && (c in m.depends ==> r.depends[c] == m.depends[c])
            && (c in r.evidence <==> c in m.evidence) && (c in m.evidence ==> r.evidence[c] == m.evidence[c]))
  {
    if ds != [] {
      ReadStep(ds, m);
      hide ReadClaims;
      hide LenientIds;
      assert forall k :: 0 <= k < |ds[1..]| ==> ds[1..][k] == ds[k + 1];
      OthersStayRead(ds[1..], if ds[0].kind == SYSTEM_CLAIM then WithNames(m, ds[0]) else m, c);
    }
  }

  lemma {:induction false} NamesAreAdded(ds: seq<Declared>, m: Manifest, i: nat)
    requires ReadClaims(ds, m).Ok? && DistinctIds(ds) && i < |ds| && ds[i].kind == SYSTEM_CLAIM
    ensures var r := ReadClaims(ds, m).value;
      && ds[i].id in r.depends && Names(Get(ds[i].item, "depends_on"), r.depends[ds[i].id])
      && ds[i].id in r.evidence && Names(Get(ds[i].item, "required_evidence"), r.evidence[ds[i].id])
  {
    ReadStep(ds, m);
    hide ReadClaims;
    if i == 0 {
      LenientIff(Get(ds[0].item, "depends_on"));
      LenientIff(Get(ds[0].item, "required_evidence"));
      hide LenientIds;
      hide Names;
      hide NameList;
      assert forall k :: 0 <= k < |ds[1..]| ==> ds[1..][k] == ds[k + 1];
      OthersStayRead(ds[1..], WithNames(m, ds[0]), ds[0].id);
    } else {
      hide LenientIds;
      hide Names;
      NamesAreAdded(ds[1..], if ds[0].kind == SYSTEM_CLAIM then WithNames(m, ds[0]) else m, i - 1);
    }
  }

  lemma KeyIsNamed(ds: seq<Declared>, m: Manifest, c: string)
    requires ReadClaims(ds, m).Ok? && c !in m.depends && c !in m.evidence
    ensures var r := ReadClaims(ds, m).value;
      c in r.depends || c in r.evidence ==> IsSystem(ds, c)
  {
    OthersStayRead(ds, m, c);
    hide ReadClaims;
  }

  lemma ReadHolds(ds: seq<Declared>)
    requires Unrepeated(Ids(ds)) && DistinctIds(ds)
    requires ReadClaims(ds, Manifest(Ids(ds), Kinds(ds), map[], map[])).Ok?
    ensures var m := ReadClaims(ds, Manifest(Ids(ds), Kinds(ds), map[], map[])).value;
      Holds(m, ds) && NamesClaims(m, ds)
  {
    var start := Manifest(Ids(ds), Kinds(ds), map[], map[]);
    var m := ReadClaims(ds, start).value;
    hide ReadClaims;
    hide Kinds;
    hide Unrepeated;
    hide Names;
    hide IsSystem;
    hide Holds;
    forall i | 0 <= i < |ds| && ds[i].kind == SYSTEM_CLAIM
      ensures ds[i].id in m.depends && Names(Get(ds[i].item, "depends_on"), m.depends[ds[i].id])
      ensures ds[i].id in m.evidence && Names(Get(ds[i].item, "required_evidence"), m.evidence[ds[i].id])
    {
      NamesAreAdded(ds, start, i);
    }
    OthersStayRead(ds, start, "");
    forall c | c in m.depends || c in m.evidence
      ensures IsSystem(ds, c)
    {
      KeyIsNamed(ds, start, c);
    }
    HoldsFrom(m, ds);
  }

  lemma ReadUnfolds(v: Value)
    requires v.Obj? && Collect(v.fields, COLLECTIONS).Ok?
    ensures var ds := Collect(v.fields, COLLECTIONS).value;
      && (!Unrepeated(Ids(ds)) ==> ReadManifest(v).Err?)
      && (Unrepeated(Ids(ds)) ==>
            ReadManifest(v) == ReadClaims(ds, Manifest(Ids(ds), Kinds(ds), map[], map[])))
  {
    hide Collect;
    hide ReadClaims;
    hide Kinds;
  }

  /**
   The dashboard loads the same documents but for its claims, whose lists need
   only be of nonblank strings, and holds each string of a list once.
   */
  lemma BoardLoadsIff(v: Value)
    ensures ReadManifest(v).Ok? <==> BoardLoadable(v)
    ensures ReadManifest(v).Ok? ==>
      Holds(ReadManifest(v).value, All(v)) && NamesClaims(ReadManifest(v).value, All(v))
  {
    if v.Obj? {
      CollectIff(v);
      if AllListed(v) {
        var ds := All(v);
        ReadUnfolds(v);
        DistinctIff(ds);
        if DistinctIds(ds) {
          ReadIff(ds, Manifest(Ids(ds), Kinds(ds), map[], map[]));
          if ReadManifest(v).Ok? {
            ReadHolds(ds);
          }
        }
      }
    }
    hide Collect;
    hide ReadClaims;
    hide Kinds;
    hide Unrepeated;
    hide NameList;
    hide Holds;
    hide NamesClaims;
    hide DistinctIds;
  }
}
