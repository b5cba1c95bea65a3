/** Loading the obligation manifest, strictly as Gate B does and leniently as the dashboard does. */
module Manifests {
  import opened Basics
  import opened Records
  import Chars

  datatype ManifestError = Malformed

  /** Obligations by collection, each with the kind it declares. */
  const COLLECTIONS: seq<(string, string)> :=
    [("invariants", "invariant"), ("witnesses", "witness"), ("system_claims", SYSTEM_CLAIM)]

  datatype Declared = Declared(id: string, kind: string, item: map<string, Value>)

  /** An id both grammars accept: an obligation id the producer could write a record for. */
  predicate UsableId(v: Value) {
    v.Str? && Chars.ObligationId(v.s) && Chars.ProducerId(v.s)
  }

  function Entries(items: seq<Value>, kind: string): Result<seq<Declared>, ManifestError> {
    if items == [] then Ok([])
    else if !items[0].Obj? || !UsableId(Get(items[0].fields, "id")) then Err(Malformed)
    else
      match Entries(items[1..], kind)
      case Err(e) => Err(e)
      case Ok(rest) => Ok([Declared(Get(items[0].fields, "id").s, kind, items[0].fields)] + rest)
  }

  function CollectionItems(fields: map<string, Value>, name: string): Value {
    if name in fields then fields[name] else Arr([])
  }

  function Collect(fields: map<string, Value>, collections: seq<(string, string)>)
    : Result<seq<Declared>, ManifestError>
  {
    if collections == [] then Ok([])
    else
      var items := CollectionItems(fields, collections[0].0);
      if !items.Arr? then Err(Malformed)
      else
        match Entries(items.items, collections[0].1)
        case Err(e) => Err(e)
        case Ok(own) =>
          match Collect(fields, collections[1..])
          case Err(e) => Err(e)
          case Ok(rest) => Ok(own + rest)
  }

  function Ids(ds: seq<Declared>): (r: seq<string>)
    ensures |r| == |ds| && forall i :: 0 <= i < |ds| ==> r[i] == ds[i].id
  {
    seq(|ds|, i requires 0 <= i < |ds| => ds[i].id)
  }

  predicate Unrepeated(ids: seq<string>) {
    forall i, j :: 0 <= i < j < |ids| ==> ids[i] != ids[j]
  }

  function Kinds(ds: seq<Declared>): (m: map<string, string>)
    ensures m.Keys == set d | d in ds :: d.id
  {
    if ds == [] then map[]
    else
      var n := |ds| - 1;
      assert ds == ds[..n] + [ds[n]];
      Kinds(ds[..n])[ds[n].id := ds[n].kind]
  }

  // ---- Gate B ----------------------------------------------------------

  /** A nonempty, duplicate-free array of ids. */
  function StrictIds(v: Value, wellFormed: string -> bool): Result<seq<string>, ManifestError> {
    if v.Arr? && v.items != [] && (forall i :: 0 <= i < |v.items| ==> v.items[i].Str? && wellFormed(v.items[i].s))
       && (forall i, j :: 0 <= i < j < |v.items| ==> v.items[i] != v.items[j])
    then Ok(seq(|v.items|, i requires 0 <= i < |v.items| => if v.items[i].Str? then v.items[i].s else ""))
    else Err(Malformed)
  }

  /** Dependencies are declared invariants and witnesses, so no claim can reach a claim. */
  predicate DependsWell(deps: seq<string>, kinds: map<string, string>) {
    forall d :: d in deps ==> d in kinds && (kinds[d] == "invariant" || kinds[d] == "witness")
  }

  function ResolveClaims(ds: seq<Declared>, kinds: map<string, string>, m: Manifest): Result<Manifest, ManifestError> {
    if ds == [] then Ok(m)
    else if ds[0].kind != SYSTEM_CLAIM then ResolveClaims(ds[1..], kinds, m)
    else
      var deps := StrictIds(Get(ds[0].item, "depends_on"), Chars.ObligationId);
      var evidence := StrictIds(Get(ds[0].item, "required_evidence"), Chars.ToolId);
      if deps.Err? || evidence.Err? || !DependsWell(deps.value, kinds) then Err(Malformed)
      else
        ResolveClaims(ds[1..], kinds,
          m.(depends := m.depends[ds[0].id := deps.value], evidence := m.evidence[ds[0].id := evidence.value]))
  }

  function LoadManifest(v: Value): Result<Manifest, ManifestError> {
    if !v.Obj? then Err(Malformed)
    else
      match Collect(v.fields, COLLECTIONS)
      case Err(e) => Err(e)
      case Ok(ds) =>
        if !Unrepeated(Ids(ds)) then Err(Malformed)
        else ResolveClaims(ds, Kinds(ds), Manifest(Ids(ds), Kinds(ds), map[], map[]))
  }

  // ---- the dashboard ---------------------------------------------------

  function Dedup(items: seq<Value>): seq<string> {
    if items == [] then []
    else
      var n := |items| - 1;
      var before := Dedup(items[..n]);
      if !items[n].Str? || items[n].s in before then before else before + [items[n].s]
  }

  function LenientIds(v: Value): Result<seq<string>, ManifestError> {
    if v.Arr? && v.items != [] && forall i :: 0 <= i < |v.items| ==> Filled(v.items[i]) then Ok(Dedup(v.items))
    else Err(Malformed)
  }

  function ReadClaims(ds: seq<Declared>, m: Manifest): Result<Manifest, ManifestError> {
    if ds == [] then Ok(m)
    else if ds[0].kind != SYSTEM_CLAIM then ReadClaims(ds[1..], m)
    else
      var deps := LenientIds(Get(ds[0].item, "depends_on"));
      var evidence := LenientIds(Get(ds[0].item, "required_evidence"));
      if deps.Err? || evidence.Err? then Err(Malformed)
      else
        ReadClaims(ds[1..],
          m.(depends := m.depends[ds[0].id := deps.value], evidence := m.evidence[ds[0].id := evidence.value]))
  }

  function ReadManifest(v: Value): Result<Manifest, ManifestError> {
    if !v.Obj? then Err(Malformed)
    else
      match Collect(v.fields, COLLECTIONS)
      case Err(e) => Err(e)
      case Ok(ds) =>
        if !Unrepeated(Ids(ds)) then Err(Malformed)
        else ReadClaims(ds, Manifest(Ids(ds), Kinds(ds), map[], map[]))
  }

  // ---- what loading establishes ----------------------------------------

  lemma {:induction false} DedupOfDistinct(items: seq<Value>)
    requires forall i :: 0 <= i < |items| ==> items[i].Str?
    requires forall i, j :: 0 <= i < j < |items| ==> items[i] != items[j]
    ensures Dedup(items) == seq(|items|, i requires 0 <= i < |items| => if items[i].Str? then items[i].s else "")
  {
    if items != [] {
      var n := |items| - 1;
      DedupOfDistinct(items[..n]);
      assert forall i :: 0 <= i < n ==> Dedup(items[..n])[i] == items[i].s;
      assert items[n].s !in Dedup(items[..n]);
    }
  }

  lemma StrictIsLenient(v: Value, wellFormed: string -> bool)
    requires StrictIds(v, wellFormed).Ok?
    requires forall s :: wellFormed(s) ==> !Chars.Blank(s)
    ensures LenientIds(v) == StrictIds(v, wellFormed)
  {
    DedupOfDistinct(v.items);
  }

  lemma IdentifiersAreNotBlank(s: string, others: string)
    requires Chars.Identifier(s, others)
    ensures !Chars.Blank(s)
  {
    assert !Chars.IsSpace(s[0]);
  }

  lemma {:induction false} ReadAgrees(ds: seq<Declared>, kinds: map<string, string>, m: Manifest)
    requires ResolveClaims(ds, kinds, m).Ok?
    ensures ReadClaims(ds, m) == ResolveClaims(ds, kinds, m)
  {
    if ds != [] {
      if ds[0].kind == SYSTEM_CLAIM {
        forall s | Chars.ObligationId(s) ensures !Chars.Blank(s) { IdentifiersAreNotBlank(s, "._:-"); }
        forall s | Chars.ToolId(s) ensures !Chars.Blank(s) { IdentifiersAreNotBlank(s, "._:+/-"); }
        StrictIsLenient(Get(ds[0].item, "depends_on"), Chars.ObligationId);
        StrictIsLenient(Get(ds[0].item, "required_evidence"), Chars.ToolId);
        var deps := StrictIds(Get(ds[0].item, "depends_on"), Chars.ObligationId);
        var evidence := StrictIds(Get(ds[0].item, "required_evidence"), Chars.ToolId);
        ReadAgrees(ds[1..], kinds,
          m.(depends := m.depends[ds[0].id := deps.value], evidence := m.evidence[ds[0].id := evidence.value]));
      } else {
        ReadAgrees(ds[1..], kinds, m);
      }
    }
  }

  /** A manifest Gate B loads is loaded by the dashboard, to the same thing. */
  lemma LoadsAgree(v: Value)
    requires LoadManifest(v).Ok?
    ensures ReadManifest(v) == LoadManifest(v)
  {
    var ds := Collect(v.fields, COLLECTIONS).value;
    ReadAgrees(ds, Kinds(ds), Manifest(Ids(ds), Kinds(ds), map[], map[]));
  }

  /** A loaded manifest: ids unrepeated, every system claim resolved, dependencies declared and never claims. */
  ghost predicate WellFounded(m: Manifest) {
    && Unrepeated(m.required) && (forall c :: c in m.required <==> c in m.kinds)
    && (forall c :: c in m.depends ==> DependsWell(m.depends[c], m.kinds))
    && (forall c :: c in m.kinds && m.kinds[c] == SYSTEM_CLAIM ==> c in m.depends && c in m.evidence)
    && m.depends.Keys == m.evidence.Keys
    && (forall c :: c in m.depends ==> c in m.kinds && m.kinds[c] == SYSTEM_CLAIM)
  }

  ghost function SystemIds(ds: seq<Declared>): set<string> {
    set d | d in ds && d.kind == SYSTEM_CLAIM :: d.id
  }

  lemma {:induction false} ResolveSpec(ds: seq<Declared>, kinds: map<string, string>, m: Manifest)
    requires ResolveClaims(ds, kinds, m).Ok? && m.depends.Keys == m.evidence.Keys
    requires forall c :: c in m.depends ==> DependsWell(m.depends[c], kinds)
    ensures var r := ResolveClaims(ds, kinds, m).value;
      && r.required == m.required && r.kinds == m.kinds
      && (forall c :: c in r.depends ==> DependsWell(r.depends[c], kinds))
      && r.depends.Keys == r.evidence.Keys == m.depends.Keys + SystemIds(ds)
  {
    if ds != [] {
      assert ds == [ds[0]] + ds[1..];
      if ds[0].kind != SYSTEM_CLAIM {
        ResolveSpec(ds[1..], kinds, m);
      } else {
        var deps := StrictIds(Get(ds[0].item, "depends_on"), Chars.ObligationId);
        var evidence := StrictIds(Get(ds[0].item, "required_evidence"), Chars.ToolId);
        ResolveSpec(ds[1..], kinds,
          m.(depends := m.depends[ds[0].id := deps.value], evidence := m.evidence[ds[0].id := evidence.value]));
      }
    }
  }

  lemma {:induction false} KindsSpec(ds: seq<Declared>)
    requires Unrepeated(Ids(ds))
    ensures forall i :: 0 <= i < |ds| ==> ds[i].id in Kinds(ds) && Kinds(ds)[ds[i].id] == ds[i].kind
  {
    if ds != [] {
      var n := |ds| - 1;
      assert forall i, j :: 0 <= i < j < |ds| ==> Ids(ds)[i] != Ids(ds)[j];
      assert Unrepeated(Ids(ds[..n]));
      KindsSpec(ds[..n]);
      assert forall i :: 0 <= i < n ==> ds[..n][i] == ds[i] && ds[i].id != ds[n].id;
    }
  }

  lemma LoadUnfolds(v: Value)
    requires v.Obj? && Collect(v.fields, COLLECTIONS).Ok?
    ensures var ds := Collect(v.fields, COLLECTIONS).value;
      && (!Unrepeated(Ids(ds)) ==> LoadManifest(v).Err?)
      && (Unrepeated(Ids(ds)) ==>
            LoadManifest(v) ==
            ResolveClaims(ds, Kinds(ds),
              Manifest(Ids(ds), Kinds(ds), map[], map[])))
  {
    hide Collect;
    hide ResolveClaims;
    hide Kinds;
  }

  lemma LoadedIsWellFounded(v: Value)
    requires LoadManifest(v).Ok?
    ensures WellFounded(LoadManifest(v).value)
  {
    assert v.Obj? && Collect(v.fields, COLLECTIONS).Ok?;
    LoadUnfolds(v);
    hide *;
    var ds := Collect(v.fields, COLLECTIONS).value;
    ResolvedIsWellFounded(ds);
  }

  lemma ResolvedIsWellFounded(ds: seq<Declared>)
    requires Unrepeated(Ids(ds))
    requires ResolveClaims(ds, Kinds(ds), Manifest(Ids(ds), Kinds(ds), map[], map[])).Ok?
    ensures WellFounded(ResolveClaims(ds, Kinds(ds), Manifest(Ids(ds), Kinds(ds), map[], map[])).value)
  {
    var m := ResolveClaims(ds, Kinds(ds), Manifest(Ids(ds), Kinds(ds), map[], map[])).value;
    ResolveSpec(ds, Kinds(ds), Manifest(Ids(ds), Kinds(ds), map[], map[]));
    KindsAreIds(ds);
    SystemClaimsAreKept(ds);
    hide *;
    assert m.depends.Keys == SystemIds(ds);
    Assembled(m, SystemIds(ds));
  }

  lemma Assembled(m: Manifest, systems: set<string>)
    requires Unrepeated(m.required) && forall c :: c in m.required <==> c in m.kinds
    requires m.depends.Keys == m.evidence.Keys == systems
    requires forall c :: c in systems <==> c in m.kinds && m.kinds[c] == SYSTEM_CLAIM
    requires forall c :: c in m.depends ==> DependsWell(m.depends[c], m.kinds)
    ensures WellFounded(m)
  {
    hide Unrepeated;
    hide DependsWell;
  }

  lemma KindsAreIds(ds: seq<Declared>)
    ensures forall c :: c in Ids(ds) <==> c in Kinds(ds)
  {
    forall c ensures c in Ids(ds) <==> c in Kinds(ds) {
      if c in Kinds(ds) {
        var d :| d in ds && d.id == c;
        var i :| 0 <= i < |ds| && ds[i] == d;
        assert Ids(ds)[i] == c;
      }
      if c in Ids(ds) {
        var i :| 0 <= i < |ds| && Ids(ds)[i] == c;
        assert ds[i] in ds && ds[i].id == c;
      }
    }
  }

  lemma SystemClaimsAreKept(ds: seq<Declared>)
    requires Unrepeated(Ids(ds))
    ensures forall c :: c in SystemIds(ds) <==> c in Kinds(ds) && Kinds(ds)[c] == SYSTEM_CLAIM
  {
    KindsSpec(ds);
    forall c | c in Kinds(ds) ensures exists d :: d in ds && d.id == c && Kinds(ds)[c] == d.kind {
      var d :| d in ds && d.id == c;
      var i :| 0 <= i < |ds| && ds[i] == d;
      assert Kinds(ds)[ds[i].id] == ds[i].kind;
    }
    forall d | d in ds ensures d.id in Kinds(ds) && Kinds(ds)[d.id] == d.kind {
      var i :| 0 <= i < |ds| && ds[i] == d;
    }
  }
}
