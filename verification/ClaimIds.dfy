/** The evidence ids that legacy obligation ids migrate to. */
module ClaimIds {
  import opened Basics
  import opened Chars

  predicate IsSafe(c: char) {
    IsAlnum(c) || c in "._-"
  }

  predicate IsUnsafe(c: char) {
    !IsSafe(c)
  }

  predicate IsSeparator(c: char) {
    c in "._-"
  }

  /** `UNSAFE_ID_RUN.sub("-", raw)` */
  function Collapse(raw: string): string
    decreases |raw|
  {
    if raw == "" then ""
    else if IsSafe(raw[0]) then [raw[0]] + Collapse(raw[1..])
    else "-" + Collapse(DropLeading(raw[1..], IsUnsafe))
  }

  /** `_safe_id_part` */
  function SafePart(raw: string): string {
    StripAll(Collapse(raw), IsSeparator)
  }

  function Colon(s: string): (r: Option<nat>)
    ensures r.Some? ==> r.value < |s| && s[r.value] == ':' && ':' !in s[..r.value]
    ensures r.None? ==> ':' !in s
  {
    if s == "" then None
    else if s[0] == ':' then Some(0)
    else
      var rest := Colon(s[1..]);
      assert s == [s[0]] + s[1..];
      if rest.None? then None
      else
        assert s[..rest.value + 1] == [s[0]] + s[1..][..rest.value];
        Some(rest.value + 1)
  }

  /** `evidence_claim_id` */
  function EvidenceClaimId(legacy: string): Option<string> {
    var colon := Colon(legacy);
    if colon.None? then
      var part := SafePart(legacy);
      if part == "" || !ProducerId(part) then None else Some(part)
    else
      JoinedId(SafePart(legacy[..colon.value]), SafePart(legacy[colon.value + 1..]))
  }

  function JoinedId(layer: string, name: string): Option<string> {
    if layer == "" || name == "" || !ProducerId(layer + "." + name) then None else Some(layer + "." + name)
  }

  /** Nonempty, safe throughout, and alphanumeric at both ends. */
  predicate Trimmed(s: string) {
    s != "" && (forall i :: 0 <= i < |s| ==> IsSafe(s[i])) && IsAlnum(s[0]) && IsAlnum(s[|s| - 1])
  }

  lemma {:induction false} CollapseIsSafe(raw: string)
    ensures forall i :: 0 <= i < |Collapse(raw)| ==> IsSafe(Collapse(raw)[i])
    decreases |raw|
  {
    if raw != "" {
      if IsSafe(raw[0]) {
        CollapseIsSafe(raw[1..]);
      } else {
        CollapseIsSafe(DropLeading(raw[1..], IsUnsafe));
      }
    }
  }

  lemma {:induction false} CollapseFixes(s: string)
    requires forall i :: 0 <= i < |s| ==> IsSafe(s[i])
    ensures Collapse(s) == s
  {
    if s != "" {
      CollapseFixes(s[1..]);
    }
  }

  lemma {:induction false} LeadingDropped(s: string)
    requires forall i :: 0 <= i < |s| ==> IsSafe(s[i])
    ensures var t := DropLeading(s, IsSeparator);
      (forall i :: 0 <= i < |t| ==> IsSafe(t[i])) && (t != "" ==> IsAlnum(t[0]))
  {
    if s != "" && IsSeparator(s[0]) {
      LeadingDropped(s[1..]);
    }
  }

  lemma {:induction false} TrailingDropped(s: string)
    requires (forall i :: 0 <= i < |s| ==> IsSafe(s[i])) && (s != "" ==> IsAlnum(s[0]))
    ensures var t := DropTrailing(s, IsSeparator); t == "" || Trimmed(t)
  {
    if s != "" && IsSeparator(s[|s| - 1]) {
      TrailingDropped(s[..|s| - 1]);
    }
  }

  lemma SafePartIsTrimmed(raw: string)
    ensures SafePart(raw) == "" || Trimmed(SafePart(raw))
  {
    CollapseIsSafe(raw);
    LeadingDropped(Collapse(raw));
    TrailingDropped(DropLeading(Collapse(raw), IsSeparator));
  }

  lemma SafePartFixes(s: string)
    requires Trimmed(s)
    ensures SafePart(s) == s
  {
    CollapseFixes(s);
    assert !IsSeparator(s[0]) && !IsSeparator(s[|s| - 1]);
    StripAllFixes(s, IsSeparator);
    hide *;
    assert SafePart(s) == s by { SafePartIs(s); }
  }

  lemma SafePartIs(raw: string)
    ensures SafePart(raw) == StripAll(Collapse(raw), IsSeparator)
  {
  }

  lemma TrimmedIsProducer(s: string)
    requires Trimmed(s)
    ensures ProducerId(s) && ':' !in s
  {
  }

  lemma JoinedIsTrimmed(layer: string, name: string)
    requires Trimmed(layer) && Trimmed(name)
    ensures Trimmed(layer + "." + name)
  {
  }

  /** There is an id exactly when each part of the legacy id keeps something; the final alphabet check never fails. */
  lemma IdExistsIffPartsSurvive(legacy: string)
    ensures var colon := Colon(legacy);
      EvidenceClaimId(legacy).Some? <==>
        if colon.None? then SafePart(legacy) != ""
        else SafePart(legacy[..colon.value]) != "" && SafePart(legacy[colon.value + 1..]) != ""
    ensures EvidenceClaimId(legacy).Some? ==> Trimmed(EvidenceClaimId(legacy).value)
  {
    hide SafePart;
    hide Trimmed;
    hide ProducerId;
    var colon := Colon(legacy);
    if colon.None? {
      SafePartIsTrimmed(legacy);
      if SafePart(legacy) != "" {
        TrimmedIsProducer(SafePart(legacy));
      }
    } else {
      var layer, name := SafePart(legacy[..colon.value]), SafePart(legacy[colon.value + 1..]);
      SafePartIsTrimmed(legacy[..colon.value]);
      SafePartIsTrimmed(legacy[colon.value + 1..]);
      if layer != "" && name != "" {
        JoinedIsTrimmed(layer, name);
        TrimmedIsProducer(layer + "." + name);
      }
    }
  }

  /** A migrated id is in the producer's alphabet and migrates to itself. */
  lemma IdIsStable(legacy: string)
    requires EvidenceClaimId(legacy).Some?
    ensures var id := EvidenceClaimId(legacy).value;
      ProducerId(id) && ObligationId(id) && EvidenceClaimId(id) == Some(id)
  {
    IdExistsIffPartsSurvive(legacy);
    var id := EvidenceClaimId(legacy).value;
    TrimmedIsProducer(id);
    SafePartFixes(id);
  }

  lemma {:induction false} PartOf(layer: string, name: string)
    requires ':' !in layer
    ensures Colon(layer + ":" + name) == Some(|layer|)
    ensures (layer + ":" + name)[..|layer|] == layer && (layer + ":" + name)[|layer| + 1..] == name
  {
    var s := layer + ":" + name;
    assert s[..|layer|] == layer && s[|layer| + 1..] == name;
    if layer == "" {
      assert s == ":" + name;
    } else {
      PartOf(layer[1..], name);
      assert s[1..] == layer[1..] + ":" + name;
      assert layer[0] in layer;
    }
  }

  ghost predicate AllUnsafe(run: string) {
    forall i :: 0 <= i < |run| ==> !IsSafe(run[i])
  }

  lemma UnsafeTail(run: string)
    requires run != "" && AllUnsafe(run)
    ensures !IsSafe(run[0]) && AllUnsafe(run[1..])
  {
    hide IsSafe;
  }

  /** An unsafe run collapses to one dash, just as if the dash had been written. */
  lemma {:induction false} RunCollapses(a: string, run: string, b: string)
    requires a != "" ==> IsSafe(a[|a| - 1])
    requires run != "" && AllUnsafe(run)
    requires b != "" ==> IsSafe(b[0])
    ensures Collapse(a + (run + b)) == Collapse(a + ("-" + b))
    decreases |a|
  {
    if a == "" {
      assert a + (run + b) == run + b && a + ("-" + b) == "-" + b;
      FirstRunCollapses(run, b);
    } else {
      var rest := if IsSafe(a[0]) then a[1..] else DropLeading(a[1..], IsUnsafe);
      CollapseStep(a, run + b);
      CollapseStep(a, "-" + b);
      hide *;
      RunCollapses(rest, run, b);
    }
  }

  lemma FirstRunCollapses(run: string, b: string)
    requires run != "" && AllUnsafe(run) && (b != "" ==> IsSafe(b[0]))
    ensures Collapse(run + b) == "-" + Collapse(b) == Collapse("-" + b)
  {
    UnsafeTail(run);
    RunDropped(run[1..], b);
    DashIsSafe();
    hide AllUnsafe;
    hide IsSafe;
    hide IsUnsafe;
    hide DropLeading;
    var dashed := "-" + b;
    TailOfAppend(run, b);
    assert dashed[1..] == b && dashed[0] == '-';
    assert Collapse(dashed) == ['-'] + Collapse(b);
  }

  lemma DashIsSafe()
    ensures IsSafe('-')
  {
  }

  /** Collapsing goes past the first character, or the unsafe run it starts, without looking further. */
  lemma CollapseStep(a: string, more: string)
    requires a != "" && IsSafe(a[|a| - 1])
    ensures var rest := if IsSafe(a[0]) then a[1..] else DropLeading(a[1..], IsUnsafe);
      && Collapse(a + more) == [if IsSafe(a[0]) then a[0] else '-'] + Collapse(rest + more)
      && |rest| < |a| && (rest != "" ==> IsSafe(rest[|rest| - 1]))
  {
    assert (a + more)[1..] == a[1..] + more;
    if !IsSafe(a[0]) {
      DropsWithin(a[1..], more);
    }
  }

  /** Dropping stops within a text that ends in a safe character. */
  lemma DropsWithin(a: string, more: string)
    requires a != "" && IsSafe(a[|a| - 1])
    ensures var rest := DropLeading(a, IsUnsafe);
      && DropLeading(a + more, IsUnsafe) == rest + more
      && rest != "" && |rest| <= |a| && IsSafe(rest[|rest| - 1])
  {
    var n := FirstSafe(a);
    var run, rest := a[..n], a[n..];
    hide DropLeading;
    hide IsSafe;
    assert a == run + rest && a + more == run + (rest + more);
    RunDropped(run, rest);
    RunDropped(run, rest + more);
  }

  lemma {:induction false} FirstSafe(a: string) returns (n: nat)
    requires a != "" && IsSafe(a[|a| - 1])
    ensures n < |a| && IsSafe(a[n]) && AllUnsafe(a[..n])
  {
    hide IsSafe;
    n := 0;
    if !IsSafe(a[0]) {
      var k := FirstSafe(a[1..]);
      n := k + 1;
    }
  }

  lemma {:induction false} RunDropped(run: string, b: string)
    requires AllUnsafe(run) && (b != "" ==> IsSafe(b[0]))
    ensures DropLeading(run + b, IsUnsafe) == b
  {
    hide IsSafe;
    if run == "" {
      assert run + b == b;
    } else {
      UnsafeTail(run);
      TailOfAppend(run, b);
      RunDropped(run[1..], b);
      DropOne(run + b);
      hide *;
    }
  }

  lemma TailOfAppend(a: string, b: string)
    requires a != ""
    ensures (a + b)[0] == a[0] && (a + b)[1..] == a[1..] + b
  {
  }

  lemma DropOne(s: string)
    requires s != "" && !IsSafe(s[0])
    ensures DropLeading(s, IsUnsafe) == DropLeading(s[1..], IsUnsafe)
  {
  }

  /** The mapping is not injective: any unsafe run of a name may be exchanged for a dash. */
  lemma IdsMeet(layer: string, a: string, run: string, b: string)
    requires ':' !in layer
    requires a != "" ==> IsSafe(a[|a| - 1])
    requires run != "" && AllUnsafe(run)
    requires b != "" ==> IsSafe(b[0])
    ensures EvidenceClaimId(layer + ":" + (a + (run + b))) == EvidenceClaimId(layer + ":" + (a + ("-" + b)))
  {
    RunCollapses(a, run, b);
    IdFromParts(layer, a + (run + b));
    IdFromParts(layer, a + ("-" + b));
    hide *;
  }

  /** The id of a legacy id with a layer, from the collapsed name. */
  lemma IdFromParts(layer: string, name: string)
    requires ':' !in layer
    ensures EvidenceClaimId(layer + ":" + name) == JoinedId(SafePart(layer), StripAll(Collapse(name), IsSeparator))
  {
    PartOf(layer, name);
    hide Collapse;
    hide Colon;
    hide ProducerId;
    hide StripAll;
  }
}
