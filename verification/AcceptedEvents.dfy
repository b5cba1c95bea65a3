/** Which history events a run accepts, condition by condition on the event and on what backs it. */
module AcceptedEvents {
  import opened Basics
  import opened Receipts
  import History

  /**
   The reference holds this artifact: remembered for it under its path, or, where
   nothing is remembered there, validated, with no other reference to the path
   among those `earlier` in the same check.
   */
  ghost predicate Held(r: Rules, m: Memory, w: World, earlier: seq<Ref>, ref: Ref, a: Artifact) {
    if r.path(ref) in m.artifacts then m.artifacts[r.path(ref)] == (ref, a)
    else
      && w.artifact(ref) == Some(a)
      && forall k :: 0 <= k < |earlier| && r.path(earlier[k]) == r.path(ref) ==> earlier[k] == ref
  }

  /** Each requested slot up to the `n`th holds a PASS that fits it. */
  ghost predicate AllHeld(r: Rules, m: Memory, w: World, earlier: seq<Ref>, x: Receipt, n: nat)
    requires n <= |x.asked|
  {
    forall j :: 0 <= j < n ==> SlotHeld(r, m, w, earlier, x, j)
  }

  ghost predicate SlotHeld(r: Rules, m: Memory, w: World, earlier: seq<Ref>, x: Receipt, j: nat)
    requires j < |x.asked|
  {
    exists a :: Held(r, m, w, earlier + References(x.asked[..j]), x.asked[j].execution, a)
                && a.result == History.PASS && r.fits(x, x.asked[j], a)
  }

  function References(asked: seq<Asked>): (refs: seq<Ref>)
    ensures |refs| == |asked| && forall i :: 0 <= i < |asked| ==> refs[i] == asked[i].execution
  {
    seq(|asked|, i requires 0 <= i < |asked| => asked[i].execution)
  }

  /** The reference holds this observation receipt: remembered for it, or read, answered and with its slots held. */
  ghost predicate Observes(r: Rules, m: Memory, w: World, earlier: seq<Ref>, ref: Ref, x: Receipt) {
    if r.path(ref) in m.checks then m.checks[r.path(ref)] == (ref, x)
    else w.receipt(ref) == Some(x) && w.answered(ref) && AllHeld(r, m, w, earlier, x, |x.asked|)
  }

  ghost predicate InSlot(e: History.Event, member: History.Member) {
    e.claim == Some(member.claim) && e.slot == Some(member.slot)
  }

  /** The event's claim and slot name one member, this one. */
  ghost predicate OnlyMember(members: seq<History.Member>, e: History.Event, member: History.Member) {
    InSlot(e, member) && exists i: nat :: MemberAt(members, e, member, i)
  }

  ghost predicate MemberAt(members: seq<History.Member>, e: History.Event, member: History.Member, i: nat) {
    && i < |members| && members[i] == member
    && forall j :: 0 <= j < |members| && InSlot(e, members[j]) ==> j == i
  }

  /** The event's slot is requested once, so. */
  ghost predicate OnlySlot(asked: seq<Asked>, e: History.Event, one: Asked) {
    e.slot == Some(one.slot) && exists i: nat :: SlotAt(asked, e, one, i)
  }

  ghost predicate SlotAt(asked: seq<Asked>, e: History.Event, one: Asked, i: nat) {
    && i < |asked| && asked[i] == one
    && forall j :: 0 <= j < |asked| && e.slot == Some(asked[j].slot) ==> j == i
  }

  /** The receipt is about the event: its claim, its slot, its execution and tool, and its result. */
  ghost predicate Tells(r: Rules, x: Receipt, e: History.Event, member: History.Member, a: Artifact) {
    && e.claim == Some(x.claim)
    && (exists one :: OnlySlot(x.asked, e, one) && e.execution == Some(one.execution) && one.tool == member.tool)
    && r.outcome(x, member.slot, Some(a)) == Some(e.result)
  }

  ghost predicate Backed(r: Rules, m: Memory, w: World, e: History.Event, a: Artifact) {
    && e.execution.Some? && Held(r, m, w, [], e.execution.value, a)
    && a.key == e.key && a.attempt == e.attempt && a.members == e.members
  }

  /** The observation has a receipt that tells of the member, or none and is no PASS. */
  ghost predicate Told(r: Rules, m: Memory, w: World, e: History.Event, member: History.Member) {
    if e.observation == None then e.result != History.PASS
    else exists x, a ::
      && Backed(r, m, w, e, a)
      && Observes(r, m, w, [e.execution.value], e.observation.value, x) && Tells(r, x, e, member, a)
  }

  // ---- members and slots -----------------------------------------------

  lemma {:induction false} NoMembers(members: seq<History.Member>, e: History.Event)
    ensures MembersOf(members, e) == [] <==> forall j :: 0 <= j < |members| ==> !InSlot(e, members[j])
  {
    if members != [] {
      NoMembers(members[1..], e);
      assert members == [members[0]] + members[1..];
    }
  }

  lemma {:induction false} OneMember(members: seq<History.Member>, e: History.Event, x: History.Member)
    ensures MembersOf(members, e) == [x] <==> OnlyMember(members, e, x)
  {
    if members != [] {
      var rest := members[1..];
      assert members == [members[0]] + rest;
      NoMembers(rest, e);
      OneMember(rest, e, x);
      hide MembersOf;
      if InSlot(e, members[0]) {
        assert MembersOf(members, e) == [members[0]] + MembersOf(rest, e) by {
          MembersStep(members, e);
        }
        assert |MembersOf(members, e)| == 1 + |MembersOf(rest, e)| && MembersOf(members, e)[0] == members[0];
        if MembersOf(rest, e) == [] && members[0] == x {
          assert MemberAt(members, e, x, 0);
        }
        if i: nat :| InSlot(e, x) && MemberAt(members, e, x, i) {
          forall j | 0 <= j < |rest| ensures !InSlot(e, rest[j]) {
            assert rest[j] == members[j + 1];
          }
          assert members[0] == x && MembersOf(members, e) == [x] + [];
        }
      } else {
        MembersStep(members, e);
        if i: nat :| InSlot(e, x) && MemberAt(rest, e, x, i) {
          assert MemberAt(members, e, x, i + 1);
        }
        if i: nat :| InSlot(e, x) && MemberAt(members, e, x, i) {
          assert forall j :: 0 <= j < |rest| ==> rest[j] == members[j + 1];
          assert MemberAt(rest, e, x, i - 1);
        }
      }
    }
  }

  lemma MembersStep(members: seq<History.Member>, e: History.Event)
    requires members != []
    ensures MembersOf(members, e) ==
            (if InSlot(e, members[0]) then [members[0]] else []) + MembersOf(members[1..], e)
  {
  }

  lemma SlotsStep(asked: seq<Asked>, e: History.Event)
    requires asked != []
    ensures SlotsOf(asked, e) == (if e.slot == Some(asked[0].slot) then [asked[0]] else []) + SlotsOf(asked[1..], e)
  {
  }

  lemma {:induction false} NoSlots(asked: seq<Asked>, e: History.Event)
    ensures SlotsOf(asked, e) == [] <==> forall j :: 0 <= j < |asked| ==> e.slot != Some(asked[j].slot)
  {
    if asked != [] {
      NoSlots(asked[1..], e);
      assert asked == [asked[0]] + asked[1..];
    }
  }

  lemma {:induction false} OneSlot(asked: seq<Asked>, e: History.Event, x: Asked)
    ensures SlotsOf(asked, e) == [x] <==> OnlySlot(asked, e, x)
  {
    if asked != [] {
      var rest := asked[1..];
      assert asked == [asked[0]] + rest;
      NoSlots(rest, e);
      OneSlot(rest, e, x);
      SlotsStep(asked, e);
      hide SlotsOf;
      if e.slot == Some(asked[0].slot) {
        assert |SlotsOf(asked, e)| == 1 + |SlotsOf(rest, e)| && SlotsOf(asked, e)[0] == asked[0];
        if SlotsOf(rest, e) == [] && asked[0] == x {
          assert SlotAt(asked, e, x, 0);
        }
        if i: nat :| e.slot == Some(x.slot) && SlotAt(asked, e, x, i) {
          forall j | 0 <= j < |rest| ensures e.slot != Some(rest[j].slot) {
            assert rest[j] == asked[j + 1];
          }
          assert asked[0] == x && SlotsOf(asked, e) == [x] + [];
        }
      } else {
        if i: nat :| e.slot == Some(x.slot) && SlotAt(rest, e, x, i) {
          assert SlotAt(asked, e, x, i + 1);
        }
        if i: nat :| e.slot == Some(x.slot) && SlotAt(asked, e, x, i) {
          assert forall j :: 0 <= j < |rest| ==> rest[j] == asked[j + 1];
          assert SlotAt(rest, e, x, i - 1);
        }
      }
    }
  }

  // ---- what one check remembers ----------------------------------------

  /** The memory after the references `earlier` have been found, in the same world. */
  ghost predicate Grown(r: Rules, m: Memory, w: World, earlier: seq<Ref>, n: Memory) {
    && m.artifacts.Keys <= n.artifacts.Keys && n.checks == m.checks
    && (forall p :: p in m.artifacts ==> n.artifacts[p] == m.artifacts[p])
    && (forall p :: p in n.artifacts && p !in m.artifacts ==>
          exists k :: 0 <= k < |earlier| && r.path(earlier[k]) == p)
    && (forall k :: 0 <= k < |earlier| && r.path(earlier[k]) !in m.artifacts ==>
          && w.artifact(earlier[k]).Some? && r.path(earlier[k]) in n.artifacts
          && n.artifacts[r.path(earlier[k])] == (earlier[k], w.artifact(earlier[k]).value))
  }

  /** A reference is found, after others, exactly if it holds an artifact. */
  lemma FoundIff(r: Rules, m: Memory, w: World, earlier: seq<Ref>, n: Memory, ref: Ref)
    requires Grown(r, m, w, earlier, n)
    ensures forall a :: Execution(r, n, w, ref).0 == Some(a) <==> Held(r, m, w, earlier, ref, a)
    ensures Execution(r, n, w, ref).0.Some? ==> Grown(r, m, w, earlier + [ref], Execution(r, n, w, ref).1)
  {
    var p := r.path(ref);
    if p in n.artifacts && p !in m.artifacts {
      var k :| 0 <= k < |earlier| && r.path(earlier[k]) == p;
      assert n.artifacts[p].0 == earlier[k];
    }
    var after := Execution(r, n, w, ref).1;
    if Execution(r, n, w, ref).0.Some? {
      var all := earlier + [ref];
      assert all[|earlier|] == ref;
      assert forall k :: 0 <= k < |earlier| ==> all[k] == earlier[k];
      forall q | q in after.artifacts && q !in m.artifacts ensures exists k :: 0 <= k < |all| && r.path(all[k]) == q {
        if q == p {
          assert r.path(all[|earlier|]) == q;
        } else {
          var k :| 0 <= k < |earlier| && r.path(earlier[k]) == q;
          assert r.path(all[k]) == q;
        }
      }
    }
  }

  lemma {:induction false} SlotsIff(
      r: Rules, m: Memory, w: World, earlier: seq<Ref>, before: Memory, x: Receipt, n: nat)
    requires n <= |x.asked| && Grown(r, m, w, earlier, before)
    ensures Slots(r, before, w, x, n).0 <==> AllHeld(r, m, w, earlier, x, n)
    ensures Slots(r, before, w, x, n).0 ==>
              Grown(r, m, w, earlier + References(x.asked[..n]), Slots(r, before, w, x, n).1)
  {
    hide Grown;
    hide Held;
    hide Execution;
    if n == 0 {
      assert earlier + References(x.asked[..0]) == earlier;
    } else {
      SlotsIff(r, m, w, earlier, before, x, n - 1);
      var (ok, mid) := Slots(r, before, w, x, n - 1);
      if ok {
        var so := earlier + References(x.asked[..n - 1]);
        FoundIff(r, m, w, so, mid, x.asked[n - 1].execution);
        assert so + [x.asked[n - 1].execution] == earlier + References(x.asked[..n]);
        var found := Execution(r, mid, w, x.asked[n - 1].execution).0;
        if found.Some? {
          assert Held(r, m, w, so, x.asked[n - 1].execution, found.value);
        }
        assert SlotHeld(r, m, w, earlier, x, n - 1) <==>
          found.Some? && found.value.result.PASS? && r.fits(x, x.asked[n - 1], found.value);
      }
    }
  }

  lemma {:induction false} ObservesIff(
      r: Rules, m: Memory, w: World, earlier: seq<Ref>, before: Memory, ref: Ref, x: Receipt)
    requires Grown(r, m, w, earlier, before)
    ensures Observation(r, before, w, ref).0 == Some(x) <==> Observes(r, m, w, earlier, ref, x)
  {
    if w.receipt(ref) == Some(x) {
      SlotsIff(r, m, w, earlier, before, x, |x.asked|);
    }
    hide Slots;
    hide AllHeld;
  }

  /** A receipt fits an event, given the event's member and its artifact, exactly if it is about the event. */
  lemma TellsIff(r: Rules, x: Receipt, e: History.Event, member: History.Member, found: Option<Artifact>)
    requires found.Some? <==> e.execution.Some?
    ensures ReceiptFits(r, x, e, member, found) <==> found.Some? && Tells(r, x, e, member, found.value)
  {
    forall one ensures SlotsOf(x.asked, e) == [one] <==> OnlySlot(x.asked, e, one) {
      OneSlot(x.asked, e, one);
    }
    hide SlotsOf;
    hide OnlySlot;
    if ReceiptFits(r, x, e, member, found) {
      var slots := SlotsOf(x.asked, e);
      assert slots == [slots[0]];
    }
  }

  /** What an event's execution turns up, and the memory then. */
  lemma BackedIff(r: Rules, m: Memory, w: World, e: History.Event)
    requires e.execution.Some?
    ensures var (found, before) := Execution(r, m, w, e.execution.value);
      && (forall a :: Backed(r, m, w, e, a) <==> found == Some(a) && Names(a, e))
      && (found.Some? ==> Grown(r, m, w, [e.execution.value], before))
  {
    assert Grown(r, m, w, [], m);
    FoundIff(r, m, w, [], m, e.execution.value);
    assert [] + [e.execution.value] == [e.execution.value];
    hide Grown;
    hide Held;
    hide Execution;
  }

  lemma ObservationEventIff(r: Rules, m: Memory, w: World, e: History.Event, member: History.Member)
    requires e.kind.Observation? && OnlyMember(e.members, e, member)
    ensures HistoryEvent(r, m, w, e).0 <==>
      (e.execution.Some? ==> exists a :: Backed(r, m, w, e, a)) && Told(r, m, w, e, member)
  {
    OneMember(e.members, e, member);
    ObservationUnfolds(r, m, w, e, member);
    hide HistoryEvent;
    hide MembersOf;
    hide OnlyMember;
    hide Observation;
    hide Observes;
    hide Grown;
    hide ReceiptFits;
    hide Tells;
    var (found, before) := if e.execution.Some? then Execution(r, m, w, e.execution.value) else (None, m);
    if e.execution.Some? {
      BackedIff(r, m, w, e);
      hide Execution;
      hide Names;
      hide Backed;
      if e.observation.Some? && found.Some? {
        forall x ensures
          Observation(r, before, w, e.observation.value).0 == Some(x) <==>
          Observes(r, m, w, [e.execution.value], e.observation.value, x)
        {
          ObservesIff(r, m, w, [e.execution.value], before, e.observation.value, x);
        }
        forall x ensures ReceiptFits(r, x, e, member, found) <==> Tells(r, x, e, member, found.value) {
          TellsIff(r, x, e, member, found);
        }
      }
    } else {
      forall x ensures !ReceiptFits(r, x, e, member, None) {
        TellsIff(r, x, e, member, None);
      }
      hide Names;
      assert found == None && before == m;
      assert forall a :: !Backed(r, m, w, e, a);
      assert Told(r, m, w, e, member) <==> e.observation == None && e.result != History.PASS;
    }
  }

  /** How an observation event of one member is checked. */
  lemma ObservationUnfolds(r: Rules, m: Memory, w: World, e: History.Event, member: History.Member)
    requires e.kind.Observation? && MembersOf(e.members, e) == [member]
    ensures var (found, before) := if e.execution.Some? then Execution(r, m, w, e.execution.value) else (None, m);
      HistoryEvent(r, m, w, e).0 <==>
      && (e.execution.Some? ==> found.Some? && Names(found.value, e))
      && if e.observation.None? then !e.result.PASS?
         else
           var x := Observation(r, before, w, e.observation.value).0;
           x.Some? && ReceiptFits(r, x.value, e, member, found)
  {
    assert MembersOf(e.members, e)[0] == member;
    hide MembersOf;
    hide Execution;
    hide Observation;
    hide ReceiptFits;
    hide Names;
  }

  lemma NoObservationEvent(r: Rules, m: Memory, w: World, e: History.Event)
    requires e.kind.Observation? && HistoryEvent(r, m, w, e).0
    ensures exists member :: OnlyMember(e.members, e, member)
  {
    hide Execution;
    hide Observation;
    hide ReceiptFits;
    hide Names;
    hide OnlyMember;
    var selected := MembersOf(e.members, e);
    hide MembersOf;
    assert selected == [selected[0]];
    OneMember(e.members, e, selected[0]);
  }

  lemma OtherEventIff(r: Rules, m: Memory, w: World, e: History.Event)
    requires !e.kind.Observation?
    ensures HistoryEvent(r, m, w, e).0 <==>
      && (e.execution.Some? ==> exists a :: Backed(r, m, w, e, a) && (e.kind.Execution? ==> a.result == e.result))
      && (e.kind.Execution? ==>
            && e.claim == None && e.slot == None && e.observation == None
            && (e.execution == None ==> e.result != History.PASS))
      && (e.kind.Indeterminate? ==>
            (e.result == History.ERROR || e.result == History.CANCELLED) && e.observation == None && w.owned(e))
  {
    if e.execution.Some? {
      BackedIff(r, m, w, e);
      hide Grown;
      hide Execution;
      hide Names;
      hide Backed;
    }
  }

  /**
   The events a run accepts. Whatever execution an event names must be held by an
   artifact recorded for it. An execution event then says nothing of claims and
   has its artifact's result, and cannot be a PASS without one. An observation
   event names one member, and its receipt tells of it, or it has none and is no
   PASS. An indeterminate event is an owned ERROR or CANCELLED without a receipt.
   */
  lemma AcceptedIff(r: Rules, m: Memory, w: World, e: History.Event)
    ensures HistoryEvent(r, m, w, e).0 <==>
      && (e.execution.Some? ==> exists a :: Backed(r, m, w, e, a))
      && match e.kind
         case Execution =>
           && e.claim == None && e.slot == None && e.observation == None
           && (e.execution == None ==> e.result != History.PASS)
           && (e.execution.Some? ==> exists a :: Backed(r, m, w, e, a) && a.result == e.result)
         case Observation =>
           exists member :: OnlyMember(e.members, e, member) && Told(r, m, w, e, member)
         case Indeterminate =>
           (e.result == History.ERROR || e.result == History.CANCELLED) && e.observation == None && w.owned(e)
  {
    hide HistoryEvent;
    hide Backed;
    hide OnlyMember;
    hide Told;
    if !e.kind.Observation? {
      OtherEventIff(r, m, w, e);
    } else {
      forall member | OnlyMember(e.members, e, member)
        ensures HistoryEvent(r, m, w, e).0 <==>
          (e.execution.Some? ==> exists a :: Backed(r, m, w, e, a)) && Told(r, m, w, e, member)
      {
        ObservationEventIff(r, m, w, e, member);
      }
      if HistoryEvent(r, m, w, e).0 {
        NoObservationEvent(r, m, w, e);
      }
    }
  }
}
