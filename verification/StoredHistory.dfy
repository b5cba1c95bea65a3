/** Which files of a history store become events, and which attempts they account for. */
module StoredHistory {
  import opened Basics
  import opened History

  /** Among the events the last one of the same execution, key and attempt is a PASS. */
  ghost predicate PassedLast(events: seq<Event>, e: Event) {
    exists k :: 0 <= k < |events| && OfOneAttempt(events[k], e) && events[k].result == PASS
                && forall j :: k < j < |events| ==> !OfOneAttempt(events[j], e)
  }

  ghost predicate OfOneAttempt(p: Event, e: Event) {
    p.kind == Execution && p.execution == e.execution && p.key == e.key && p.attempt == e.attempt
  }

  /** The last event that is kept passes the test. */
  ghost predicate LastIs(events: seq<Event>, keep: Event -> bool, test: Event -> bool) {
    exists k :: 0 <= k < |events| && keep(events[k]) && test(events[k])
                && forall j :: k < j < |events| ==> !keep(events[j])
  }

  lemma {:induction false} LastKept(events: seq<Event>, keep: Event -> bool, test: Event -> bool)
    ensures var kept := Where(events, keep);
      LastIs(events, keep, test) <==> kept != [] && test(kept[|kept| - 1])
  {
    if events != [] {
      var rest := events[1..];
      LastKept(rest, keep, test);
      var kept := Where(rest, keep);
      var all := Where(events, keep);
      assert all == (if keep(events[0]) then [events[0]] else []) + kept;
      if kept == [] {
        forall j | 0 < j < |events| ensures !keep(events[j]) {
          assert events[j] == rest[j - 1] && rest[j - 1] !in kept;
        }
      } else {
        assert all[|all| - 1] == kept[|kept| - 1];
        KeptLater(events, keep);
        LastIsLater(events, keep, test);
      }
    }
  }

  lemma KeptLater(events: seq<Event>, keep: Event -> bool)
    requires events != [] && Where(events[1..], keep) != []
    ensures exists m :: 0 < m < |events| && keep(events[m])
  {
    var rest := events[1..];
    assert Where(rest, keep)[0] in rest;
    var m :| 0 <= m < |rest| && rest[m] == Where(rest, keep)[0];
    assert keep(events[m + 1]);
  }

  lemma LastIsLater(events: seq<Event>, keep: Event -> bool, test: Event -> bool)
    requires exists m :: 0 < m < |events| && keep(events[m])
    ensures LastIs(events, keep, test) <==> LastIs(events[1..], keep, test)
  {
    var rest := events[1..];
    assert forall j :: 0 < j < |events| ==> events[j] == rest[j - 1];
    if k :| 0 <= k < |rest| && keep(rest[k]) && test(rest[k]) && forall j :: k < j < |rest| ==> !keep(rest[j]) {
      assert keep(events[k + 1]) && test(events[k + 1]);
    }
    if k :| 0 <= k < |events| && keep(events[k]) && test(events[k])
            && forall j :: k < j < |events| ==> !keep(events[j]) {
      assert forall j :: 0 <= j < |rest| ==> rest[j] == events[j + 1];
      assert keep(rest[k - 1]) && test(rest[k - 1]);
    }
  }

  lemma GroundedIff(events: seq<Event>, e: Event)
    ensures Grounded(events, e) <==> (e.kind == Observation ==> PassedLast(events, e))
  {
    LastKept(
      events, (p: Event) => p.kind.Execution? && p.execution == e.execution && p.key == e.key && p.attempt == e.attempt,
      (p: Event) => p.result.PASS?);
  }

  /**
   A file becomes an event exactly if it is sound and, for an observation, the
   attempt it observes had passed by then; any other file is an error.
   */
  lemma {:induction false} KeptIff(rd: Reader, store: seq<Bytes>, n: nat)
    requires Read(rd, store).Ok? && n < |store|
    ensures Read(rd, store[..n]).Ok? && rd.parse(store[n]).Some?
    ensures var e, before := rd.parse(store[n]).value.event, Read(rd, store[..n]).value.events;
      && e.sequence == n + 1
      && (e in Read(rd, store).value.events <==> rd.sound(e) && (e.kind == Observation ==> PassedLast(before, e)))
    decreases |store|
  {
    var last := |store| - 1;
    LastFile(rd, store);
    ReadIsOrdered(rd, store[..last]);
    hide Read;
    hide Grounded;
    hide PassedLast;
    if n == last {
      GroundedIff(Read(rd, store[..last]).value.events, rd.parse(store[n]).value.event);
    } else {
      KeptIff(rd, store[..last], n);
      assert store[..last][..n] == store[..n] && store[..last][n] == store[n];
    }
  }

  /** The last file is read on top of the reading of the others. */
  lemma LastFile(rd: Reader, store: seq<Bytes>)
    requires store != [] && Read(rd, store).Ok?
    ensures var before := Read(rd, store[..|store| - 1]);
      before.Ok? && Read(rd, store) == Accept(rd, before.value, store[|store| - 1])
  {
  }

  /** Every event is a file's, at the place its sequence number says. */
  lemma {:induction false} EventsAreFiles(rd: Reader, store: seq<Bytes>, e: Event)
    requires Read(rd, store).Ok? && e in Read(rd, store).value.events
    ensures 1 <= e.sequence <= |store|
    ensures var entry := rd.parse(store[e.sequence - 1]); entry.Some? && entry.value.event == e
    decreases |store|
  {
    var last := |store| - 1;
    LastFile(rd, store);
    ReadIsOrdered(rd, store[..last]);
    hide Read;
    hide Grounded;
    if e in Read(rd, store[..last]).value.events {
      EventsAreFiles(rd, store[..last], e);
    }
  }

  /** The error count of a reading is the number of files that became no event. */
  lemma {:induction false} ErrorsCount(rd: Reader, store: seq<Bytes>)
    requires Read(rd, store).Ok?
    ensures Read(rd, store).value.errors + |Read(rd, store).value.events| == |store|
    decreases |store|
  {
    if store != [] {
      LastFile(rd, store);
      ErrorsCount(rd, store[..|store| - 1]);
      hide Grounded;
    }
  }

  // ---- committed attempts ----------------------------------------------

  /** Some event of the key's directory, by an execution or indeterminate, is of the attempt. */
  ghost predicate HasEvent(events: seq<Event>, a: Attempt) {
    exists e :: e in events && (e.execution != None || e.kind == Indeterminate) && e.attempt == a.attempt
                && if |e.key| < 7 then a.key == "" else e.key[7..] == a.key
  }

  /** A history counts one more error for each committed attempt without an event. */
  lemma {:induction false} UnaccountedIs(events: seq<Event>, index: seq<Attempt>)
    ensures Unaccounted(events, index) == |set i | 0 <= i < |index| && !HasEvent(events, index[i])|
  {
    if index != [] {
      var last := |index| - 1;
      var missing := set i | 0 <= i < |index| && !HasEvent(events, index[i]);
      var before := set i | 0 <= i < last && !HasEvent(events, index[..last][i]);
      UnaccountedIs(events, index[..last]);
      assert Accounted(events, index[last]) <==> HasEvent(events, index[last]);
      hide HasEvent;
      assert missing == before + if HasEvent(events, index[last]) then {} else {last};
    }
  }
}
