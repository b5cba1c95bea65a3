/** The private ownership log of a hosted execution: process groups announced, then released. */
module Ownership {
  import opened Basics

  datatype Event = Owned | Released

  datatype Message = Message(event: Event, pgid: nat)

  const NEWLINE: byte := 10

  /** The lines of a log, each ended by a newline; what follows the last newline is not a line. */
  function ControlLines(log: Bytes, start: nat, i: nat): (r: seq<Bytes>)
    requires start <= i <= |log|
    decreases |log| - i
  {
    if i == |log| then []
    else if log[i] == NEWLINE then [log[start..i]] + ControlLines(log, i + 1, i + 1)
    else ControlLines(log, start, i + 1)
  }

  /** A line of legal length that decodes to a message. */
  predicate LegalLine(read: Bytes -> Option<Message>, line: Bytes) {
    0 < |line| <= 4096 && read(line).Some?
  }

  /** What the log says about one process group. */
  function Projection(messages: seq<Message>, pgid: nat): seq<Event> {
    if messages == [] then []
    else
      var last := messages[|messages| - 1];
      Projection(messages[..|messages| - 1], pgid) + if last.pgid == pgid then [last.event] else []
  }

  /** Each hosted group was announced once and then released once, and no other group is mentioned. */
  ghost predicate Accounted(messages: seq<Message>, hosted: set<nat>) {
    forall g: nat :: Projection(messages, g) == if g in hosted then [Owned, Released] else []
  }

  function Messages(read: Bytes -> Option<Message>, lines: seq<Bytes>): (r: seq<Message>)
    requires forall l :: l in lines ==> read(l).Some?
    ensures |r| == |lines| && forall i :: 0 <= i < |lines| ==> r[i] == read(lines[i]).value
  {
    seq(|lines|, i requires 0 <= i < |lines| => assert lines[i] in lines; read(lines[i]).value)
  }

  lemma {:induction false} ProjectionGrows(messages: seq<Message>, k: nat, g: nat)
    requires k <= |messages|
    ensures Projection(messages[..k], g) <= Projection(messages, g)
    decreases |messages|
  {
    if k == |messages| {
      assert messages[..k] == messages;
    } else {
      var before := messages[..|messages| - 1];
      ProjectionGrows(before, k, g);
      assert before[..k] == messages[..k];
    }
  }

  /** What the two sets say the log has said about a group. */
  function Expected(own: set<nat>, freed: set<nat>, g: nat): seq<Event> {
    if g in freed then [Owned, Released] else if g in own then [Owned] else []
  }

  ghost predicate Tracks(messages: seq<Message>, own: set<nat>, freed: set<nat>) {
    freed <= own && forall g: nat :: Projection(messages, g) == Expected(own, freed, g)
  }

  predicate Admissible(own: set<nat>, freed: set<nat>, m: Message) {
    if m.event.Owned? then m.pgid !in own else m.pgid in own && m.pgid !in freed
  }

  /** A message out of order spoils its group for good. */
  lemma OutOfOrder(messages: seq<Message>, k: nat, own: set<nat>, freed: set<nat>, hosted: set<nat>)
    requires k < |messages| && Tracks(messages[..k], own, freed) && !Admissible(own, freed, messages[k])
    ensures !Accounted(messages, hosted)
  {
    var g := messages[k].pgid;
    assert messages[..k + 1][..k] == messages[..k];
    ProjectionGrows(messages, k + 1, g);
    var said := Projection(messages[..k + 1], g);
    assert said == Expected(own, freed, g) + [messages[k].event];
    var all := Projection(messages, g);
    assert |said| == 1 ==> said[0] == Released && all[0] == Released;
    assert |said| == 2 ==> said[1] == Owned && all[1] == Owned;
  }

  lemma NextTracks(messages: seq<Message>, k: nat, own: set<nat>, freed: set<nat>)
    requires k < |messages| && Tracks(messages[..k], own, freed) && Admissible(own, freed, messages[k])
    ensures var m := messages[k];
      Tracks(messages[..k + 1], if m.event.Owned? then own + {m.pgid} else own,
             if m.event.Owned? then freed else freed + {m.pgid})
  {
    assert messages[..k + 1][..k] == messages[..k];
    var m := messages[k];
    var own' := if m.event.Owned? then own + {m.pgid} else own;
    var freed' := if m.event.Owned? then freed else freed + {m.pgid};
    forall g: nat ensures Projection(messages[..k + 1], g) == Expected(own', freed', g) {
      assert Projection(messages[..k], g) == Expected(own, freed, g);
    }
  }

  lemma TracksDecides(messages: seq<Message>, own: set<nat>, freed: set<nat>, hosted: set<nat>)
    requires Tracks(messages, own, freed)
    ensures own == freed == hosted <==> Accounted(messages, hosted)
  {
    forall g: nat ensures Projection(messages, g) == Expected(own, freed, g) {}
    if Accounted(messages, hosted) {
      forall g: nat ensures (g in own <==> g in hosted) && (g in freed <==> g in hosted) {
        assert Expected(own, freed, g) == if g in hosted then [Owned, Released] else [];
      }
    }
  }

  /** The scan of the control messages with its two sets: it accepts exactly the accounted logs. */
  method CheckMessages(messages: seq<Message>, hosted: set<nat>) returns (ok: bool)
    ensures ok <==> Accounted(messages, hosted)
  {
    hide Accounted;
    hide Tracks;
    var own: set<nat>, freed: set<nat> := {}, {};
    NothingSaid(messages);
    var k := 0;
    while k < |messages|
      invariant 0 <= k <= |messages| && Tracks(messages[..k], own, freed)
    {
      var m := messages[k];
      if m.event.Owned? {
        if m.pgid in own {
          OutOfOrder(messages, k, own, freed, hosted);
          return false;
        }
        NextTracks(messages, k, own, freed);
        own := own + {m.pgid};
      } else {
        if m.pgid !in own || m.pgid in freed {
          OutOfOrder(messages, k, own, freed, hosted);
          return false;
        }
        NextTracks(messages, k, own, freed);
        freed := freed + {m.pgid};
      }
      k := k + 1;
    }
    assert messages[..k] == messages;
    TracksDecides(messages, own, freed, hosted);
    ok := own == freed == hosted;
  }

  lemma NothingSaid(messages: seq<Message>)
    ensures Tracks(messages[..0], {}, {})
  {
    assert messages[..0] == [];
  }

  /** The whole check of a log: complete lines of legal length that decode, and accounted messages. */
  method CheckLog(log: Bytes, read: Bytes -> Option<Message>, hosted: set<nat>) returns (ok: bool)
    ensures var lines := ControlLines(log, 0, 0);
      ok <==>
        && (log == [] || log[|log| - 1] == NEWLINE)
        && (forall l :: l in lines ==> 0 < |l| <= 4096 && read(l).Some?)
        && Accounted(Messages(read, lines), hosted)
  {
    var lines := ControlLines(log, 0, 0);
    if log != [] && log[|log| - 1] != NEWLINE {
      return false;
    }
    var messages: seq<Message> := [];
    var k := 0;
    while k < |lines|
      invariant 0 <= k <= |lines| && |messages| == k
      invariant forall j :: 0 <= j < k ==> LegalLine(read, lines[j]) && messages[j] == read(lines[j]).value
    {
      if !LegalLine(read, lines[k]) {
        return false;
      }
      messages := messages + [read(lines[k]).value];
      k := k + 1;
    }
    assert messages == Messages(read, lines);
    ok := CheckMessages(messages, hosted);
  }

  /** The order of different groups' messages does not matter: swapping two neighbours changes no verdict. */
  lemma GroupsInterleaveFreely(messages: seq<Message>, k: nat, hosted: set<nat>)
    requires k + 1 < |messages| && messages[k].pgid != messages[k + 1].pgid
    ensures Accounted(messages, hosted) <==>
            Accounted(messages[k := messages[k + 1]][k + 1 := messages[k]], hosted)
  {
    forall g: nat
      ensures Projection(messages, g) == Projection(messages[k := messages[k + 1]][k + 1 := messages[k]], g)
    {
      SwapKeeps(messages, k, g);
    }
  }

  lemma {:induction false} SwapKeeps(messages: seq<Message>, k: nat, g: nat)
    requires k + 1 < |messages| && messages[k].pgid != messages[k + 1].pgid
    ensures Projection(messages, g) == Projection(messages[k := messages[k + 1]][k + 1 := messages[k]], g)
    decreases |messages|
  {
    var swapped := messages[k := messages[k + 1]][k + 1 := messages[k]];
    var n := |messages| - 1;
    if k + 1 < n {
      SwapKeeps(messages[..n], k, g);
      assert swapped[..n] == messages[..n][k := messages[k + 1]][k + 1 := messages[k]];
    } else {
      assert messages[..n][..k] == swapped[..n][..k];
      assert messages[..n][k] == messages[k] && swapped[..n][k] == messages[k + 1];
    }
  }
}
