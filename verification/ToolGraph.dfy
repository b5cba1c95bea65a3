/**
 The tool identities of an evidence descriptor and the search that checks
 their dependency graph.
 */
module ToolGraph {
  import opened Basics
  import opened Graph
  import opened Utf8
  import Snapshot

  /** `fv-producer` */
  const PRODUCER: Text := [102, 118, 45, 112, 114, 111, 100, 117, 99, 101, 114]

  /**
   A tool identity. `ownLocator` says that its locator is the reserved
   producer's; `sound` is what `_tool` decides about the rest of it.
   */
  datatype Tool = Tool(id: Text, needs: seq<Text>, ownLocator: bool, declared: bool, sound: bool)

  predicate ToolOk(t: Tool, pinned: bool) {
    && (pinned && t.id != PRODUCER ==> t.declared)
    && (t.id == PRODUCER ==> t.ownLocator && t.needs == [])
    && t.sound
  }

  function Ids(values: seq<Tool>): (r: seq<Snapshot.Key>)
    ensures |r| == |values| && forall i :: 0 <= i < |values| ==> r[i] == [values[i].id]
  {
    seq(|values|, i requires 0 <= i < |values| => [values[i].id])
  }

  ghost function Requirements(byId: map<Text, Tool>): (g: Arcs<Text>)
    ensures g.Keys == byId.Keys && forall id :: id in g ==> g[id] == set d | d in byId[id].needs
  {
    map id | id in byId :: set d | d in byId[id].needs
  }

  /** What the graph checks accept, `ids` being the reviewed identities if there are any. */
  ghost predicate GraphAccepted(g: Arcs<Text>, ids: set<Text>) {
    ClosedFrom(g, ids) && AcyclicFrom(g, ids) && forall x :: x in g <==> Reaches(g, ids, x)
  }

  class Search {
    const byId: map<Text, Tool>
    ghost const roots: set<Text>
    var visiting: set<Text>
    var done: set<Text>
    /** The nodes in the order the search finished with them. */
    ghost var order: seq<Text>

    constructor (byId: map<Text, Tool>, ghost roots: set<Text>)
      ensures this.byId == byId && this.roots == roots && visiting == {} && done == {} && order == []
    {
      this.byId, this.roots := byId, roots;
      visiting, done, order := {}, {}, [];
    }

    ghost predicate Valid()
      reads this
    {
      && visiting !! done
      && Ordered(Requirements(byId), order)
      && (forall x :: x in done <==> x in order)
      && forall x :: x in done ==> Reaches(Requirements(byId), roots, x)
    }

    /** `visit`: `trail` is the chain of calls in progress. */
    method Visit(id: Text, ghost trail: seq<Text>) returns (ok: bool)
      requires Valid() && WalkFrom(Requirements(byId), roots, trail + [id]) && visiting == set x | x in trail
      modifies `visiting, `done, `order
      ensures ok ==> Valid() && visiting == old(visiting) && id in done && old(done) <= done
      ensures !ok ==> !ClosedFrom(Requirements(byId), roots) || !AcyclicFrom(Requirements(byId), roots)
      decreases byId.Keys - visiting
    {
      ghost var g, path := Requirements(byId), trail + [id];
      assert path[|path| - 1] == id;
      if id !in byId {
        return false;
      }
      if id in visiting {
        Revisits(g, roots, trail, id);
        return false;
      }
      if id in done {
        return true;
      }
      visiting := visiting + {id};
      var needs := byId[id].needs;
      var i := 0;
      while i < |needs|
        invariant 0 <= i <= |needs|
        invariant Valid() && visiting == old(visiting) + {id} && old(done) <= done && id !in done
        invariant forall j :: 0 <= j < i ==> needs[j] in done
      {
        assert needs[i] in g[id];
        assert WalkFrom(g, roots, path + [needs[i]]);
        ok := Visit(needs[i], path);
        if !ok {
          return;
        }
        i := i + 1;
      }
      OrderedGrows(g, order, id);
      visiting := visiting - {id};
      done := done + {id};
      order := order + [id];
      ok := true;
      assert Reaches(g, roots, id);
    }
  }

  /** `{item["id"]: item for item in values}` */
  function ById(values: seq<Tool>): (r: map<Text, Tool>)
    ensures forall id :: id in r <==> exists i :: 0 <= i < |values| && values[i].id == id
    ensures forall id :: id in r ==> r[id] in values && r[id].id == id
  {
    if values == [] then map[]
    else
      var n := |values| - 1;
      assert forall i :: 0 <= i < n ==> values[i] == values[..n][i];
      ById(values[..n])[values[n].id := values[n]]
  }

  function IdList(values: seq<Tool>): (r: seq<Text>)
    ensures |r| == |values| && forall i :: 0 <= i < |values| ==> r[i] == values[i].id
  {
    seq(|values|, i requires 0 <= i < |values| => values[i].id)
  }

  ghost predicate ToolsAccepted(values: seq<Tool>, pinned: bool, roots: set<Text>) {
    && Snapshot.Increasing(Snapshot.KeyBefore, Ids(values))
    && (forall t :: t in values ==> ToolOk(t, pinned))
    && GraphAccepted(Requirements(ById(values)), roots)
  }

  /** The roots of the search: the reviewed identities and the producer, or every tool when none are given. */
  ghost function Roots(values: seq<Tool>, ids: Option<seq<Text>>): set<Text> {
    match ids
    case Some(list) => (set x | x in list) + {PRODUCER}
    case None => ById(values).Keys
  }

  method CheckEach(values: seq<Tool>, pinned: bool) returns (ok: bool)
    ensures ok <==> forall t :: t in values ==> ToolOk(t, pinned)
  {
    var k := 0;
    while k < |values|
      invariant 0 <= k <= |values| && forall j :: 0 <= j < k ==> ToolOk(values[j], pinned)
    {
      if !ToolOk(values[k], pinned) {
        return false;
      }
      k := k + 1;
    }
    ok := true;
  }

  /** `_tools`: the identities are well formed, and the roots reach a closed and acyclic graph that is all of them. */
  method CheckTools(values: seq<Tool>, pinned: bool, ids: Option<seq<Text>>) returns (ok: bool)
    ensures ok <==> ToolsAccepted(values, pinned, Roots(values, ids))
  {
    hide ClosedFrom;
    hide AcyclicFrom;
    hide Reaches;
    hide ToolOk;
    hide Snapshot.Increasing;
    hide Snapshot.SortedUnique;
    Snapshot.SortedUniqueIff(Ids(values));
    ok := CheckEach(values, pinned);
    if !ok || !Snapshot.SortedUnique(Ids(values)) {
      return false;
    }
    var byId := ById(values);
    RootSets(values, ids);
    EveryToolReached(Requirements(byId));
    var search := new Search(byId, Roots(values, ids));
    ok := VisitAll(search, RootList(values, ids));
    if ids.Some? {
      ok := ok && search.done == byId.Keys;
    }
  }

  function RootList(values: seq<Tool>, ids: Option<seq<Text>>): seq<Text> {
    if ids.Some? then ids.value + [PRODUCER] else IdList(values)
  }

  lemma RootSets(values: seq<Tool>, ids: Option<seq<Text>>)
    ensures Roots(values, ids) == set x | x in RootList(values, ids)
  {
    if ids.None? {
      forall x ensures x in IdList(values) <==> x in ById(values) {
        if x in ById(values) {
          var i :| 0 <= i < |values| && values[i].id == x;
          assert IdList(values)[i] == x;
        }
      }
    }
  }

  /** Visit each root; the nodes finished with are then exactly the ones the roots reach. */
  method VisitAll(search: Search, ids: seq<Text>) returns (ok: bool)
    requires search.roots == (set x | x in ids) && search.visiting == {} && search.done == {} && search.order == []
    modifies search
    ensures var g := Requirements(search.byId);
      && (ok <==> ClosedFrom(g, search.roots) && AcyclicFrom(g, search.roots))
      && (ok ==> forall x :: x in search.done <==> Reaches(g, search.roots, x))
  {
    ghost var g := Requirements(search.byId);
    var i := 0;
    while i < |ids|
      invariant 0 <= i <= |ids|
      invariant search.Valid() && search.visiting == {} && forall j :: 0 <= j < i ==> ids[j] in search.done
    {
      assert WalkFrom(g, search.roots, [] + [ids[i]]);
      ok := search.Visit(ids[i], []);
      if !ok {
        return;
      }
      i := i + 1;
    }
    OrderedIsWellFounded(g, search.roots, search.order);
    ok := true;
  }

  /** With no reviewed identities every tool is a root. */
  lemma EveryToolReached(g: Arcs<Text>)
    ensures GraphAccepted(g, g.Keys) <==> ClosedFrom(g, g.Keys) && AcyclicFrom(g, g.Keys)
  {
    forall x | x in g ensures Reaches(g, g.Keys, x) {
      assert WalkFrom(g, g.Keys, [x]);
    }
    if ClosedFrom(g, g.Keys) {
      forall x | Reaches(g, g.Keys, x) ensures x in g {
        var p :| WalkFrom(g, g.Keys, p) && p[|p| - 1] == x;
      }
    }
  }

  /**
   The identities accepted, one by one: all sound, all but the producer's declared
   where they are pinned, and the producer's its own, with nothing it needs.
   */
  lemma AcceptedTools(values: seq<Tool>, pinned: bool, roots: set<Text>)
    ensures ToolsAccepted(values, pinned, roots) <==>
      && (forall i, j :: 0 <= i < j < |values| ==> Before(values[i].id, values[j].id))
      && (forall t :: t in values && t.id != PRODUCER ==> t.sound && (pinned ==> t.declared))
      && (forall t :: t in values && t.id == PRODUCER ==> t.sound && t.ownLocator && t.needs == [])
      && GraphAccepted(Requirements(ById(values)), roots)
  {
    hide GraphAccepted;
    hide ById;
    IdsRise(values);
    forall t | t in values ensures ToolOk(t, pinned) <==>
      && (t.id != PRODUCER ==> t.sound && (pinned ==> t.declared))
      && (t.id == PRODUCER ==> t.sound && t.ownLocator && t.needs == [])
    {
    }
    hide ToolOk;
    hide Snapshot.Increasing;
  }

  lemma IdsRise(values: seq<Tool>)
    ensures Snapshot.Increasing(Snapshot.KeyBefore, Ids(values)) <==>
            forall i, j :: 0 <= i < j < |values| ==> Before(values[i].id, values[j].id)
  {
    hide Snapshot.KeyBefore;
    hide Before;
    forall i, j | 0 <= i < |values| && 0 <= j < |values|
      ensures Snapshot.KeyBefore(Ids(values)[i], Ids(values)[j]) <==> Before(values[i].id, values[j].id)
    {
      OneKey(values[i].id, values[j].id);
    }
  }

  lemma OneKey(a: Text, b: Text)
    ensures Snapshot.KeyBefore([a], [b]) <==> Before(a, b)
  {
    assert !Lex(Before, [a][1..], [b][1..]);
  }
}
