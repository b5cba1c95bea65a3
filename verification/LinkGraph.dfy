/**
 The recorded file tree of a tool: the check that its symbolic links form no
 cycle and carry their targets' hashes, and the search for usable bytes under
 a root.
 */
module LinkGraph {
  import opened Basics
  import opened Graph
  import opened Utf8
  import Snapshot

  type Hash = string

  datatype Entry =
    | Directory(path: Text)
    | File(path: Text, hash: Hash, size: nat, executable: bool)
    | LinkFile(path: Text, target: Text, resolved: Text, hash: Hash, size: nat, executable: bool)
    | LinkDirectory(path: Text, target: Text, resolved: Text, hash: Hash)

  predicate IsLink(e: Entry) {
    e.LinkFile? || e.LinkDirectory?
  }

  const DOT: Text := [46]

  const SLASH: Text := [47]

  function Prefix(path: Text): Text {
    if path == DOT then [] else path + SLASH
  }

  predicate Within(dir: Text, path: Text) {
    path != dir && Prefix(dir) <= path
  }

  lemma WithinIsTransitive(a: Text, b: Text, c: Text)
    requires Within(a, b) && Within(b, c)
    ensures Within(a, c)
  {
    if a != DOT {
      assert b[|a|] == 47;
    }
    assert b != DOT && c[..|b|] == b && c[|b|] == 47;
    assert Prefix(a) <= c[..|b|];
  }

  ghost predicate Unique(files: seq<Entry>) {
    forall i, j :: 0 <= i < j < |files| ==> files[i].path != files[j].path
  }

  /** `{entry["path"]: entry for entry in files}` */
  function ByPath(files: seq<Entry>): (r: map<Text, Entry>)
    ensures forall p :: p in r ==> r[p] in files && r[p].path == p
    ensures forall e :: e in files ==> e.path in r
  {
    if files == [] then map[]
    else
      var n := |files| - 1;
      assert files == files[..n] + [files[n]];
      ByPath(files[..n])[files[n].path := files[n]]
  }

  lemma Listed(files: seq<Entry>, e: Entry)
    requires Unique(files) && e in files
    ensures e.path in ByPath(files) && ByPath(files)[e.path] == e
  {
  }

  // ---- check_link ------------------------------------------------------

  function Descendants(files: seq<Entry>, dir: Text): (r: seq<Entry>)
    ensures forall e :: e in r <==> e in files && Within(dir, e.path)
  {
    if files == [] then []
    else (if Within(dir, files[0].path) then [files[0]] else []) + Descendants(files[1..], dir)
  }

  function Relative(dir: Text, e: Entry): Entry
    requires Within(dir, e.path)
  {
    e.(path := e.path[|Prefix(dir)|..])
  }

  function Relatives(dir: Text, es: seq<Entry>): (r: seq<Entry>)
    requires forall e :: e in es ==> Within(dir, e.path)
    ensures |r| == |es| && forall i :: 0 <= i < |r| ==> r[i] == Relative(dir, es[i])
  {
    seq(|es|, i requires 0 <= i < |es| => Relative(dir, es[i]))
  }

  predicate PathBelow(a: Entry, b: Entry) {
    Below(Encode(a.path), Encode(b.path))
  }

  /** What the hash of a directory is taken of: its descendants, relative to it, in byte order. */
  function Listing(files: seq<Entry>, dir: Text): seq<Entry> {
    Snapshot.Sort(PathBelow, Relatives(dir, Descendants(files, dir)))
  }

  /** A link inside a directory link's target continues the walk that reached the directory link. */
  lemma WalkInside(files: seq<Entry>, e: Entry, child: Entry, path: seq<Text>)
    requires Unique(files) && e in files && e.LinkDirectory? && child in Descendants(files, e.resolved) && IsLink(child)
    requires WalkFrom(LinkArcs(files), Links(files), path) && path[|path| - 1] == e.path
    ensures WalkFrom(LinkArcs(files), Links(files), path + [child.path])
  {
    ChildIsArc(files, e, child);
    hide *;
    WalkContinues(LinkArcs(files), Links(files), path, child.path);
  }

  lemma ChildIsArc(files: seq<Entry>, e: Entry, child: Entry)
    requires Unique(files) && e in files && e.LinkDirectory? && child in Descendants(files, e.resolved) && IsLink(child)
    ensures e.path in LinkArcs(files) && child.path in LinkArcs(files)[e.path]
  {
    Listed(files, e);
    Listed(files, child);
    hide ByPath;
    hide Descendants;
    hide Within;
  }

  lemma FileLinkEnds(files: seq<Entry>, e: Entry)
    requires Unique(files) && e in files && e.LinkFile?
    ensures e.path in LinkArcs(files) && LinkArcs(files)[e.path] == {}
  {
    Listed(files, e);
  }

  lemma ArcIsInside(files: seq<Entry>, e: Entry, q: Text) returns (j: nat)
    requires Unique(files) && e in files && e.LinkDirectory? && q in LinkArcs(files)[e.path]
    ensures var inside := Descendants(files, e.resolved);
      j < |inside| && IsLink(inside[j]) && inside[j].path == q
  {
    Listed(files, e);
    var child := ByPath(files)[q];
    var inside := Descendants(files, e.resolved);
    assert child in inside;
    j :| 0 <= j < |inside| && inside[j] == child;
  }

  predicate LinkOk(files: seq<Entry>, digest: seq<Entry> -> Hash, e: Entry)
    requires IsLink(e)
  {
    var byPath := ByPath(files);
    && e.resolved in byPath
    && var t := byPath[e.resolved];
      if e.LinkFile? then t.File? && e.hash == t.hash && e.size == t.size && e.executable == t.executable
      else t.Directory? && e.hash == digest(Listing(files, e.resolved))
  }

  ghost function Links(files: seq<Entry>): set<Text> {
    set p | p in ByPath(files) && IsLink(ByPath(files)[p])
  }

  /** A directory link depends on the links inside its target. */
  ghost function LinkArcs(files: seq<Entry>): (g: Arcs<Text>)
    ensures g.Keys == Links(files)
  {
    map p | p in Links(files) ::
      var e := ByPath(files)[p];
      if e.LinkDirectory? then set q | q in Links(files) && Within(e.resolved, q) else {}
  }

  ghost predicate LinksAccepted(files: seq<Entry>, digest: seq<Entry> -> Hash) {
    && (forall e :: e in files && IsLink(e) ==> LinkOk(files, digest, e))
    && AcyclicFrom(LinkArcs(files), Links(files))
  }

  ghost predicate DoneOk(files: seq<Entry>, digest: seq<Entry> -> Hash, done: set<Text>) {
    forall e :: e in files && e.path in done ==> IsLink(e) && LinkOk(files, digest, e)
  }

  lemma DoneGrows(files: seq<Entry>, digest: seq<Entry> -> Hash, done: set<Text>, e: Entry)
    requires Unique(files) && e in files && DoneOk(files, digest, done) && IsLink(e) && LinkOk(files, digest, e)
    ensures DoneOk(files, digest, done + {e.path})
  {
    hide LinkOk;
  }

  class LinkCheck {
    const files: seq<Entry>
    const digest: seq<Entry> -> Hash
    var visiting: set<Text>
    var done: set<Text>
    /** The links in the order the search finished with them. */
    ghost var order: seq<Text>

    constructor (files: seq<Entry>, digest: seq<Entry> -> Hash)
      ensures this.files == files && this.digest == digest && visiting == {} && done == {} && order == []
    {
      this.files, this.digest := files, digest;
      visiting, done, order := {}, {}, [];
    }

    ghost predicate Valid()
      reads this
    {
      && Unique(files)
      && visiting !! done
      && Ordered(LinkArcs(files), order)
      && (forall x :: x in done <==> x in order)
      && DoneOk(files, digest, done)
    }

    /** `check_link`: `trail` is the chain of links being checked. */
    method Check(e: Entry, ghost trail: seq<Text>) returns (ok: bool)
      requires Valid() && e in files && visiting == set x | x in trail
      requires IsLink(e) ==> WalkFrom(LinkArcs(files), Links(files), trail + [e.path])
      modifies `visiting, `done, `order
      ensures ok ==> Valid() && visiting == old(visiting) && old(done) <= done && (IsLink(e) ==> e.path in done)
      ensures !ok ==> !LinksAccepted(files, digest)
      decreases Links(files) - visiting, 1
    {
      hide ByPath;
      hide Listing;
      hide LinkOk;
      hide Ordered;
      hide DoneOk;
      hide AcyclicFrom;
      hide Unique;
      hide Distinct;
      hide LinkArcs;
      hide WalkFrom;
      if !IsLink(e) || e.path in done {
        return true;
      }
      ghost var g, path := LinkArcs(files), trail + [e.path];
      Listed(files, e);
      if e.path in visiting {
        Revisits(g, Links(files), trail, e.path);
        return false;
      }
      visiting := visiting + {e.path};
      if e.LinkFile? {
        FileLinkEnds(files, e);
        ok := LinkOk(files, digest, e);
      } else {
        ok := CheckDirectory(e, path);
      }
      if !ok {
        return;
      }
      OrderedGrows(g, order, e.path);
      DoneGrows(files, digest, done, e);
      visiting := visiting - {e.path};
      done := done + {e.path};
      order := order + [e.path];
    }

    /** The directory branch: the target, the links inside it, then the hash of its listing. */
    method CheckDirectory(e: Entry, ghost path: seq<Text>) returns (ok: bool)
      requires Valid() && e in files && e.LinkDirectory? && visiting == set x | x in path
      requires WalkFrom(LinkArcs(files), Links(files), path) && path[|path| - 1] == e.path
      modifies `visiting, `done, `order
      ensures ok ==> Valid() && visiting == old(visiting) && old(done) <= done && LinkOk(files, digest, e)
      ensures ok ==> forall q :: q in LinkArcs(files)[e.path] ==> q in done
      ensures !ok ==> !LinksAccepted(files, digest)
      decreases Links(files) - visiting, 2
    {
      hide ByPath;
      hide Listing;
      hide Descendants;
      hide Within;
      hide LinkArcs;
      hide WalkFrom;
      var byPath := ByPath(files);
      Listed(files, e);
      if e.resolved !in byPath || !byPath[e.resolved].Directory? {
        assert !LinkOk(files, digest, e);
        return false;
      }
      var inside := Descendants(files, e.resolved);
      var i := 0;
      while i < |inside|
        invariant 0 <= i <= |inside|
        invariant Valid() && visiting == old(visiting) && old(done) <= done
        invariant forall j :: 0 <= j < i && IsLink(inside[j]) ==> inside[j].path in done
      {
        var child := inside[i];
        assert child in inside;
        Listed(files, child);
        if IsLink(child) {
          WalkInside(files, e, child, path);
        }
        ok := Check(child, path);
        if !ok {
          return;
        }
        i := i + 1;
      }
      forall q | q in LinkArcs(files)[e.path] ensures q in done {
        var j := ArcIsInside(files, e, q);
      }
      ok := LinkOk(files, digest, e);
    }
  }

  /** The loop over all entries: accepted exactly when every link matches its target and none leads back to itself. */
  method CheckLinks(files: seq<Entry>, digest: seq<Entry> -> Hash) returns (ok: bool)
    requires Unique(files)
    ensures ok <==> LinksAccepted(files, digest)
  {
    hide ByPath;
    hide LinkOk;
    ghost var g := LinkArcs(files);
    var check := new LinkCheck(files, digest);
    var i := 0;
    while i < |files|
      invariant 0 <= i <= |files| && check.files == files && check.digest == digest
      invariant check.Valid() && check.visiting == {}
      invariant forall j :: 0 <= j < i && IsLink(files[j]) ==> files[j].path in check.done
    {
      Listed(files, files[i]);
      assert IsLink(files[i]) ==> WalkFrom(g, Links(files), [] + [files[i].path]);
      ok := check.Check(files[i], []);
      if !ok {
        return;
      }
      i := i + 1;
    }
    forall r | r in Links(files) ensures r in check.order {
      assert ByPath(files)[r] in files;
    }
    OrderedIsWellFounded(g, Links(files), check.order);
    ok := true;
  }

  /** In an accepted tree no directory link lies inside its own target. */
  lemma NoLinkHoldsItself(files: seq<Entry>, digest: seq<Entry> -> Hash, e: Entry)
    requires Unique(files) && LinksAccepted(files, digest) && e in files && e.LinkDirectory?
    ensures !Within(e.resolved, e.path)
  {
    hide ByPath;
    hide LinkOk;
    Listed(files, e);
    var p := [e.path, e.path];
    assert !Distinct(p) by { assert p[0] == p[1]; }
    assert Within(e.resolved, e.path) ==> WalkFrom(LinkArcs(files), Links(files), p);
  }

  lemma ListingHolds(files: seq<Entry>, dir: Text, r: Entry)
    ensures r in Listing(files, dir) <==> exists e :: e in files && Within(dir, e.path) && Relative(dir, e) == r
  {
    var inside := Descendants(files, dir);
    var all := Relatives(dir, inside);
    Snapshot.SortKeeps(PathBelow, all);
    assert r in Listing(files, dir) <==> r in multiset(all);
    if e :| e in files && Within(dir, e.path) && Relative(dir, e) == r {
      assert e in inside;
      var i :| 0 <= i < |inside| && inside[i] == e;
      assert all[i] == r;
    }
    if r in all {
      var i :| 0 <= i < |all| && all[i] == r;
      assert inside[i] in inside;
    }
  }

  /** Two links of the same kind that carry the same hash. */
  ghost predicate Twins(files: seq<Entry>, p: Text, others: seq<Entry>, q: Text) {
    && p in Links(files) && q in Links(others)
    && var a, b := ByPath(files)[p], ByPath(others)[q];
      a.hash == b.hash && (a.LinkFile? <==> b.LinkFile?)
  }

  ghost predicate Injective(digest: seq<Entry> -> Hash) {
    forall s, t :: digest(s) == digest(t) ==> s == t
  }

  /**
   If directory links of two accepted trees are twins, so is any link inside one's target with one inside the
   other's.
   */
  lemma TwinsInside(files: seq<Entry>, others: seq<Entry>, digest: seq<Entry> -> Hash, p: Text, q: Text, c: Text)
      returns (d: Text)
    requires Unique(files) && Unique(others) && LinksAccepted(files, digest) && LinksAccepted(others, digest)
    requires Injective(digest)
    requires Twins(files, p, others, q) && c in LinkArcs(files)[p]
    ensures q in LinkArcs(others) && d in LinkArcs(others)[q] && Twins(files, c, others, d)
    ensures Listing(files, ByPath(files)[p].resolved) == Listing(others, ByPath(others)[q].resolved)
  {
    var a, b := ByPath(files)[p], ByPath(others)[q];
    assert LinkOk(files, digest, a) && LinkOk(others, digest, b);
    var e := ByPath(files)[c];
    var r := Relative(a.resolved, e);
    ListingHolds(files, a.resolved, r);
    ListingHolds(others, b.resolved, r);
    var f :| f in others && Within(b.resolved, f.path) && Relative(b.resolved, f) == r;
    Listed(others, f);
    d := f.path;
  }

  /**
   A directory link's hash settles what lies behind it at every depth: with an
   injective digest, twins lead through the same chain of links, hash by hash.
   */
  lemma {:induction false} HashSettlesWalks(files: seq<Entry>, others: seq<Entry>, digest: seq<Entry> -> Hash,
                                            p: seq<Text>, q: Text) returns (w: seq<Text>)
    requires Unique(files) && Unique(others) && LinksAccepted(files, digest) && LinksAccepted(others, digest)
    requires Injective(digest)
    requires p != [] && Walk(LinkArcs(files), p) && Twins(files, p[0], others, q)
    ensures |w| == |p| && w[0] == q && Walk(LinkArcs(others), w)
    ensures forall i :: 0 <= i < |p| ==> Twins(files, p[i], others, w[i])
    decreases |p|
  {
    hide *;
    if |p| == 1 {
      w := [q];
      assert Walk(LinkArcs(others), w) by { Alone(others, q); }
    } else {
      WalkTail(LinkArcs(files), p);
      var d := TwinsInside(files, others, digest, p[0], q, p[1]);
      var rest := HashSettlesWalks(files, others, digest, p[1..], d);
      w := [q] + rest;
      WalkCons(LinkArcs(others), q, rest);
      forall i | 1 <= i < |p| ensures Twins(files, p[i], others, w[i]) {
        assert Twins(files, p[1..][i - 1], others, rest[i - 1]);
      }
    }
  }

  lemma Alone(files: seq<Entry>, q: Text)
    ensures Walk(LinkArcs(files), [q])
  {
  }

  /** The link stands for an entry of the tree, as that entry is recorded. */
  ghost predicate Mirrors(files: seq<Entry>, digest: seq<Entry> -> Hash, e: Entry) {
    exists t :: t in files &&
      match e
      case LinkFile(_, _, resolved, hash, size, executable) => t == File(resolved, hash, size, executable)
      case LinkDirectory(_, _, resolved, hash) => t == Directory(resolved) && hash == digest(Listing(files, resolved))
      case _ => false
  }

  /** Links are accepted exactly if each mirrors an entry of the tree and no chain of them returns. */
  lemma LinksAcceptedIff(files: seq<Entry>, digest: seq<Entry> -> Hash)
    requires Unique(files)
    ensures LinksAccepted(files, digest) <==>
      && (forall e :: e in files && (e.LinkFile? || e.LinkDirectory?) ==> Mirrors(files, digest, e))
      && AcyclicFrom(LinkArcs(files), Links(files))
  {
    forall e | e in files && IsLink(e) ensures LinkOk(files, digest, e) <==> Mirrors(files, digest, e) {
      MirrorsIff(files, digest, e);
    }
    hide LinkOk;
    hide Mirrors;
    hide LinkArcs;
    hide AcyclicFrom;
  }

  lemma MirrorsIff(files: seq<Entry>, digest: seq<Entry> -> Hash, e: Entry)
    requires Unique(files) && IsLink(e)
    ensures LinkOk(files, digest, e) <==> Mirrors(files, digest, e)
  {
    hide Listing;
    forall t | t in files ensures ByPath(files)[t.path] == t {
      OneOfPath(files, t);
    }
    hide ByPath;
  }

  lemma OneOfPath(files: seq<Entry>, t: Entry)
    requires Unique(files) && t in files
    ensures ByPath(files)[t.path] == t
  {
    var u := ByPath(files)[t.path];
    var i :| 0 <= i < |files| && files[i] == t;
    var j :| 0 <= j < |files| && files[j] == u;
  }
}
