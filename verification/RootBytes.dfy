/** `_root_has_bytes`: the search for a usable file under a root of a recorded tree. */
module RootBytes {
  import opened Graph
  import opened LinkGraph
  import opened Utf8

  /** The digest of the empty file. */
  const EMPTY_FILE_HASH := "sha256:e3b0c44298fc1c149afbf4c8996fb92427ae41e4649b934ca495991b7852b855"

  predicate HasBytes(e: Entry, executable: bool) {
    (e.File? || e.LinkFile?) && e.size > 0 && e.hash != EMPTY_FILE_HASH && (executable ==> e.executable)
  }

  /** One step down a tree: into a directory, or through a directory link. */
  ghost function Steps(files: seq<Entry>): (g: Arcs<Text>)
    ensures g.Keys == ByPath(files).Keys
  {
    var byPath := ByPath(files);
    map p | p in byPath ::
      if byPath[p].Directory? then set q | q in byPath && Within(p, q)
      else if byPath[p].LinkDirectory? then {byPath[p].resolved}
      else {}
  }

  /** A walk down from `name` that ends at a file with bytes. */
  ghost predicate Leads(files: seq<Entry>, executable: bool, name: Text, p: seq<Text>) {
    && Walk(Steps(files), p) && p[0] == name
    && p[|p| - 1] in ByPath(files) && HasBytes(ByPath(files)[p[|p| - 1]], executable)
  }

  ghost predicate Finds(files: seq<Entry>, executable: bool, name: Text) {
    exists p :: Leads(files, executable, name, p)
  }

  lemma FindsHere(files: seq<Entry>, executable: bool, name: Text)
    requires name in ByPath(files) && HasBytes(ByPath(files)[name], executable)
    ensures Finds(files, executable, name)
  {
    assert Leads(files, executable, name, [name]);
  }

  lemma FindsBelow(files: seq<Entry>, executable: bool, name: Text, next: Text)
    requires name in Steps(files) && next in Steps(files)[name] && Finds(files, executable, next)
    ensures Finds(files, executable, name)
  {
    hide Steps;
    hide ByPath;
    hide HasBytes;
    var p :| Leads(files, executable, next, p);
    WalkCons(Steps(files), name, p);
    assert Leads(files, executable, name, [name] + p);
  }

  /** Nothing to be had from an entry itself, and what it links to has been visited. */
  predicate Spent(e: Entry, executable: bool, visited: set<Text>) {
    !HasBytes(e, executable) && (e.LinkDirectory? ==> e.resolved in visited)
  }

  /** The search has been through `name` and everything inside it. */
  ghost predicate Explored(files: seq<Entry>, executable: bool, visited: set<Text>, name: Text) {
    name in ByPath(files) ==>
      && Spent(ByPath(files)[name], executable, visited)
      && (ByPath(files)[name].Directory? ==>
            forall e :: e in files && Within(name, e.path) ==> Spent(e, executable, visited))
  }

  /** The given names are explored, as far as `visited` goes. */
  ghost predicate AllExplored(files: seq<Entry>, executable: bool, visited: set<Text>, names: set<Text>) {
    forall x :: x in names ==> Explored(files, executable, visited, x)
  }

  /** The first `n` entries are spent, those of them that lie inside `name`. */
  ghost predicate SpentInside(files: seq<Entry>, executable: bool, visited: set<Text>, name: Text, n: nat)
    requires n <= |files|
  {
    forall j :: 0 <= j < n && Within(name, files[j].path) ==> Spent(files[j], executable, visited)
  }

  lemma ExploredGrows(files: seq<Entry>, executable: bool, visited: set<Text>, names: set<Text>,
                      wider: set<Text>, more: set<Text>)
    requires AllExplored(files, executable, visited, names) && visited <= wider
    requires AllExplored(files, executable, wider, more)
    ensures AllExplored(files, executable, wider, names + more)
  {
    hide ByPath;
    hide HasBytes;
  }

  /** `x` was visited or lies inside a visited directory. */
  ghost predicate Covered(files: seq<Entry>, visited: set<Text>, x: Text) {
    || x in visited
    || exists d :: d in visited && d in ByPath(files) && ByPath(files)[d].Directory? && Within(d, x)
  }

  lemma CoveredSteps(files: seq<Entry>, executable: bool, visited: set<Text>, x: Text)
    requires forall d :: d in visited ==> Explored(files, executable, visited, d)
    requires Covered(files, visited, x) && x in ByPath(files)
    ensures !HasBytes(ByPath(files)[x], executable)
    ensures forall y :: y in Steps(files)[x] ==> Covered(files, visited, y)
  {
    var e := ByPath(files)[x];
    assert Spent(e, executable, visited);
    forall y | y in Steps(files)[x] ensures Covered(files, visited, y) {
      if x !in visited && e.Directory? {
        var d :| d in visited && d in ByPath(files) && ByPath(files)[d].Directory? && Within(d, x);
        WithinIsTransitive(d, x, y);
      }
    }
  }

  /** Once every visited name is explored, nothing they lead to has bytes. */
  lemma {:induction false} ExploredFindsNothing(files: seq<Entry>, executable: bool, visited: set<Text>, p: seq<Text>)
    requires forall d :: d in visited ==> Explored(files, executable, visited, d)
    requires Walk(Steps(files), p) && Covered(files, visited, p[0])
    ensures !Leads(files, executable, p[0], p)
    decreases |p|
  {
    if p[0] in ByPath(files) {
      CoveredSteps(files, executable, visited, p[0]);
      if |p| > 1 {
        WalkTail(Steps(files), p);
        ExploredFindsNothing(files, executable, visited, p[1..]);
      }
    }
  }

  /** Every name the search can be asked about: the entries and where they link to. */
  function Names(files: seq<Entry>): set<Text> {
    (set e | e in files :: e.path) + set e | e in files && e.LinkDirectory? :: e.resolved
  }

  class Explorer {
    const files: seq<Entry>
    const executable: bool
    ghost const universe: set<Text>
    var visited: set<Text>

    constructor (files: seq<Entry>, executable: bool, root: Text)
      ensures this.files == files && this.executable == executable && visited == {}
      ensures universe == Names(files) + {root}
    {
      this.files, this.executable := files, executable;
      universe := Names(files) + {root};
      visited := {};
    }

    ghost predicate Valid()
      reads this
    {
      Unique(files) && Names(files) <= universe && visited <= universe
    }

    /** `visit`, a name already visited being a dead end. */
    method Visit(name: Text) returns (found: bool)
      requires Valid() && name in universe
      modifies `visited
      ensures Valid() && old(visited) + {name} <= visited
      ensures found ==> Finds(files, executable, name)
      ensures !found ==> AllExplored(files, executable, visited, visited - old(visited))
      decreases universe - visited, 1
    {
      hide ByPath;
      hide HasBytes;
      hide Finds;
      if name in visited {
        return false;
      }
      visited := visited + {name};
      var byPath := ByPath(files);
      if name !in byPath {
        return false;
      }
      var entry := byPath[name];
      if HasBytes(entry, executable) {
        FindsHere(files, executable, name);
        return true;
      }
      if entry.LinkDirectory? {
        found := Visit(entry.resolved);
        if found {
          FindsBelow(files, executable, name, entry.resolved);
        }
      } else if entry.Directory? {
        found := VisitInside(name);
      } else {
        found := false;
      }
    }

    /** The directory branch: the files inside, and the links inside to follow. */
    method VisitInside(name: Text) returns (found: bool)
      requires Valid() && name in visited && name in ByPath(files) && ByPath(files)[name].Directory?
      modifies `visited
      ensures Valid() && old(visited) <= visited
      ensures found ==> Finds(files, executable, name)
      ensures !found ==> AllExplored(files, executable, visited, visited - old(visited))
      ensures !found ==> Explored(files, executable, visited, name)
      decreases universe - visited, 3
    {
      hide ByPath;
      hide HasBytes;
      hide Explored;
      hide Finds;
      hide Within;
      var i := 0;
      while i < |files|
        invariant 0 <= i <= |files|
        invariant Valid() && old(visited) <= visited
        invariant AllExplored(files, executable, visited, visited - old(visited))
        invariant SpentInside(files, executable, visited, name, i)
      {
        if Within(name, files[i].path) {
          ghost var before := visited;
          found := VisitEntry(name, files[i]);
          if found {
            return;
          }
          ExploredGrows(files, executable, before, before - old(visited), visited, visited - before);
          assert before - old(visited) + (visited - before) == visited - old(visited);
        }
        i := i + 1;
      }
      found := false;
      InsideExplored(files, executable, visited, name);
    }

    /** One entry of the directory `name`. */
    method VisitEntry(name: Text, e: Entry) returns (found: bool)
      requires Valid() && name in ByPath(files) && ByPath(files)[name].Directory? && e in files && Within(name, e.path)
      modifies `visited
      ensures Valid() && old(visited) <= visited
      ensures found ==> Finds(files, executable, name)
      ensures !found ==>
                AllExplored(files, executable, visited, visited - old(visited)) && Spent(e, executable, visited)
      decreases universe - visited, 2
    {
      Listed(files, e);
      if HasBytes(e, executable) {
        FindsHere(files, executable, e.path);
        FindsBelow(files, executable, name, e.path);
        return true;
      }
      found := false;
      if e.LinkDirectory? {
        found := Visit(e.resolved);
        if found {
          FindsBelow(files, executable, e.path, e.resolved);
          FindsBelow(files, executable, name, e.path);
        }
      }
    }
  }

  lemma DirectoryIsSpent(e: Entry, executable: bool, visited: set<Text>)
    requires e.Directory?
    ensures Spent(e, executable, visited)
  {
  }

  lemma InsideExplored(files: seq<Entry>, executable: bool, visited: set<Text>, name: Text)
    requires name in ByPath(files) && ByPath(files)[name].Directory?
    requires SpentInside(files, executable, visited, name, |files|)
    ensures Explored(files, executable, visited, name)
  {
    hide ByPath;
    hide Within;
    DirectoryIsSpent(ByPath(files)[name], executable, visited);
    hide Spent;
    forall e | e in files && Within(name, e.path) ensures Spent(e, executable, visited) {
      var j :| 0 <= j < |files| && files[j] == e;
    }
  }

  /** True exactly when containment and directory links lead from the root to a file with bytes. */
  method RootHasBytes(files: seq<Entry>, root: Text, executable: bool) returns (found: bool)
    requires Unique(files)
    ensures found <==> Finds(files, executable, root)
  {
    var explorer := new Explorer(files, executable, root);
    found := explorer.Visit(root);
    if !found {
      forall p ensures !Leads(files, executable, root, p) {
        if Walk(Steps(files), p) && p[0] == root {
          ExploredFindsNothing(files, executable, explorer.visited, p);
        }
      }
    }
  }

  /** What is found is a file, or a link to one, that has content by its size and by its digest. */
  lemma FindsContent(files: seq<Entry>, executable: bool, name: Text)
    ensures Finds(files, executable, name) <==> exists p, e ::
      && Walk(Steps(files), p) && p[0] == name && p[|p| - 1] in ByPath(files) && ByPath(files)[p[|p| - 1]] == e
      && (e.File? || e.LinkFile?) && e.size != 0
      && e.hash != "sha256:e3b0c44298fc1c149afbf4c8996fb92427ae41e4649b934ca495991b7852b855"
      && (executable ==> e.executable)
  {
    forall p ensures Leads(files, executable, name, p) <==> exists e ::
      && Walk(Steps(files), p) && p[0] == name && p[|p| - 1] in ByPath(files) && ByPath(files)[p[|p| - 1]] == e
      && (e.File? || e.LinkFile?) && e.size != 0
      && e.hash != "sha256:e3b0c44298fc1c149afbf4c8996fb92427ae41e4649b934ca495991b7852b855"
      && (executable ==> e.executable)
    {
    }
    hide Leads;
    hide Steps;
  }
}
