/**
 Canonical ordering and the verified-input snapshot: what `sorted_unique`
 accepts, and the byte stream a snapshot hashes.
 */
module Snapshot {
  import opened Basics
  import opened Utf8

  // ---- sorting ---------------------------------------------------------

  function Insert<T>(less: (T, T) -> bool, x: T, s: seq<T>): seq<T> {
    if s == [] || !less(s[0], x) then [x] + s else [s[0]] + Insert(less, x, s[1..])
  }

  /** `sorted`, on keys: equal elements are indistinguishable, so its stability does not show. */
  function Sort<T>(less: (T, T) -> bool, s: seq<T>): seq<T> {
    if s == [] then [] else Insert(less, s[0], Sort(less, s[1..]))
  }

  ghost predicate Nondecreasing<T>(less: (T, T) -> bool, s: seq<T>) {
    forall i, j :: 0 <= i < j < |s| ==> !less(s[j], s[i])
  }

  ghost predicate Increasing<T>(less: (T, T) -> bool, s: seq<T>) {
    forall i, j :: 0 <= i < j < |s| ==> less(s[i], s[j])
  }

  lemma {:induction false} InsertSpec<T(!new)>(less: (T, T) -> bool, x: T, s: seq<T>)
    requires StrictOrder(less) && Nondecreasing(less, s)
    ensures multiset(Insert(less, x, s)) == multiset{x} + multiset(s)
    ensures Nondecreasing(less, Insert(less, x, s))
  {
    InsertKeeps(less, x, s);
    if s != [] && less(s[0], x) {
      InsertSpec(less, x, s[1..]);
      InsertKeeps(less, x, s[1..]);
      var rest := Insert(less, x, s[1..]);
      forall e | e in rest ensures !less(e, s[0]) {
        assert e in multiset(rest);
      }
      hide StrictOrder;
      Prepends(less, s[0], rest);
    } else if s != [] {
      forall e | e in s ensures !less(e, x) {
        var j :| 0 <= j < |s| && s[j] == e;
      }
      hide StrictOrder;
      Prepends(less, x, s);
    }
  }

  lemma Prepends<T(!new)>(less: (T, T) -> bool, x: T, s: seq<T>)
    requires Nondecreasing(less, s) && forall e :: e in s ==> !less(e, x)
    ensures Nondecreasing(less, [x] + s)
  {
  }

  /** Sorting by any comparison keeps the elements. */
  lemma {:induction false} SortKeeps<T>(less: (T, T) -> bool, s: seq<T>)
    ensures multiset(Sort(less, s)) == multiset(s)
  {
    if s != [] {
      SortKeeps(less, s[1..]);
      InsertKeeps(less, s[0], Sort(less, s[1..]));
      assert s == [s[0]] + s[1..];
    }
  }

  lemma {:induction false} InsertKeeps<T>(less: (T, T) -> bool, x: T, s: seq<T>)
    ensures multiset(Insert(less, x, s)) == multiset{x} + multiset(s)
  {
    if s != [] {
      assert s == [s[0]] + s[1..];
      if less(s[0], x) {
        InsertKeeps(less, x, s[1..]);
      }
    }
  }

  lemma {:induction false} SortSpec<T(!new)>(less: (T, T) -> bool, s: seq<T>)
    requires StrictOrder(less)
    ensures multiset(Sort(less, s)) == multiset(s) && Nondecreasing(less, Sort(less, s))
  {
    if s != [] {
      SortSpec(less, s[1..]);
      InsertSpec(less, s[0], Sort(less, s[1..]));
      assert s == [s[0]] + s[1..];
    }
  }

  /** A list is its own sort exactly when no pair is out of order. */
  lemma {:induction false} SortFixes<T(!new)>(less: (T, T) -> bool, s: seq<T>)
    requires StrictOrder(less)
    ensures Sort(less, s) == s <==> Nondecreasing(less, s)
  {
    if Nondecreasing(less, s) {
      if s != [] {
        assert s == [s[0]] + s[1..];
        SortFixes(less, s[1..]);
      }
    } else {
      SortSpec(less, s);
    }
  }

  /** Two increasing lists of the same elements are the same list. */
  lemma {:induction false} OneOrdering<T(!new)>(less: (T, T) -> bool, s: seq<T>, t: seq<T>)
    requires StrictOrder(less) && Increasing(less, s) && Increasing(less, t)
    requires forall x :: x in s <==> x in t
    ensures s == t
  {
    assert s != [] ==> s[0] in t;
    assert t != [] ==> t[0] in s;
    if s != [] {
      assert s[0] == t[0];
      forall x ensures x in s[1..] <==> x in t[1..] {
        TailMembers(less, s, x);
        TailMembers(less, t, x);
      }
      OneOrdering(less, s[1..], t[1..]);
      assert s == [s[0]] + s[1..] && t == [t[0]] + t[1..];
    }
  }

  lemma TailMembers<T(!new)>(less: (T, T) -> bool, s: seq<T>, x: T)
    requires StrictOrder(less) && s != [] && Increasing(less, s)
    ensures x in s[1..] <==> x in s && x != s[0]
  {
    assert s == [s[0]] + s[1..];
    if x in s[1..] {
      var i :| 0 <= i < |s[1..]| && s[1..][i] == x;
      assert less(s[0], s[i + 1]);
    }
  }

  // ---- sorted_unique ---------------------------------------------------

  /** A key: the strings of a tuple, or one string alone. */
  type Key = seq<Text>

  function EncodeKey(k: Key): (r: seq<Bytes>)
    ensures |r| == |k| && forall i :: 0 <= i < |k| ==> r[i] == Encode(k[i])
  {
    seq(|k|, i requires 0 <= i < |k| => Encode(k[i]))
  }

  function EncodeKeys(ks: seq<Key>): (r: seq<seq<Bytes>>)
    ensures |r| == |ks| && forall i :: 0 <= i < |ks| ==> r[i] == EncodeKey(ks[i])
  {
    seq(|ks|, i requires 0 <= i < |ks| => EncodeKey(ks[i]))
  }

  predicate KeyBelow(a: seq<Bytes>, b: seq<Bytes>) {
    Lex(Below, a, b)
  }

  predicate KeyBefore(a: Key, b: Key) {
    Lex(Before, a, b)
  }

  predicate SortedUnique(ks: seq<Key>) {
    EncodeKeys(ks) == Sort(KeyBelow, EncodeKeys(ks)) && |set k | k in ks| == |ks|
  }

  lemma KeyOrders()
    ensures StrictOrder(KeyBelow) && StrictOrder(KeyBefore)
  {
    Orders();
    forall a: seq<Bytes>, b: seq<Bytes>, c: seq<Bytes>
      ensures a == b || KeyBelow(a, b) || KeyBelow(b, a)
      ensures !KeyBelow(a, a) && (KeyBelow(a, b) && KeyBelow(b, c) ==> KeyBelow(a, c))
    {
      LexTotal(Below, a, b);
      if KeyBelow(a, b) && KeyBelow(b, c) { LexTransitive(Below, a, b, c); }
    }
    forall a: Key, b: Key, c: Key
      ensures a == b || KeyBefore(a, b) || KeyBefore(b, a)
      ensures !KeyBefore(a, a) && (KeyBefore(a, b) && KeyBefore(b, c) ==> KeyBefore(a, c))
    {
      LexTotal(Before, a, b);
      if KeyBefore(a, b) && KeyBefore(b, c) { LexTransitive(Before, a, b, c); }
    }
  }

  lemma {:induction false} KeyOrderIsPointOrder(a: Key, b: Key)
    ensures KeyBelow(EncodeKey(a), EncodeKey(b)) <==> KeyBefore(a, b)
  {
    if a != [] && b != [] {
      ByteOrderIsPointOrder(a[0], b[0]);
      if a[0] != b[0] && Encode(a[0]) == Encode(b[0]) { EncodingIsInjective(a[0], b[0]); }
      KeyOrderIsPointOrder(a[1..], b[1..]);
      assert EncodeKey(a)[1..] == EncodeKey(a[1..]) && EncodeKey(b)[1..] == EncodeKey(b[1..]);
    }
  }

  lemma {:induction false} FullSetIsDistinct<T>(s: seq<T>)
    ensures |set x | x in s| <= |s|
    ensures |set x | x in s| == |s| <==> forall i, j :: 0 <= i < j < |s| ==> s[i] != s[j]
  {
    if s != [] {
      var n := |s| - 1;
      FullSetIsDistinct(s[..n]);
      assert s == s[..n] + [s[n]];
      assert (set x | x in s) == (set x | x in s[..n]) + {s[n]};
      if s[n] in s[..n] {
        var i :| 0 <= i < n && s[i] == s[n];
        assert (set x | x in s) == (set x | x in s[..n]);
      }
    }
  }

  /** `sorted_unique` accepts exactly the keys strictly increasing by code point. */
  lemma SortedUniqueIff(ks: seq<Key>)
    ensures SortedUnique(ks) <==> Increasing(KeyBefore, ks)
  {
    KeyOrders();
    FullSetIsDistinct(ks);
    SortFixes(KeyBelow, EncodeKeys(ks));
    forall i, j | 0 <= i < |ks| && 0 <= j < |ks|
      ensures KeyBelow(EncodeKeys(ks)[i], EncodeKeys(ks)[j]) <==> KeyBefore(ks[i], ks[j])
    {
      KeyOrderIsPointOrder(ks[i], ks[j]);
    }
  }

  /** A set of entries has one accepted ordering. */
  lemma OneAcceptedOrdering(ks: seq<Key>, ls: seq<Key>)
    requires SortedUnique(ks) && SortedUnique(ls) && forall k :: k in ks <==> k in ls
    ensures ks == ls
  {
    KeyOrders();
    SortedUniqueIff(ks);
    SortedUniqueIff(ls);
    OneOrdering(KeyBefore, ks, ls);
  }

  // ---- the snapshot stream ---------------------------------------------

  /** A verified input: its path and the 64 hexadecimal digits of its content digest. */
  datatype Entry = Entry(path: Text, digest: Bytes)

  /** Git separates paths by NUL, so none contains one. */
  predicate Sound(e: Entry) {
    Scalars(e.path) && 0 !in e.path && |e.digest| == 64
  }

  /** `path NUL digest LF` */
  function Line(e: Entry): Bytes {
    Encode(e.path) + [0] + e.digest + [10]
  }

  function Stream(es: seq<Entry>): Bytes {
    if es == [] then [] else Line(es[0]) + Stream(es[1..])
  }

  function ToNul(b: Bytes): (n: nat)
    ensures n <= |b|
  {
    if b == [] || b[0] == 0 then 0 else 1 + ToNul(b[1..])
  }

  /** The entries a stream spells, if it spells any. */
  function Unstream(b: Bytes): Option<seq<Entry>>
    decreases |b|
  {
    if b == [] then Some([])
    else
      var n := ToNul(b);
      if |b| < n + 66 || b[n + 65] != 10 || Decode(b[..n]).None? then None
      else
        var rest := Unstream(b[n + 66..]);
        if rest.None? then None else Some([Entry(Decode(b[..n]).value, b[n + 1..n + 65])] + rest.value)
  }

  lemma {:induction false} NoNulInside(t: Text, rest: Bytes)
    requires 0 !in t
    ensures ToNul(Encode(t) + [0] + rest) == |Encode(t)|
  {
    if t == [] {
      assert Encode(t) + [0] + rest == [0] + rest;
    } else {
      assert t == [t[0]] + t[1..];
      assert t[0] in t;
      NoNulInside(t[1..], rest);
      SkipPoint(t[0], Encode(t[1..]) + [0] + rest);
      assert Encode(t) + [0] + rest == EncodePoint(t[0]) + (Encode(t[1..]) + [0] + rest);
    }
  }

  lemma SkipPoint(c: codepoint, rest: Bytes)
    requires c != 0
    ensures ToNul(EncodePoint(c) + rest) == |EncodePoint(c)| + ToNul(rest)
  {
    SkipNonzero(EncodePoint(c), rest);
  }

  lemma {:induction false} SkipNonzero(p: Bytes, rest: Bytes)
    requires 0 !in p
    ensures ToNul(p + rest) == |p| + ToNul(rest)
  {
    if p == [] {
      assert p + rest == rest;
    } else {
      assert p == [p[0]] + p[1..] && (p + rest)[1..] == p[1..] + rest;
      SkipNonzero(p[1..], rest);
    }
  }

  lemma LineDecodes(e: Entry, rest: Bytes)
    requires Sound(e)
    ensures var b := Line(e) + rest; var n := |Encode(e.path)|;
      && ToNul(b) == n && |b| >= n + 66 && b[n + 65] == 10
      && b[..n] == Encode(e.path) && b[n + 1..n + 65] == e.digest && b[n + 66..] == rest
  {
    hide Encode;
    var path, tail := Encode(e.path), e.digest + [10] + rest;
    NoNulInside(e.path, tail);
    assert Line(e) + rest == path + [0] + tail;
  }

  /** The stream decodes to the entries it was made of: nothing two inventories hash alike but themselves. */
  lemma {:induction false} StreamDecodes(es: seq<Entry>)
    requires forall i :: 0 <= i < |es| ==> Sound(es[i])
    ensures Unstream(Stream(es)) == Some(es)
  {
    hide Encode;
    hide Decode;
    hide ToNul;
    hide Line;
    if es != [] {
      LineDecodes(es[0], Stream(es[1..]));
      RoundTrip(es[0].path);
      StreamDecodes(es[1..]);
      assert es == [es[0]] + es[1..];
    }
  }

  lemma SnapshotIsInjective(es: seq<Entry>, fs: seq<Entry>)
    requires (forall i :: 0 <= i < |es| ==> Sound(es[i])) && (forall i :: 0 <= i < |fs| ==> Sound(fs[i]))
    requires Stream(es) == Stream(fs)
    ensures es == fs
  {
    StreamDecodes(es);
    StreamDecodes(fs);
  }

  // ---- two implementations ---------------------------------------------

  predicate EncodedBelow(a: Text, b: Text) {
    Below(Encode(a), Encode(b))
  }

  function OrderInputs(paths: seq<Text>): seq<Text> {
    Sort(EncodedBelow, paths)
  }

  /** The scan: `digest` is absent for a path with nothing to hash (deleted, or a submodule). */
  function Entries(paths: seq<Text>, digest: Text -> Option<Bytes>): seq<Entry> {
    if paths == [] then []
    else
      (if digest(paths[0]).Some? then [Entry(paths[0], digest(paths[0]).value)] else []) + Entries(paths[1..], digest)
  }

  function ContentStream(paths: seq<Text>, digest: Text -> Option<Bytes>): Bytes {
    Stream(Entries(OrderInputs(paths), digest))
  }

  /** A file of a stored input state: its hash carries the seven characters `sha256:` before the digits. */
  datatype File = File(path: Text, hash: Bytes)

  function StoredEntries(files: seq<File>): (r: seq<Entry>)
    requires forall i :: 0 <= i < |files| ==> |files[i].hash| >= 7
    ensures |r| == |files| && forall i :: 0 <= i < |files| ==> r[i] == Entry(files[i].path, files[i].hash[7..])
  {
    seq(|files|, i requires 0 <= i < |files| => Entry(files[i].path, files[i].hash[7..]))
  }

  function PathKeys(es: seq<Entry>): (r: seq<Key>)
    ensures |r| == |es| && forall i :: 0 <= i < |es| ==> r[i] == [es[i].path]
  {
    seq(|es|, i requires 0 <= i < |es| => [es[i].path])
  }

  function PathsOf(es: seq<Entry>): (r: seq<Text>)
    ensures |r| == |es| && forall i :: 0 <= i < |es| ==> r[i] == es[i].path
  {
    seq(|es|, i requires 0 <= i < |es| => es[i].path)
  }

  lemma {:induction false} EntriesSpec(paths: seq<Text>, digest: Text -> Option<Bytes>)
    requires Increasing(Before, paths)
    ensures var es := Entries(paths, digest);
      && Increasing(Before, PathsOf(es))
      && (forall e :: e in es <==> e.path in paths && digest(e.path) == Some(e.digest))
  {
    if paths != [] {
      hide Before;
      EntriesSpec(paths[1..], digest);
      var rest := Entries(paths[1..], digest);
      forall i | 0 <= i < |rest| ensures Before(paths[0], rest[i].path) {
        assert rest[i] in rest && rest[i].path in paths[1..];
        var k :| 0 <= k < |paths[1..]| && paths[1..][k] == rest[i].path;
        assert paths[k + 1] == rest[i].path;
      }
      assert paths == [paths[0]] + paths[1..];
    }
  }

  lemma OrderedInputs(paths: seq<Text>)
    requires forall i, j :: 0 <= i < j < |paths| ==> paths[i] != paths[j]
    ensures Increasing(Before, OrderInputs(paths))
    ensures forall p :: p in OrderInputs(paths) <==> p in paths
  {
    hide Encode;
    hide Sort;
    forall a: Text, b: Text ensures EncodedBelow(a, b) <==> Before(a, b) { ByteOrderIsPointOrder(a, b); }
    Orders();
    SortSpec(EncodedBelow, paths);
    var sorted := OrderInputs(paths);
    FullSetIsDistinct(paths);
    FullSetIsDistinct(sorted);
    forall p ensures p in sorted <==> p in paths {
      assert p in multiset(sorted) <==> p in multiset(paths);
    }
    assert (set p | p in sorted) == (set p | p in paths);
    assert |multiset(sorted)| == |multiset(paths)|;
  }

  /**
   Both implementations hash the same bytes: the scanner's own ordering, and a
   stored file list accepted as sorted and unique, agree whenever they hold the
   same entries.
   */
  lemma SnapshotsAgree(paths: seq<Text>, digest: Text -> Option<Bytes>, files: seq<File>)
    requires forall i, j :: 0 <= i < j < |paths| ==> paths[i] != paths[j]
    requires forall i :: 0 <= i < |files| ==> |files[i].hash| >= 7
    requires SortedUnique(PathKeys(StoredEntries(files)))
    requires forall e :: e in StoredEntries(files) <==> e.path in paths && digest(e.path) == Some(e.digest)
    ensures Stream(StoredEntries(files)) == ContentStream(paths, digest)
  {
    var stored, scanned := StoredEntries(files), Entries(OrderInputs(paths), digest);
    OrderedInputs(paths);
    EntriesSpec(OrderInputs(paths), digest);
    SortedUniqueIff(PathKeys(stored));
    KeysIncrease(stored);
    SameEntries(stored, scanned);
  }

  lemma KeysIncrease(es: seq<Entry>)
    requires Increasing(KeyBefore, PathKeys(es))
    ensures Increasing(Before, PathsOf(es))
  {
    forall i, j | 0 <= i < j < |es| ensures Before(PathsOf(es)[i], PathsOf(es)[j]) {
      assert KeyBefore(PathKeys(es)[i], PathKeys(es)[j]);
      SingleKey(es[i].path, es[j].path);
    }
  }

  lemma SingleKey(a: Text, b: Text)
    ensures KeyBefore([a], [b]) <==> Before(a, b)
  {
    assert [a][1..] == [] && [b][1..] == [];
    assert !Lex(Before, [a][1..], [b][1..]);
  }

  /** Entries with increasing paths are determined by which entries they are. */
  lemma SameEntries(es: seq<Entry>, fs: seq<Entry>)
    requires Increasing(Before, PathsOf(es)) && Increasing(Before, PathsOf(fs))
    requires forall e :: e in es <==> e in fs
    ensures es == fs
  {
    Orders();
    SamePaths(es, fs);
    SamePaths(fs, es);
    OneOrdering(Before, PathsOf(es), PathsOf(fs));
    forall i | 0 <= i < |es| ensures es[i] == fs[i] {
      assert es[i] in fs;
      var j :| 0 <= j < |fs| && fs[j] == es[i];
      assert PathsOf(fs)[j] == PathsOf(es)[i] == PathsOf(fs)[i];
      assert !Before(PathsOf(fs)[i], PathsOf(fs)[i]);
    }
  }

  lemma SamePaths(es: seq<Entry>, fs: seq<Entry>)
    requires forall e :: e in es ==> e in fs
    ensures forall p :: p in PathsOf(es) ==> p in PathsOf(fs)
  {
    forall p | p in PathsOf(es) ensures p in PathsOf(fs) {
      var i :| 0 <= i < |es| && PathsOf(es)[i] == p;
      assert es[i] in es;
      var j :| 0 <= j < |fs| && fs[j] == es[i];
      assert PathsOf(fs)[j] == p;
    }
  }
}
