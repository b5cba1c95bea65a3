/**
 The ledger's trust chains: which lines are entries of a `Depends on:` block,
 and how a line splits into plain text and code spans.
 */
module TrustChain {
  import opened Basics
  import opened Chars

  // ---- lines -----------------------------------------------------------

  predicate IsEmphasis(c: char) {
    c in "*_` "
  }

  /** Case folding, as far as it can produce a letter of `depends on`. */
  function Fold(c: char): char {
    if 'A' <= c <= 'Z' then (c as int + 32) as char else if c == '\U{017F}' then 's' else c
  }

  function Folded(s: string): (r: string)
    ensures |r| == |s| && forall i :: 0 <= i < |s| ==> r[i] == Fold(s[i])
  {
    seq(|s|, i requires 0 <= i < |s| => Fold(s[i]))
  }

  /** `is_depends_header` */
  predicate IsHeader(line: string) {
    var core := Strip(DropLeading(Strip(line), c => c == '#'));
    && ':' in core
    && var bare := StripAll(core, IsEmphasis);
      var name := if bare != "" && bare[|bare| - 1] == ':' then StripAll(bare[..|bare| - 1], IsEmphasis) else bare;
      Folded(name) == "depends on"
  }

  /** `indent_width`: the number of leading white-space characters. */
  function Indent(line: string): (n: nat)
    ensures n <= |line| && (n < |line| ==> !IsSpace(line[n])) && forall i :: 0 <= i < n ==> IsSpace(line[i])
  {
    if line != "" && IsSpace(line[0]) then 1 + Indent(line[1..]) else 0
  }

  predicate IsHeading(line: string) {
    Indent(line) < |line| && line[Indent(line)] == '#'
  }

  /** `^\s*-\s+\S` */
  predicate IsEntry(line: string) {
    var n := Indent(line);
    && n + 1 < |line| && line[n] == '-' && IsSpace(line[n + 1])
    && exists i :: n + 1 < i < |line| && !IsSpace(line[i])
  }

  lemma EntryShape(line: string)
    requires IsEntry(line)
    ensures !Blank(line) && !IsHeading(line)
  {
  }

  // ---- blocks ----------------------------------------------------------

  /** The first line from `j` on that is not blank. */
  function NextText(lines: seq<string>, j: nat): (n: nat)
    requires j <= |lines|
    ensures j <= n <= |lines| && (n < |lines| ==> !Blank(lines[n])) && forall k :: j <= k < n ==> Blank(lines[k])
    decreases |lines| - j
  {
    if j < |lines| && Blank(lines[j]) then NextText(lines, j + 1) else j
  }

  /** An entry stands between the header at `h` and line `j`. */
  ghost predicate SeenEntry(lines: seq<string>, h: nat, j: nat)
    requires j <= |lines|
  {
    exists k :: h < k < j && IsEntry(lines[k])
  }

  /**
   The blank run that `j` is in leads to an entry deeper than the header at `h`, or flush with it when none came
   before.
   */
  ghost predicate Continues(lines: seq<string>, h: nat, j: nat)
    requires h < j <= |lines|
  {
    var n := NextText(lines, j);
    && n < |lines| && IsEntry(lines[n])
    && (Indent(lines[n]) > Indent(lines[h]) || (Indent(lines[n]) == Indent(lines[h]) && !SeenEntry(lines, h, j)))
  }

  ghost predicate RunStart(lines: seq<string>, j: nat)
    requires 0 < j < |lines|
  {
    Blank(lines[j]) && !Blank(lines[j - 1])
  }

  /**
   Line `h` is the last header before `k`, with only entries and blanks since, and every blank run continues the
   block.
   */
  ghost predicate Open(lines: seq<string>, h: nat, k: nat)
    requires k <= |lines|
  {
    && h < k && IsHeader(lines[h])
    && (forall j :: h < j < k ==> !IsHeader(lines[j]) && (Blank(lines[j]) || IsEntry(lines[j])))
    && (forall j :: h < j < k && RunStart(lines, j) ==> Continues(lines, h, j))
  }

  ghost predicate Governed(lines: seq<string>, k: nat)
    requires k <= |lines|
  {
    exists h: nat :: Open(lines, h, k)
  }

  /** A link of a trust chain: an entry in an open block. */
  ghost predicate Link(lines: seq<string>, k: nat)
    requires k < |lines|
  {
    IsEntry(lines[k]) && !IsHeader(lines[k]) && Governed(lines, k)
  }

  /** A header line is never blank. */
  lemma HeaderIsText(line: string)
    requires IsHeader(line)
    ensures !Blank(line)
  {
    if Blank(line) {
      AllDropped(line, IsSpace);
    }
  }

  lemma {:induction false} AllDropped(s: string, these: char -> bool)
    requires forall i :: 0 <= i < |s| ==> these(s[i])
    ensures DropLeading(s, these) == ""
  {
    if s != "" {
      AllDropped(s[1..], these);
    }
  }

  /** Any line of a blank run continues the block exactly when the run's first line does. */
  lemma {:induction false} SameRun(lines: seq<string>, h: nat, a: nat, j: nat)
    requires h < a <= j < |lines| && forall k :: a <= k <= j ==> Blank(lines[k])
    ensures Continues(lines, h, a) <==> Continues(lines, h, j)
    decreases j
  {
    if a < j {
      SameRun(lines, h, a, j - 1);
      assert NextText(lines, j - 1) == NextText(lines, j);
      if IsEntry(lines[j - 1]) { EntryShape(lines[j - 1]); }
      assert SeenEntry(lines, h, j - 1) <==> SeenEntry(lines, h, j);
    }
  }

  function RunFrom(lines: seq<string>, h: nat, j: nat): (a: nat)
    requires h < j < |lines| && !Blank(lines[h]) && Blank(lines[j])
    ensures h < a <= j && RunStart(lines, a) && forall k :: a <= k <= j ==> Blank(lines[k])
    decreases j
  {
    if Blank(lines[j - 1]) then RunFrom(lines, h, j - 1) else j
  }

  lemma BlankInBlock(lines: seq<string>, h: nat, j: nat)
    requires j < |lines| && Open(lines, h, j) && Blank(lines[j])
    ensures Open(lines, h, j + 1) <==> Continues(lines, h, j)
  {
    hide IsHeader;
    hide Blank;
    hide IsEntry;
    assert !Blank(lines[h]) by { HeaderIsText(lines[h]); }
    assert !IsHeader(lines[j]) by { if IsHeader(lines[j]) { HeaderIsText(lines[j]); } }
    var a := RunFrom(lines, h, j);
    SameRun(lines, h, a, j);
    assert a < j ==> (RunStart(lines, a) ==> Continues(lines, h, a));
  }

  /** At most one header is open at a line: the last one. */
  lemma OneOpen(lines: seq<string>, h: nat, g: nat, k: nat)
    requires k <= |lines| && Open(lines, h, k) && Open(lines, g, k)
    ensures h == g
  {
    hide IsHeader;
  }

  lemma OpenEarlier(lines: seq<string>, h: nat, k: nat)
    requires k < |lines| && Open(lines, h, k + 1) && h < k
    ensures Open(lines, h, k)
  {
    hide IsHeader;
    hide Continues;
  }

  lemma EntryInBlock(lines: seq<string>, h: nat, k: nat)
    requires k < |lines| && Open(lines, h, k) && IsEntry(lines[k]) && !IsHeader(lines[k])
    ensures Open(lines, h, k + 1)
  {
    hide IsHeader;
    hide Continues;
    EntryShape(lines[k]);
  }

  /** The scanner's state before line `k`: the open header and whether an entry has followed it. */
  ghost predicate Tracks(lines: seq<string>, k: nat, headerIndent: Option<nat>, seen: bool)
    requires k <= |lines|
  {
    match headerIndent
    case None => !Governed(lines, k)
    case Some(indent) =>
      exists h: nat :: h < k && Open(lines, h, k) && indent == Indent(lines[h]) && (seen <==> SeenEntry(lines, h, k))
  }

  lemma AtHeader(lines: seq<string>, k: nat)
    requires k < |lines| && IsHeader(lines[k])
    ensures Tracks(lines, k + 1, Some(Indent(lines[k])), false) && !Link(lines, k)
  {
    hide IsHeader;
    assert Open(lines, k, k + 1);
  }

  lemma Outside(lines: seq<string>, k: nat)
    requires k < |lines| && !Governed(lines, k) && !IsHeader(lines[k])
    ensures !Governed(lines, k + 1) && !Link(lines, k)
  {
    hide IsHeader;
    var next := k + 1;
    forall h: nat ensures !Open(lines, h, next) {
      if Open(lines, h, next) && h < k {
        OpenEarlier(lines, h, k);
      }
    }
  }

  lemma AtBlank(lines: seq<string>, k: nat, h: nat, seen: bool)
    requires k < |lines| && Open(lines, h, k) && (seen <==> SeenEntry(lines, h, k)) && Blank(lines[k])
    ensures Tracks(lines, k + 1, if Continues(lines, h, k) then Some(Indent(lines[h])) else None, seen)
    ensures !Link(lines, k)
  {
    BlankInBlock(lines, h, k);
    BlankIsNeither(lines[k]);
    SeenSame(lines, h, k);
    hide *;
    NotLink(lines, k);
    if Continues(lines, h, k) {
      Opened(lines, h, k + 1, seen);
    } else {
      Closed(lines, h, k, seen);
    }
  }

  lemma NotLink(lines: seq<string>, k: nat)
    requires k < |lines| && !IsEntry(lines[k])
    ensures !Link(lines, k)
  {
  }

  lemma Opened(lines: seq<string>, h: nat, k: nat, seen: bool)
    requires k <= |lines| && Open(lines, h, k) && (seen <==> SeenEntry(lines, h, k))
    ensures h < k && Tracks(lines, k, Some(Indent(lines[h])), seen)
  {
  }

  ghost function OpenHeader(lines: seq<string>, k: nat, indent: nat, seen: bool): (h: nat)
    requires k <= |lines| && Tracks(lines, k, Some(indent), seen)
    ensures h < k && Open(lines, h, k) && indent == Indent(lines[h]) && (seen <==> SeenEntry(lines, h, k))
  {
    var h: nat :| h < k && Open(lines, h, k) && indent == Indent(lines[h]) && (seen <==> SeenEntry(lines, h, k));
    h
  }

  lemma Closed(lines: seq<string>, h: nat, k: nat, seen: bool)
    requires k < |lines| && Open(lines, h, k) && !IsHeader(lines[k]) && !Open(lines, h, k + 1)
    ensures Tracks(lines, k + 1, None, seen)
  {
    hide Open;
    hide IsHeader;
    var next := k + 1;
    forall g: nat ensures !Open(lines, g, next) {
      OnlyThis(lines, h, g, k);
    }
  }

  lemma BlankIsNeither(line: string)
    requires Blank(line)
    ensures !IsEntry(line) && !IsHeader(line)
  {
    hide IsHeader;
    if IsHeader(line) {
      HeaderIsText(line);
    }
  }

  lemma SeenSame(lines: seq<string>, h: nat, k: nat)
    requires h < k < |lines| && !IsEntry(lines[k])
    ensures SeenEntry(lines, h, k) <==> SeenEntry(lines, h, k + 1)
  {
  }

  /** No other header than `h` can be open after a line in its block. */
  lemma OnlyThis(lines: seq<string>, h: nat, g: nat, k: nat)
    requires k < |lines| && Open(lines, h, k) && !IsHeader(lines[k])
    ensures Open(lines, g, k + 1) ==> g == h
  {
    hide *;
    if Open(lines, g, k + 1) {
      OpenHasHeader(lines, g, k + 1);
      if g < k {
        OpenEarlier(lines, g, k);
        OneOpen(lines, h, g, k);
      }
    }
  }

  lemma OpenHasHeader(lines: seq<string>, h: nat, k: nat)
    requires k <= |lines| && Open(lines, h, k)
    ensures h < k && IsHeader(lines[h])
  {
    hide IsHeader;
    hide Continues;
  }

  lemma AtText(lines: seq<string>, k: nat, h: nat)
    requires k < |lines| && Open(lines, h, k) && !Blank(lines[k]) && !IsHeader(lines[k])
    ensures IsEntry(lines[k]) ==> Link(lines, k) && Tracks(lines, k + 1, Some(Indent(lines[h])), true)
    ensures !IsEntry(lines[k]) ==> !Link(lines, k) && Tracks(lines, k + 1, None, false)
  {
    if IsEntry(lines[k]) {
      EntryInBlock(lines, h, k);
      assert SeenEntry(lines, h, k + 1) by { SeenNow(lines, h, k); }
      hide *;
      Opened(lines, h, k + 1, true);
      IsLink(lines, h, k);
    } else {
      NotOpen(lines, h, k);
      hide *;
      NotLink(lines, k);
      Closed(lines, h, k, false);
    }
  }

  lemma SeenNow(lines: seq<string>, h: nat, k: nat)
    requires h < k < |lines| && IsEntry(lines[k])
    ensures SeenEntry(lines, h, k + 1)
  {
  }

  lemma IsLink(lines: seq<string>, h: nat, k: nat)
    requires k < |lines| && IsEntry(lines[k]) && !IsHeader(lines[k]) && Open(lines, h, k)
    ensures Link(lines, k)
  {
  }

  lemma NotOpen(lines: seq<string>, h: nat, k: nat)
    requires h < k < |lines| && !Blank(lines[k]) && !IsEntry(lines[k])
    ensures !Open(lines, h, k + 1)
  {
  }

  lemma NothingOpen(lines: seq<string>)
    ensures !Governed(lines, 0)
  {
  }

  /** `find_trust_chain_links`: the line numbers, counted from one, of exactly the links. */
  method FindLinks(lines: seq<string>) returns (links: set<nat>)
    ensures forall n :: n in links <==> 1 <= n <= |lines| && Link(lines, n - 1)
  {
    hide IsHeader;
    hide IsEntry;
    hide Blank;
    hide Link;
    hide Open;
    hide SeenEntry;
    hide IsHeading;
    assert !Governed(lines, 0) by { NothingOpen(lines); }
    links := {};
    var headerIndent: Option<nat> := None;
    var seen := false;
    var index := 0;
    while index < |lines|
      invariant 0 <= index <= |lines| && Tracks(lines, index, headerIndent, seen)
      invariant forall n :: n in links <==> 1 <= n <= index && Link(lines, n - 1)
    {
      var text := lines[index];
      if IsHeader(text) {
        AtHeader(lines, index);
        headerIndent := Some(Indent(text));
        seen := false;
      } else if headerIndent.Some? {
        ghost var h := OpenHeader(lines, index, headerIndent.value, seen);
        if Blank(text) {
          AtBlank(lines, index, h, seen);
          var continues := ScanBlanks(lines, index, headerIndent.value, seen, h);
          if !continues {
            headerIndent := None;
          }
        } else if IsHeading(text) || !IsEntry(text) {
          AtText(lines, index, h);
          if IsEntry(text) { EntryShape(text); }
          headerIndent := None;
        } else {
          AtText(lines, index, h);
          links := links + {index + 1};
          seen := true;
        }
      } else {
        Outside(lines, index);
      }
      index := index + 1;
    }
  }

  /** The look ahead over a blank run. */
  method ScanBlanks(lines: seq<string>, index: nat, headerIndent: nat, seen: bool, ghost h: nat)
      returns (continues: bool)
    requires index < |lines| && Blank(lines[index]) && Open(lines, h, index)
    requires headerIndent == Indent(lines[h]) && (seen <==> SeenEntry(lines, h, index))
    ensures continues <==> Continues(lines, h, index)
  {
    assert h < index by { OpenHasHeader(lines, h, index); }
    hide SeenEntry;
    hide Open;
    hide Blank;
    hide IsEntry;
    var next := index + 1;
    while next < |lines| && Blank(lines[next])
      invariant index < next <= |lines| && NextText(lines, index) == NextText(lines, next)
    {
      next := next + 1;
    }
    continues := false;
    if next < |lines| && IsEntry(lines[next]) {
      var entryIndent := Indent(lines[next]);
      continues := entryIndent > headerIndent || (!seen && entryIndent == headerIndent);
    }
  }

  // ---- code spans ------------------------------------------------------

  datatype Segment = Segment(code: bool, content: string)

  function SegmentText(s: Segment): string {
    if s.code then "`" + s.content + "`" else s.content
  }

  function Joined(segments: seq<Segment>): string {
    if segments == [] then "" else SegmentText(segments[0]) + Joined(segments[1..])
  }

  predicate AtMostOneTick(s: string) {
    forall i, j :: 0 <= i < j < |s| ==> s[i] != '`' || s[j] != '`'
  }

  /** The segments alternate, plain first and last; spans and all plain text but the last are free of backticks. */
  ghost predicate WellSplit(segments: seq<Segment>) {
    && |segments| % 2 == 1
    && (forall k :: 0 <= k < |segments| ==> (segments[k].code <==> k % 2 == 1))
    && (forall k :: 0 <= k < |segments| - 1 ==> '`' !in segments[k].content)
    && AtMostOneTick(segments[|segments| - 1].content)
  }

  lemma Regrouped(x: string, y: string, z: string)
    ensures x + (y + z) == x + y + z
  {
  }

  lemma JoinedFirst(a: seq<Segment>)
    requires a != []
    ensures Joined(a) == SegmentText(a[0]) + Joined(a[1..])
  {
  }

  lemma {:induction false} JoinedAppends(a: seq<Segment>, b: seq<Segment>)
    ensures Joined(a + b) == Joined(a) + Joined(b)
  {
    if a == [] {
      assert a + b == b;
    } else {
      JoinedAppends(a[1..], b);
      JoinedFirst(a);
      JoinedFirst(a + b);
      assert (a + b)[1..] == a[1..] + b;
      hide *;
      Regrouped(SegmentText(a[0]), Joined(a[1..]), Joined(b));
    }
  }

  /** `str.find` of a backtick: the first one from `pos` on. */
  function FindTick(text: string, pos: nat): (r: Option<nat>)
    requires pos <= |text|
    ensures r.Some? ==> pos <= r.value < |text| && text[r.value] == '`' && '`' !in text[pos..r.value]
    ensures r.None? ==> '`' !in text[pos..]
    decreases |text| - pos
  {
    if pos == |text| then None
    else if text[pos] == '`' then Some(pos)
    else
      assert text[pos..] == [text[pos]] + text[pos + 1..];
      assert forall n :: pos < n <= |text| ==> text[pos..n] == [text[pos]] + text[pos + 1..n];
      FindTick(text, pos + 1)
  }

  ghost predicate Pairs(segments: seq<Segment>) {
    && |segments| % 2 == 0
    && forall k :: 0 <= k < |segments| ==> (segments[k].code <==> k % 2 == 1) && '`' !in segments[k].content
  }

  /** `split_code_spans` */
  method SplitCodeSpans(text: string) returns (segments: seq<Segment>)
    ensures WellSplit(segments) && Joined(segments) == text
  {
    hide Joined;
    hide FindTick;
    assert Joined([]) == "" by { JoinedNothing(); }
    segments := [];
    var pos := 0;
    while true
      invariant pos <= |text| && Pairs(segments) && Joined(segments) == text[..pos]
      decreases |text| - pos
    {
      var left := FindTick(text, pos);
      var right := if left.Some? then FindTick(text, left.value + 1) else None;
      if left.None? || right.None? {
        LastSegment(text, segments, pos);
        segments := segments + [Segment(false, text[pos..])];
        return;
      }
      var plain, span := Segment(false, text[pos..left.value]), Segment(true, text[left.value + 1..right.value]);
      AddPair(text, segments, pos, left.value, right.value);
      segments := segments + [plain];
      segments := segments + [span];
      pos := right.value + 1;
    }
  }

  lemma JoinedNothing()
    ensures Joined([]) == ""
  {
  }

  lemma JoinedOne(a: seq<Segment>, s: Segment)
    ensures Joined(a + [s]) == Joined(a) + SegmentText(s)
  {
    JoinedAppends(a, [s]);
    assert [s][1..] == [];
  }

  lemma JoinedSingle(a: seq<Segment>)
    requires |a| == 1 && !a[0].code
    ensures Joined(a) == a[0].content
  {
    JoinedNothing();
    assert a[1..] == [];
  }

  lemma LastSegment(text: string, segments: seq<Segment>, pos: nat)
    requires pos <= |text| && (FindTick(text, pos).Some? ==> FindTick(text, FindTick(text, pos).value + 1).None?)
    requires Joined(segments) == text[..pos]
    ensures AtMostOneTick(text[pos..]) && Joined(segments + [Segment(false, text[pos..])]) == text
  {
    var last := text[pos..];
    JoinedOne(segments, Segment(false, last));
    assert text == text[..pos] + last;
    hide *;
    LastHasOneTick(text, pos);
  }

  lemma LastHasOneTick(text: string, pos: nat)
    requires pos <= |text| && (FindTick(text, pos).Some? ==> FindTick(text, FindTick(text, pos).value + 1).None?)
    ensures AtMostOneTick(text[pos..])
  {
    hide FindTick;
    var last := text[pos..];
    var left := FindTick(text, pos);
    if left.Some? {
      var n := left.value;
      forall i, j | 0 <= i < j < |last| ensures last[i] != '`' || last[j] != '`' {
        assert pos + i < n ==> last[i] == text[pos..n][i];
        assert pos + j > n ==> last[j] == text[n + 1..][pos + j - n - 1];
      }
    }
  }

  lemma Slices(text: string, left: nat, right: nat)
    requires left < right < |text| && text[left] == '`' && text[right] == '`'
    ensures text[..left] + ("`" + text[left + 1..right] + "`") == text[..right + 1]
  {
  }

  lemma AddPair(text: string, segments: seq<Segment>, pos: nat, left: nat, right: nat)
    requires pos <= left < right < |text| && text[left] == '`' && text[right] == '`'
    requires Joined(segments) == text[..pos]
    ensures Joined(segments + [Segment(false, text[pos..left])] + [Segment(true, text[left + 1..right])])
         == text[..right + 1]
  {
    var plain, span := Segment(false, text[pos..left]), Segment(true, text[left + 1..right]);
    JoinedOne(segments, plain);
    JoinedOne(segments + [plain], span);
    hide Joined;
    assert text[..pos] + text[pos..left] == text[..left];
    Slices(text, left, right);
  }

  /** A line has one such splitting, so the contract above determines the result. */
  lemma {:induction false} OneSplitting(a: seq<Segment>, b: seq<Segment>)
    requires WellSplit(a) && WellSplit(b) && Joined(a) == Joined(b)
    ensures a == b
    decreases |a|
  {
    OddLength(a);
    OddLength(b);
    if |a| == 1 { SingleText(a); } else { TwoTicks(a); }
    if |b| == 1 { SingleText(b); } else { TwoTicks(b); }
    hide *;
    if |a| == 1 {
      assert a == [a[0]] && b == [b[0]];
    } else {
      FirstPair(a, b);
      OneSplitting(a[2..], b[2..]);
      assert a == [a[0], a[1]] + a[2..] && b == [b[0], b[1]] + b[2..];
    }
  }

  lemma OddLength(a: seq<Segment>)
    requires WellSplit(a)
    ensures |a| == 1 || |a| >= 3
  {
  }

  lemma SingleText(a: seq<Segment>)
    requires WellSplit(a) && |a| == 1
    ensures a[0] == Segment(false, Joined(a)) && AtMostOneTick(Joined(a))
  {
    JoinedSingle(a);
    hide AtMostOneTick;
  }

  lemma RestIsWellSplit(a: seq<Segment>)
    requires WellSplit(a) && |a| >= 3
    ensures WellSplit(a[2..])
  {
    assert forall k :: 0 <= k < |a[2..]| ==> a[2..][k] == a[k + 2];
  }

  lemma JoinedPair(a: seq<Segment>)
    requires |a| >= 2 && !a[0].code && a[1].code
    ensures Joined(a) == a[0].content + "`" + (a[1].content + "`" + Joined(a[2..]))
  {
    assert Joined(a) == SegmentText(a[0]) + Joined(a[1..]);
    assert Joined(a[1..]) == SegmentText(a[1]) + Joined(a[1..][1..]);
    hide Joined;
    assert a[1..][1..] == a[2..];
    Regroup(a[0].content, a[1].content, Joined(a[2..]));
  }

  lemma Regroup(x: string, y: string, rest: string)
    ensures x + ("`" + y + "`" + rest) == x + "`" + (y + "`" + rest)
  {
  }

  lemma TwoTicks(a: seq<Segment>)
    requires WellSplit(a) && |a| >= 3
    ensures !AtMostOneTick(Joined(a))
  {
    JoinedPair(a);
    hide Joined;
    var i, j := |a[0].content|, |a[0].content| + |a[1].content| + 1;
    assert Joined(a)[i] == '`' && Joined(a)[j] == '`';
  }

  lemma ShorterHead(x: string, rest: string, y: string, more: string)
    requires '`' !in y && |x| < |y|
    ensures x + "`" + rest != y + "`" + more
  {
    var s, r := x + "`" + rest, y + "`" + more;
    if |s| == |r| {
      assert s[|x|] == '`';
      assert r[|x|] == y[|x|];
      assert y[|x|] in y;
    }
  }

  lemma SameHead(x: string, rest: string, y: string, more: string)
    requires '`' !in x && '`' !in y && x + "`" + rest == y + "`" + more
    ensures x == y && rest == more
  {
    var s, r := x + "`" + rest, y + "`" + more;
    if |x| < |y| {
      ShorterHead(x, rest, y, more);
    } else if |y| < |x| {
      ShorterHead(y, more, x, rest);
    }
    assert s[..|x|] == x && r[..|y|] == y && s[|x| + 1..] == rest && r[|y| + 1..] == more;
  }

  lemma FirstPair(a: seq<Segment>, b: seq<Segment>)
    requires WellSplit(a) && WellSplit(b) && |a| >= 3 && |b| >= 3 && Joined(a) == Joined(b)
    ensures a[0] == b[0] && a[1] == b[1] && WellSplit(a[2..]) && WellSplit(b[2..]) && Joined(a[2..]) == Joined(b[2..])
  {
    JoinedPair(a);
    JoinedPair(b);
    RestIsWellSplit(a);
    RestIsWellSplit(b);
    hide Joined;
    SameHead(a[0].content, a[1].content + "`" + Joined(a[2..]), b[0].content, b[1].content + "`" + Joined(b[2..]));
    SameHead(a[1].content, Joined(a[2..]), b[1].content, Joined(b[2..]));
  }
}
