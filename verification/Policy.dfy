/** The verified-input policy: its text form, and which paths it selects. */
module Policy {
  import opened Basics
  import opened Chars

  datatype Mode = Exclude | Include

  datatype InputPolicy = InputPolicy(mode: Mode, prefixes: seq<string>, structural: seq<string>)

  const POLICY_FILE := ".fv/verified-inputs.txt"

  const DEFAULT_EXCLUSIONS := [
    ".fv/evidence/", ".fv/verify/", ".fv/panels/", ".fv/changes/", ".fv/attacks/", ".fv/code-adversarial/",
    ".fv/history/", ".fv/.migrate-staging/", ".colosseum/"]

  datatype Fault =
    | AmbiguousTerminator(c: char) | ByteOrderMark | ControlCharacter(c: char)
    | MisplacedDirective | UnknownMode(value: string)
    | WholeProject | AbsoluteEntry | EscapesRoot
    | EmptyInclude

  // ---- selection -------------------------------------------------------

  /** A trailing slash matches a literal prefix; a bare entry matches itself and what lies beneath it. */
  predicate Covers(prefix: string, path: string) {
    if prefix != "" && prefix[|prefix| - 1] == '/' then prefix <= path
    else path == prefix || prefix + "/" <= path
  }

  predicate Matches(path: string, prefixes: seq<string>) {
    exists i :: 0 <= i < |prefixes| && Covers(prefixes[i], path)
  }

  function Selectors(p: InputPolicy): seq<string> {
    if p.mode.Exclude? then [] else if POLICY_FILE in p.prefixes then p.prefixes else p.prefixes + [POLICY_FILE]
  }

  predicate Selects(p: InputPolicy, path: string) {
    && !Matches(path, p.structural)
    && if p.mode.Include? then Matches(path, Selectors(p)) else !Matches(path, p.prefixes)
  }

  function Appended(into: seq<string>, more: seq<string>): seq<string> {
    if more == [] then into
    else
      var before := Appended(into, more[..|more| - 1]);
      if more[|more| - 1] in before then before else before + [more[|more| - 1]]
  }

  /** `exclusions`, the loop written as it accumulates. */
  function Exclusions(p: InputPolicy): seq<string> {
    if p.mode.Exclude? then Appended(p.structural, p.prefixes) else p.structural
  }

  /** `exclusions` */
  method ListExclusions(p: InputPolicy) returns (prefixes: seq<string>)
    ensures prefixes == Exclusions(p)
  {
    prefixes := p.structural;
    if p.mode.Exclude? {
      var i := 0;
      while i < |p.prefixes|
        invariant 0 <= i <= |p.prefixes| && prefixes == Appended(p.structural, p.prefixes[..i])
      {
        assert p.prefixes[..i + 1][..i] == p.prefixes[..i];
        if p.prefixes[i] !in prefixes {
          prefixes := prefixes + [p.prefixes[i]];
        }
        i := i + 1;
      }
      assert p.prefixes[..i] == p.prefixes;
    }
  }

  /** The parts of a path between its separators. */
  function Components(path: string): (r: seq<string>)
    ensures r != []
  {
    if path == "" then [""]
    else
      var rest := Components(path[1..]);
      if path[0] == '/' then [""] + rest else [[path[0]] + rest[0]] + rest[1..]
  }

  lemma {:induction false} ComponentsAppend(a: string, b: string)
    ensures Components(a + "/" + b) == Components(a) + Components(b)
  {
    if a == "" {
      assert a + "/" + b == "/" + b;
      assert ("/" + b)[1..] == b;
    } else {
      assert (a + "/" + b)[1..] == a[1..] + "/" + b;
      ComponentsAppend(a[1..], b);
    }
  }

  /** Components spell the path out again, so a path is determined by them. */
  function Path(parts: seq<string>): string
    requires parts != []
  {
    if |parts| == 1 then parts[0] else parts[0] + "/" + Path(parts[1..])
  }

  lemma {:induction false} PathOfComponents(path: string)
    ensures Path(Components(path)) == path
  {
    if path != "" {
      PathOfComponents(path[1..]);
      var rest := Components(path[1..]);
      if path[0] == '/' {
        assert ([""] + rest)[1..] == rest;
      } else {
        var parts := [[path[0]] + rest[0]] + rest[1..];
        assert parts[1..] == rest[1..];
      }
    }
  }

  lemma {:induction false} PathAppend(a: seq<string>, b: seq<string>)
    requires a != [] && b != []
    ensures Path(a + b) == Path(a) + "/" + Path(b)
  {
    if |a| == 1 {
      assert (a + b)[1..] == b;
    } else {
      assert (a + b)[1..] == a[1..] + b;
      PathAppend(a[1..], b);
    }
  }

  /** An entry, trailing slash or not, covers a path by whole components: `build` never covers `buildout.bin`. */
  lemma CoversWholeComponents(entry: string, path: string)
    requires entry != "" ==> entry[|entry| - 1] != '/'
    ensures Covers(entry, path) <==> Components(entry) <= Components(path)
    ensures Covers(entry + "/", path) <==> Components(entry) < Components(path)
  {
    BeneathIsBeyond(entry, path);
    PathOfComponents(entry);
    PathOfComponents(path);
    var a, b := Components(entry), Components(path);
    assert a <= b && !(a < b) ==> a == b;
  }

  lemma BeneathIsBeyond(entry: string, path: string)
    ensures entry + "/" <= path <==> Components(entry) < Components(path)
  {
    var a, b := Components(entry), Components(path);
    if entry + "/" <= path {
      var rest := path[|entry| + 1..];
      assert path == entry + "/" + rest;
      ComponentsAppend(entry, rest);
    }
    if a < b {
      var rest := b[|a|..];
      assert b == a + rest;
      PathAppend(a, rest);
      PathOfComponents(entry);
      PathOfComponents(path);
    }
  }

  /** An entry in path components: a directory strictly above the path, or a name at or above it. */
  predicate Holds(entry: string, path: string) {
    if entry != "" && entry[|entry| - 1] == '/' then Components(entry[..|entry| - 1]) < Components(path)
    else Components(entry) <= Components(path)
  }

  predicate HeldBy(path: string, entries: seq<string>) {
    exists i :: 0 <= i < |entries| && Holds(entries[i], path)
  }

  lemma HoldsWholeComponents(entry: string, path: string)
    ensures Covers(entry, path) <==> Holds(entry, path)
  {
    if entry != "" && entry[|entry| - 1] == '/' {
      var name := entry[..|entry| - 1];
      assert entry == name + "/";
      BeneathIsBeyond(name, path);
    } else {
      CoversWholeComponents(entry, path);
    }
  }

  lemma MatchesByComponents(path: string, entries: seq<string>)
    ensures Matches(path, entries) <==> HeldBy(path, entries)
  {
    hide Covers;
    hide Holds;
    forall i | 0 <= i < |entries| ensures Covers(entries[i], path) <==> Holds(entries[i], path) {
      HoldsWholeComponents(entries[i], path);
    }
  }

  /**
   The meaning of a policy in path components: a structural entry holds nothing
   selected; beyond that include mode selects what an entry or the policy file
   holds, and exclude mode what no entry holds.
   */
  lemma SelectionByComponents(p: InputPolicy, path: string)
    ensures Selects(p, path) <==>
      && !HeldBy(path, p.structural)
      && (p.mode.Include? ==> HeldBy(path, p.prefixes) || Holds(POLICY_FILE, path))
      && (p.mode.Exclude? ==> !HeldBy(path, p.prefixes))
  {
    hide Covers;
    hide Holds;
    MatchesByComponents(path, p.structural);
    MatchesByComponents(path, p.prefixes);
    HoldsWholeComponents(POLICY_FILE, path);
    MatchesLast(path, p.prefixes, POLICY_FILE);
    if POLICY_FILE in p.prefixes {
      var i :| 0 <= i < |p.prefixes| && p.prefixes[i] == POLICY_FILE;
      assert Holds(POLICY_FILE, path) ==> Holds(p.prefixes[i], path);
    }
  }

  lemma {:induction false} AppendedMatches(path: string, into: seq<string>, more: seq<string>)
    ensures Matches(path, Appended(into, more)) <==> Matches(path, into) || Matches(path, more)
  {
    hide Covers;
    if more != [] {
      var n := |more| - 1;
      var before := Appended(into, more[..n]);
      AppendedMatches(path, into, more[..n]);
      MatchesLast(path, more[..n], more[n]);
      assert more == more[..n] + [more[n]];
      if more[n] in before {
        var i :| 0 <= i < |before| && before[i] == more[n];
        assert Covers(more[n], path) ==> Matches(path, before);
      } else {
        MatchesLast(path, before, more[n]);
      }
    }
  }

  lemma MatchesLast(path: string, prefixes: seq<string>, last: string)
    ensures Matches(path, prefixes + [last]) <==> Matches(path, prefixes) || Covers(last, path)
  {
    hide Covers;
    var all := prefixes + [last];
    assert all[|prefixes|] == last;
    assert forall i :: 0 <= i < |prefixes| ==> all[i] == prefixes[i];
  }

  /** In exclusion mode the exclusion list alone decides what is selected. */
  lemma ExclusionsDecide(p: InputPolicy, path: string)
    requires p.mode.Exclude?
    ensures Selects(p, path) <==> !Matches(path, Exclusions(p))
  {
    AppendedMatches(path, p.structural, p.prefixes);
  }

  /** In include mode the policy file itself is always selected, unless a structural prefix covers it. */
  lemma PolicySelectsItself(p: InputPolicy)
    requires p.mode.Include?
    ensures Selects(p, POLICY_FILE) <==> !Matches(POLICY_FILE, p.structural)
    ensures p.structural == DEFAULT_EXCLUSIONS ==> Selects(p, POLICY_FILE)
  {
    var all := Selectors(p);
    assert POLICY_FILE in all;
    var i :| 0 <= i < |all| && all[i] == POLICY_FILE;
    assert Covers(all[i], POLICY_FILE);
    DefaultsSpareThePolicy();
  }

  lemma DefaultsSpareThePolicy()
    ensures !Matches(POLICY_FILE, DEFAULT_EXCLUSIONS)
  {
    forall i | 0 <= i < |DEFAULT_EXCLUSIONS| ensures !Covers(DEFAULT_EXCLUSIONS[i], POLICY_FILE) {
      var d := DEFAULT_EXCLUSIONS[i];
      assert POLICY_FILE[1] == 'f' && POLICY_FILE[4] == 'v' && POLICY_FILE[9] == 'i';
      assert d[1] != 'f' || d[4] != 'v' || d[9] != 'i';
    }
  }

  // ---- text ------------------------------------------------------------

  predicate IsControl(c: char) {
    c as int <= 0x1F || 0x7F <= c as int <= 0x9F
  }

  /** The characters that Python's line splitting breaks at and JavaScript's does not. */
  predicate IsAmbiguous(c: char) {
    c as int in {0x0B, 0x0C, 0x1C, 0x1D, 0x1E, 0x85, 0x2028, 0x2029}
  }

  const BOM: char := '\U{FEFF}'

  function CharFault(text: string, i: nat): Option<Fault>
    requires i < |text|
  {
    var c := text[i];
    if c == '\n' || (c == '\r' && i + 1 < |text| && text[i + 1] == '\n') then None
    else if IsAmbiguous(c) || c == '\r' then Some(AmbiguousTerminator(c))
    else if c == BOM then Some(ByteOrderMark)
    else if IsControl(c) then Some(ControlCharacter(c))
    else None
  }

  function FirstFault(text: string, i: nat): (r: Option<Fault>)
    requires i <= |text|
    ensures r.None? <==> forall k :: i <= k < |text| ==> CharFault(text, k).None?
    decreases |text| - i
  {
    if i == |text| then None else if CharFault(text, i).Some? then CharFault(text, i) else FirstFault(text, i + 1)
  }

  function LineEnd(text: string): (n: nat)
    ensures n <= |text| && '\n' !in text[..n] && (n < |text| ==> text[n] == '\n')
  {
    if text == "" || text[0] == '\n' then 0
    else
      assert text[..1 + LineEnd(text[1..])] == [text[0]] + text[1..][..LineEnd(text[1..])];
      1 + LineEnd(text[1..])
  }

  function WithoutReturn(line: string): string {
    if line != "" && line[|line| - 1] == '\r' then line[..|line| - 1] else line
  }

  /** `str.splitlines` on text whose only breaks are LF and CRLF. */
  function Lines(text: string): seq<string>
    decreases |text|
  {
    var n := LineEnd(text);
    if text == "" then [] else if n == |text| then [text] else [WithoutReturn(text[..n])] + Lines(text[n + 1..])
  }

  const DIRECTIVE := "mode:"

  function Lower(s: string): (r: string)
    ensures |r| == |s|
  {
    seq(|s|, i requires 0 <= i < |s| => if 'A' <= s[i] <= 'Z' then (s[i] as int + 32) as char else s[i])
  }

  function DirectiveValue(line: string): Option<string> {
    if |line| >= 5 && Lower(line[..5]) == DIRECTIVE then Some(Strip(line[5..])) else None
  }

  function ModeName(mode: Mode): string {
    if mode.Exclude? then "exclude" else "include"
  }

  function WithoutDot(line: string): string {
    if "./" <= line then line[2..] else line
  }

  function EntryFault(entry: string): Option<Fault> {
    if entry == "" || entry == "." || entry == "/" then Some(WholeProject)
    else if entry[0] == '/' then Some(AbsoluteEntry)
    else if ".." in Components(entry) then Some(EscapesRoot)
    else None
  }

  /** What has been read so far: the mode, once something fixed it, and the entries. */
  datatype Scan = Scan(mode: Option<Mode>, prefixes: seq<string>)

  predicate Skipped(line: string) {
    line == "" || line[0] == '#'
  }

  function TakeDirective(s: Scan, value: string): Result<Scan, Fault> {
    if s.mode.Some? || s.prefixes != [] then Err(MisplacedDirective)
    else if value == "exclude" then Ok(s.(mode := Some(Exclude)))
    else if value == "include" then Ok(s.(mode := Some(Include)))
    else Err(UnknownMode(value))
  }

  function TakeEntry(s: Scan, entry: string): Result<Scan, Fault> {
    if EntryFault(entry).Some? then Err(EntryFault(entry).value)
    else
      Ok(Scan(if s.mode.None? then Some(Exclude) else s.mode,
              if entry in s.prefixes then s.prefixes else s.prefixes + [entry]))
  }

  function TakeLine(s: Scan, raw: string): Result<Scan, Fault> {
    var line := Strip(raw);
    if Skipped(line) then Ok(s)
    else if DirectiveValue(line).Some? then TakeDirective(s, DirectiveValue(line).value)
    else TakeEntry(s, WithoutDot(line))
  }

  function Scanned(lines: seq<string>): Result<Scan, Fault> {
    if lines == [] then Ok(Scan(None, []))
    else
      var before := Scanned(lines[..|lines| - 1]);
      if before.Err? then before else TakeLine(before.value, lines[|lines| - 1])
  }

  function Finished(s: Scan): Result<InputPolicy, Fault> {
    var mode := if s.mode.Some? then s.mode.value else Exclude;
    if mode.Include? && s.prefixes == [] then Err(EmptyInclude)
    else Ok(InputPolicy(mode, s.prefixes, DEFAULT_EXCLUSIONS))
  }

  /** What the text means. */
  function Parsed(text: string): Result<InputPolicy, Fault> {
    if FirstFault(text, 0).Some? then Err(FirstFault(text, 0).value)
    else if Scanned(Lines(text)).Err? then Err(Scanned(Lines(text)).error)
    else Finished(Scanned(Lines(text)).value)
  }

  method RejectAmbiguous(text: string) returns (fault: Option<Fault>)
    ensures fault == FirstFault(text, 0)
  {
    var i := 0;
    while i < |text|
      invariant 0 <= i <= |text| && FirstFault(text, 0) == FirstFault(text, i)
    {
      if CharFault(text, i).Some? {
        return CharFault(text, i);
      }
      i := i + 1;
    }
    fault := None;
  }

  /** `parse_policy` */
  method Parse(text: string) returns (r: Result<InputPolicy, Fault>)
    ensures r == Parsed(text)
  {
    var fault := RejectAmbiguous(text);
    if fault.Some? {
      return Err(fault.value);
    }
    hide Lines;
    hide Strip;
    hide DirectiveValue;
    hide EntryFault;
    var lines := Lines(text);
    var mode: Option<Mode> := None;
    var prefixes: seq<string> := [];
    var i := 0;
    while i < |lines|
      invariant 0 <= i <= |lines| && Scanned(lines[..i]) == Ok(Scan(mode, prefixes))
    {
      ghost var s := Scan(mode, prefixes);
      ScanStops(lines, i);
      var line := Strip(lines[i]);
      i := i + 1;
      if line == "" || line[0] == '#' {
        continue;
      }
      var value := DirectiveValue(line);
      if value.Some? {
        if mode.Some? || prefixes != [] {
          return Err(MisplacedDirective);
        }
        if value.value != "exclude" && value.value != "include" {
          return Err(UnknownMode(value.value));
        }
        mode := Some(if value.value == "exclude" then Exclude else Include);
        continue;
      }
      if mode.None? {
        mode := Some(Exclude);
      }
      if "./" <= line {
        line := line[2..];
      }
      if EntryFault(line).Some? {
        return Err(EntryFault(line).value);
      }
      if line !in prefixes {
        prefixes := prefixes + [line];
      }
    }
    assert lines[..i] == lines;
    r := Finished(Scan(mode, prefixes));
  }

  /** The first line that is refused settles the outcome. */
  lemma ScanStops(lines: seq<string>, i: nat)
    requires i < |lines| && Scanned(lines[..i]).Ok?
    ensures Scanned(lines[..i + 1]) == TakeLine(Scanned(lines[..i]).value, lines[i])
    ensures Scanned(lines[..i + 1]).Err? ==> Scanned(lines) == Scanned(lines[..i + 1])
  {
    hide TakeLine;
    assert lines[..i + 1][..i] == lines[..i];
    if Scanned(lines[..i + 1]).Err? {
      ErrorStays(lines, i + 1);
    }
  }

  lemma {:induction false} ErrorStays(lines: seq<string>, i: nat)
    requires i <= |lines| && Scanned(lines[..i]).Err?
    ensures Scanned(lines) == Scanned(lines[..i])
    decreases |lines|
  {
    hide TakeLine;
    if i == |lines| {
      assert lines[..i] == lines;
    } else {
      var before := lines[..|lines| - 1];
      assert before[..i] == lines[..i];
      ErrorStays(before, i);
    }
  }
}
