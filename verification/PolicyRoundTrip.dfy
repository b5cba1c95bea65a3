/** Rendering a policy and parsing it back: exactly which policies survive. */
module PolicyRoundTrip {
  import opened Basics
  import opened Chars
  import opened Policy

  function EntryLines(prefixes: seq<string>): string {
    if prefixes == [] then "" else EntryLines(prefixes[..|prefixes| - 1]) + (prefixes[|prefixes| - 1] + "\n")
  }

  function Directive(mode: Mode): string {
    DIRECTIVE + " " + ModeName(mode)
  }

  function Terminated(header: string): string {
    if header != "" && header[|header| - 1] != '\n' then header + "\n" else header
  }

  /** `render_policy` */
  function Render(p: InputPolicy, header: string): string {
    Terminated(header) + (Directive(p.mode) + "\n") + EntryLines(p.prefixes)
  }

  /** A header of legal characters that holds only comments and blank lines. */
  ghost predicate IsHeader(header: string) {
    FirstFault(Terminated(header), 0).None? && forall l :: l in Lines(Terminated(header)) ==> Skipped(Strip(l))
  }

  predicate Plain(c: char) {
    !IsControl(c) && !IsAmbiguous(c) && c != BOM
  }

  ghost predicate AllPlain(s: string) {
    forall c :: c in s ==> Plain(c)
  }

  /** An entry that reading leaves as it is. */
  ghost predicate Stable(e: string) {
    && AllPlain(e) && Strip(e) == e && !Skipped(e) && DirectiveValue(e).None? && !("./" <= e) && EntryFault(e).None?
  }

  /** What `InputPolicy` itself demands: an include policy names something. */
  predicate Legal(p: InputPolicy) {
    p.mode.Include? ==> p.prefixes != []
  }

  // ---- what parsing yields ---------------------------------------------

  ghost predicate GoodScan(s: Scan) {
    && Distinct(s.prefixes) && (s.prefixes != [] ==> s.mode.Some?)
    && forall e :: e in s.prefixes ==> EntryFault(e).None? && AllPlain(e)
  }

  lemma {:induction false} LeadingKeeps(s: string)
    ensures forall c :: c in DropLeading(s, IsSpace) ==> c in s
  {
    if s != "" && IsSpace(s[0]) {
      LeadingKeeps(s[1..]);
      assert s == [s[0]] + s[1..];
    }
  }

  lemma {:induction false} TrailingKeeps(s: string)
    ensures |DropTrailing(s, IsSpace)| <= |s| && (|DropTrailing(s, IsSpace)| == |s| ==> DropTrailing(s, IsSpace) == s)
    ensures forall c :: c in DropTrailing(s, IsSpace) ==> c in s
  {
    if s != "" && IsSpace(s[|s| - 1]) {
      TrailingKeeps(s[..|s| - 1]);
      assert s == s[..|s| - 1] + [s[|s| - 1]];
    }
  }

  /** Stripping takes characters away, and is the identity when it takes none. */
  lemma StripKeeps(s: string)
    ensures |Strip(s)| <= |s| && (|Strip(s)| == |s| ==> Strip(s) == s) && forall c :: c in Strip(s) ==> c in s
  {
    LeadingKeeps(s);
    TrailingKeeps(DropLeading(s, IsSpace));
  }

  lemma TakeLineGood(s: Scan, raw: string)
    requires GoodScan(s) && AllPlain(raw) && TakeLine(s, raw).Ok?
    ensures var t := TakeLine(s, raw).value;
      GoodScan(t) && s.prefixes <= t.prefixes && |t.prefixes| <= |s.prefixes| + 1
  {
    StripKeeps(raw);
    hide Strip;
    hide DirectiveValue;
    hide EntryFault;
    hide Plain;
    var line := Strip(raw);
    var e := WithoutDot(line);
    assert AllPlain(e);
  }

  lemma {:induction false} ScannedGood(lines: seq<string>)
    requires Scanned(lines).Ok? && forall l :: l in lines ==> AllPlain(l)
    ensures GoodScan(Scanned(lines).value)
  {
    hide TakeLine;
    hide AllPlain;
    if lines != [] {
      ScannedGood(lines[..|lines| - 1]);
      TakeLineGood(Scanned(lines[..|lines| - 1]).value, lines[|lines| - 1]);
    }
  }

  lemma FaultFree(text: string, n: nat)
    requires FirstFault(text, 0).None? && n < |text|
    ensures Plain(text[n]) || text[n] == '\n' || (text[n] == '\r' && n + 1 < |text| && text[n + 1] == '\n')
  {
    assert CharFault(text, n).None?;
  }

  lemma FaultFreeTail(text: string, n: nat)
    requires FirstFault(text, 0).None? && n <= |text|
    ensures FirstFault(text[n..], 0).None?
  {
    forall k | 0 <= k < |text[n..]| ensures CharFault(text[n..], k).None? {
      assert CharFault(text, n + k).None?;
    }
  }

  lemma {:induction false} LinesArePlain(text: string)
    requires FirstFault(text, 0).None?
    ensures forall l :: l in Lines(text) ==> AllPlain(l)
    decreases |text|
  {
    if text != "" {
      var n := LineEnd(text);
      FirstLineIsPlain(text);
      if n < |text| {
        FaultFreeTail(text, n + 1);
        LinesArePlain(text[n + 1..]);
      }
    }
  }

  lemma FirstLineIsPlain(text: string)
    requires FirstFault(text, 0).None?
    ensures AllPlain(WithoutReturn(text[..LineEnd(text)]))
    ensures LineEnd(text) == |text| ==> AllPlain(text)
  {
    hide Plain;
    var n := LineEnd(text);
    var line := WithoutReturn(text[..n]);
    forall c | c in line ensures Plain(c) {
      var k :| 0 <= k < |line| && line[k] == c;
      FaultFree(text, k);
      assert text[..n][k] == c;
      assert k + 1 < n ==> text[..n][k + 1] == text[k + 1];
    }
    if n == |text| {
      assert text[..n] == text;
      forall k | 0 <= k < |text| ensures Plain(text[k]) {
        FaultFree(text, k);
        assert k + 1 < n ==> text[..n][k + 1] == text[k + 1];
      }
    }
  }

  /**
   Whatever parses has distinct entries that stay inside the project and hold no character the two parsers read
   differently.
   */
  lemma ParsedIsContained(text: string)
    requires Parsed(text).Ok?
    ensures var p := Parsed(text).value;
      && Legal(p) && p.structural == DEFAULT_EXCLUSIONS && Distinct(p.prefixes)
      && forall e :: e in p.prefixes ==>
           AllPlain(e) && e != "" && e[0] != '/' && e != "." && ".." !in Components(e)
  {
    LinesArePlain(text);
    ScannedGood(Lines(text));
  }

  /** No policy text, in either mode, selects a path inside one of the output directories. */
  lemma NoTextSelectsOutput(text: string, directory: string, path: string)
    requires Parsed(text).Ok? && directory + "/" in DEFAULT_EXCLUSIONS && Components(directory) < Components(path)
    ensures !Selects(Parsed(text).value, path)
  {
    ParsedIsContained(text);
    SelectionByComponents(Parsed(text).value, path);
    hide *;
    HeldByMember(directory, path, DEFAULT_EXCLUSIONS);
  }

  /** The output directories, by name. */
  ghost const OUTPUTS: set<string> := {
    ".fv/evidence", ".fv/verify", ".fv/panels", ".fv/changes", ".fv/attacks", ".fv/code-adversarial", ".fv/history",
    ".fv/.migrate-staging", ".colosseum"}

  lemma OutputsAreExcluded(text: string, directory: string, path: string)
    requires Parsed(text).Ok? && directory in OUTPUTS && Components(directory) < Components(path)
    ensures !Selects(Parsed(text).value, path)
  {
    OutputIsListed(directory);
    hide *;
    NoTextSelectsOutput(text, directory, path);
  }

  lemma OutputIsListed(directory: string)
    requires directory in OUTPUTS
    ensures directory + "/" in DEFAULT_EXCLUSIONS
  {
    var d := DEFAULT_EXCLUSIONS;
    if directory == ".fv/evidence" { assert directory + "/" == d[0]; }
    else if directory == ".fv/verify" { assert directory + "/" == d[1]; }
    else if directory == ".fv/panels" { assert directory + "/" == d[2]; }
    else if directory == ".fv/changes" { assert directory + "/" == d[3]; }
    else if directory == ".fv/attacks" { assert directory + "/" == d[4]; }
    else if directory == ".fv/code-adversarial" { assert directory + "/" == d[5]; }
    else if directory == ".fv/history" { assert directory + "/" == d[6]; }
    else if directory == ".fv/.migrate-staging" { assert directory + "/" == d[7]; }
    else { assert directory + "/" == d[8]; }
  }

  lemma HeldByMember(directory: string, path: string, entries: seq<string>)
    requires directory + "/" in entries && Components(directory) < Components(path)
    ensures HeldBy(path, entries)
  {
    var i :| 0 <= i < |entries| && entries[i] == directory + "/";
    assert entries[i][..|entries[i]| - 1] == directory;
    assert Holds(entries[i], path);
  }

  // ---- the lines of a rendering ----------------------------------------

  lemma {:induction false} LineEndAt(e: string, rest: string)
    requires '\n' !in e
    ensures LineEnd(e + "\n" + rest) == |e|
  {
    if e == "" {
      assert e + "\n" + rest == "\n" + rest;
    } else {
      LineEndAt(e[1..], rest);
      assert (e + "\n" + rest)[1..] == e[1..] + "\n" + rest;
    }
  }

  lemma OneLine(e: string)
    requires '\n' !in e && '\r' !in e
    ensures Lines(e + "\n") == [e]
  {
    LineEndAt(e, "");
    assert e + "\n" + "" == e + "\n";
    assert (e + "\n")[..|e|] == e && (e + "\n")[|e| + 1..] == "";
    assert Lines("") == [];
  }

  lemma {:induction false} LinesAppend(a: string, b: string)
    requires a == "" || a[|a| - 1] == '\n'
    ensures Lines(a + b) == Lines(a) + Lines(b)
    decreases |a|
  {
    hide Lines;
    hide WithoutReturn;
    if a == "" {
      assert a + b == b;
      NoLines();
    } else {
      EndsBefore(a);
      var e, rest := a[..LineEnd(a)], a[LineEnd(a) + 1..];
      assert a == e + "\n" + rest;
      assert a + b == e + "\n" + (rest + b);
      LinesStep(e, rest);
      LinesStep(e, rest + b);
      LinesAppend(rest, b);
    }
  }

  lemma LinesStep(e: string, rest: string)
    requires '\n' !in e
    ensures Lines(e + "\n" + rest) == [WithoutReturn(e)] + Lines(rest)
  {
    hide LineEnd;
    hide WithoutReturn;
    LineEndAt(e, rest);
    var text := e + "\n" + rest;
    assert text[..|e|] == e && text[|e| + 1..] == rest;
  }

  lemma EndsBefore(a: string)
    requires a != "" && a[|a| - 1] == '\n'
    ensures LineEnd(a) < |a|
  {
    assert a[..|a|] == a;
    assert a[|a| - 1] in a;
  }

  ghost predicate Breakless(prefixes: seq<string>) {
    forall e :: e in prefixes ==> '\n' !in e && '\r' !in e
  }

  lemma {:induction false} EntryLinesAre(prefixes: seq<string>)
    requires Breakless(prefixes)
    ensures Lines(EntryLines(prefixes)) == prefixes
    ensures EntryLines(prefixes) == "" || EntryLines(prefixes)[|EntryLines(prefixes)| - 1] == '\n'
  {
    hide Lines;
    if prefixes == [] {
      assert Lines("") == [] by { NoLines(); }
    } else {
      var before, last := prefixes[..|prefixes| - 1], prefixes[|prefixes| - 1];
      EntryLinesAre(before);
      OneLine(last);
      LinesAppend(EntryLines(before), last + "\n");
    }
  }

  lemma NoLines()
    ensures Lines("") == []
  {
  }

  lemma RenderedLines(p: InputPolicy, header: string)
    requires Breakless(p.prefixes)
    ensures Lines(Render(p, header)) == Lines(Terminated(header)) + [Directive(p.mode)] + p.prefixes
  {
    hide Lines;
    var h, d := Terminated(header), Directive(p.mode);
    assert '\n' !in d && '\r' !in d;
    OneLine(d);
    EntryLinesAre(p.prefixes);
    LinesAppend(h, d + "\n");
    LinesAppend(h + (d + "\n"), EntryLines(p.prefixes));
  }

  // ---- scanning a rendering --------------------------------------------

  lemma {:induction false} SkippedLines(lines: seq<string>)
    requires forall l :: l in lines ==> Skipped(Strip(l))
    ensures Scanned(lines) == Ok(Scan(None, []))
  {
    if lines != [] {
      SkippedLines(lines[..|lines| - 1]);
    }
  }

  lemma SpacedName(name: string)
    requires name == "exclude" || name == "include"
    ensures Strip(" " + name) == name
  {
    StripFixes(name);
    assert (" " + name)[1..] == name;
    assert DropLeading(" " + name, IsSpace) == DropLeading(name, IsSpace);
  }

  lemma DirectiveNames(mode: Mode)
    ensures DirectiveValue(Directive(mode)) == Some(ModeName(mode))
  {
    var name := ModeName(mode);
    assert Directive(mode)[..5] == DIRECTIVE && Directive(mode)[5..] == " " + name;
    assert Lower(DIRECTIVE) == DIRECTIVE;
    SpacedName(name);
    hide Strip;
  }

  lemma DirectiveIsRead(mode: Mode)
    ensures TakeLine(Scan(None, []), Directive(mode)) == Ok(Scan(Some(mode), []))
  {
    StripFixes(Directive(mode));
    DirectiveNames(mode);
    hide Strip;
    hide DirectiveValue;
  }

  lemma StripFixes(s: string)
    requires s != "" && !IsSpace(s[0]) && !IsSpace(s[|s| - 1])
    ensures Strip(s) == s
  {
  }

  /** The scan once the header and the directive are behind it. */
  lemma ScannedHead(p: InputPolicy, header: string)
    requires IsHeader(header)
    ensures Scanned(Lines(Terminated(header)) + [Directive(p.mode)]) == Ok(Scan(Some(p.mode), []))
  {
    hide TakeLine;
    hide Lines;
    hide Directive;
    var lines := Lines(Terminated(header));
    SkippedLines(lines);
    DirectiveIsRead(p.mode);
    assert (lines + [Directive(p.mode)])[..|lines|] == lines;
  }

  lemma StableIsTaken(s: Scan, e: string)
    requires s.mode.Some? && Stable(e) && e !in s.prefixes
    ensures TakeLine(s, e) == Ok(s.(prefixes := s.prefixes + [e]))
  {
    hide Strip;
    hide DirectiveValue;
    hide EntryFault;
  }

  /** A line that adds itself as an entry is stable. */
  lemma OnlyStableIsTaken(s: Scan, e: string)
    requires s.mode.Some? && AllPlain(e) && TakeLine(s, e).Ok? && TakeLine(s, e).value.prefixes == s.prefixes + [e]
    ensures Stable(e)
  {
    StripKeeps(e);
    hide Strip;
    hide DirectiveValue;
    hide EntryFault;
    var line := Strip(e);
    if !Skipped(line) && DirectiveValue(line).None? {
      assert TakeLine(s, e).value.prefixes[|s.prefixes|] == WithoutDot(line);
    }
  }

  /** Stable, distinct entries come back one by one. */
  lemma {:induction false} StableEntriesScan(head: seq<string>, mode: Mode, es: seq<string>)
    requires Scanned(head) == Ok(Scan(Some(mode), [])) && Distinct(es) && forall e :: e in es ==> Stable(e)
    ensures Scanned(head + es) == Ok(Scan(Some(mode), es))
    decreases |es|
  {
    hide TakeLine;
    hide Stable;
    if es == [] {
      assert head + es == head;
    } else {
      var n := |es| - 1;
      StableEntriesScan(head, mode, es[..n]);
      assert (head + es)[..|head| + n] == head + es[..n];
      StableIsTaken(Scan(Some(mode), es[..n]), es[n]);
      assert es == es[..n] + [es[n]];
    }
  }

  /** Each entry line adds at most one entry. */
  lemma {:induction false} EntriesScanShort(head: seq<string>, mode: Mode, es: seq<string>)
    requires Scanned(head) == Ok(Scan(Some(mode), [])) && Scanned(head + es).Ok? && forall e :: e in es ==> AllPlain(e)
    ensures var s := Scanned(head + es).value; |s.prefixes| <= |es| && s.mode.Some? && GoodScan(s)
    decreases |es|
  {
    hide TakeLine;
    hide AllPlain;
    if es == [] {
      assert head + es == head;
    } else {
      var n := |es| - 1;
      assert (head + es)[..|head| + n] == head + es[..n];
      EntriesScanShort(head, mode, es[..n]);
      var s := Scanned(head + es[..n]).value;
      TakeLineGood(s, es[n]);
      ModeStays(s, es[n]);
    }
  }

  lemma ModeStays(s: Scan, raw: string)
    requires s.mode.Some? && TakeLine(s, raw).Ok?
    ensures TakeLine(s, raw).value.mode == s.mode
  {
  }

  /** If the entry lines come back as they are, each of them is stable. */
  lemma {:induction false} OnlyStableEntriesScan(head: seq<string>, mode: Mode, es: seq<string>)
    requires Scanned(head) == Ok(Scan(Some(mode), [])) && forall e :: e in es ==> AllPlain(e)
    requires Scanned(head + es).Ok? && Scanned(head + es).value.prefixes == es
    ensures forall e :: e in es ==> Stable(e)
    decreases |es|
  {
    hide TakeLine;
    hide Stable;
    hide AllPlain;
    hide EntryFault;
    if es != [] {
      var n := |es| - 1;
      var before := es[..n];
      assert (head + es)[..|head| + n] == head + before;
      EntriesScanShort(head, mode, before);
      var s := Scanned(head + before).value;
      TakeLineGood(s, es[n]);
      assert s.prefixes == es[..|s.prefixes|];
      assert s.prefixes == before;
      assert es == before + [es[n]];
      OnlyStableIsTaken(s, es[n]);
      OnlyStableEntriesScan(head, mode, before);
    }
  }

  // ---- the characters of a rendering -----------------------------------

  lemma PlainHasNoFault(a: string, b: string)
    requires FirstFault(a, 0).None? && FirstFault(b, 0).None?
    ensures FirstFault(a + b, 0).None?
  {
    forall k | 0 <= k < |a + b| ensures CharFault(a + b, k).None? {
      if k < |a| {
        assert CharFault(a, k).None?;
      } else {
        assert CharFault(b, k - |a|).None?;
      }
    }
  }

  lemma PlainLine(e: string)
    requires AllPlain(e)
    ensures FirstFault(e + "\n", 0).None?
  {
    forall k | 0 <= k < |e + "\n"| ensures CharFault(e + "\n", k).None? {
      if k < |e| {
        assert Plain(e[k]);
      }
    }
  }

  lemma {:induction false} EntryLinesFaultFree(prefixes: seq<string>)
    requires forall e :: e in prefixes ==> AllPlain(e)
    ensures FirstFault(EntryLines(prefixes), 0).None?
  {
    hide AllPlain;
    hide FirstFault;
    if prefixes == [] {
      EmptyFaultFree();
    } else {
      var n := |prefixes| - 1;
      EntryLinesFaultFree(prefixes[..n]);
      PlainLine(prefixes[n]);
      PlainHasNoFault(EntryLines(prefixes[..n]), prefixes[n] + "\n");
    }
  }

  lemma EmptyFaultFree()
    ensures FirstFault("", 0).None?
  {
  }

  lemma RenderFaultFree(p: InputPolicy, header: string)
    requires IsHeader(header) && forall e :: e in p.prefixes ==> AllPlain(e)
    ensures FirstFault(Render(p, header), 0).None?
  {
    var d := Directive(p.mode);
    assert AllPlain(d);
    hide AllPlain;
    hide FirstFault;
    hide Directive;
    PlainLine(d);
    EntryLinesFaultFree(p.prefixes);
    PlainHasNoFault(Terminated(header), d + "\n");
    PlainHasNoFault(Terminated(header) + (d + "\n"), EntryLines(p.prefixes));
  }

  lemma PlainIsBreakless(prefixes: seq<string>)
    requires forall e :: e in prefixes ==> AllPlain(e)
    ensures Breakless(prefixes)
  {
    assert !Plain('\n') && !Plain('\r');
  }

  // ---- the round trip --------------------------------------------------

  lemma StableRoundTrips(p: InputPolicy, header: string)
    requires Legal(p) && IsHeader(header)
    requires p.structural == DEFAULT_EXCLUSIONS && Distinct(p.prefixes) && forall e :: e in p.prefixes ==> Stable(e)
    ensures Parsed(Render(p, header)) == Ok(p)
  {
    hide Strip;
    hide EntryFault;
    hide DirectiveValue;
    hide TakeLine;
    hide Lines;
    hide Plain;
    RenderFaultFree(p, header);
    PlainIsBreakless(p.prefixes);
    RenderedLines(p, header);
    ScannedHead(p, header);
    StableEntriesScan(Lines(Terminated(header)) + [Directive(p.mode)], p.mode, p.prefixes);
  }

  lemma OnlyStableRoundTrips(p: InputPolicy, header: string)
    requires Legal(p) && IsHeader(header) && Parsed(Render(p, header)) == Ok(p)
    ensures p.structural == DEFAULT_EXCLUSIONS && Distinct(p.prefixes) && forall e :: e in p.prefixes ==> Stable(e)
  {
    ParsedIsContained(Render(p, header));
    hide Strip;
    hide EntryFault;
    hide DirectiveValue;
    hide TakeLine;
    hide Lines;
    hide Plain;
    hide Stable;
    PlainIsBreakless(p.prefixes);
    RenderedLines(p, header);
    ScannedHead(p, header);
    OnlyStableEntriesScan(Lines(Terminated(header)) + [Directive(p.mode)], p.mode, p.prefixes);
  }

  /**
   A rendered policy parses back to itself exactly when its structural prefixes
   are the defaults and its entries are distinct and stable under reading.
   */
  lemma RoundTripIff(p: InputPolicy, header: string)
    requires Legal(p) && IsHeader(header)
    ensures Parsed(Render(p, header)) == Ok(p) <==>
      && p.structural == DEFAULT_EXCLUSIONS && Distinct(p.prefixes)
      && forall e :: e in p.prefixes ==> Stable(e)
  {
    hide *;
    if Parsed(Render(p, header)) == Ok(p) {
      OnlyStableRoundTrips(p, header);
    } else if p.structural == DEFAULT_EXCLUSIONS && Distinct(p.prefixes) && forall e :: e in p.prefixes ==> Stable(e) {
      StableRoundTrips(p, header);
    }
  }

  /** The parser itself yields policies that do not survive: of two leading `./` it takes one off. */
  lemma ParsedNeedNotRoundTrip()
    ensures var p := InputPolicy(Exclude, ["./x"], DEFAULT_EXCLUSIONS);
      Parsed("././x\n") == Ok(p) && Parsed(Render(p, "")) != Ok(p)
  {
    var p := InputPolicy(Exclude, ["./x"], DEFAULT_EXCLUSIONS);
    DottedParses();
    EmptyHeader();
    assert "./x" in p.prefixes && !Stable("./x");
    hide *;
    RoundTripIff(p, "");
  }

  lemma DottedParses()
    ensures Parsed("././x\n") == Ok(InputPolicy(Exclude, ["./x"], DEFAULT_EXCLUSIONS))
  {
    assert AllPlain("././x");
    hide *;
    OneLine("././x");
    PlainLine("././x");
    DottedIsTaken();
    OneLineScans("././x");
    assert "././x" + "\n" == "././x\n";
    ParsedByScan("././x\n", Scan(Some(Exclude), ["./x"]));
  }

  lemma OneLineScans(line: string)
    ensures Scanned([line]) == TakeLine(Scan(None, []), line)
  {
    var one := [line];
    assert one[..0] == [];
  }

  lemma ParsedByScan(text: string, s: Scan)
    requires FirstFault(text, 0).None? && Scanned(Lines(text)) == Ok(s) && s.mode == Some(Exclude)
    ensures Parsed(text) == Ok(InputPolicy(Exclude, s.prefixes, DEFAULT_EXCLUSIONS))
  {
  }

  lemma DottedIsTaken()
    ensures TakeLine(Scan(None, []), "././x") == Ok(Scan(Some(Exclude), ["./x"]))
  {
    var line := "././x";
    StripFixes(line);
    assert WithoutDot(line) == "./x";
    NotDirective();
    DotX();
    hide Strip;
    hide DirectiveValue;
    hide EntryFault;
    var none: seq<string> := [];
    assert none + ["./x"] == ["./x"];
  }

  lemma NotDirective()
    ensures DirectiveValue("././x").None?
  {
    assert Lower("././x"[..5])[0] == '.' && DIRECTIVE[0] == 'm';
  }

  lemma OneComponent(c: char)
    requires c != '/'
    ensures Components([c]) == [[c]]
  {
    assert [c][1..] == "";
    assert [c] + "" == [c];
  }

  lemma DotX()
    ensures EntryFault("./x").None?
  {
    ComponentsAppend(".", "x");
    assert "." + "/" + "x" == "./x";
    OneComponent('.');
    OneComponent('x');
    assert ".." !in [".", "x"];
  }

  lemma EmptyHeader()
    ensures IsHeader("")
  {
    NoLines();
    EmptyFaultFree();
  }
}
