/** What a verified-input policy text means: which texts are accepted, and the policy each one states. */
module PolicyText {
  import opened Basics
  import opened Chars
  import opened Policy

  // ---- lines -----------------------------------------------------------

  /** A line terminator `\n` or `\r\n`, or no terminator of any kind, no control character and no byte order mark. */
  ghost predicate Allowed(text: string, i: nat)
    requires i < |text|
  {
    var c := text[i];
    || c == '\n' || (c == '\r' && i + 1 < |text| && text[i + 1] == '\n')
    || (0x1F < c as int && !(0x7F <= c as int <= 0x9F) && c as int !in {0x2028, 0x2029, 0xFEFF})
  }

  ghost predicate Clean(text: string) {
    forall i :: 0 <= i < |text| ==> Allowed(text, i)
  }

  lemma CleanIff(text: string)
    ensures FirstFault(text, 0).None? <==> Clean(text)
  {
    forall i | 0 <= i < |text| ensures CharFault(text, i).None? <==> Allowed(text, i) {
    }
    hide CharFault;
    hide Allowed;
  }

  /** The lines with their endings, one after the other. */
  ghost function Rejoined(ls: seq<string>, ends: seq<string>): string
    requires |ls| == |ends|
  {
    if ls == [] then "" else ls[0] + ends[0] + Rejoined(ls[1..], ends[1..])
  }

  /** Each line ends in a terminator, but the last may just end. */
  ghost predicate Endings(ls: seq<string>, ends: seq<string>) {
    && |ls| == |ends|
    && (forall i :: 0 <= i < |ls| ==> '\n' !in ls[i])
    && forall i :: 0 <= i < |ls| ==>
         ends[i] == "\n" || ends[i] == "\r\n" || (i == |ls| - 1 && ends[i] == "" && ls[i] != "")
  }

  /** The lines with these endings are the text. */
  ghost predicate Makes(ls: seq<string>, ends: seq<string>, text: string) {
    Endings(ls, ends) && Rejoined(ls, ends) == text
  }

  lemma NoText()
    ensures Makes(Lines(""), [], "")
  {
  }

  lemma LastLine(text: string)
    requires text != "" && LineEnd(text) == |text|
    ensures Makes(Lines(text), [""], text)
  {
    assert Lines(text) == [text];
    assert text[..|text|] == text;
    hide Lines;
    hide LineEnd;
    OneEnding(text);
  }

  lemma OneEnding(line: string)
    requires line != "" && '\n' !in line
    ensures Makes([line], [""], line)
  {
    assert Rejoined([line], [""]) == line + "" + Rejoined([], []);
  }

  lemma LinePrepended(line: string, end: string, ls: seq<string>, ends: seq<string>, rest: string)
    requires Makes(ls, ends, rest) && '\n' !in line && (end == "\n" || end == "\r\n")
    ensures Makes([line] + ls, [end] + ends, line + end + rest)
  {
    assert ([line] + ls)[1..] == ls && ([end] + ends)[1..] == ends;
  }

  lemma LinesStep(text: string)
    requires LineEnd(text) < |text|
    ensures var n := LineEnd(text); Lines(text) == [WithoutReturn(text[..n])] + Lines(text[n + 1..])
  {
    hide LineEnd;
  }

  lemma LineAndEnding(text: string, n: nat)
    requires n < |text| && text[n] == '\n' && '\n' !in text[..n]
    ensures '\n' !in WithoutReturn(text[..n])
    ensures WithoutReturn(text[..n]) + (if WithoutReturn(text[..n]) == text[..n] then "\n" else "\r\n") + text[n + 1..]
            == text
  {
    var line := WithoutReturn(text[..n]);
    if line == text[..n] {
      assert line + "\n" == text[..n + 1];
    } else {
      assert line + "\r\n" == text[..n + 1];
    }
    assert text[..n + 1] + text[n + 1..] == text;
  }

  /** The lines make up the text again. */
  lemma {:induction false} LinesRejoin(text: string)
    ensures exists ends :: Makes(Lines(text), ends, text)
    decreases |text|
  {
    hide *;
    if text == "" {
      NoText();
    } else {
      var n := LineEnd(text);
      if n == |text| {
        LastLine(text);
      } else {
        LinesRejoin(text[n + 1..]);
        LinesStep(text);
        LineAndEnding(text, n);
        var line, rest := WithoutReturn(text[..n]), Lines(text[n + 1..]);
        var ends :| Makes(rest, ends, text[n + 1..]);
        LinePrepended(line, if line == text[..n] then "\n" else "\r\n", rest, ends, text[n + 1..]);
      }
    }
  }

  // ---- what the lines say ----------------------------------------------

  /** The lines that say something, stripped: neither blank nor comments. */
  ghost function Telling(lines: seq<string>): seq<string> {
    if lines == [] then []
    else
      var line := Strip(lines[|lines| - 1]);
      Telling(lines[..|lines| - 1]) + if line == "" || line[0] == '#' then [] else [line]
  }

  /** The line sets the mode: `mode:`, in any case, before anything. */
  ghost predicate IsDirective(line: string) {
    && |line| >= 5 && line[0] in "mM" && line[1] in "oO" && line[2] in "dD" && line[3] in "eE" && line[4] == ':'
  }

  ghost predicate Sets(line: string, mode: Mode) {
    IsDirective(line) && Strip(line[5..]) == match mode case Exclude => "exclude" case Include => "include"
  }

  /** The entry without a leading `./`. */
  ghost function Undotted(line: string): string {
    if |line| >= 2 && line[0] == '.' && line[1] == '/' then line[2..] else line
  }

  /** Two dots stand between slashes or ends of the entry. */
  ghost predicate Climbs(entry: string) {
    exists i: nat :: ClimbsAt(entry, i)
  }

  ghost predicate ClimbsAt(entry: string, i: nat) {
    && i + 2 <= |entry| && entry[i] == '.' && entry[i + 1] == '.'
    && (i == 0 || entry[i - 1] == '/') && (i + 2 == |entry| || entry[i + 2] == '/')
  }

  ghost predicate EntryOk(entry: string) {
    entry != "" && entry != "." && entry[0] != '/' && !Climbs(entry)
  }

  /** Only the first line may set the mode, to one there is, and every other line is an entry. */
  ghost predicate Acceptable(ls: seq<string>) {
    forall i :: 0 <= i < |ls| ==>
      if IsDirective(ls[i]) then i == 0 && (Sets(ls[i], Exclude) || Sets(ls[i], Include))
      else EntryOk(Undotted(ls[i]))
  }

  ghost function ModeOf(ls: seq<string>): Mode {
    if ls != [] && Sets(ls[0], Include) then Include else Exclude
  }

  /** The entries in order. */
  ghost function EntriesIn(ls: seq<string>): seq<string> {
    if ls == [] then []
    else
      var line := ls[|ls| - 1];
      EntriesIn(ls[..|ls| - 1]) + if IsDirective(line) then [] else [Undotted(line)]
  }

  /** The same strings, each once, in the order in which they first appear. */
  ghost predicate FirstSeen(xs: seq<string>, r: seq<string>) {
    && (forall x :: x in r <==> x in xs)
    && forall i, j :: 0 <= i < j < |r| ==> SeenBefore(xs, r[i], r[j])
  }

  ghost predicate SeenBefore(xs: seq<string>, x: string, y: string) {
    exists a :: 0 <= a < |xs| && xs[a] == x && y !in xs[..a + 1]
  }

  // ---- entries and directives ------------------------------------------

  /** Two dots stand alone further on. */
  ghost predicate ClimbsLater(entry: string) {
    exists i: nat :: i > 0 && ClimbsAt(entry, i)
  }

  lemma ClimbShifts(path: string, i: nat)
    requires path != "" && i > 0
    ensures ClimbsAt(path, i) <==> (i == 1 ==> path[0] == '/') && ClimbsAt(path[1..], i - 1)
  {
  }

  lemma ClimbsLaterIff(path: string)
    requires path != ""
    ensures ClimbsLater(path) <==> (path[0] == '/' && ClimbsAt(path[1..], 0)) || ClimbsLater(path[1..])
  {
    hide ClimbsAt;
    if i: nat :| i > 0 && ClimbsAt(path, i) {
      ClimbShifts(path, i);
    }
    if path[0] == '/' && ClimbsAt(path[1..], 0) {
      ClimbShifts(path, 1);
    }
    if i: nat :| i > 0 && ClimbsAt(path[1..], i) {
      ClimbShifts(path, i + 1);
    }
  }

  lemma ClimbsFirst(path: string)
    requires path != ""
    ensures ClimbsAt(path, 0) <==> path[0] == '.' && (path[1..] == "." || "./" <= path[1..])
  {
    var rest := path[1..];
    assert rest == "." <==> |rest| == 1 && rest[0] == '.';
    assert "./" <= rest <==> |rest| >= 2 && rest[0] == '.' && rest[1] == '/';
  }

  lemma {:induction false} FirstComponent(path: string)
    ensures Components(path)[0] == "" <==> path == "" || path[0] == '/'
    ensures Components(path)[0] == "." <==> path == "." || "./" <= path
    ensures Components(path)[0] == ".." <==> ClimbsAt(path, 0)
  {
    if path != "" {
      var rest := path[1..];
      FirstComponent(rest);
      assert path == [path[0]] + rest;
      ClimbsFirst(path);
      hide ClimbsAt;
      var c := [path[0]] + Components(rest)[0];
      assert c == ".." <==> c[0] == '.' && c[1..] == ".";
      assert c[1..] == Components(rest)[0];
    }
  }

  lemma {:induction false} ComponentsClimb(path: string)
    ensures ".." in Components(path)[1..] <==> ClimbsLater(path)
  {
    if path == "" {
      assert !ClimbsLater(path);
    } else {
      var rest := path[1..];
      ComponentsClimb(rest);
      ClimbsLaterIff(path);
      FirstComponent(rest);
      var parts := Components(rest);
      assert parts == [parts[0]] + parts[1..];
      hide ClimbsAt;
      hide ClimbsLater;
      assert Components(path)[1..] == if path[0] == '/' then parts else parts[1..];
    }
  }

  lemma ClimbsIff(path: string)
    ensures ".." in Components(path) <==> Climbs(path)
  {
    FirstComponent(path);
    ComponentsClimb(path);
    var parts := Components(path);
    assert parts == [parts[0]] + parts[1..];
    hide Components;
    hide ClimbsAt;
  }

  lemma EntryIff(entry: string)
    ensures EntryFault(entry).None? <==> EntryOk(entry)
  {
    ClimbsIff(entry);
    hide Components;
    hide Climbs;
  }

  lemma DirectiveIff(line: string)
    ensures DirectiveValue(line).Some? <==> IsDirective(line)
    ensures DirectiveValue(line).Some? ==> DirectiveValue(line).value == Strip(line[5..])
  {
    hide Strip;
    if |line| >= 5 {
      var low := Lower(line[..5]);
      assert low == DIRECTIVE <==>
        low[0] == 'm' && low[1] == 'o' && low[2] == 'd' && low[3] == 'e' && low[4] == ':';
      assert forall i :: 0 <= i < 5 ==>
        low[i] == if 'A' <= line[i] <= 'Z' then (line[i] as int + 32) as char else line[i];
    }
  }

  lemma UndottedIs(line: string)
    ensures WithoutDot(line) == Undotted(line)
  {
    if |line| >= 2 && line[0] == '.' && line[1] == '/' {
      assert line[..2] == "./";
    }
  }

  // ---- what is scanned -------------------------------------------------

  /** A line that says nothing leaves the scan alone; any other is taken as a directive or an entry. */
  lemma TakeLineIs(s: Scan, raw: string)
    ensures var line := Strip(raw);
      TakeLine(s, raw) ==
      if line == "" || line[0] == '#' then Ok(s)
      else if IsDirective(line) then TakeDirective(s, Strip(line[5..]))
      else TakeEntry(s, Undotted(line))
  {
    DirectiveIff(Strip(raw));
    UndottedIs(Strip(raw));
    hide Strip;
    hide DirectiveValue;
    hide IsDirective;
    hide WithoutDot;
    hide Undotted;
    hide TakeDirective;
    hide TakeEntry;
  }

  /** The scan has read these telling lines. */
  ghost predicate Scans(s: Scan, ls: seq<string>) {
    && s.mode == (if ls == [] then None else Some(ModeOf(ls)))
    && FirstSeen(EntriesIn(ls), s.prefixes)
  }

  lemma OneDirective(s: Scan, ls: seq<string>, line: string)
    requires Scans(s, ls) && Acceptable(ls) && IsDirective(line)
    ensures TakeDirective(s, Strip(line[5..])).Ok? <==> Acceptable(ls + [line])
    ensures TakeDirective(s, Strip(line[5..])).Ok? ==>
      Scans(TakeDirective(s, Strip(line[5..])).value, ls + [line])
  {
    hide Strip;
    hide IsDirective;
    hide EntryOk;
    hide Undotted;
    var all := ls + [line];
    assert all[|ls|] == line;
    if ls == [] {
      assert all[..0] == [] && EntriesIn(all) == [];
      SameEmptiness(EntriesIn(ls), s.prefixes);
    }
  }

  lemma OneEntry(s: Scan, ls: seq<string>, line: string)
    requires Scans(s, ls) && Acceptable(ls) && !IsDirective(line)
    ensures TakeEntry(s, Undotted(line)).Ok? <==> Acceptable(ls + [line])
    ensures TakeEntry(s, Undotted(line)).Ok? ==> Scans(TakeEntry(s, Undotted(line)).value, ls + [line])
  {
    EntryIff(Undotted(line));
    SeenOneMore(EntriesIn(ls), s.prefixes, Undotted(line));
    hide Strip;
    hide EntryFault;
    hide EntryOk;
    hide Undotted;
    hide FirstSeen;
    var all := ls + [line];
    assert all[|ls|] == line && all[..|ls|] == ls;
    assert forall i :: 0 <= i < |ls| ==> all[i] == ls[i];
    assert EntriesIn(all) == EntriesIn(ls) + [Undotted(line)];
    NoDirectiveAlone(ls, line);
    hide IsDirective;
  }

  lemma NoDirectiveAlone(ls: seq<string>, line: string)
    requires !IsDirective(line)
    ensures ModeOf(ls + [line]) == ModeOf(ls)
  {
    if ls != [] {
      assert (ls + [line])[0] == ls[0];
    }
  }

  lemma SeenOneMore(xs: seq<string>, r: seq<string>, x: string)
    requires FirstSeen(xs, r)
    ensures FirstSeen(xs + [x], if x in r then r else r + [x])
  {
    var all := xs + [x];
    var s := if x in r then r else r + [x];
    forall i, j | 0 <= i < j < |s| ensures SeenBefore(all, s[i], s[j]) {
      if j < |r| {
        SeenStill(xs, r[i], r[j], x);
      } else {
        assert r[i] in r;
        var a :| 0 <= a < |xs| && xs[a] == r[i];
        assert all[a] == r[i] && x !in xs && all[..a + 1] == xs[..a + 1];
      }
    }
    assert all[|xs|] == x;
  }

  lemma SeenStill(xs: seq<string>, y: string, z: string, x: string)
    requires SeenBefore(xs, y, z)
    ensures SeenBefore(xs + [x], y, z)
  {
    var a :| 0 <= a < |xs| && xs[a] == y && z !in xs[..a + 1];
    assert (xs + [x])[..a + 1] == xs[..a + 1];
  }

  /** Scanning succeeds exactly on acceptable lines, and reads what they say. */
  lemma {:induction false} ScannedIff(lines: seq<string>)
    ensures Scanned(lines).Ok? <==> Acceptable(Telling(lines))
    ensures Scanned(lines).Ok? ==> Scans(Scanned(lines).value, Telling(lines))
  {
    if lines != [] {
      var n := |lines| - 1;
      ScannedIff(lines[..n]);
      ScanStep(lines);
      hide *;
      var ls, line := Telling(lines[..n]), Strip(lines[n]);
      var before := Scanned(lines[..n]);
      if line == "" || line[0] == '#' {
        assert Telling(lines) == ls;
        if before.Ok? { TakeLineIs(before.value, lines[n]); }
      } else if before.Ok? {
        TakeLineIs(before.value, lines[n]);
        if IsDirective(line) {
          OneDirective(before.value, ls, line);
        } else {
          OneEntry(before.value, ls, line);
        }
      } else {
        StillRefused(ls, line);
      }
    } else {
      assert Telling(lines) == [];
    }
  }

  lemma ScanStep(lines: seq<string>)
    requires lines != []
    ensures var n := |lines| - 1; var line, before := Strip(lines[n]), Scanned(lines[..n]);
      && Telling(lines) == Telling(lines[..n]) + (if line == "" || line[0] == '#' then [] else [line])
      && Scanned(lines) == if before.Err? then before else TakeLine(before.value, lines[n])
  {
    hide Strip;
    hide TakeLine;
  }

  lemma StillRefused(ls: seq<string>, line: string)
    requires !Acceptable(ls)
    ensures !Acceptable(ls + [line])
  {
    hide IsDirective;
    hide Sets;
    hide EntryOk;
    hide Undotted;
    var all := ls + [line];
    assert forall i :: 0 <= i < |ls| ==> all[i] == ls[i];
  }

  // ---- the policy a text states ----------------------------------------

  /**
   A text is accepted exactly if it is clean, only its first telling line sets the
   mode, its other telling lines are entries inside the project, and an include
   policy has one. It then states that mode, with these entries in the order they
   first appear.
   */
  lemma ParsedIff(text: string)
    ensures var ls := Telling(Lines(text));
      && (Parsed(text).Ok? <==>
            Clean(text) && Acceptable(ls) && (ModeOf(ls) == Include ==> EntriesIn(ls) != []))
      && (Parsed(text).Ok? ==>
            && Parsed(text).value.mode == ModeOf(ls) && FirstSeen(EntriesIn(ls), Parsed(text).value.prefixes)
            && Parsed(text).value.structural == DEFAULT_EXCLUSIONS)
  {
    CleanIff(text);
    ScannedIff(Lines(text));
    var ls := Telling(Lines(text));
    var s := Scanned(Lines(text));
    hide Clean;
    hide FirstFault;
    hide Lines;
    hide Telling;
    hide Scanned;
    hide Acceptable;
    if s.Ok? {
      SameEmptiness(EntriesIn(ls), s.value.prefixes);
      NothingSaid(ls);
    }
    hide ModeOf;
    hide FirstSeen;
    hide EntriesIn;
  }

  lemma SameEmptiness(xs: seq<string>, r: seq<string>)
    ensures FirstSeen(xs, r) ==> (xs == [] <==> r == [])
  {
    if FirstSeen(xs, r) {
      if xs != [] { assert xs[0] in r; }
      if r != [] { assert r[0] in xs; }
    }
  }

  lemma NothingSaid(ls: seq<string>)
    ensures ls == [] ==> ModeOf(ls) == Exclude
  {
  }
}
