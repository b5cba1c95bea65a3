/**
 The grammar of RFC 8259 as a relation between texts and values, and the fact
 that the strict parser decides it: what it accepts, and what it reads there.
 */
module JsonGrammar {
  import opened Basics
  import opened Utf8
  import opened Json
  import opened JsonTokens

  // ---- the grammar -----------------------------------------------------

  ghost predicate Blank(w: Text) {
    forall i :: 0 <= i < |w| ==> w[i] == 32 || w[i] == 9 || w[i] == 10 || w[i] == 13
  }

  /** White space, then `u`. */
  ghost predicate Spaced(t: Text, u: Text) {
    exists w :: Blank(w) && t == w + u
  }

  /** White space, then the character, then `u`. */
  ghost predicate Marked(t: Text, c: codepoint, u: Text) {
    Spaced(t, [c] + u)
  }

  /** One character of a string, however it is written. */
  ghost predicate CharSpells(t: Text, c: codepoint, rest: Text) {
    || (t == [c] + rest && c >= 32 && c != 34 && c != 92)
    || (exists e :: e in SHORT && c == SHORT[e] && t == [92, e] + rest)
    || (exists d: Text :: UnitSpells(d, c as int) && t == [92, 117] + d + rest
                          && !(IsHigh(c as int) && LowFollows(rest)))
    || (exists d: Text, high, e: Text, low :: UnitSpells(d, high) && IsHigh(high) && UnitSpells(e, low) && IsLow(low)
          && t == [92, 117] + d + [92, 117] + e + rest
          && c as int == 0x10000 + (high - 0xD800) * 0x400 + (low - 0xDC00))
  }

  /** The characters of a string and its closing quote. */
  ghost predicate StringSpells(t: Text, s: Text, rest: Text)
    decreases |s|
  {
    if s == [] then t == [34] + rest
    else exists next :: CharSpells(t, s[0], next) && StringSpells(next, s[1..], rest)
  }

  /** The members have different names, and the object holds these and no others. */
  ghost predicate Gathers(members: seq<(Text, Json)>, fields: map<Text, Json>) {
    && (forall i, j :: 0 <= i < j < |members| ==> members[i].0 != members[j].0)
    && (forall i :: 0 <= i < |members| ==> members[i].0 in fields && fields[members[i].0] == members[i].1)
    && (forall k :: k in fields ==> exists i :: 0 <= i < |members| && members[i].0 == k)
  }

  /** The text begins with a value: strings and literals, integers in their one spelling, arrays and objects. */
  ghost predicate Denotes(t: Text, v: Json, rest: Text)
    decreases |t|, 0
  {
    match v
    case Null => t == NULL + rest
    case Bool(b) => t == (if b then TRUE else FALSE) + rest
    case Int(n) => t == Number(n) + rest && -MAX_INTEGER <= n <= MAX_INTEGER && EndsNumber(n, rest)
    case Str(s) => t != [] && t[0] == 34 && StringSpells(t[1..], s, rest)
    case Arr(items) =>
      && t != [] && t[0] == 91
      && if items == [] then Marked(t[1..], 93, rest)
         else exists u :: Spaced(t[1..], u) && |u| < |t| && ItemsSpell(u, items, rest)
    case Obj(fields) =>
      && t != [] && t[0] == 123
      && if fields == map[] then Marked(t[1..], 125, rest)
         else exists u, members ::
           Spaced(t[1..], u) && |u| < |t| && MembersSpell(u, members, rest) && Gathers(members, fields)
  }

  /** The items of an array, commas between them, and its closing bracket. */
  ghost predicate ItemsSpell(t: Text, items: seq<Json>, rest: Text)
    decreases |t|, 1
  {
    && items != []
    && exists after ::
       && Denotes(t, items[0], after) && |after| < |t|
       && if |items| == 1 then Marked(after, 93, rest)
          else exists more, next ::
            Marked(after, 44, more) && Spaced(more, next) && |next| < |t| && ItemsSpell(next, items[1..], rest)
  }

  /** A name, a colon and a value, with white space between. */
  ghost predicate MemberSpells(t: Text, k: Text, colon: Text, value: Text) {
    && t != [] && t[0] == 34
    && exists named :: StringSpells(t[1..], k, named) && Marked(named, 58, colon) && Spaced(colon, value)
  }

  /** The members of an object, commas between them, and its closing brace. */
  ghost predicate MembersSpell(t: Text, members: seq<(Text, Json)>, rest: Text)
    decreases |t|, 1
  {
    && members != []
    && exists colon, value, after ::
       && MemberSpells(t, members[0].0, colon, value) && |value| < |t|
       && Denotes(value, members[0].1, after) && |after| < |t|
       && if |members| == 1 then Marked(after, 125, rest)
          else exists more, next ::
            Marked(after, 44, more) && Spaced(more, next) && |next| < |t| && MembersSpell(next, members[1..], rest)
  }

  // ---- white space -----------------------------------------------------

  predicate Dark(t: Text) {
    t == [] || !IsWhite(t[0])
  }

  lemma {:induction false} SkipIff(t: Text, u: Text)
    requires Dark(u)
    ensures SkipWhite(t) == u <==> Spaced(t, u)
  {
    if t != [] && IsWhite(t[0]) {
      SkipIff(t[1..], u);
      SpacedFurther(t, u);
      hide Spaced;
    } else {
      NothingToSkip(t, u);
      hide Spaced;
    }
  }

  lemma SpacedFurther(t: Text, u: Text)
    requires t != [] && IsWhite(t[0]) && Dark(u)
    ensures Spaced(t, u) <==> Spaced(t[1..], u)
  {
    hide Dark;
    if w :| Blank(w) && t[1..] == w + u {
      assert Blank([t[0]] + w) && t == ([t[0]] + w) + u;
    }
    if w :| Blank(w) && t == w + u {
      DarkIsAll(t, u, w);
      assert Blank(w[1..]) && t[1..] == w[1..] + u;
    }
  }

  lemma DarkIsAll(t: Text, u: Text, w: Text)
    requires t != [] && IsWhite(t[0]) && Dark(u) && t == w + u
    ensures w != []
  {
  }

  lemma NothingToSkip(t: Text, u: Text)
    requires Dark(t)
    ensures Spaced(t, u) <==> t == u
  {
    if t == u {
      assert Blank([]) && t == [] + u;
    }
    if w :| Blank(w) && t == w + u {
      if w != [] {
        BlankIsNotDark(w, u);
      } else {
        assert t == u;
      }
    }
  }

  lemma BlankIsNotDark(w: Text, u: Text)
    requires Blank(w) && w != []
    ensures !Dark(w + u)
  {
    assert (w + u)[0] == w[0];
  }

  lemma {:induction false} SkipIsDark(t: Text)
    ensures Dark(SkipWhite(t))
  {
    if t != [] && IsWhite(t[0]) {
      SkipIsDark(t[1..]);
    }
  }

  lemma MarkedIff(t: Text, c: codepoint, u: Text)
    requires !IsWhite(c)
    ensures Marked(t, c, u) <==> SkipWhite(t) != [] && SkipWhite(t)[0] == c && SkipWhite(t)[1..] == u
  {
    SkipIff(t, [c] + u);
    var s := SkipWhite(t);
    if s != [] && s[0] == c && s[1..] == u {
      assert s == [c] + u;
    }
  }

  // ---- strings ---------------------------------------------------------

  lemma CharIsRead(t: Text, c: codepoint, rest: Text)
    requires CharSpells(t, c, rest)
    ensures ReadString(t) == Prepended(c, ReadString(rest))
  {
    hide ReadString;
    hide UnitSpells;
    hide LowFollows;
    hide IsHigh;
    hide IsLow;
    if t == [c] + rest && c >= 32 && c != 34 && c != 92 {
      PlainReads(c, rest);
    } else if e :| e in SHORT && c == SHORT[e] && t == [92, e] + rest {
      ShortEscapeReads(e, rest);
    } else if d: Text :| UnitSpells(d, c as int) && t == [92, 117] + d + rest
                         && !(IsHigh(c as int) && LowFollows(rest)) {
      UnitReads(d, c as int, rest);
    } else {
      var d: Text, high, e: Text, low :| UnitSpells(d, high) && IsHigh(high) && UnitSpells(e, low) && IsLow(low)
        && t == [92, 117] + d + [92, 117] + e + rest
        && c as int == 0x10000 + (high - 0xD800) * 0x400 + (low - 0xDC00);
      PairReads(d, high, e, low, rest);
    }
  }

  lemma {:induction false} SpelledIsRead(t: Text, s: Text, rest: Text)
    requires StringSpells(t, s, rest)
    ensures ReadString(t) == Some(Read(s, rest))
    decreases |s|
  {
    if s == [] {
      assert t[1..] == rest;
    } else {
      var next :| CharSpells(t, s[0], next) && StringSpells(next, s[1..], rest);
      CharIsRead(t, s[0], next);
      SpelledIsRead(next, s[1..], rest);
      assert s == [s[0]] + s[1..];
    }
  }

  /** A string that is read begins with its closing quote or with a character, however that is written. */
  lemma ReadBegins(t: Text)
    requires t != [] && t[0] != 34 && ReadString(t).Some?
    ensures exists c, next :: CharSpells(t, c, next) && |next| < |t|
  {
    hide CharSpells;
    hide ReadString;
    hide EscapeFollows;
    if t[0] < 32 || (t[0] == 92 && !EscapeFollows(t)) {
      OtherwiseRefused(t);
    } else if t[0] == 92 {
      EscapeBegins(t);
    } else {
      PlainBegins(t);
    }
  }

  lemma PlainBegins(t: Text)
    requires t != [] && t[0] >= 32 && t[0] != 34 && t[0] != 92
    ensures exists c, next :: CharSpells(t, c, next) && |next| < |t|
  {
    assert t == [t[0]] + t[1..];
    assert CharSpells(t, t[0], t[1..]);
  }

  lemma EscapeBegins(t: Text)
    requires EscapeFollows(t)
    ensures exists c, next :: CharSpells(t, c, next) && |next| < |t|
  {
    hide UnitSpells;
    if t[1] in SHORT {
      assert t == [92, t[1]] + t[2..];
      assert CharSpells(t, SHORT[t[1]], t[2..]);
    } else {
      var u :| UnitSpells(t[2..6], u);
      UnitInRange(t[2..6], u);
      if IsHigh(u) && LowFollows(t[6..]) {
        PairBegins(t, u);
      } else {
        assert t == [92, 117] + t[2..6] + t[6..];
        assert CharSpells(t, u as codepoint, t[6..]);
      }
    }
  }

  lemma PairBegins(t: Text, high: int)
    requires |t| >= 6 && t[0] == 92 && t[1] == 117 && UnitSpells(t[2..6], high) && IsHigh(high) && LowFollows(t[6..])
    ensures exists c, next :: CharSpells(t, c, next) && |next| < |t|
  {
    hide UnitSpells;
    var rest := t[6..];
    var low :| UnitSpells(rest[2..6], low) && IsLow(low);
    var d, e, next := t[2..6], rest[2..6], rest[6..];
    PairSpells(d, high, e, low, next);
    assert t[..6] == [92, 117] + d;
    assert rest == [92, 117] + e + next;
    assert t == t[..6] + rest;
    assert t == [92, 117] + d + [92, 117] + e + next;
    hide CharSpells;
  }

  lemma PairSpells(d: Text, high: int, e: Text, low: int, next: Text)
    requires UnitSpells(d, high) && IsHigh(high) && UnitSpells(e, low) && IsLow(low)
    ensures CharSpells([92, 117] + d + [92, 117] + e + next,
                       (0x10000 + (high - 0xD800) * 0x400 + (low - 0xDC00)) as codepoint, next)
  {
    hide UnitSpells;
  }

  lemma UnitInRange(d: Text, u: int)
    requires UnitSpells(d, u)
    ensures 0 <= u < 0x10000
  {
    UnitIff(d, u);
  }

  lemma {:induction false} ReadIsSpelled(t: Text, s: Text, rest: Text)
    requires ReadString(t) == Some(Read(s, rest))
    ensures StringSpells(t, s, rest)
    decreases |t|
  {
    if t[0] == 34 {
      assert t == [34] + rest;
    } else {
      ReadBegins(t);
      var c, next :| CharSpells(t, c, next) && |next| < |t|;
      CharIsRead(t, c, next);
      hide CharSpells;
      hide ReadString;
      var more := ReadString(next).value;
      ReadIsSpelled(next, more.value, more.rest);
      assert s[0] == c && s[1..] == more.value;
    }
  }

  /** A string is read exactly as it is spelled. */
  lemma StringIff(t: Text, s: Text, rest: Text)
    ensures ReadString(t) == Some(Read(s, rest)) <==> StringSpells(t, s, rest)
  {
    if ReadString(t) == Some(Read(s, rest)) {
      ReadIsSpelled(t, s, rest);
    } else if StringSpells(t, s, rest) {
      SpelledIsRead(t, s, rest);
    }
    hide *;
  }

  // ---- values ----------------------------------------------------------

  lemma Opens(t: Text, v: Json, rest: Text)
    requires Denotes(t, v, rest)
    ensures t != [] && !IsWhite(t[0]) && t[0] != 93 && t[0] != 125
    ensures t[0] == 34 <==> v.Str?
    ensures t[0] == 91 <==> v.Arr?
    ensures t[0] == 123 <==> v.Obj?
    ensures t[0] == 110 <==> v.Null?
    ensures t[0] == 116 || t[0] == 102 <==> v.Bool?
  {
    if v.Int? {
      SignedText(v.n, rest);
      DigitFirst(v.n, rest);
    }
    hide StringSpells;
    hide ItemsSpell;
    hide MembersSpell;
    hide Number;
    hide Marked;
    hide Spaced;
  }

  lemma DigitFirst(n: int, rest: Text)
    ensures var t := Number(n) + rest; t != [] && (t[0] == 45 || IsDigit(t[0]))
  {
  }

  lemma ItemsOpen(t: Text, items: seq<Json>, rest: Text)
    requires ItemsSpell(t, items, rest)
    ensures t != [] && !IsWhite(t[0]) && t[0] != 93
  {
    var after :| Denotes(t, items[0], after) && |after| < |t|;
    Opens(t, items[0], after);
  }

  lemma MembersOpen(t: Text, members: seq<(Text, Json)>, rest: Text)
    requires MembersSpell(t, members, rest)
    ensures t != [] && t[0] == 34
  {
  }

  lemma AtomIsRead(t: Text, v: Json, rest: Text)
    requires Denotes(t, v, rest) && !v.Arr? && !v.Obj?
    ensures ReadValue(t) == Some(Read(v, rest))
  {
    Opens(t, v, rest);
    if v.Str? {
      StringIff(t[1..], v.s, rest);
    } else if v.Int? {
      NumberIff(t, v.n, rest);
    }
    hide StringSpells;
    hide ReadString;
    hide ReadNumber;
    hide Number;
    hide EndsNumber;
    hide ReadItems;
    hide ReadMembers;
  }

  lemma AtomIsDenoted(t: Text, v: Json, rest: Text)
    requires ReadValue(t) == Some(Read(v, rest)) && !v.Arr? && !v.Obj?
    ensures Denotes(t, v, rest)
  {
    hide StringSpells;
    hide ReadString;
    hide ReadNumber;
    hide Number;
    hide EndsNumber;
    hide ReadItems;
    hide ReadMembers;
    match v
    case Str(s) =>
      StringToken(t, s, rest);
      StringIff(t[1..], s, rest);
    case Int(n) =>
      NumberToken(t, n, rest);
      NumberIff(t, n, rest);
    case _ => WordToken(t, v, rest);
  }

  lemma StringToken(t: Text, s: Text, rest: Text)
    requires ReadValue(t) == Some(Read(Str(s), rest))
    ensures t != [] && t[0] == 34 && ReadString(t[1..]) == Some(Read(s, rest))
  {
    hide ReadString;
    hide ReadNumber;
    hide ReadItems;
    hide ReadMembers;
    hide SkipWhite;
  }

  lemma NumberToken(t: Text, n: int, rest: Text)
    requires ReadValue(t) == Some(Read(Int(n), rest))
    ensures ReadNumber(t) == Some(Read(n, rest))
  {
    hide ReadString;
    hide ReadNumber;
    hide ReadItems;
    hide ReadMembers;
    hide SkipWhite;
  }

  lemma WordToken(t: Text, v: Json, rest: Text)
    requires ReadValue(t) == Some(Read(v, rest)) && (v.Null? || v.Bool?)
    ensures t == (if v == Null then NULL else if v == Bool(true) then TRUE else FALSE) + rest
  {
    hide ReadString;
    hide ReadNumber;
    hide ReadItems;
    hide ReadMembers;
    hide SkipWhite;
    if NULL <= t { assert t == NULL + t[4..]; }
    if TRUE <= t { assert t == TRUE + t[4..]; }
    if FALSE <= t { assert t == FALSE + t[5..]; }
  }

  // ---- arrays and objects ----------------------------------------------

  lemma EmptyArray(t: Text, rest: Text)
    requires t != [] && t[0] == 91
    ensures Marked(t[1..], 93, rest) <==> ReadValue(t) == Some(Read(Arr([]), rest))
  {
    MarkedIff(t[1..], 93, rest);
    hide Marked;
    hide SkipWhite;
    hide ReadItems;
    ItemsAreSome(SkipWhite(t[1..]));
  }

  lemma ItemsAreSome(t: Text)
    ensures ReadItems(t).Some? ==> ReadItems(t).value.value != []
    ensures ReadItems(t).Some? ==> t != [] && !IsWhite(t[0]) && t[0] != 93
  {
    hide ReadString;
    hide ReadNumber;
    hide ReadMembers;
    NumberOpens(t);
  }

  lemma NumberOpens(t: Text)
    ensures ReadNumber(t).Some? ==> t != [] && (t[0] == 45 || IsDigit(t[0]))
  {
  }

  lemma ArrayFrom(t: Text, u: Text, items: seq<Json>, rest: Text)
    requires t != [] && t[0] == 91 && Dark(u) && u != [] && u[0] != 93
    ensures Spaced(t[1..], u) && ReadItems(u) == Some(Read(items, rest)) ==>
              ReadValue(t) == Some(Read(Arr(items), rest))
  {
    SkipIff(t[1..], u);
    hide Spaced;
    hide SkipWhite;
    hide ReadItems;
  }

  lemma LastItem(t: Text, x: Json, after: Text, rest: Text)
    requires ReadValue(t) == Some(Read(x, after)) && Marked(after, 93, rest)
    ensures ReadItems(t) == Some(Read([x], rest))
  {
    MarkedIff(after, 93, rest);
    hide Marked;
    hide SkipWhite;
    hide ReadValue;
  }

  lemma NextItem(t: Text, x: Json, after: Text, more: Text, next: Text, items: seq<Json>, rest: Text)
    requires ReadValue(t) == Some(Read(x, after)) && Marked(after, 44, more) && Spaced(more, next) && Dark(next)
    requires ReadItems(next) == Some(Read(items, rest))
    ensures ReadItems(t) == Some(Read([x] + items, rest))
  {
    MarkedIff(after, 44, more);
    SkipIff(more, next);
    hide Marked;
    hide Spaced;
    hide SkipWhite;
    hide ReadValue;
  }

  lemma {:induction false} DenotedIsRead(t: Text, v: Json, rest: Text)
    requires Denotes(t, v, rest)
    ensures ReadValue(t) == Some(Read(v, rest))
    decreases |t|, 0
  {
    hide ReadValue;
    hide ReadItems;
    hide ReadMembers;
    hide Marked;
    hide Spaced;
    hide Gathers;
    hide Collected;
    match v
    case Arr(items) =>
      if items == [] {
        EmptyArray(t, rest);
      } else {
        var u :| Spaced(t[1..], u) && |u| < |t| && ItemsSpell(u, items, rest);
        ItemsAreRead(u, items, rest);
        ItemsOpen(u, items, rest);
        ArrayFrom(t, u, items, rest);
      }
    case Obj(fields) =>
      if fields == map[] {
        EmptyObject(t, rest);
      } else {
        var u, members :| Spaced(t[1..], u) && |u| < |t| && MembersSpell(u, members, rest) && Gathers(members, fields);
        MembersAreRead(u, members, rest);
        MembersOpen(u, members, rest);
        GathersIff(members, fields);
        ObjectFrom(t, u, members, rest);
      }
    case _ => AtomIsRead(t, v, rest);
  }

  lemma {:induction false} ItemsAreRead(t: Text, items: seq<Json>, rest: Text)
    requires ItemsSpell(t, items, rest)
    ensures ReadItems(t) == Some(Read(items, rest))
    decreases |t|, 1
  {
    hide ReadValue;
    hide ReadItems;
    hide Marked;
    hide Spaced;
    hide Denotes;
    var after :|
      && Denotes(t, items[0], after) && |after| < |t|
      && if |items| == 1 then Marked(after, 93, rest)
         else exists more, next ::
           Marked(after, 44, more) && Spaced(more, next) && |next| < |t| && ItemsSpell(next, items[1..], rest);
    DenotedIsRead(t, items[0], after);
    if |items| == 1 {
      LastItem(t, items[0], after, rest);
      assert items == [items[0]];
    } else {
      var more, next :|
        Marked(after, 44, more) && Spaced(more, next) && |next| < |t| && ItemsSpell(next, items[1..], rest);
      ItemsAreRead(next, items[1..], rest);
      ItemsOpen(next, items[1..], rest);
      NextItem(t, items[0], after, more, next, items[1..], rest);
      assert items == [items[0]] + items[1..];
    }
  }

  lemma EmptyObject(t: Text, rest: Text)
    requires t != [] && t[0] == 123
    ensures Marked(t[1..], 125, rest) <==> ReadValue(t) == Some(Read(Obj(map[]), rest))
  {
    MarkedIff(t[1..], 125, rest);
    hide Marked;
    hide SkipWhite;
    hide ReadMembers;
    MembersAreSome(SkipWhite(t[1..]));
    hide Repeats;
  }

  lemma MembersAreSome(t: Text)
    ensures ReadMembers(t).Some? ==> t != [] && t[0] == 34 && Collected(ReadMembers(t).value.value) != map[]
  {
    hide ReadString;
    hide ReadValue;
    hide SkipWhite;
    if ReadMembers(t).Some? {
      var members := ReadMembers(t).value.value;
      assert members[0].0 in Collected(members);
    }
  }

  lemma ObjectFrom(t: Text, u: Text, members: seq<(Text, Json)>, rest: Text)
    requires t != [] && t[0] == 123 && Dark(u) && u != [] && u[0] != 125 && !Repeats(members)
    ensures Spaced(t[1..], u) && ReadMembers(u) == Some(Read(members, rest)) ==>
              ReadValue(t) == Some(Read(Obj(Collected(members)), rest))
  {
    SkipIff(t[1..], u);
    hide Spaced;
    hide SkipWhite;
    hide ReadMembers;
    hide Repeats;
    hide Collected;
  }

  lemma {:induction false} GathersIff(members: seq<(Text, Json)>, fields: map<Text, Json>)
    ensures Gathers(members, fields) <==> !Repeats(members) && Collected(members) == fields
  {
    CollectedKeys(members);
    if !Repeats(members) {
      forall i | 0 <= i < |members| ensures Collected(members)[members[i].0] == members[i].1 {
        CollectedHolds(members, i);
      }
    }
    if Gathers(members, fields) {
      assert Collected(members).Keys == fields.Keys;
      forall k | k in fields ensures Collected(members)[k] == fields[k] {
        var i :| 0 <= i < |members| && members[i].0 == k;
      }
    }
    hide Collected;
  }

  lemma {:induction false} CollectedHolds(members: seq<(Text, Json)>, i: nat)
    requires !Repeats(members) && i < |members|
    ensures members[i].0 in Collected(members) && Collected(members)[members[i].0] == members[i].1
  {
    if i > 0 {
      var rest := members[1..];
      assert forall j :: 0 <= j < |rest| ==> rest[j] == members[j + 1];
      CollectedHolds(rest, i - 1);
    }
  }

  /** What is left once a member's name and colon are read. */
  lemma NameIff(t: Text, k: Text, colon: Text, value: Text)
    requires Dark(value)
    ensures MemberSpells(t, k, colon, value) <==>
      && t != [] && t[0] == 34 && ReadString(t[1..]).Some? && ReadString(t[1..]).value.value == k
      && var after := SkipWhite(ReadString(t[1..]).value.rest);
        after != [] && after[0] == 58 && after[1..] == colon && SkipWhite(colon) == value
  {
    SkipIff(colon, value);
    if t != [] && t[0] == 34 {
      forall named
        ensures StringSpells(t[1..], k, named) <==> ReadString(t[1..]) == Some(Read(k, named))
        ensures Marked(named, 58, colon) <==>
                SkipWhite(named) != [] && SkipWhite(named)[0] == 58 && SkipWhite(named)[1..] == colon
      {
        StringIff(t[1..], k, named);
        MarkedIff(named, 58, colon);
      }
      hide StringSpells;
      hide ReadString;
      hide Marked;
      hide Spaced;
      hide SkipWhite;
      if ReadString(t[1..]).Some? && ReadString(t[1..]).value.value == k {
        assert ReadString(t[1..]) == Some(Read(k, ReadString(t[1..]).value.rest));
      }
    }
  }

  lemma LastMember(t: Text, k: Text, colon: Text, value: Text, x: Json, after: Text, rest: Text)
    requires MemberSpells(t, k, colon, value) && Dark(value)
    requires ReadValue(value) == Some(Read(x, after)) && Marked(after, 125, rest)
    ensures ReadMembers(t) == Some(Read([(k, x)], rest))
  {
    NameIff(t, k, colon, value);
    MarkedIff(after, 125, rest);
    hide MemberSpells;
    hide Marked;
    hide SkipWhite;
    hide ReadValue;
    hide ReadString;
  }

  lemma NextMember(
      t: Text, k: Text, colon: Text, value: Text, x: Json, after: Text, more: Text, next: Text,
      members: seq<(Text, Json)>, rest: Text)
    requires MemberSpells(t, k, colon, value) && Dark(value)
    requires ReadValue(value) == Some(Read(x, after))
    requires Marked(after, 44, more) && Spaced(more, next) && Dark(next)
    requires ReadMembers(next) == Some(Read(members, rest))
    ensures ReadMembers(t) == Some(Read([(k, x)] + members, rest))
  {
    NameIff(t, k, colon, value);
    MarkedIff(after, 44, more);
    SkipIff(more, next);
    hide MemberSpells;
    hide Marked;
    hide Spaced;
    hide SkipWhite;
    hide ReadValue;
    hide ReadString;
  }

  lemma {:induction false} MembersAreRead(t: Text, members: seq<(Text, Json)>, rest: Text)
    requires MembersSpell(t, members, rest)
    ensures ReadMembers(t) == Some(Read(members, rest))
    decreases |t|, 1
  {
    hide ReadValue;
    hide ReadMembers;
    hide Marked;
    hide Spaced;
    hide Denotes;
    hide MemberSpells;
    var (k, x) := members[0];
    var colon, value, after :|
      && MemberSpells(t, k, colon, value) && |value| < |t|
      && Denotes(value, x, after) && |after| < |t|
      && if |members| == 1 then Marked(after, 125, rest)
         else exists more, next ::
           Marked(after, 44, more) && Spaced(more, next) && |next| < |t| && MembersSpell(next, members[1..], rest);
    DenotedIsRead(value, x, after);
    Opens(value, x, after);
    if |members| == 1 {
      LastMember(t, k, colon, value, x, after, rest);
      assert members == [(k, x)];
    } else {
      var more, next :|
        Marked(after, 44, more) && Spaced(more, next) && |next| < |t| && MembersSpell(next, members[1..], rest);
      MembersAreRead(next, members[1..], rest);
      MembersOpen(next, members[1..], rest);
      NextMember(t, k, colon, value, x, after, more, next, members[1..], rest);
      assert members == [members[0]] + members[1..];
    }
  }

  // ---- and back --------------------------------------------------------

  lemma {:induction false} ReadIsDenoted(t: Text, v: Json, rest: Text)
    requires ReadValue(t) == Some(Read(v, rest))
    ensures Denotes(t, v, rest)
    decreases |t|, 0
  {
    match v
    case Arr(items) =>
      ArrayParts(t, items, rest);
      hide ReadValue;
      hide ReadItems;
      hide Marked;
      hide Spaced;
      if items == [] {
        EmptyArray(t, rest);
      } else {
        var u := SkipWhite(t[1..]);
        SkipsBlanks(t[1..]);
        ReadIsItems(u, items, rest);
      }
    case Obj(fields) =>
      ObjectParts(t, fields, rest);
      hide ReadValue;
      hide ReadMembers;
      hide Marked;
      hide Spaced;
      hide Collected;
      if fields == map[] {
        EmptyObject(t, rest);
      } else {
        var u := SkipWhite(t[1..]);
        SkipsBlanks(t[1..]);
        var members := ReadMembers(u).value.value;
        ReadIsMembers(u, members, rest);
        GathersIff(members, fields);
      }
    case _ => AtomIsDenoted(t, v, rest);
  }

  lemma SkipsBlanks(t: Text)
    ensures Spaced(t, SkipWhite(t)) && Dark(SkipWhite(t)) && |SkipWhite(t)| <= |t|
  {
    SkipIsDark(t);
    SkipIff(t, SkipWhite(t));
  }

  lemma ArrayParts(t: Text, items: seq<Json>, rest: Text)
    requires ReadValue(t) == Some(Read(Arr(items), rest))
    ensures t != [] && t[0] == 91
    ensures items != [] ==> ReadItems(SkipWhite(t[1..])) == Some(Read(items, rest))
  {
    hide ReadString;
    hide ReadNumber;
    hide ReadMembers;
    hide ReadItems;
    hide SkipWhite;
    assert t[0] == 91;
  }

  lemma ObjectParts(t: Text, fields: map<Text, Json>, rest: Text)
    requires ReadValue(t) == Some(Read(Obj(fields), rest))
    ensures t != [] && t[0] == 123
    ensures fields != map[] ==>
      var members := ReadMembers(SkipWhite(t[1..]));
      && members.Some? && members.value.rest == rest
      && !Repeats(members.value.value) && Collected(members.value.value) == fields
  {
    hide ReadString;
    hide ReadNumber;
    hide ReadMembers;
    hide ReadItems;
    hide SkipWhite;
    hide Repeats;
    hide Collected;
    assert t[0] == 123;
  }

  lemma ItemsParts(t: Text, items: seq<Json>, rest: Text)
    requires ReadItems(t) == Some(Read(items, rest))
    ensures items != [] && ReadValue(t).Some? && ReadValue(t).value.value == items[0]
    ensures var after := ReadValue(t).value.rest;
      && |after| < |t|
      && (|items| == 1 ==> Marked(after, 93, rest))
      && (|items| > 1 ==> exists more, next :: Marked(after, 44, more) && Spaced(more, next) && |next| < |t|
                                               && ReadItems(next) == Some(Read(items[1..], rest)))
  {
    hide ReadValue;
    hide Spaced;
    hide Marked;
    hide SkipWhite;
    var after := ReadValue(t).value.rest;
    MarkedIff(after, 93, rest);
    var mark := SkipWhite(after);
    if !(mark != [] && mark[0] == 93) {
      var more, next := mark[1..], SkipWhite(mark[1..]);
      MarkedIff(after, 44, more);
      SkipIsDark(more);
      SkipIff(more, next);
      ItemsAreSome(next);
      assert items[1..] == ReadItems(next).value.value;
      assert ReadItems(next) == Some(Read(items[1..], rest));
    }
  }

  lemma {:induction false} ReadIsItems(t: Text, items: seq<Json>, rest: Text)
    requires ReadItems(t) == Some(Read(items, rest))
    ensures ItemsSpell(t, items, rest)
    decreases |t|, 1
  {
    ItemsParts(t, items, rest);
    hide ReadValue;
    hide ReadItems;
    hide Marked;
    hide Spaced;
    hide Denotes;
    var after := ReadValue(t).value.rest;
    assert ReadValue(t) == Some(Read(items[0], after));
    ReadIsDenoted(t, items[0], after);
    if |items| > 1 {
      var more, next :| Marked(after, 44, more) && Spaced(more, next) && |next| < |t|
                        && ReadItems(next) == Some(Read(items[1..], rest));
      ReadIsItems(next, items[1..], rest);
    }
  }

  /** The first member: its name, and its value where `value` begins and `after` follows. */
  lemma MemberParts(t: Text, members: seq<(Text, Json)>, rest: Text) returns (colon: Text, value: Text, after: Text)
    requires ReadMembers(t) == Some(Read(members, rest))
    ensures members != [] && MemberSpells(t, members[0].0, colon, value) && |value| < |t|
    ensures ReadValue(value) == Some(Read(members[0].1, after))
    ensures var close := SkipWhite(after);
      && |after| < |t|
      && (|members| == 1 ==> close != [] && close[0] == 125 && close[1..] == rest)
      && (|members| > 1 ==>
            close != [] && close[0] == 44 && ReadMembers(SkipWhite(close[1..])) == Some(Read(members[1..], rest)))
  {
    hide ReadValue;
    hide ReadString;
    hide MemberSpells;
    hide SkipWhite;
    var key := ReadString(t[1..]).value;
    colon := SkipWhite(key.rest)[1..];
    value := SkipWhite(colon);
    after := ReadValue(value).value.rest;
    SkipIsDark(colon);
    NameIff(t, key.value, colon, value);
    var close := SkipWhite(after);
    if close[0] == 44 {
      var more := ReadMembers(SkipWhite(close[1..])).value;
      assert members[1..] == more.value;
      MembersAreSome(SkipWhite(close[1..]));
      assert more.value != [];
    }
  }

  lemma {:induction false} ReadIsMembers(t: Text, members: seq<(Text, Json)>, rest: Text)
    requires ReadMembers(t) == Some(Read(members, rest))
    ensures MembersSpell(t, members, rest)
    decreases |t|, 1
  {
    hide ReadValue;
    hide ReadMembers;
    hide Marked;
    hide Spaced;
    hide Denotes;
    hide MemberSpells;
    hide SkipWhite;
    var colon, value, after := MemberParts(t, members, rest);
    ReadIsDenoted(value, members[0].1, after);
    if |members| == 1 {
      MarkedIff(after, 125, rest);
    } else {
      var more := SkipWhite(after)[1..];
      var next := SkipWhite(more);
      MarkedIff(after, 44, more);
      SkipsBlanks(more);
      ReadIsMembers(next, members[1..], rest);
    }
  }

  /**
   The strict parser accepts exactly the UTF-8 of one value of the grammar, white
   space around it, whose integers and strings are within bounds, and reads that value.
   */
  lemma ParsesIff(data: Bytes, v: Json)
    ensures ParseJson(data) == Some(v) <==>
      && Grammar(v, false)
      && exists t, u, rest :: Decode(data) == Some(t) && Spaced(t, u) && Denotes(u, v, rest) && Blank(rest)
  {
    hide Grammar;
    hide ReadValue;
    hide SkipWhite;
    hide Spaced;
    hide Denotes;
    hide Decode;
    if ParseJson(data) == Some(v) {
      var t := Decode(data).value;
      var u := SkipWhite(t);
      var rest := ReadValue(u).value.rest;
      SkipIsDark(t);
      SkipIff(t, u);
      assert ReadValue(u) == Some(Read(v, rest));
      ReadIsDenoted(u, v, rest);
      BlankIff(rest);
    }
    if t, u, rest :| Decode(data) == Some(t) && Spaced(t, u) && Denotes(u, v, rest) && Blank(rest) {
      Opens(u, v, rest);
      SkipIff(t, u);
      DenotedIsRead(u, v, rest);
      BlankIff(rest);
    }
  }

  lemma BlankIff(t: Text)
    ensures SkipWhite(t) == [] <==> Blank(t)
  {
    SkipIff(t, []);
    if Blank(t) {
      assert t == t + [];
    }
    if w :| Blank(w) && t == w + [] {
      assert t == w;
    }
    hide SkipWhite;
  }
}
