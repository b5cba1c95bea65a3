/**
 Canonical JSON: the wire grammar, its one encoding, and the strict parser.
 Texts are code points; tokens follow sections 2 to 7 of RFC 8259.
 */
module Json {
  import opened Basics
  import opened Utf8
  import Snapshot

  datatype Json =
    | Null | Bool(b: bool) | Int(n: int) | Str(s: Text)
    | Arr(items: seq<Json>) | Obj(fields: map<Text, Json>)

  const MAX_INTEGER: int := 9007199254740991

  /** `exit_code`, the one field whose value may be negative. */
  const EXIT_CODE: Text := [101, 120, 105, 116, 95, 99, 111, 100, 101]

  /** `_grammar`; `exit` says the value is that field's. */
  predicate Grammar(v: Json, exit: bool) {
    match v
    case Null => true
    case Bool(_) => true
    case Int(n) => -MAX_INTEGER <= n <= MAX_INTEGER && (n >= 0 || exit)
    case Str(s) => Scalars(s)
    case Arr(items) => forall i :: 0 <= i < |items| ==> Grammar(items[i], false)
    case Obj(fields) => forall k :: k in fields ==> Scalars(k) && Grammar(fields[k], k == EXIT_CODE)
  }

  // ---- encoding --------------------------------------------------------

  const NULL: Text := [110, 117, 108, 108]
  const TRUE: Text := [116, 114, 117, 101]
  const FALSE: Text := [102, 97, 108, 115, 101]
  const QUOTE: codepoint := 34
  const BACKSLASH: codepoint := 92
  const COMMA: codepoint := 44
  const COLON: codepoint := 58

  function Digits(n: nat): (r: Text)
    ensures r != [] && forall i :: 0 <= i < |r| ==> IsDigit(r[i])
    ensures n > 0 ==> r[0] != 48
    ensures n == 0 ==> r == [48]
  {
    if n < 10 then [(48 + n) as codepoint] else Digits(n / 10) + [(48 + n % 10) as codepoint]
  }

  function Number(n: int): Text {
    if n < 0 then [45] + Digits(-n) else Digits(n)
  }

  function HexDigit(n: int): codepoint
    requires 0 <= n < 16
  {
    (if n < 10 then 48 + n else 87 + n) as codepoint
  }

  function Escape(c: codepoint): Text {
    if c == QUOTE || c == BACKSLASH then [BACKSLASH, c]
    else if c < 32 then [BACKSLASH, 117, 48, 48, HexDigit(c as int / 16), HexDigit(c as int % 16)]
    else [c]
  }

  function EscapeAll(s: Text): Text {
    if s == [] then [] else Escape(s[0]) + EscapeAll(s[1..])
  }

  function Quoted(s: Text): Text {
    [QUOTE] + EscapeAll(s) + [QUOTE]
  }

  /** The smallest key, in UTF-8 byte order. */
  ghost predicate Least(keys: set<Text>, k: Text) {
    k in keys && forall j :: j in keys && j != k ==> Before(k, j)
  }

  lemma {:induction false} LeastExists(keys: set<Text>)
    requires keys != {}
    ensures exists k :: Least(keys, k)
  {
    Orders();
    var k :| k in keys;
    var rest := keys - {k};
    if rest == {} {
      forall j | j in keys ensures j == k { assert j == k || j in rest; }
      assert Least(keys, k);
    } else {
      LeastExists(rest);
      var m :| Least(rest, m);
      assert k == m || Before(k, m) || Before(m, k);
      assert forall j :: j in keys ==> j == k || j in rest;
      assert Least(keys, if Before(k, m) then k else m);
    }
  }

  /** The keys sorted by their UTF-8 bytes. */
  ghost function KeyOrder(keys: set<Text>): (r: seq<Text>)
    ensures forall k :: k in r <==> k in keys
    ensures forall i, j :: 0 <= i < j < |r| ==> r[i] != r[j]
  {
    if keys == {} then []
    else
      LeastExists(keys);
      var k :| Least(keys, k);
      [k] + KeyOrder(keys - {k})
  }

  ghost function Write(v: Json): Text
    decreases v, 2
  {
    match v
    case Null => NULL
    case Bool(b) => if b then TRUE else FALSE
    case Int(n) => Number(n)
    case Str(s) => Quoted(s)
    case Arr(items) => if items == [] then [91, 93] else [91] + WriteItems(v, 0)
    case Obj(fields) => if fields == map[] then [123, 125] else [123] + WriteMembers(v, KeyOrder(fields.Keys))
  }

  /** The items from `i` on, commas between them, and the closing bracket. */
  ghost function WriteItems(v: Json, i: nat): Text
    requires v.Arr? && i < |v.items|
    decreases v, 1, |v.items| - i
  {
    Write(v.items[i]) + if i + 1 == |v.items| then [93] else [COMMA] + WriteItems(v, i + 1)
  }

  ghost function WriteMembers(v: Json, keys: seq<Text>): Text
    requires v.Obj? && forall k :: k in keys ==> k in v.fields
    decreases v, 1, |keys|
  {
    if keys == [] then []
    else
      Quoted(keys[0]) + [COLON] + Write(v.fields[keys[0]])
      + if |keys| == 1 then [125] else [COMMA] + WriteMembers(v, keys[1..])
  }

  /** `C`: the canonical bytes of a value the grammar accepts. */
  ghost function C(v: Json): Bytes {
    Encode(Write(v))
  }

  // ---- parsing ---------------------------------------------------------

  predicate IsWhite(c: codepoint) {
    c == 32 || c == 9 || c == 10 || c == 13
  }

  predicate IsDigit(c: codepoint) {
    48 <= c <= 57
  }

  function SkipWhite(t: Text): (r: Text)
    ensures |r| <= |t|
  {
    if t != [] && IsWhite(t[0]) then SkipWhite(t[1..]) else t
  }

  function HexValue(c: codepoint): Option<int> {
    if 48 <= c <= 57 then Some(c as int - 48)
    else if 97 <= c <= 102 then Some(c as int - 87)
    else if 65 <= c <= 70 then Some(c as int - 55)
    else None
  }

  /** Four hexadecimal digits: one UTF-16 code unit. */
  function Unit(t: Text): (r: Option<int>)
    requires |t| >= 4
    ensures r.Some? ==> 0 <= r.value < 0x10000
  {
    var a, b, c, d := HexValue(t[0]), HexValue(t[1]), HexValue(t[2]), HexValue(t[3]);
    if a.None? || b.None? || c.None? || d.None? then None
    else Some(a.value * 4096 + b.value * 256 + c.value * 16 + d.value)
  }

  /** The character and the length of an escape, `t` being what follows the backslash. */
  function ReadEscape(t: Text): (r: Option<(codepoint, nat)>)
    ensures r.Some? ==> 1 <= r.value.1 <= |t|
  {
    if t == [] then None
    else if t[0] == QUOTE || t[0] == BACKSLASH || t[0] == 47 then Some((t[0], 1))
    else if t[0] == 98 then Some((8, 1))
    else if t[0] == 102 then Some((12, 1))
    else if t[0] == 110 then Some((10, 1))
    else if t[0] == 114 then Some((13, 1))
    else if t[0] == 116 then Some((9, 1))
    else if t[0] != 117 || |t| < 5 || Unit(t[1..]).None? then None
    else
      var high := Unit(t[1..]).value;
      if 0xD800 <= high < 0xDC00 && |t| >= 11 && t[5] == BACKSLASH && t[6] == 117 then
        // A second escape that is no unit is an error; one that is no low surrogate is read on its own.
        var low := Unit(t[7..]);
        if low.None? then None
        else if 0xDC00 <= low.value < 0xE000 then
          Some(((0x10000 + (high - 0xD800) * 1024 + (low.value - 0xDC00)) as codepoint, 11))
        else Some((high as codepoint, 5))
      else Some((high as codepoint, 5))
  }

  datatype Read<T> = Read(value: T, rest: Text)

  /** The string whose opening quote has been read. */
  function ReadString(t: Text): (r: Option<Read<Text>>)
    ensures r.Some? ==> |r.value.rest| < |t|
    decreases |t|
  {
    if t == [] then None
    else if t[0] == QUOTE then Some(Read([], t[1..]))
    else if t[0] < 32 then None
    else
      var one := if t[0] == BACKSLASH then ReadEscape(t[1..]) else Some((t[0], 0));
      if one.None? then None
      else
        match ReadString(t[one.value.1 + 1..])
        case None => None
        case Some(more) => Some(Read([one.value.0] + more.value, more.rest))
  }

  function DigitRun(t: Text): (n: nat)
    ensures n <= |t|
  {
    if t != [] && IsDigit(t[0]) then 1 + DigitRun(t[1..]) else 0
  }

  function ValueOf(digits: Text): (n: nat)
    requires forall i :: 0 <= i < |digits| ==> IsDigit(digits[i])
  {
    if digits == [] then 0
    else
      assert IsDigit(digits[|digits| - 1]);
      ValueOf(digits[..|digits| - 1]) * 10 + (digits[|digits| - 1] as int - 48)
  }

  lemma {:induction false} RunIsDigits(t: Text)
    ensures forall i :: 0 <= i < DigitRun(t) ==> IsDigit(t[i])
  {
    if t != [] && IsDigit(t[0]) {
      RunIsDigits(t[1..]);
      forall i | 0 <= i < DigitRun(t) ensures IsDigit(t[i]) {
        assert i > 0 ==> t[i] == t[1..][i - 1];
      }
    }
  }

  /** A fraction or an exponent follows, so the token is no integer. */
  predicate Fractional(t: Text) {
    || (|t| >= 2 && t[0] == 46 && IsDigit(t[1]))
    || (|t| >= 2 && (t[0] == 101 || t[0] == 69)
        && (IsDigit(t[1]) || (|t| >= 3 && (t[1] == 43 || t[1] == 45) && IsDigit(t[2]))))
  }

  /** A number token and the integer hook: no fraction, no minus zero, sixteen digits at most, in range. */
  function ReadNumber(t: Text): (r: Option<Read<int>>)
    ensures r.Some? ==> |r.value.rest| < |t|
  {
    var negative := t != [] && t[0] == 45;
    var body := if negative then t[1..] else t;
    // A leading zero ends the integer part.
    var run := if body != [] && body[0] == 48 then 1 else DigitRun(body);
    RunIsDigits(body);
    var digits := body[..run];
    var n: int := ValueOf(digits);
    if run == 0 || Fractional(body[run..]) || (negative && digits == [48]) || run > 16 || n > MAX_INTEGER then None
    else Some(Read(if negative then -n else n, body[run..]))
  }

  /** `scan_once`: the value that starts here. */
  function ReadValue(t: Text): (r: Option<Read<Json>>)
    ensures r.Some? ==> |r.value.rest| < |t|
    decreases |t|, 0
  {
    if t == [] then None
    else if t[0] == QUOTE then
      match ReadString(t[1..])
      case None => None
      case Some(s) => Some(Read(Str(s.value), s.rest))
    else if t[0] == 91 then
      var inner := SkipWhite(t[1..]);
      if inner != [] && inner[0] == 93 then Some(Read(Arr([]), inner[1..]))
      else
        match ReadItems(inner)
        case None => None
        case Some(items) => Some(Read(Arr(items.value), items.rest))
    else if t[0] == 123 then
      var inner := SkipWhite(t[1..]);
      if inner != [] && inner[0] == 125 then Some(Read(Obj(map[]), inner[1..]))
      else
        match ReadMembers(inner)
        case None => None
        case Some(members) =>
          if Repeats(members.value) then None else Some(Read(Obj(Collected(members.value)), members.rest))
    else if NULL <= t then Some(Read(Null, t[4..]))
    else if TRUE <= t then Some(Read(Bool(true), t[4..]))
    else if FALSE <= t then Some(Read(Bool(false), t[5..]))
    else
      match ReadNumber(t)
      case None => None
      case Some(n) => Some(Read(Int(n.value), n.rest))
  }

  function ReadItems(t: Text): (r: Option<Read<seq<Json>>>)
    ensures r.Some? ==> |r.value.rest| < |t|
    decreases |t|, 1
  {
    match ReadValue(t)
    case None => None
    case Some(one) =>
      var next := SkipWhite(one.rest);
      if next != [] && next[0] == 93 then Some(Read([one.value], next[1..]))
      else if next == [] || next[0] != COMMA then None
      else
        match ReadItems(SkipWhite(next[1..]))
        case None => None
        case Some(more) => Some(Read([one.value] + more.value, more.rest))
  }

  function ReadMembers(t: Text): (r: Option<Read<seq<(Text, Json)>>>)
    ensures r.Some? ==> |r.value.rest| < |t|
    decreases |t|, 1
  {
    if t == [] || t[0] != QUOTE then None
    else
      match ReadString(t[1..])
      case None => None
      case Some(key) =>
        var colon := SkipWhite(key.rest);
        if colon == [] || colon[0] != COLON then None
        else
          match ReadValue(SkipWhite(colon[1..]))
          case None => None
          case Some(one) =>
            var next := SkipWhite(one.rest);
            if next != [] && next[0] == 125 then Some(Read([(key.value, one.value)], next[1..]))
            else if next == [] || next[0] != COMMA then None
            else
              match ReadMembers(SkipWhite(next[1..]))
              case None => None
              case Some(more) => Some(Read([(key.value, one.value)] + more.value, more.rest))
  }

  predicate Repeats(members: seq<(Text, Json)>) {
    exists i, j :: 0 <= i < j < |members| && members[i].0 == members[j].0
  }

  function Collected(members: seq<(Text, Json)>): map<Text, Json> {
    if members == [] then map[] else Collected(members[1..])[members[0].0 := members[0].1]
  }

  function Parse(t: Text): Option<Json> {
    match ReadValue(SkipWhite(t))
    case None => None
    case Some(r) => if SkipWhite(r.rest) == [] && Grammar(r.value, false) then Some(r.value) else None
  }

  /** `parse_json` */
  function ParseJson(data: Bytes): Option<Json> {
    var t := Decode(data);
    if t.None? then None else Parse(t.value)
  }

  /** The hook behind objects, as the loop it is: a repeated key is refused as soon as it is met. */
  method Pairs(members: seq<(Text, Json)>) returns (r: Option<map<Text, Json>>)
    ensures r == if Repeats(members) then None else Some(Collected(members))
  {
    var result: map<Text, Json> := map[];
    var i := 0;
    while i < |members|
      invariant 0 <= i <= |members|
      invariant result == Collected(members[..i]) && !Repeats(members[..i])
    {
      assert members[..i + 1] == members[..i] + [members[i]];
      CollectedKeys(members[..i]);
      if members[i].0 in result {
        var j :| 0 <= j < i && members[..i][j].0 == members[i].0;
        assert members[j].0 == members[i].0;
        return None;
      }
      CollectedAppend(members[..i], members[i]);
      result := result[members[i].0 := members[i].1];
      i := i + 1;
    }
    assert members[..i] == members;
    return Some(result);
  }

  lemma {:induction false} CollectedKeys(members: seq<(Text, Json)>)
    ensures forall k :: k in Collected(members) <==> exists j :: 0 <= j < |members| && members[j].0 == k
  {
    if members != [] {
      CollectedKeys(members[1..]);
      forall k ensures k in Collected(members) <==> exists j :: 0 <= j < |members| && members[j].0 == k {
        if k in Collected(members[1..]) {
          var j :| 0 <= j < |members[1..]| && members[1..][j].0 == k;
          assert members[j + 1].0 == k;
        }
        if j :| 0 <= j < |members| && members[j].0 == k {
          assert j > 0 ==> members[1..][j - 1].0 == k;
        }
      }
    }
  }

  lemma {:induction false} CollectedAppend(members: seq<(Text, Json)>, m: (Text, Json))
    requires m.0 !in Collected(members)
    ensures Collected(members + [m]) == Collected(members)[m.0 := m.1]
  {
    if members == [] {
      assert [m][1..] == [];
      assert members + [m] == [m];
    } else {
      assert (members + [m])[1..] == members[1..] + [m];
      CollectedAppend(members[1..], m);
    }
  }

  // ---- round trip ------------------------------------------------------

  /** What may follow a value inside canonical text. */
  predicate Stops(rest: Text) {
    rest == [] || rest[0] == COMMA || rest[0] == 93 || rest[0] == 125
  }

  lemma EscapeReads(c: codepoint, rest: Text)
    requires IsScalar(c) && (c == QUOTE || c == BACKSLASH || c < 32)
    ensures Escape(c)[0] == BACKSLASH && ReadEscape(Escape(c)[1..] + rest) == Some((c, |Escape(c)| - 1))
  {
    var t := Escape(c)[1..] + rest;
    if c < 32 {
      var h, l := c as int / 16, c as int % 16;
      assert t[1..][0] == 48 && t[1..][1] == 48 && t[1..][2] == HexDigit(h) && t[1..][3] == HexDigit(l);
      assert HexValue(HexDigit(h)) == Some(h) && HexValue(HexDigit(l)) == Some(l);
      assert Unit(t[1..]) == Some(c as int);
    }
  }

  lemma CharReads(c: codepoint, tail: Text, s: Text, rest: Text)
    requires IsScalar(c) && ReadString(tail) == Some(Read(s, rest))
    ensures ReadString(Escape(c) + tail) == Some(Read([c] + s, rest))
  {
    hide ReadEscape;
    var e := Escape(c);
    assert (e + tail)[|e|..] == tail && (e + tail)[1..] == e[1..] + tail;
    if c == QUOTE || c == BACKSLASH || c < 32 {
      EscapeReads(c, tail);
    }
  }

  lemma {:induction false} StringReads(s: Text, rest: Text)
    requires Scalars(s)
    ensures ReadString(EscapeAll(s) + [QUOTE] + rest) == Some(Read(s, rest))
  {
    if s == [] {
      assert EscapeAll(s) + [QUOTE] + rest == [QUOTE] + rest;
    } else {
      hide ReadString;
      hide Escape;
      var tail := EscapeAll(s[1..]) + [QUOTE] + rest;
      assert EscapeAll(s) + [QUOTE] + rest == Escape(s[0]) + tail;
      StringReads(s[1..], rest);
      CharReads(s[0], tail, s[1..], rest);
      assert s == [s[0]] + s[1..];
    }
  }

  lemma {:induction false} RunStops(digits: Text, rest: Text)
    requires forall i :: 0 <= i < |digits| ==> IsDigit(digits[i])
    requires rest != [] ==> !IsDigit(rest[0])
    ensures DigitRun(digits + rest) == |digits|
  {
    if digits == [] {
      assert digits + rest == rest;
    } else {
      assert (digits + rest)[1..] == digits[1..] + rest;
      RunStops(digits[1..], rest);
    }
  }

  lemma {:induction false} DigitsValue(n: nat)
    ensures ValueOf(Digits(n)) == n
  {
    if n >= 10 {
      DigitsValue(n / 10);
      assert Digits(n)[..|Digits(n)| - 1] == Digits(n / 10);
    } else {
      assert Digits(n)[..|Digits(n)| - 1] == [];
    }
  }

  function Pow10(k: nat): nat {
    if k == 0 then 1 else 10 * Pow10(k - 1)
  }

  lemma {:induction false} DigitsLength(n: nat, k: nat)
    requires n < Pow10(k) && k > 0
    ensures |Digits(n)| <= k
  {
    if n >= 10 {
      DigitsLength(n / 10, k - 1);
    }
  }

  lemma UnsignedReads(m: nat, rest: Text)
    requires m <= MAX_INTEGER && Stops(rest)
    ensures var body := Digits(m) + rest;
      && (if body[0] == 48 then 1 else DigitRun(body)) == |Digits(m)| <= 16
      && body[..|Digits(m)|] == Digits(m) && body[|Digits(m)|..] == rest
      && ValueOf(Digits(m)) == m && !Fractional(rest)
  {
    RunStops(Digits(m), rest);
    DigitsValue(m);
    assert Pow10(16) == 10000000000000000 by { assert Pow10(8) == 100000000; PowSum(8, 8); }
    DigitsLength(m, 16);
  }

  lemma NumberReads(n: int, rest: Text)
    requires -MAX_INTEGER <= n <= MAX_INTEGER && Stops(rest)
    ensures ReadNumber(Number(n) + rest) == Some(Read(n, rest))
  {
    hide DigitRun;
    hide ValueOf;
    hide Fractional;
    var m := if n < 0 then -n else n;
    UnsignedReads(m, rest);
    SignedText(n, rest);
    hide Number;
    hide Digits;
    assert m > 0 ==> Digits(m) != [48];
  }

  lemma SignedText(n: int, rest: Text)
    ensures var t, m := Number(n) + rest, if n < 0 then -n else n;
      && t != [] && (t[0] == 45 <==> n < 0)
      && (if n < 0 then t[1..] else t) == Digits(m) + rest
  {
    hide Digits;
    if n < 0 {
      assert Number(n) + rest == [45] + (Digits(-n) + rest);
    } else {
      assert (Digits(n) + rest)[0] == Digits(n)[0];
      assert IsDigit(Digits(n)[0]);
    }
  }

  lemma {:induction false} PowSum(a: nat, b: nat)
    ensures Pow10(a + b) == Pow10(a) * Pow10(b)
  {
    if a > 0 {
      PowSum(a - 1, b);
    }
  }

  /** No canonical value begins with white space or a closing bracket. */
  lemma Begins(v: Json)
    ensures Write(v) != [] && !IsWhite(Write(v)[0]) && Write(v)[0] != 93
  {
  }

  lemma NoWhite(t: Text, rest: Text)
    requires t != [] && !IsWhite(t[0])
    ensures SkipWhite(t + rest) == t + rest
  {
  }

  /** A string token anywhere a value is read. */
  lemma QuotedReads(s: Text, rest: Text)
    requires Scalars(s)
    ensures (Quoted(s) + rest)[0] == QUOTE && ReadString((Quoted(s) + rest)[1..]) == Some(Read(s, rest))
  {
    assert (Quoted(s) + rest)[1..] == EscapeAll(s) + [QUOTE] + rest;
    StringReads(s, rest);
  }

  lemma NumberBegins(n: int, rest: Text)
    requires -MAX_INTEGER <= n <= MAX_INTEGER && Stops(rest)
    ensures ReadValue(Number(n) + rest) == Some(Read(Int(n), rest))
  {
    NumberReads(n, rest);
    var t := Number(n) + rest;
    assert t[0] == 45 || IsDigit(t[0]);
  }

  lemma LiteralReads(v: Json, rest: Text)
    requires v.Null? || v.Bool? || v == Arr([]) || v == Obj(map[])
    ensures ReadValue(Write(v) + rest) == Some(Read(v, rest))
  {
    if v.Null? || v.Bool? { WordReads(v, rest); } else { EmptyReads(v, rest); }
  }

  lemma WordReads(v: Json, rest: Text)
    requires v.Null? || v.Bool?
    ensures ReadValue(Write(v) + rest) == Some(Read(v, rest))
  {
    match v
    case Null => assert (NULL + rest)[4..] == rest;
    case Bool(b) => assert (TRUE + rest)[4..] == rest && (FALSE + rest)[5..] == rest;
  }

  lemma EmptyReads(v: Json, rest: Text)
    requires v == Arr([]) || v == Obj(map[])
    ensures ReadValue(Write(v) + rest) == Some(Read(v, rest))
  {
    match v
    case Arr(_) => assert ([91, 93] + rest)[1..] == [93] + rest && ([93] + rest)[1..] == rest;
    case Obj(_) => assert ([123, 125] + rest)[1..] == [125] + rest && ([125] + rest)[1..] == rest;
  }

  /** Reading back what was written gives the value and what followed it. */
  lemma {:induction false} ValueReads(v: Json, exit: bool, rest: Text)
    requires Grammar(v, exit) && Stops(rest)
    ensures ReadValue(Write(v) + rest) == Some(Read(v, rest))
    decreases v, 2
  {
    if v.Int? {
      NumberBegins(v.n, rest);
    } else if v.Str? {
      QuotedReads(v.s, rest);
    } else if v.Arr? && v.items != [] {
      ArrayReads(v, rest);
    } else if v.Obj? && v.fields != map[] {
      ObjectReads(v, rest);
    } else {
      LiteralReads(v, rest);
    }
  }

  lemma {:induction false} ArrayReads(v: Json, rest: Text)
    requires v.Arr? && v.items != [] && Grammar(v, false)
    ensures ReadValue(Write(v) + rest) == Some(Read(v, rest))
    decreases v, 1, |v.items| + 1
  {
    var inner := WriteItems(v, 0);
    assert (Write(v) + rest)[1..] == inner + rest;
    ItemsRead(v, 0, rest);
    ItemsBegin(v, 0);
    NoWhite(inner, rest);
    assert v.items[0..] == v.items;
  }

  lemma ItemsBegin(v: Json, i: nat)
    requires v.Arr? && i < |v.items|
    ensures WriteItems(v, i) != [] && !IsWhite(WriteItems(v, i)[0]) && WriteItems(v, i)[0] != 93
  {
    Begins(v.items[i]);
  }

  lemma {:induction false} ItemsRead(v: Json, i: nat, rest: Text)
    requires v.Arr? && i < |v.items| && Grammar(v, false)
    ensures ReadItems(WriteItems(v, i) + rest) == Some(Read(v.items[i..], rest))
    decreases v, 1, |v.items| - i
  {
    var one := Write(v.items[i]);
    if i + 1 == |v.items| {
      assert WriteItems(v, i) + rest == one + ([93] + rest);
      ValueReads(v.items[i], false, [93] + rest);
      assert v.items[i..] == [v.items[i]] && ([93] + rest)[1..] == rest;
    } else {
      var more := WriteItems(v, i + 1) + rest;
      assert WriteItems(v, i) + rest == one + ([COMMA] + more);
      ValueReads(v.items[i], false, [COMMA] + more);
      ItemsRead(v, i + 1, rest);
      ItemsBegin(v, i + 1);
      NoWhite(WriteItems(v, i + 1), rest);
      assert v.items[i..] == [v.items[i]] + v.items[i + 1..] && ([COMMA] + more)[1..] == more;
    }
  }

  /** The members a key sequence spells out. */
  function Members(v: Json, keys: seq<Text>): (r: seq<(Text, Json)>)
    requires v.Obj? && forall k :: k in keys ==> k in v.fields
    ensures |r| == |keys| && forall i :: 0 <= i < |keys| ==> r[i] == (keys[i], v.fields[keys[i]])
  {
    seq(|keys|, i requires 0 <= i < |keys| => (keys[i], v.fields[keys[i]]))
  }

  lemma ObjectToken(inner: Text, rest: Text, members: seq<(Text, Json)>)
    requires inner != [] && inner[0] == QUOTE && !Repeats(members)
    requires ReadMembers(inner + rest) == Some(Read(members, rest))
    ensures ReadValue([123] + inner + rest) == Some(Read(Obj(Collected(members)), rest))
  {
    assert ([123] + inner + rest)[1..] == inner + rest;
    NoWhite(inner, rest);
  }

  lemma {:induction false} ObjectReads(v: Json, rest: Text)
    requires v.Obj? && v.fields != map[] && Grammar(v, false)
    ensures ReadValue(Write(v) + rest) == Some(Read(v, rest))
    decreases v, 1, |KeyOrder(v.fields.Keys)| + 1
  {
    var keys := KeyOrder(v.fields.Keys);
    assert keys != [] by { var k :| k in v.fields; assert k in keys; }
    MembersRead(v, keys, rest);
    CollectsBack(v, keys);
    MembersBegin(v, keys);
    ObjectToken(WriteMembers(v, keys), rest, Members(v, keys));
  }

  lemma MembersBegin(v: Json, keys: seq<Text>)
    requires v.Obj? && keys != [] && forall k :: k in keys ==> k in v.fields
    ensures WriteMembers(v, keys) != [] && WriteMembers(v, keys)[0] == QUOTE
  {
  }

  /** One member, `one` being its value's text and `next` what follows it. */
  lemma MemberToken(k: Text, one: Text, value: Json, next: Text)
    requires Scalars(k) && one != [] && !IsWhite(one[0])
    requires ReadValue(one + next) == Some(Read(value, next))
    requires next != [] && !IsWhite(next[0])
    ensures ReadMembers(Quoted(k) + [COLON] + one + next) ==
            if next[0] == 125 then Some(Read([(k, value)], next[1..]))
            else if next[0] != COMMA then None
            else
              match ReadMembers(SkipWhite(next[1..]))
              case None => None
              case Some(more) => Some(Read([(k, value)] + more.value, more.rest))
  {
    hide ReadValue;
    hide ReadString;
    var afterKey := [COLON] + (one + next);
    assert Quoted(k) + [COLON] + one + next == Quoted(k) + afterKey;
    QuotedReads(k, afterKey);
    assert SkipWhite(afterKey) == afterKey && afterKey[1..] == one + next;
    NoWhite(one, next);
    assert SkipWhite(next) == next;
  }

  /** The text of one or more members, the first one split off. */
  lemma MembersText(v: Json, keys: seq<Text>, rest: Text)
    requires v.Obj? && keys != [] && forall k :: k in keys ==> k in v.fields
    ensures var one := Quoted(keys[0]) + [COLON] + Write(v.fields[keys[0]]);
            WriteMembers(v, keys) + rest ==
            one + (if |keys| == 1 then [125] + rest else [COMMA] + (WriteMembers(v, keys[1..]) + rest))
  {
    hide Write;
    hide Quoted;
  }

  lemma MemberIsLegal(v: Json, k: Text)
    requires v.Obj? && Grammar(v, false) && k in v.fields
    ensures Scalars(k) && Grammar(v.fields[k], k == EXIT_CODE)
  {
  }

  lemma Delimiters()
    ensures !IsWhite(125) && !IsWhite(COMMA) && !IsWhite(QUOTE) && COMMA != 125
  {
  }

  /** The last member, once its value reads. */
  lemma LastMemberReads(v: Json, keys: seq<Text>, rest: Text)
    requires v.Obj? && |keys| == 1 && keys[0] in v.fields && Scalars(keys[0])
    requires var next := [125] + rest; var value := v.fields[keys[0]];
      ReadValue(Write(value) + next) == Some(Read(value, next))
    ensures ReadMembers(WriteMembers(v, keys) + rest) == Some(Read(Members(v, keys), rest))
  {
    hide *;
    var k, next := keys[0], [125] + rest;
    Delimiters();
    Begins(v.fields[k]);
    MembersText(v, keys, rest);
    MemberToken(k, Write(v.fields[k]), v.fields[k], next);
    assert next[1..] == rest;
    assert Members(v, keys) == [(k, v.fields[k])];
  }

  /** A member with others after it, once its value and they read. */
  lemma NextMemberReads(v: Json, keys: seq<Text>, rest: Text)
    requires v.Obj? && |keys| > 1 && Scalars(keys[0]) && forall k :: k in keys ==> k in v.fields
    requires var next := [COMMA] + (WriteMembers(v, keys[1..]) + rest); var value := v.fields[keys[0]];
      ReadValue(Write(value) + next) == Some(Read(value, next))
    requires ReadMembers(WriteMembers(v, keys[1..]) + rest) == Some(Read(Members(v, keys[1..]), rest))
    ensures ReadMembers(WriteMembers(v, keys) + rest) == Some(Read(Members(v, keys), rest))
  {
    hide *;
    var k, more := keys[0], WriteMembers(v, keys[1..]);
    var next := [COMMA] + (more + rest);
    Delimiters();
    Begins(v.fields[k]);
    MembersText(v, keys, rest);
    MembersBegin(v, keys[1..]);
    NoWhite(more, rest);
    assert next[1..] == more + rest;
    MemberToken(k, Write(v.fields[k]), v.fields[k], next);
    assert Members(v, keys) == [(k, v.fields[k])] + Members(v, keys[1..]);
  }

  lemma {:induction false} MembersRead(v: Json, keys: seq<Text>, rest: Text)
    requires v.Obj? && keys != [] && Grammar(v, false) && forall k :: k in keys ==> k in v.fields
    ensures ReadMembers(WriteMembers(v, keys) + rest) == Some(Read(Members(v, keys), rest))
    decreases v, 1, |keys|
  {
    var k := keys[0];
    assert k in v.fields;
    MemberIsLegal(v, k);
    Delimiters();
    hide *;
    if |keys| == 1 {
      ValueReads(v.fields[k], k == EXIT_CODE, [125] + rest);
      LastMemberReads(v, keys, rest);
    } else {
      ValueReads(v.fields[k], k == EXIT_CODE, [COMMA] + (WriteMembers(v, keys[1..]) + rest));
      MembersRead(v, keys[1..], rest);
      NextMemberReads(v, keys, rest);
    }
  }

  lemma {:induction false} CollectsTo(v: Json, keys: seq<Text>)
    requires v.Obj? && (forall k :: k in keys ==> k in v.fields)
    requires forall i, j :: 0 <= i < j < |keys| ==> keys[i] != keys[j]
    ensures Collected(Members(v, keys)) == map k | k in keys :: v.fields[k]
  {
    if keys != [] {
      CollectsTo(v, keys[1..]);
      assert Members(v, keys)[1..] == Members(v, keys[1..]);
      assert keys == [keys[0]] + keys[1..];
    }
  }

  lemma CollectsBack(v: Json, keys: seq<Text>)
    requires v.Obj? && keys == KeyOrder(v.fields.Keys)
    ensures !Repeats(Members(v, keys)) && Collected(Members(v, keys)) == v.fields
  {
    CollectsTo(v, keys);
  }

  // ---- the codec -------------------------------------------------------

  /** Only printable scalar values: canonical text carries no control character. */
  predicate Printable(t: Text) {
    forall i :: 0 <= i < |t| ==> t[i] >= 32 && IsScalar(t[i])
  }

  lemma {:induction false} QuotedIsPrintable(s: Text)
    requires Scalars(s)
    ensures Printable(EscapeAll(s)) && Printable(Quoted(s))
  {
    if s != [] {
      QuotedIsPrintable(s[1..]);
    }
  }

  lemma {:induction false} WriteIsPrintable(v: Json, exit: bool)
    requires Grammar(v, exit)
    ensures Printable(Write(v))
    decreases v, 2
  {
    match v
    case Str(s) => QuotedIsPrintable(s);
    case Arr(items) => if items != [] { ItemsArePrintable(v, 0); }
    case Obj(fields) => if fields != map[] { MembersArePrintable(v, KeyOrder(fields.Keys)); }
    case _ =>
  }

  lemma {:induction false} ItemsArePrintable(v: Json, i: nat)
    requires v.Arr? && i < |v.items| && Grammar(v, false)
    ensures Printable(WriteItems(v, i))
    decreases v, 1, |v.items| - i
  {
    WriteIsPrintable(v.items[i], false);
    if i + 1 < |v.items| {
      ItemsArePrintable(v, i + 1);
    }
  }

  lemma {:induction false} MembersArePrintable(v: Json, keys: seq<Text>)
    requires v.Obj? && Grammar(v, false) && forall k :: k in keys ==> k in v.fields
    ensures Printable(WriteMembers(v, keys))
    decreases v, 1, |keys|
  {
    if keys != [] {
      var k := keys[0];
      assert k in v.fields;
      QuotedIsPrintable(k);
      WriteIsPrintable(v.fields[k], k == EXIT_CODE);
      MembersArePrintable(v, keys[1..]);
    }
  }

  /** `parse_json(C(v))` is `v`, for every value the grammar accepts. */
  lemma CodecRoundTrip(v: Json)
    requires Grammar(v, false)
    ensures ParseJson(C(v)) == Some(v)
  {
    WriteIsPrintable(v, false);
    RoundTrip(Write(v));
    Begins(v);
    NoWhite(Write(v), []);
    ValueReads(v, false, []);
    assert Write(v) + [] == Write(v);
  }

  /** Equal canonical bytes, equal values. */
  lemma CanonicalIsInjective(v: Json, w: Json)
    requires Grammar(v, false) && Grammar(w, false) && C(v) == C(w)
    ensures v == w
  {
    CodecRoundTrip(v);
    CodecRoundTrip(w);
  }

  /** Whatever the parser accepts has a canonical form that parses to the same value. */
  lemma AcceptedHasCanonicalForm(data: Bytes)
    requires ParseJson(data).Some?
    ensures Grammar(ParseJson(data).value, false) && ParseJson(C(ParseJson(data).value)) == ParseJson(data)
  {
    CodecRoundTrip(ParseJson(data).value);
  }

  lemma {:induction false} PrintableBytes(t: Text)
    requires Printable(t)
    ensures forall i :: 0 <= i < |Encode(t)| ==> Encode(t)[i] >= 32
  {
    if t != [] {
      PrintableBytes(t[1..]);
    }
  }

  lemma CanonicalHasNoNul(v: Json)
    requires Grammar(v, false)
    ensures 0 !in C(v)
  {
    WriteIsPrintable(v, false);
    PrintableBytes(Write(v));
  }

  /** `fv-evidence-v4/`, which every digest label is prefixed with. */
  const LABEL_PREFIX: Text := [102, 118, 45, 101, 118, 105, 100, 101, 110, 99, 101, 45, 118, 52, 47]

  /** What `D(label, v)` hashes. */
  ghost function Preimage(tag: Text, v: Json): Bytes {
    Encode(LABEL_PREFIX + tag) + [0] + C(v)
  }

  /** The preimage determines the label and the value, so digests separate domains as well as values. */
  lemma PreimageIsInjective(tag: Text, v: Json, other: Text, w: Json)
    requires Scalars(tag) && Scalars(other) && 0 !in tag && 0 !in other
    requires Grammar(v, false) && Grammar(w, false) && Preimage(tag, v) == Preimage(other, w)
    ensures tag == other && v == w
  {
    var a, b := LABEL_PREFIX + tag, LABEL_PREFIX + other;
    assert a[|LABEL_PREFIX|..] == tag && b[|LABEL_PREFIX|..] == other;
    LabelIsPlain(tag);
    LabelIsPlain(other);
    SplitAtNul(a, C(v), b, C(w));
    EncodingIsInjective(a, b);
    hide *;
    CanonicalIsInjective(v, w);
  }

  lemma LabelIsPlain(tag: Text)
    requires Scalars(tag) && 0 !in tag
    ensures Scalars(LABEL_PREFIX + tag) && 0 !in LABEL_PREFIX + tag
  {
  }

  lemma SplitAtNul(a: Text, u: Bytes, b: Text, v: Bytes)
    requires 0 !in a && 0 !in b && Encode(a) + [0] + u == Encode(b) + [0] + v
    ensures Encode(a) == Encode(b) && u == v
  {
    Snapshot.NoNulInside(a, u);
    Snapshot.NoNulInside(b, v);
    hide *;
    var n, all, other := |Encode(a)|, Encode(a) + [0] + u, Encode(b) + [0] + v;
    assert all[..n] == Encode(a) && other[..n] == Encode(b);
    assert all[n + 1..] == u && other[n + 1..] == v;
  }
}
