/** What the strict parser reads in strings and numbers, from the tokens of RFC 8259, sections 6 and 7. */
module JsonTokens {
  import opened Basics
  import opened Utf8
  import opened Json
  import J = Json

  // ---- strings ---------------------------------------------------------

  /** The escapes of two characters: what follows the backslash, and the character meant. */
  const SHORT: map<codepoint, codepoint> :=
    map[34 := 34, 92 := 92, 47 := 47, 98 := 8, 102 := 12, 110 := 10, 114 := 13, 116 := 9]

  /** `0` to `9`, then `a` to `f` or `A` to `F`. */
  ghost const LOWER: Text := [48, 49, 50, 51, 52, 53, 54, 55, 56, 57, 97, 98, 99, 100, 101, 102]
  ghost const UPPER: Text := [48, 49, 50, 51, 52, 53, 54, 55, 56, 57, 65, 66, 67, 68, 69, 70]

  ghost predicate HexSpells(c: codepoint, n: int) {
    0 <= n < 16 && (c == LOWER[n] || c == UPPER[n])
  }

  /** Four hexadecimal digits, the most significant first. */
  ghost predicate UnitSpells(d: Text, u: int) {
    && |d| == 4
    && exists a, b, c, e ::
         HexSpells(d[0], a) && HexSpells(d[1], b) && HexSpells(d[2], c) && HexSpells(d[3], e)
         && u == ((a * 16 + b) * 16 + c) * 16 + e
  }

  predicate IsHigh(u: int) {
    0xD800 <= u <= 0xDBFF
  }

  predicate IsLow(u: int) {
    0xDC00 <= u <= 0xDFFF
  }

  /** The text begins with the escape of a low surrogate. */
  ghost predicate LowFollows(t: Text) {
    |t| >= 6 && t[0] == 92 && t[1] == 117 && exists u :: UnitSpells(t[2..6], u) && IsLow(u)
  }

  /** The text begins with a backslash escape of the grammar. */
  ghost predicate EscapeFollows(t: Text) {
    && |t| >= 2 && t[0] == 92
    && (t[1] in SHORT || (t[1] == 117 && |t| >= 6 && exists u :: UnitSpells(t[2..6], u)))
  }

  ghost function Prepended(c: codepoint, r: Option<Read<Text>>): Option<Read<Text>> {
    match r
    case None => None
    case Some(more) => Some(Read([c] + more.value, more.rest))
  }

  lemma HexIff(c: codepoint, n: int)
    ensures HexSpells(c, n) <==> HexValue(c) == Some(n)
  {
  }

  lemma UnitIff(d: Text, u: int)
    requires |d| == 4
    ensures UnitSpells(d, u) <==> Unit(d) == Some(u)
  {
    if UnitSpells(d, u) {
      SpelledIsUnit(d, u);
    }
    if Unit(d) == Some(u) {
      UnitIsSpelled(d, u);
    }
  }

  lemma SpelledIsUnit(d: Text, u: int)
    requires UnitSpells(d, u)
    ensures Unit(d) == Some(u)
  {
    hide HexSpells;
    hide HexValue;
    hide Unit;
    var a, b, c, e :| HexSpells(d[0], a) && HexSpells(d[1], b) && HexSpells(d[2], c) && HexSpells(d[3], e)
                      && u == ((a * 16 + b) * 16 + c) * 16 + e;
    HexIff(d[0], a);
    HexIff(d[1], b);
    HexIff(d[2], c);
    HexIff(d[3], e);
    UnitOf(d, a, b, c, e);
  }

  lemma UnitOf(d: Text, a: int, b: int, c: int, e: int)
    requires |d| >= 4
    requires HexValue(d[0]) == Some(a) && HexValue(d[1]) == Some(b)
    requires HexValue(d[2]) == Some(c) && HexValue(d[3]) == Some(e)
    ensures Unit(d) == Some(((a * 16 + b) * 16 + c) * 16 + e)
  {
    hide HexValue;
  }

  lemma UnitIsSpelled(d: Text, u: int)
    requires |d| == 4 && Unit(d) == Some(u)
    ensures UnitSpells(d, u)
  {
    hide HexSpells;
    hide HexValue;
    var a, b, c, e := HexValue(d[0]).value, HexValue(d[1]).value, HexValue(d[2]).value, HexValue(d[3]).value;
    HexIff(d[0], a);
    HexIff(d[1], b);
    HexIff(d[2], c);
    HexIff(d[3], e);
    assert u == ((a * 16 + b) * 16 + c) * 16 + e;
  }

  lemma UnitOfFour(t: Text)
    requires |t| >= 4
    ensures Unit(t) == Unit(t[..4])
  {
  }

  lemma EscapeStep(t: Text, n: nat, c: codepoint, rest: Text)
    requires ReadEscape(t) == Some((c, n)) && t[n..] == rest
    ensures ReadString([92] + t) == Prepended(c, ReadString(rest))
  {
    assert ([92] + t)[1..] == t && ([92] + t)[n + 1..] == rest;
    hide ReadEscape;
  }

  /** A short escape stands for its character. */
  lemma ShortEscapeReads(e: codepoint, rest: Text)
    requires e in SHORT
    ensures ReadString([92, e] + rest) == Prepended(SHORT[e], ReadString(rest))
  {
    var t := [92, e] + rest;
    assert t[1..] == [e] + rest && t[2..] == rest;
  }

  /** A character that is no control, quote or backslash stands for itself. */
  lemma PlainReads(c: codepoint, rest: Text)
    requires c >= 32 && c != 34 && c != 92
    ensures ReadString([c] + rest) == Prepended(c, ReadString(rest))
  {
    assert ([c] + rest)[1..] == rest;
  }

  /** Two escapes that spell a high and then a low surrogate stand for one character. */
  lemma PairReads(d: Text, high: int, e: Text, low: int, rest: Text)
    requires UnitSpells(d, high) && IsHigh(high) && UnitSpells(e, low) && IsLow(low)
    ensures ReadString([92, 117] + d + [92, 117] + e + rest) ==
            Prepended((0x10000 + (high - 0xD800) * 0x400 + (low - 0xDC00)) as codepoint, ReadString(rest))
  {
    UnitIff(d, high);
    UnitIff(e, low);
    hide *;
    PairText(d, e, rest);
    var t := [117] + d + [92, 117] + e + rest;
    PairEscape(t, high, low);
    EscapeStep(t, 11, (0x10000 + (high - 0xD800) * 0x400 + (low - 0xDC00)) as codepoint, rest);
  }

  lemma PairText(d: Text, e: Text, rest: Text)
    requires |d| == 4 && |e| == 4
    ensures var t := [117] + d + [92, 117] + e + rest;
      && |t| >= 11 && t[0] == 117 && t[5] == 92 && t[6] == 117 && t[11..] == rest
      && [92] + t == [92, 117] + d + [92, 117] + e + rest
      && Unit(t[1..]) == Unit(d) && Unit(t[7..]) == Unit(e)
  {
    var t := [117] + d + [92, 117] + e + rest;
    assert t[1..][..4] == d && t[7..][..4] == e;
    UnitOfFour(t[1..]);
    UnitOfFour(t[7..]);
    hide *;
  }

  lemma PairEscape(t: Text, high: int, low: int)
    requires |t| >= 11 && t[0] == 117 && t[5] == 92 && t[6] == 117
    requires Unit(t[1..]) == Some(high) && IsHigh(high)
    requires Unit(t[7..]) == Some(low) && IsLow(low)
    ensures ReadEscape(t) == Some(((0x10000 + (high - 0xD800) * 0x400 + (low - 0xDC00)) as codepoint, 11))
  {
    hide Unit;
  }

  /** Any other unit stands for itself, a surrogate on its own included. */
  lemma UnitReads(d: Text, u: int, rest: Text)
    requires UnitSpells(d, u) && !(IsHigh(u) && LowFollows(rest))
    ensures 0 <= u < 0x10000
    ensures ReadString([92, 117] + d + rest) == Prepended(u as codepoint, ReadString(rest))
  {
    UnitIff(d, u);
    hide Unit;
    hide UnitSpells;
    hide ReadString;
    hide ReadEscape;
    hide LowFollows;
    var v := [117] + d + rest;
    UnitText(d, rest);
    if IsHigh(u) && |rest| >= 6 && rest[0] == 92 && rest[1] == 117 {
      SecondUnit(rest);
    }
    if IsHigh(u) && |rest| >= 6 && rest[0] == 92 && rest[1] == 117 && Unit(rest[2..]).None? {
      NoUnit(v, u);
      EscapeRefused(v);
      EscapeRefused(rest[1..]);
      assert rest == [92] + rest[1..];
    } else {
      UnitEscape(v, u);
      EscapeStep(v, 5, u as codepoint, rest);
    }
  }

  lemma UnitText(d: Text, rest: Text)
    requires |d| == 4
    ensures var v := [117] + d + rest;
      && |v| == 5 + |rest| && v[0] == 117 && Unit(v[1..]) == Unit(d) && v[5..] == rest
      && [92] + v == [92, 117] + d + rest
      && (|rest| >= 2 ==> v[5] == rest[0] && v[6] == rest[1] && v[7..] == rest[2..])
  {
    var v := [117] + d + rest;
    assert v[1..][..4] == d;
    UnitOfFour(v[1..]);
    hide *;
  }

  lemma NoUnit(t: Text, u: int)
    requires |t| >= 11 && t[0] == 117 && Unit(t[1..]) == Some(u) && IsHigh(u)
    requires t[5] == 92 && t[6] == 117 && Unit(t[7..]).None?
    ensures ReadEscape(t).None?
  {
    hide Unit;
  }

  /** A second unit is a low surrogate exactly if the text begins with one's escape. */
  lemma SecondUnit(t: Text)
    requires |t| >= 6 && t[0] == 92 && t[1] == 117
    ensures LowFollows(t) <==> Unit(t[2..]).Some? && IsLow(Unit(t[2..]).value)
    ensures Unit(t[2..]).None? ==> ReadEscape(t[1..]).None?
  {
    assert t[2..][..4] == t[2..6] && t[1..][1..] == t[2..];
    UnitOfFour(t[2..]);
    forall u ensures UnitSpells(t[2..6], u) <==> Unit(t[2..6]) == Some(u) {
      UnitIff(t[2..6], u);
    }
    hide Unit;
    hide UnitSpells;
  }

  lemma EscapeRefused(t: Text)
    ensures ReadEscape(t).None? ==> ReadString([92] + t).None?
  {
    hide ReadEscape;
    assert ([92] + t)[1..] == t;
  }

  lemma UnitEscape(t: Text, u: int)
    requires |t| >= 5 && t[0] == 117 && Unit(t[1..]) == Some(u)
    requires IsHigh(u) && |t| >= 11 && t[5] == 92 && t[6] == 117 ==>
      Unit(t[7..]).Some? && !IsLow(Unit(t[7..]).value)
    ensures ReadEscape(t) == Some((u as codepoint, 5))
  {
    hide Unit;
  }

  /** Nothing else is read: a control character, or a backslash that begins no escape, is refused. */
  lemma OtherwiseRefused(t: Text)
    requires t == [] || t[0] < 32 || (t[0] == 92 && !EscapeFollows(t))
    ensures ReadString(t) == None
  {
    if t != [] && t[0] == 92 && |t| >= 6 && t[1] == 117 {
      assert t[1..][1..] == t[2..] && t[2..][..4] == t[2..6];
      UnitOfFour(t[2..]);
      if Unit(t[2..6]).Some? {
        UnitIff(t[2..6], Unit(t[2..6]).value);
      }
    }
  }

  // ---- numbers ---------------------------------------------------------

  lemma {:induction false} DigitsBack(digits: Text)
    requires digits != [] && (|digits| > 1 ==> digits[0] != 48)
    requires forall i :: 0 <= i < |digits| ==> IsDigit(digits[i])
    ensures J.Digits(ValueOf(digits)) == digits
    ensures digits[0] != 48 ==> ValueOf(digits) > 0
  {
    var k := |digits| - 1;
    var most := digits[..k];
    assert IsDigit(digits[k]) && digits == most + [digits[k]];
    if k == 0 {
      assert ValueOf(most) == 0;
    } else {
      assert most[0] == digits[0] && (forall i :: 0 <= i < k ==> IsDigit(most[i]));
      DigitsBack(most);
      var n := ValueOf(digits);
      assert n / 10 == ValueOf(most) && n % 10 == digits[k] as int - 48;
    }
  }

  lemma {:induction false} RunEnds(t: Text)
    ensures DigitRun(t) == |t| || !IsDigit(t[DigitRun(t)])
  {
    if t != [] && IsDigit(t[0]) {
      RunEnds(t[1..]);
    }
  }

  /** The text after an integer neither continues it nor makes it a fraction. */
  predicate EndsNumber(n: int, rest: Text) {
    !Fractional(rest) && (n == 0 || rest == [] || !IsDigit(rest[0]))
  }

  /** The digits a number token begins with, and the text after them. */
  function Split(body: Text): (r: (Text, Text))
    ensures r.0 + r.1 == body
    ensures forall i :: 0 <= i < |r.0| ==> IsDigit(r.0[i])
  {
    var run := if body != [] && body[0] == 48 then 1 else DigitRun(body);
    RunIsDigits(body);
    (body[..run], body[run..])
  }

  lemma {:induction false} SplitIff(body: Text, digits: Text, rest: Text)
    requires digits != [] && forall i :: 0 <= i < |digits| ==> IsDigit(digits[i])
    ensures Split(body) == (digits, rest) <==>
      && body == digits + rest && (|digits| > 1 ==> digits[0] != 48)
      && (digits == [48] || rest == [] || !IsDigit(rest[0]))
  {
    RunEnds(body);
    if body == digits + rest && digits[0] != 48 && (rest == [] || !IsDigit(rest[0])) {
      RunStops(digits, rest);
    }
  }

  lemma ReadsSplit(t: Text, negative: bool, body: Text)
    requires negative <==> t != [] && t[0] == 45
    requires body == if negative then t[1..] else t
    ensures var (digits, rest) := Split(body);
      var n: int := ValueOf(digits);
      ReadNumber(t) ==
      if digits == [] || Fractional(rest) || (negative && digits == [48]) || |digits| > 16 || n > MAX_INTEGER then None
      else Some(Read(if negative then -n else n, rest))
  {
    hide DigitRun;
    hide ValueOf;
    hide Fractional;
  }

  lemma AtMostSixteen(m: nat)
    requires m <= MAX_INTEGER
    ensures |J.Digits(m)| <= 16
  {
    assert Pow10(16) == 10000000000000000 by {
      assert Pow10(8) == 100000000;
      PowSum(8, 8);
    }
    DigitsLength(m, 16);
  }

  lemma Spelling(n: int, body: Text, rest: Text)
    requires body == J.Digits(if n < 0 then -n else n) + rest
    ensures Number(n) + rest == if n < 0 then [45] + body else body
  {
    hide J.Digits;
    if n < 0 {
      assert Number(n) + rest == [45] + (J.Digits(-n) + rest);
    }
  }

  lemma ReadIsCanonical(t: Text, n: int, rest: Text)
    requires ReadNumber(t) == Some(Read(n, rest))
    ensures t == Number(n) + rest && -MAX_INTEGER <= n <= MAX_INTEGER && EndsNumber(n, rest)
  {
    hide ReadNumber;
    hide Number;
    hide Split;
    hide Fractional;
    hide ValueOf;
    hide J.Digits;
    var negative := t != [] && t[0] == 45;
    var body := if negative then t[1..] else t;
    ReadsSplit(t, negative, body);
    var digits := Split(body).0;
    SplitIff(body, digits, rest);
    DigitsBack(digits);
    ZeroIsZero();
    Spelling(n, body, rest);
  }

  lemma ZeroIsZero()
    ensures J.Digits(0) == [48] && IsDigit(48)
  {
  }

  lemma CanonicalIsRead(t: Text, n: int, rest: Text)
    requires t == Number(n) + rest && -MAX_INTEGER <= n <= MAX_INTEGER && EndsNumber(n, rest)
    ensures ReadNumber(t) == Some(Read(n, rest))
  {
    SignedText(n, rest);
    hide Number;
    var m := if n < 0 then -n else n;
    var negative := t != [] && t[0] == 45;
    var body := if negative then t[1..] else t;
    hide Split;
    hide Fractional;
    hide ReadNumber;
    DigitsValue(m);
    AtMostSixteen(m);
    SplitIff(body, J.Digits(m), rest);
    ReadsSplit(t, negative, body);
    hide J.Digits;
    hide ValueOf;
  }

  /**
   An integer is read exactly from its canonical spelling: no plus, no leading
   zero, no minus zero, no fraction and nothing beyond the safe range.
   */
  lemma NumberIff(t: Text, n: int, rest: Text)
    ensures ReadNumber(t) == Some(Read(n, rest)) <==>
      t == Number(n) + rest && -MAX_INTEGER <= n <= MAX_INTEGER && EndsNumber(n, rest)
  {
    if ReadNumber(t) == Some(Read(n, rest)) {
      ReadIsCanonical(t, n, rest);
    } else if t == Number(n) + rest && -MAX_INTEGER <= n <= MAX_INTEGER && EndsNumber(n, rest) {
      CanonicalIsRead(t, n, rest);
    }
    hide *;
  }
}
