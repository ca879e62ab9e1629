/** The recursive descent accepts exactly the RFC 8259 texts nested at most `MAX_DEPTH` deep,
    and yields the value the grammar gives them. */
module JsonExactness {
  import opened Prelude
  import opened JsonValues
  import opened JsonGrammar
  import opened JsonDescent

  // ---- sequences ----

  lemma DropDrop(s: string, i: nat, j: nat)
    requires i + j <= |s|
    ensures s[i..][j..] == s[i + j..]
  {}

  lemma DropPrefix(a: string, b: string)
    ensures (a + b)[|a|..] == b && (a + b)[..|a|] == a
  {}

  // ---- whitespace ----

  lemma {:induction false} SkipWsOver(ws: string, s: string)
    requires IsWs(ws)
    ensures SkipWs(ws + s) == SkipWs(s)
  {
    if ws == "" {
      assert ws + s == s;
    } else {
      assert (ws + s)[1..] == ws[1..] + s;
      SkipWsOver(ws[1..], s);
    }
  }

  lemma SkipWsTo(ws: string, s: string)
    requires IsWs(ws) && s != "" && !IsWsChar(s[0])
    ensures SkipWs(ws + s) == s
  {
    SkipWsOver(ws, s);
  }

  lemma {:induction false} SkipWsSplit(s: string) returns (ws: string)
    ensures IsWs(ws) && s == ws + SkipWs(s)
  {
    if s != "" && IsWsChar(s[0]) {
      var ws' := SkipWsSplit(s[1..]);
      ws := [s[0]] + ws';
      WithHead(s, ws', SkipWs(s[1..]));
    } else {
      ws := "";
      assert "" + s == s;
    }
  }

  lemma WithHead(s: string, a: string, b: string)
    requires s != "" && s[1..] == a + b
    ensures s == [s[0]] + a + b
  {
    assert s == [s[0]] + s[1..];
  }

  // ---- strings ----

  lemma CodeUnitStep(c: char, s: string, digits: nat, value: nat)
    requires IsHex(c) && 1 <= digits <= 4
    requires value < (if digits == 4 then 1 else if digits == 3 then 16 else if digits == 2 then 256 else 4096)
    ensures CodeUnit([c] + s, digits, value) == CodeUnit(s, digits - 1, value * 16 + HexVal(c))
  {
    DropPrefix([c], s);
  }

  lemma CodeUnitOf(hex: string, s: string)
    requires IsHex4(hex)
    ensures CodeUnit(hex + s, 4, 0) == Ok(Hex4(hex), s)
  {
    hide HexVal;
    var a, b, c := HexVal(hex[0]), HexVal(hex[1]), HexVal(hex[2]);
    assert hex + s == [hex[0]] + ([hex[1]] + ([hex[2]] + ([hex[3]] + s)));
    CodeUnitStep(hex[0], [hex[1]] + ([hex[2]] + ([hex[3]] + s)), 4, 0);
    CodeUnitStep(hex[1], [hex[2]] + ([hex[3]] + s), 3, a);
    CodeUnitStep(hex[2], [hex[3]] + s, 2, a * 16 + b);
    CodeUnitStep(hex[3], s, 1, (a * 16 + b) * 16 + c);
  }

  lemma CodeUnitFrom(s: string) returns (hex: string)
    requires CodeUnit(s, 4, 0).Ok?
    ensures IsHex4(hex) && CodeUnit(s, 4, 0).value == Hex4(hex) && s == hex + CodeUnit(s, 4, 0).rest
  {
    assert s[1..][1..] == s[2..] && s[2..][1..] == s[3..] && s[3..][1..] == s[4..];
    var a := HexVal(s[0]);
    assert CodeUnit(s, 4, 0) == CodeUnit(s[1..], 3, a);
    var b := HexVal(s[1..][0]);
    assert CodeUnit(s[1..], 3, a) == CodeUnit(s[2..], 2, a * 16 + b);
    var c := HexVal(s[2..][0]);
    assert CodeUnit(s[2..], 2, a * 16 + b) == CodeUnit(s[3..], 1, (a * 16 + b) * 16 + c);
    hex := s[..4];
    assert CodeUnit(s[3..], 1, (a * 16 + b) * 16 + c) == CodeUnit(s[4..], 0, Hex4(hex));
    assert s == hex + s[4..];
  }

  lemma UnitOf(hex: string, s: string)
    requires ItemOk(Unit(hex))
    ensures UnicodeEscape(hex + s) == Ok(ItemChar(Unit(hex)), s)
  {
    hide CodeUnit;
    CodeUnitOf(hex, s);
  }

  lemma PairOf(high: string, low: string, s: string)
    requires ItemOk(Pair(high, low))
    ensures UnicodeEscape(high + ("\\u" + (low + s))) == Ok(ItemChar(Pair(high, low)), s)
  {
    hide CodeUnit;
    var second := "\\u" + (low + s);
    CodeUnitOf(high, second);
    DropPrefix("\\u", low + s);
    assert second[1..][0] == 'u';
    CodeUnitOf(low, s);
  }

  lemma EscapeOf(i: Item, s: string)
    requires ItemOk(i) && !i.Plain?
    ensures ItemText(i) != "" && ItemText(i)[0] == '\\'
    ensures Escape((ItemText(i) + s)[1..]) == Ok(ItemChar(i), s)
  {
    match i
    case Plain(_) =>
    case Short(letter) => ShortEscapeOf(letter, s);
    case Unit(hex) => UnitEscapeOf(hex, s);
    case Pair(high, low) => PairEscapeOf(high, low, s);
  }

  lemma ShortEscapeOf(letter: char, s: string)
    requires ItemOk(Short(letter))
    ensures ItemText(Short(letter))[0] == '\\'
    ensures Escape((ItemText(Short(letter)) + s)[1..]) == Ok(ItemChar(Short(letter)), s)
  {
    hide UnicodeEscape;
    assert (ItemText(Short(letter)) + s)[1..] == [letter] + s;
  }

  lemma UnitEscapeOf(hex: string, s: string)
    requires ItemOk(Unit(hex))
    ensures ItemText(Unit(hex)) != "" && ItemText(Unit(hex))[0] == '\\'
    ensures Escape((ItemText(Unit(hex)) + s)[1..]) == Ok(ItemChar(Unit(hex)), s)
  {
    hide UnicodeEscape, ItemOk, ItemChar;
    var rest := hex + s;
    assert (ItemText(Unit(hex)) + s)[1..] == "u" + rest;
    DropPrefix("u", rest);
    UnitOf(hex, s);
  }

  lemma PairEscapeOf(high: string, low: string, s: string)
    requires ItemOk(Pair(high, low))
    ensures ItemText(Pair(high, low)) != "" && ItemText(Pair(high, low))[0] == '\\'
    ensures Escape((ItemText(Pair(high, low)) + s)[1..]) == Ok(ItemChar(Pair(high, low)), s)
  {
    hide UnicodeEscape, ItemOk, ItemChar;
    var rest := high + ("\\u" + (low + s));
    assert (ItemText(Pair(high, low)) + s)[1..] == "u" + rest;
    DropPrefix("u", rest);
    PairOf(high, low, s);
  }

  lemma UnicodeEscapeFrom(s: string) returns (i: Item)
    requires UnicodeEscape(s).Ok?
    ensures ItemOk(i) && !i.Plain? && ItemChar(i) == UnicodeEscape(s).value
    ensures "\\u" + s == ItemText(i) + UnicodeEscape(s).rest
  {
    hide CodeUnit, Hex4, IsHex4;
    var hex := CodeUnitFrom(s);
    var s1 := CodeUnit(s, 4, 0).rest;
    if IsHigh(Hex4(hex)) {
      var low := CodeUnitFrom(s1[2..]);
      i := Pair(hex, low);
      var s2 := UnicodeEscape(s).rest;
      assert s1 == "\\u" + s1[2..] by { assert s1[1..][0] == s1[1]; }
      assert s1 == "\\u" + (low + s2);
      assert "\\u" + (hex + ("\\u" + (low + s2))) == "\\u" + hex + "\\u" + low + s2;
    } else {
      i := Unit(hex);
      assert "\\u" + (hex + s1) == "\\u" + hex + s1;
    }
  }

  lemma EscapeFrom(s: string) returns (i: Item)
    requires Escape(s).Ok?
    ensures ItemOk(i) && !i.Plain? && ItemChar(i) == Escape(s).value
    ensures "\\" + s == ItemText(i) + Escape(s).rest
  {
    hide UnicodeEscape, Hex4, IsHex4;
    if IsShort(s[0]) {
      i := Short(s[0]);
    } else {
      i := UnicodeEscapeFrom(s[1..]);
      assert "\\" + s == "\\u" + s[1..];
    }
  }

  lemma BodyEnd(s: string)
    ensures Body("\"" + s) == Ok("", s)
  {
    assert ("\"" + s)[1..] == s;
  }

  lemma BodyStep(i: Item, tail: string)
    requires ItemOk(i) && Body(tail).Ok?
    ensures Body(ItemText(i) + tail) == Ok([ItemChar(i)] + Body(tail).value, Body(tail).rest)
  {
    var t := ItemText(i) + tail;
    if i.Plain? {
      assert t[0] == i.c && t[1..] == tail;
    } else {
      EscapeOf(i, tail);
      assert t[0] == '\\';
    }
  }

  lemma {:induction false} BodyOf(items: seq<Item>, s: string)
    requires ItemsOk(items)
    ensures Body(ItemsText(items) + "\"" + s) == Ok(ItemsString(items), s)
  {
    hide Body, ItemText;
    if items == [] {
      assert ItemsText(items) + "\"" + s == "\"" + s;
      BodyEnd(s);
    } else {
      var i, tail := items[0], ItemsText(items[1..]) + "\"" + s;
      BodyOf(items[1..], s);
      assert ItemsText(items) + "\"" + s == ItemText(i) + tail;
      BodyStep(i, tail);
    }
  }

  lemma PlainText(c: char)
    ensures ItemText(Plain(c)) == [c]
  {}

  lemma ItemsStep(i: Item, tail: seq<Item>, rest: string)
    requires ItemOk(i) && ItemsOk(tail)
    ensures ItemsOk([i] + tail) && ItemsString([i] + tail) == [ItemChar(i)] + ItemsString(tail)
    ensures ItemText(i) + (ItemsText(tail) + "\"" + rest) == ItemsText([i] + tail) + "\"" + rest
  {
    hide ItemText, ItemOk;
    assert ([i] + tail)[1..] == tail;
    assert ItemText(i) + (ItemsText(tail) + "\"" + rest) == (ItemText(i) + ItemsText(tail)) + "\"" + rest;
  }

  lemma {:induction false} BodyFrom(s: string) returns (items: seq<Item>)
    requires Body(s).Ok?
    ensures ItemsOk(items) && ItemsString(items) == Body(s).value
    ensures s == ItemsText(items) + "\"" + Body(s).rest
    decreases |s|
  {
    hide Escape, ItemText;
    if s[0] == '"' {
      items := [];
      assert s == "\"" + s[1..];
    } else {
      var i: Item, s1: string;
      if s[0] == '\\' {
        i := EscapeFrom(s[1..]);
        s1 := Escape(s[1..]).rest;
        assert s == "\\" + s[1..];
      } else {
        i, s1 := Plain(s[0]), s[1..];
        assert s == [s[0]] + s[1..] == ItemText(i) + s1 by { PlainText(s[0]); }
      }
      assert s == ItemText(i) + s1;
      var tail := BodyFrom(s1);
      items := [i] + tail;
      ItemsStep(i, tail, Body(s1).rest);
    }
  }

  lemma StringOf(items: seq<Item>, s: string)
    requires ItemsOk(items)
    ensures StringAt(StringText(items) + s) == Ok(ItemsString(items), s)
  {
    hide Body;
    BodyOf(items, s);
    assert StringText(items) + s == "\"" + (ItemsText(items) + "\"" + s);
    DropPrefix("\"", ItemsText(items) + "\"" + s);
  }

  lemma StringFrom(s: string) returns (items: seq<Item>)
    requires StringAt(s).Ok?
    ensures ItemsOk(items) && ItemsString(items) == StringAt(s).value
    ensures s == StringText(items) + StringAt(s).rest
  {
    hide Body, ItemsText, ItemsString, ItemsOk;
    items := BodyFrom(s[1..]);
    assert s == "\"" + s[1..];
  }

  // ---- numbers ----

  /** What may follow a number without continuing it. */
  predicate Stops(s: string) {
    s == "" || !(IsDigit(s[0]) || s[0] == '.' || s[0] == 'e' || s[0] == 'E')
  }

  lemma {:induction false} DigitRunOf(digits: string, s: string)
    requires IsDigits(digits) && (s == "" || !IsDigit(s[0]))
    ensures DigitRun(digits + s) == |digits|
  {
    if digits == "" {
      assert digits + s == s;
    } else {
      assert (digits + s)[1..] == digits[1..] + s;
      DigitRunOf(digits[1..], s);
    }
  }

  lemma {:induction false} DigitRunFrom(s: string)
    ensures IsDigits(s[..DigitRun(s)])
    ensures DigitRun(s) > 0 <==> s != "" && IsDigit(s[0])
  {
    if s != "" && IsDigit(s[0]) {
      DigitRunFrom(s[1..]);
      assert s[..DigitRun(s)] == [s[0]] + s[1..][..DigitRun(s[1..])];
    }
  }

  lemma WholeRunOf(whole: string, s: string)
    requires WholeOk(whole) && (s == "" || !IsDigit(s[0]))
    ensures WholeRun(whole + s) == |whole|
  {
    if whole[0] != '0' {
      assert (whole + s)[1..] == whole[1..] + s;
      DigitRunOf(whole[1..], s);
    }
  }

  lemma FractionRunOf(fraction: string, s: string)
    requires IsDigits(fraction) && (s == "" || !IsDigit(s[0])) && !StartsWith(s, '.')
    ensures FractionRun(FractionText(fraction) + s) == Len(|FractionText(fraction)|)
  {
    if fraction == "" {
      assert FractionText(fraction) + s == s;
    } else {
      assert (FractionText(fraction) + s)[1..] == fraction + s;
      DigitRunOf(fraction, s);
    }
  }

  lemma NoExponent(s: string)
    requires Stops(s)
    ensures ExponentRun(s) == Len(0)
  {}

  lemma ExponentStep(mark: char, s: string)
    requires mark == 'e' || mark == 'E'
    ensures SignRun(s) <= |s|
    ensures ExponentRun([mark] + s) ==
      var digits := DigitRun(s[SignRun(s)..]);
      if digits == 0 then Bad(NoExponentDigit) else Len(1 + SignRun(s) + digits)
  {
    DropPrefix([mark], s);
  }

  lemma ExponentOf(mark: char, sign: string, digits: string, s: string)
    requires (mark == 'e' || mark == 'E') && sign in {"", "+", "-"}
    requires digits != "" && IsDigits(digits) && Stops(s)
    ensures ExponentRun([mark] + (sign + (digits + s))) == Len(1 + |sign| + |digits|)
  {
    assert IsDigit(digits[0]) && (digits + s)[0] == digits[0];
    hide DigitRun, IsDigits, SignRun, ExponentRun;
    var tail := digits + s;
    ExponentStep(mark, sign + tail);
    SignRunOf(sign, tail);
    DropPrefix(sign, tail);
    DigitRunOf(digits, s);
  }

  lemma ExponentRunOf(e: Exponent, s: string)
    requires ExponentOk(e) && Stops(s)
    ensures ExponentRun(ExponentText(e) + s) == Len(|ExponentText(e)|)
  {
    hide IsDigits, ExponentRun;
    if e.NoExp? {
      assert ExponentText(e) + s == s;
      NoExponent(s);
    } else {
      assert ExponentText(e) + s == [e.mark] + (e.sign + (e.digits + s));
      ExponentOf(e.mark, e.sign, e.digits, s);
    }
  }

  lemma SignRunOf(sign: string, s: string)
    requires (sign == "" && s != "" && IsDigit(s[0])) || ((sign == "+" || sign == "-") && s != "")
    ensures SignRun(sign + s) == |sign|
  {
    if sign == "" {
      assert sign + s == s;
    }
  }

  function Sign(negative: bool): string { if negative then "-" else "" }

  /** The parts of a number text, each followed by the rest. */
  lemma NumSplit(n: Num, s: string)
    ensures NumText(n) + s == Sign(n.negative) + (n.whole + (FractionText(n.fraction) + (ExponentText(n.exponent) + s)))
  {
    var a, b, c, d := Sign(n.negative), n.whole, FractionText(n.fraction), ExponentText(n.exponent);
    assert (a + b + c + d) + s == a + (b + (c + (d + s)));
  }

  lemma TailRunOf(fraction: string, e: Exponent, s: string)
    requires IsDigits(fraction) && ExponentOk(e) && Stops(s)
    ensures TailRun(FractionText(fraction) + (ExponentText(e) + s)) == Len(|FractionText(fraction)| + |ExponentText(e)|)
  {
    var s1 := ExponentText(e) + s;
    DropPrefix(FractionText(fraction), s1);
    FractionRunOf(fraction, s1);
    ExponentRunOf(e, s);
  }

  lemma UnsignedRunOf(whole: string, s: string)
    requires WholeOk(whole) && (s == "" || !IsDigit(s[0]))
    ensures UnsignedRun(whole + s) == Longer(|whole|, TailRun(s))
  {
    DropPrefix(whole, s);
    WholeRunOf(whole, s);
  }

  lemma NumberRunOf(negative: bool, s: string)
    requires UnsignedRun(s).Len?
    ensures NumberRun(Sign(negative) + s) == Longer(|Sign(negative)|, UnsignedRun(s))
  {
    if negative {
      DropPrefix("-", s);
    } else {
      assert Sign(negative) + s == s;
      assert UnsignedRun(s) == Longer(0, UnsignedRun(s));
    }
  }

  lemma NumberOf(n: Num, s: string)
    requires NumOk(n) && Stops(s)
    ensures NumberAt(NumText(n) + s) == Ok(NumText(n), s)
  {
    NumSplit(n, s);
    var s2 := FractionText(n.fraction) + (ExponentText(n.exponent) + s);
    TailRunOf(n.fraction, n.exponent, s);
    UnsignedRunOf(n.whole, s2);
    NumberRunOf(n.negative, n.whole + s2);
    DropPrefix(NumText(n), s);
  }

  lemma Glue(s: string, i: nat, j: nat)
    requires i + j <= |s|
    ensures s[..i] + s[i..][..j] == s[..i + j]
  {}

  lemma ExponentFrom(s: string) returns (e: Exponent)
    requires ExponentRun(s).Len?
    ensures ExponentOk(e) && ExponentText(e) == s[..ExponentRun(s).n]
  {
    hide DigitRun, IsDigits;
    if ExponentRun(s).n == 0 {
      e := NoExp;
      assert s[..0] == "";
    } else {
      var sign := SignRun(s[1..]);
      var s2 := s[1..][sign..];
      DigitRunFrom(s2);
      e := Exp(s[0], s[1..][..sign], s2[..DigitRun(s2)]);
      Glue(s, 1, sign);
      DropDrop(s, 1, sign);
      Glue(s, 1 + sign, DigitRun(s2));
    }
  }

  lemma FractionFrom(s: string) returns (fraction: string)
    requires FractionRun(s).Len?
    ensures IsDigits(fraction) && FractionText(fraction) == s[..FractionRun(s).n]
  {
    if FractionRun(s).n == 0 {
      fraction := "";
    } else {
      DigitRunFrom(s[1..]);
      fraction := s[1..][..DigitRun(s[1..])];
      Glue(s, 1, DigitRun(s[1..]));
    }
  }

  lemma WholeFrom(s: string)
    requires WholeRun(s) > 0
    ensures WholeOk(s[..WholeRun(s)])
  {
    if s[0] != '0' {
      DigitRunFrom(s[1..]);
      Glue(s, 1, DigitRun(s[1..]));
    }
  }

  lemma TailFrom(s: string) returns (fraction: string, e: Exponent)
    requires TailRun(s).Len?
    ensures IsDigits(fraction) && ExponentOk(e)
    ensures FractionText(fraction) + ExponentText(e) == s[..TailRun(s).n]
  {
    fraction := FractionFrom(s);
    var run := FractionRun(s).n;
    e := ExponentFrom(s[run..]);
    Glue(s, run, ExponentRun(s[run..]).n);
  }

  lemma NumTextIs(n: Num)
    ensures NumText(n) == Sign(n.negative) + (n.whole + (FractionText(n.fraction) + ExponentText(n.exponent)))
  {
    var a, b, c, d := Sign(n.negative), n.whole, FractionText(n.fraction), ExponentText(n.exponent);
    assert a + b + c + d == a + (b + (c + d));
  }

  lemma UnsignedFrom(s: string) returns (n: Num)
    requires UnsignedRun(s).Len?
    ensures NumOk(n) && !n.negative && NumText(n) == s[..UnsignedRun(s).n]
  {
    var whole := WholeRun(s);
    WholeFrom(s);
    var fraction, e := TailFrom(s[whole..]);
    n := Num(false, s[..whole], fraction, e);
    Glue(s, whole, TailRun(s[whole..]).n);
    NumTextIs(n);
  }

  lemma NumberFrom(s: string) returns (n: Num)
    requires NumberAt(s).Ok?
    ensures NumOk(n) && NumText(n) == NumberAt(s).value && s == NumText(n) + NumberAt(s).rest
  {
    hide UnsignedRun, WholeRun, WholeOk, IsDigits, ExponentOk, NumText;
    if StartsWith(s, '-') {
      var n' := UnsignedFrom(s[1..]);
      n := n'.(negative := true);
      NumTextIs(n);
      NumTextIs(n');
      Glue(s, 1, UnsignedRun(s[1..]).n);
    } else {
      n := UnsignedFrom(s);
    }
  }

  // ---- values: every tree is read ----

  /** What can follow a value inside a JSON text. */
  predicate Follows(s: string) {
    s == "" || IsWsChar(s[0]) || s[0] == ',' || s[0] == ']' || s[0] == '}'
  }

  lemma ValueSkipsWs(ws: string, s: string, depth: nat)
    requires IsWs(ws)
    ensures ValueAt(ws + s, depth) == ValueAt(s, depth)
  {
    SkipWsOver(ws, s);
  }

  lemma TextHead(t: Tree)
    requires TreeOk(t)
    ensures Text(t) != "" && !IsWsChar(Text(t)[0])
    ensures Text(t)[0] != ']' && Text(t)[0] != '}'
  {
    if t.NumT? {
      NumTextIs(t.n);
    }
  }

  lemma WsThen(ws: string, s: string)
    requires IsWs(ws) && (s == "" || Follows(s))
    ensures Follows(ws + s)
  {
    if ws == "" {
      assert ws + s == s;
    }
  }

  lemma LiteralOf(literal: string, value: JsonValue, s: string)
    requires literal != ""
    ensures LiteralAt(literal + s, literal, value) == Ok(value, s)
  {
    DropPrefix(literal, s);
  }

  lemma NumHead(n: Num, s: string)
    requires NumOk(n)
    ensures NumText(n) != "" && (NumText(n) + s)[0] == NumText(n)[0]
    ensures NumText(n)[0] == '-' || IsDigit(NumText(n)[0])
  {
    NumTextIs(n);
  }

  lemma NumValueOf(n: Num, s: string, depth: nat)
    requires NumOk(n) && Follows(s)
    ensures ValueAt(NumText(n) + s, depth) == Ok(Number(NumText(n)), s)
  {
    NumHead(n, s);
    NumberOf(n, s);
    NumberDispatch(NumText(n) + s, depth);
  }

  lemma NumberDispatch(s: string, depth: nat)
    requires s != "" && (s[0] == '-' || IsDigit(s[0])) && NumberAt(s).Ok?
    ensures ValueAt(s, depth) == Ok(Number(NumberAt(s).value), NumberAt(s).rest)
  {
    hide NumberAt, StringAt, LiteralAt;
    assert SkipWs(s) == s;
  }

  lemma StringValueOf(items: seq<Item>, s: string, depth: nat)
    requires ItemsOk(items)
    ensures ValueAt(StringText(items) + s, depth) == Ok(String(ItemsString(items)), s)
  {
    StringOf(items, s);
    StringDispatch(StringText(items) + s, depth);
  }

  lemma StringDispatch(s: string, depth: nat)
    requires StringAt(s).Ok?
    ensures ValueAt(s, depth) == Ok(String(StringAt(s).value), StringAt(s).rest)
  {}

  lemma LiteralValueOf(t: Tree, s: string, depth: nat)
    requires t.NullT? || t.TrueT? || t.FalseT?
    ensures ValueAt(Text(t) + s, depth) == Ok(Value(t), s)
  {
    LiteralOf(Text(t), Value(t), s);
    assert (Text(t) + s)[0] == Text(t)[0];
  }

  lemma ScalarOf(t: Tree, s: string, depth: nat)
    requires TreeOk(t) && Follows(s)
    requires t.NullT? || t.TrueT? || t.FalseT? || t.NumT? || t.StrT?
    ensures ValueAt(Text(t) + s, depth) == Ok(Value(t), s)
  {
    match t
    case NumT(n) => NumValueOf(n, s, depth);
    case StrT(items) => StringValueOf(items, s, depth);
    case _ => LiteralValueOf(t, s, depth);
  }

  /** One container is one level: what its brackets hold is read a level deeper. */
  lemma ArrayDispatch(s: string, values: seq<JsonValue>, rest: string, depth: nat)
    requires depth < MAX_DEPTH
    requires !StartsWith(SkipWs(s), ']') && ElemsAt(s, depth + 1) == Ok(values, rest)
    ensures ValueAt("[" + s, depth) == Ok(Array(values), rest)
  {
    DropPrefix("[", s);
    ElemsSkipWs(s, depth + 1);
  }

  lemma ObjectDispatch(s: string, fields: map<string, JsonValue>, rest: string, depth: nat)
    requires depth < MAX_DEPTH
    requires !StartsWith(SkipWs(s), '}') && MembersAt(s, depth + 1, map[]) == Ok(fields, rest)
    ensures ValueAt("{" + s, depth) == Ok(Object(fields), rest)
  {
    DropPrefix("{", s);
    MembersSkipWs(s, depth + 1, map[]);
  }

  lemma EmptyOf(t: Tree, s: string, depth: nat)
    requires TreeOk(t) && (t.EmptyArr? || t.EmptyObj?) && depth < MAX_DEPTH
    ensures ValueAt(Text(t) + s, depth) == Ok(Value(t), s)
  {
    var close := if t.EmptyArr? then "]" else "}";
    assert (Text(t) + s)[1..] == t.ws + (close + s);
    SkipWsTo(t.ws, close + s);
    DropPrefix(close, s);
  }

  lemma {:induction false} ValueOf(t: Tree, s: string, depth: nat)
    requires TreeOk(t) && depth + Depth(t) <= MAX_DEPTH && Follows(s)
    ensures ValueAt(Text(t) + s, depth) == Ok(Value(t), s)
    decreases t, 1
  {
    hide ValueAt;
    match t
    case Arr(_) => ArrOf(t, s, depth);
    case Obj(_) => ObjOf(t, s, depth);
    case EmptyArr(_) => EmptyOf(t, s, depth);
    case EmptyObj(_) => EmptyOf(t, s, depth);
    case _ => ScalarOf(t, s, depth);
  }

  lemma {:induction false} ArrOf(t: Tree, s: string, depth: nat)
    requires t.Arr? && TreeOk(t) && depth + Depth(t) <= MAX_DEPTH
    ensures ValueAt(Text(t) + s, depth) == Ok(Value(t), s)
    decreases t, 0
  {
    hide ValueAt, ElemsAt, SkipWs, StartsWith;
    var inner := ElemsText(t.elems) + "]" + s;
    assert Text(t) + s == "[" + inner;
    ElemsHead(t.elems, "]" + s);
    assert ElemsText(t.elems) + ("]" + s) == inner;
    ElemsOf(t.elems, s, depth + 1);
    ArrayDispatch(inner, ElemsValues(t.elems), s, depth);
  }

  lemma {:induction false} ObjOf(t: Tree, s: string, depth: nat)
    requires t.Obj? && TreeOk(t) && depth + Depth(t) <= MAX_DEPTH
    ensures ValueAt(Text(t) + s, depth) == Ok(Value(t), s)
    decreases t, 0
  {
    hide ValueAt, MembersAt, SkipWs, StartsWith;
    var inner := MembersText(t.members) + "}" + s;
    assert Text(t) + s == "{" + inner;
    MembersHead(t.members, "}" + s);
    assert MembersText(t.members) + ("}" + s) == inner;
    MembersOf(t.members, map[], s, depth + 1);
    ObjectDispatch(inner, MembersMap(t.members, map[]), s, depth);
  }

  lemma ElemsHead(es: Elems, s: string)
    requires ElemsOk(es)
    ensures !StartsWith(SkipWs(ElemsText(es) + s), ']')
  {
    hide Text, TreeOk;
    var rest := es.after + (if es.LastElem? then "" else "," + ElemsText(es.tail)) + s;
    TextHead(es.value);
    assert ElemsText(es) + s == es.before + (Text(es.value) + rest);
    SkipWsTo(es.before, Text(es.value) + rest);
  }

  lemma SkipWsTwice(s: string)
    ensures SkipWs(SkipWs(s)) == SkipWs(s)
  {}

  lemma ElemsSkipWs(s: string, depth: nat)
    ensures ElemsAt(SkipWs(s), depth) == ElemsAt(s, depth)
  {
    SkipWsTwice(s);
  }

  lemma MembersSkipWs(s: string, depth: nat, earlier: map<string, JsonValue>)
    ensures MembersAt(SkipWs(s), depth, earlier) == MembersAt(s, depth, earlier)
  {
    SkipWsTwice(s);
  }

  lemma ElemsStep(text: string, value: JsonValue, s1: string, next: string, depth: nat)
    requires ValueAt(text, depth) == Ok(value, s1) && SkipWs(s1) == next
    ensures StartsWith(next, ']') ==> ElemsAt(text, depth) == Ok([value], next[1..])
    ensures StartsWith(next, ',') && ElemsAt(next[1..], depth).Ok? ==>
      ElemsAt(text, depth) == Ok([value] + ElemsAt(next[1..], depth).value, ElemsAt(next[1..], depth).rest)
  {}

  lemma {:induction false} ElemsOf(es: Elems, s: string, depth: nat)
    requires ElemsOk(es) && depth + ElemsDepth(es) <= MAX_DEPTH
    ensures ElemsAt(ElemsText(es) + "]" + s, depth) == Ok(ElemsValues(es), s)
    decreases es
  {
    hide ElemsAt, ValueAt;
    var more := if es.LastElem? then s else ElemsText(es.tail) + "]" + s;
    var next := (if es.LastElem? then "]" else ",") + more;
    var rest := es.after + next;
    var text := es.before + (Text(es.value) + rest);
    assert ElemsText(es) + "]" + s == text;
    WsThen(es.after, next);
    ValueOf(es.value, rest, depth);
    ValueSkipsWs(es.before, Text(es.value) + rest, depth);
    SkipWsTo(es.after, next);
    assert next[1..] == more;
    if es.MoreElems? {
      ElemsOf(es.tail, s, depth);
    }
    ElemsStep(text, Value(es.value), rest, next, depth);
    if es.LastElem? {
      assert ElemsValues(es) == [Value(es.value)];
    }
  }

  lemma MembersHead(ms: Members, s: string)
    requires MembersOk(ms)
    ensures !StartsWith(SkipWs(MembersText(ms) + s), '}')
  {
    hide Text, TreeOk;
    var rest := (MembersText(ms) + s)[|ms.m.ws1| + 1..];
    assert MembersText(ms) + s == ms.m.ws1 + ("\"" + rest);
    SkipWsTo(ms.m.ws1, "\"" + rest);
  }

  /** The key of a member, up to and including its colon. */
  lemma KeyOf(m: Member, s: string)
    requires ShellOk(m)
    ensures var text := SkipWs(KeyText(m) + s);
      StringAt(text).Ok? && StringAt(text).value == ItemsString(m.key)
      && SkipWs(StringAt(text).rest) == ":" + (m.ws3 + s)
  {
    var colon := ":" + (m.ws3 + s);
    assert KeyText(m) + s == m.ws1 + (StringText(m.key) + (m.ws2 + colon));
    assert StringText(m.key)[0] == '"';
    SkipWsTo(m.ws1, StringText(m.key) + (m.ws2 + colon));
    StringOf(m.key, m.ws2 + colon);
    SkipWsTo(m.ws2, colon);
  }

  /** One member is read, then what follows it. */
  lemma MemberAt(m: Member, next: string, earlier: map<string, JsonValue>, depth: nat)
    requires ShellOk(m) && TreeOk(m.value) && next != "" && (next[0] == '}' || next[0] == ',')
    requires ValueAt(Text(m.value) + (m.ws4 + next), depth) == Ok(Value(m.value), m.ws4 + next)
    ensures var now := earlier[ItemsString(m.key) := Value(m.value)];
      MembersAt(KeyText(m) + (Text(m.value) + (m.ws4 + next)), depth, earlier)
      == if next[0] == '}' then Ok(now, next[1..]) else MembersAt(next[1..], depth, now)
  {
    hide ValueAt, StringAt, KeyText, Text, SkipWs, TreeOk;
    var rest := Text(m.value) + (m.ws4 + next);
    KeyOf(m, rest);
    DropPrefix(":", m.ws3 + rest);
    ValueSkipsWs(m.ws3, rest, depth);
    SkipWsTo(m.ws4, next);
  }

  /** What follows the first member of a list. */
  function After(ms: Members, s: string): string {
    if ms.LastMember? then "}" + s else "," + (MembersText(ms.tail) + "}" + s)
  }

  lemma FirstMember(ms: Members, s: string)
    ensures MembersText(ms) + "}" + s == KeyText(ms.m) + (Text(ms.m.value) + (ms.m.ws4 + After(ms, s)))
  {
    hide KeyText, Text;
    if ms.MoreMembers? {
      Regroup(KeyText(ms.m), Text(ms.m.value), ms.m.ws4, "," + MembersText(ms.tail), s);
      CommaFirst(MembersText(ms.tail), s);
    } else {
      Regroup(KeyText(ms.m), Text(ms.m.value), ms.m.ws4, "", s);
      assert "" + "}" == "}";
    }
  }

  lemma Regroup(a: string, b: string, c: string, d: string, s: string)
    ensures a + b + c + d + "}" + s == a + (b + (c + (d + "}" + s)))
  {}

  lemma CommaFirst(a: string, s: string)
    ensures "," + a + "}" + s == "," + (a + "}" + s)
  {}

  lemma {:induction false} MembersOf(ms: Members, earlier: map<string, JsonValue>, s: string, depth: nat)
    requires MembersOk(ms) && depth + MembersDepth(ms) <= MAX_DEPTH
    ensures MembersAt(MembersText(ms) + "}" + s, depth, earlier) == Ok(MembersMap(ms, earlier), s)
    decreases ms
  {
    hide MembersAt, ValueAt, KeyText, Text, MembersText;
    var m, next := ms.m, After(ms, s);
    FirstMember(ms, s);
    WsThen(m.ws4, next);
    ValueOf(m.value, m.ws4 + next, depth);
    MemberAt(m, next, earlier, depth);
    if ms.MoreMembers? {
      DropPrefix(",", MembersText(ms.tail) + "}" + s);
      MembersOf(ms.tail, earlier[ItemsString(m.key) := Value(m.value)], s, depth);
    } else {
      DropPrefix("}", s);
    }
  }

  // ---- values: everything read is a tree ----

  lemma HeadTail(s: string)
    requires s != ""
    ensures s == [s[0]] + s[1..]
  {}

  lemma {:induction false} ValueFrom(text: string, depth: nat) returns (ws: string, t: Tree)
    requires depth <= MAX_DEPTH && ValueAt(text, depth).Ok?
    ensures IsWs(ws) && TreeOk(t) && depth + Depth(t) <= MAX_DEPTH
    ensures Value(t) == ValueAt(text, depth).value
    ensures text == ws + (Text(t) + ValueAt(text, depth).rest)
    decreases |text|, 2
  {
    hide NumberAt, StringAt, ObjectAt, ArrayAt;
    ws := SkipWsSplit(text);
    var s := SkipWs(text);
    if s[0] == '{' || s[0] == '[' {
      t := ContainerFrom(s, depth);
    } else {
      t := ScalarFrom(s, depth);
    }
  }

  lemma ScalarFrom(s: string, depth: nat) returns (t: Tree)
    requires SkipWs(s) == s && ValueAt(s, depth).Ok? && s[0] != '{' && s[0] != '['
    ensures TreeOk(t) && Depth(t) == 0
    ensures Value(t) == ValueAt(s, depth).value
    ensures s == Text(t) + ValueAt(s, depth).rest
  {
    hide NumberAt, StringAt, ObjectAt, ArrayAt;
    if s[0] == '"' {
      var items := StringFrom(s);
      t := StrT(items);
    } else if s[0] == 'n' {
      t := NullT;
    } else if s[0] == 't' {
      t := TrueT;
    } else if s[0] == 'f' {
      t := FalseT;
    } else {
      var n := NumberFrom(s);
      t := NumT(n);
    }
  }

  lemma {:induction false} ContainerFrom(s: string, depth: nat) returns (t: Tree)
    requires SkipWs(s) == s && depth <= MAX_DEPTH && ValueAt(s, depth).Ok? && (s[0] == '{' || s[0] == '[')
    ensures TreeOk(t) && depth + Depth(t) <= MAX_DEPTH
    ensures Value(t) == ValueAt(s, depth).value
    ensures s == Text(t) + ValueAt(s, depth).rest
    decreases |s|, 1
  {
    hide NumberAt, StringAt, ObjectAt, ArrayAt;
    HeadTail(s);
    if s[0] == '{' {
      t := ObjectFrom(s[1..], depth + 1);
    } else {
      t := ArrayFrom(s[1..], depth + 1);
    }
  }

  lemma {:induction false} ObjectFrom(s: string, depth: nat) returns (t: Tree)
    requires 0 < depth <= MAX_DEPTH && ObjectAt(s, depth).Ok?
    ensures TreeOk(t) && depth - 1 + Depth(t) <= MAX_DEPTH
    ensures Value(t) == Object(ObjectAt(s, depth).value)
    ensures "{" + s == Text(t) + ObjectAt(s, depth).rest
    decreases |s|, 2
  {
    hide MembersAt, SkipWs, MembersText, MembersMap, MembersDepth, MembersOk, IsWs;
    var ws := SkipWsSplit(s);
    var next := SkipWs(s);
    if StartsWith(next, '}') {
      HeadTail(next);
      t := EmptyObj(ws);
      assert "{" + (ws + ("}" + next[1..])) == ("{" + ws + "}") + next[1..];
    } else {
      MembersSkipWs(s, depth, map[]);
      var ms, rest := MembersFrom(s, depth, map[]);
      t := Obj(ms);
      assert "{" + (MembersText(ms) + ("}" + rest)) == ("{" + MembersText(ms) + "}") + rest;
    }
  }

  lemma {:induction false} ArrayFrom(s: string, depth: nat) returns (t: Tree)
    requires 0 < depth <= MAX_DEPTH && ArrayAt(s, depth).Ok?
    ensures TreeOk(t) && depth - 1 + Depth(t) <= MAX_DEPTH
    ensures Value(t) == Array(ArrayAt(s, depth).value)
    ensures "[" + s == Text(t) + ArrayAt(s, depth).rest
    decreases |s|, 4
  {
    hide ElemsAt, SkipWs, ElemsText, ElemsValues, ElemsDepth, ElemsOk, IsWs;
    var ws := SkipWsSplit(s);
    var next := SkipWs(s);
    if StartsWith(next, ']') {
      HeadTail(next);
      t := EmptyArr(ws);
      assert "[" + (ws + ("]" + next[1..])) == ("[" + ws + "]") + next[1..];
    } else {
      ElemsSkipWs(s, depth);
      var es, rest := ElemsFrom(s, depth);
      t := Arr(es);
      assert "[" + (ElemsText(es) + ("]" + rest)) == ("[" + ElemsText(es) + "]") + rest;
    }
  }

  lemma {:induction false} ElemsFrom(text: string, depth: nat) returns (es: Elems, rest: string)
    requires depth <= MAX_DEPTH && ElemsAt(text, depth).Ok?
    ensures ElemsOk(es) && depth + ElemsDepth(es) <= MAX_DEPTH
    ensures ElemsAt(text, depth) == Ok(ElemsValues(es), rest)
    ensures text == ElemsText(es) + ("]" + rest)
    decreases |text|, 3
  {
    hide ValueAt, Text, SkipWs, TreeOk, Value, Depth, IsWs;
    var before, value := ValueFrom(text, depth);
    var s1 := ValueAt(text, depth).rest;
    var after := SkipWsSplit(s1);
    var next := SkipWs(s1);
    HeadTail(next);
    if StartsWith(next, ']') {
      es, rest := LastElem(before, value, after), next[1..];
      assert ElemsValues(es) == [Value(value)];
      ElemTextGlue(before, value, after, "", "]" + rest);
    } else {
      var tail, rest' := ElemsFrom(next[1..], depth);
      es, rest := MoreElems(before, value, after, tail), rest';
      assert "," + (ElemsText(tail) + ("]" + rest)) == ("," + ElemsText(tail)) + ("]" + rest);
      ElemTextGlue(before, value, after, "," + ElemsText(tail), "]" + rest);
    }
  }

  lemma ElemTextGlue(before: string, value: Tree, after: string, more: string, s: string)
    ensures before + (Text(value) + (after + (more + s))) == (before + Text(value) + after + more) + s
  {}

  /** One member, and what `MembersAt` does after it. */
  lemma {:induction false} MemberFrom(text: string, depth: nat, earlier: map<string, JsonValue>) returns (m: Member, next: string)
    requires depth <= MAX_DEPTH && MembersAt(text, depth, earlier).Ok?
    ensures ShellOk(m) && TreeOk(m.value) && depth + Depth(m.value) <= MAX_DEPTH
    ensures text == KeyText(m) + (Text(m.value) + (m.ws4 + next))
    ensures next != "" && |next| <= |text|
    ensures var now := earlier[ItemsString(m.key) := Value(m.value)];
      if next[0] == '}' then MembersAt(text, depth, earlier) == Ok(now, next[1..])
      else next[0] == ',' && MembersAt(text, depth, earlier) == MembersAt(next[1..], depth, now)
    decreases |text|, 0
  {
    hide ValueAt, StringAt;
    var ws1 := SkipWsSplit(text);
    var key := StringFrom(SkipWs(text));
    var s1 := StringAt(SkipWs(text)).rest;
    var ws2 := SkipWsSplit(s1);
    var s2 := SkipWs(s1);
    HeadTail(s2);
    var ws3, value := ValueFrom(s2[1..], depth);
    var s3 := ValueAt(s2[1..], depth).rest;
    var ws4 := SkipWsSplit(s3);
    next := SkipWs(s3);
    m := Member(ws1, key, ws2, ws3, value, ws4);
    KeyTextGlue(m, Text(value) + (ws4 + next));
  }

  lemma KeyTextGlue(m: Member, s: string)
    ensures m.ws1 + (StringText(m.key) + (m.ws2 + (":" + (m.ws3 + s)))) == KeyText(m) + s
  {
    hide StringText;
  }

  lemma MemberTextGlue(m: Member, more: string, s: string)
    ensures KeyText(m) + (Text(m.value) + (m.ws4 + (more + s))) == (KeyText(m) + Text(m.value) + m.ws4 + more) + s
  {
    hide KeyText, Text;
  }

  lemma {:induction false} MembersFrom(text: string, depth: nat, earlier: map<string, JsonValue>) returns (ms: Members, rest: string)
    requires depth <= MAX_DEPTH && MembersAt(text, depth, earlier).Ok?
    ensures MembersOk(ms) && depth + MembersDepth(ms) <= MAX_DEPTH
    ensures MembersAt(text, depth, earlier) == Ok(MembersMap(ms, earlier), rest)
    ensures text == MembersText(ms) + ("}" + rest)
    decreases |text|, 1
  {
    hide MembersAt, KeyText;
    var m, next := MemberFrom(text, depth, earlier);
    HeadTail(next);
    if next[0] == '}' {
      ms, rest := LastMember(m), next[1..];
      MemberTextGlue(m, "", "}" + rest);
    } else {
      var tail, rest' := MembersFrom(next[1..], depth, earlier[ItemsString(m.key) := Value(m.value)]);
      ms, rest := MoreMembers(m, tail), rest';
      assert "," + (MembersText(tail) + ("}" + rest)) == ("," + MembersText(tail)) + ("}" + rest);
      MemberTextGlue(m, "," + MembersText(tail), "}" + rest);
    }
  }

  // ---- the main result ----

  /** The parser accepts `s` with value `v` exactly when the grammar derives `s` with value `v`
      at a nesting of at most `MAX_DEPTH`. */
  lemma ParseExact(s: string, v: JsonValue)
    ensures ParseText(s) == Parses(v) <==> Derives(s, v, MAX_DEPTH)
  {
    hide ValueAt, Text, Value, Depth, TreeOk;
    if ParseText(s) == Parses(v) {
      var before, t := ValueFrom(s, 0);
      var rest := ValueAt(s, 0).rest;
      var after := SkipWsSplit(rest);
      assert s == before + Text(t) + after;
    }
    if Derives(s, v, MAX_DEPTH) {
      var before, t, after :| IsWs(before) && TreeOk(t) && IsWs(after)
        && s == before + Text(t) + after && Value(t) == v && Depth(t) <= MAX_DEPTH;
      assert s == before + (Text(t) + after);
      ValueOf(t, after, 0);
      ValueSkipsWs(before, Text(t) + after, 0);
      SkipWsOver(after, "");
      assert after + "" == after;
    }
  }

  /** A text denotes at most one value. */
  lemma GrammarUnambiguous(s: string, v: JsonValue, w: JsonValue)
    requires Derives(s, v, MAX_DEPTH) && Derives(s, w, MAX_DEPTH)
    ensures v == w
  {
    ParseExact(s, v);
    ParseExact(s, w);
  }
}
