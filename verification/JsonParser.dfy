/** The protocol's JSON parser as it is written: a byte position over UTF-8 text that every
    method advances. Each method is proved against the character-level descent; every slice
    it takes is shown to lie on character boundaries, where `str` slicing cannot panic. */
module JsonParser {
  import opened Prelude
  import opened Utf8
  import opened JsonValues
  import G = JsonGrammar
  import D = JsonDescent
  import X = JsonExactness

  datatype Result<+T> = Success(value: T) | Failure(error: D.ParseError)

  /** The width a first byte announces, as the original's table gives it. */
  function Utf8Width(first: byte): Option<nat> {
    if first <= 0x7f then Some(1)
    else if 0xc2 <= first <= 0xdf then Some(2)
    else if 0xe0 <= first <= 0xef then Some(3)
    else if 0xf0 <= first <= 0xf4 then Some(4)
    else None
  }

  predicate IsAscii(s: string) {
    forall i | 0 <= i < |s| :: s[i] as int < 0x80
  }

  lemma {:induction false} AsciiLength(s: string)
    requires IsAscii(s)
    ensures |Encode(s)| == |s|
  {
    if s != "" {
      AsciiLength(s[1..]);
    }
  }

  /** The state of a string literal: what was read already goes before what is still read. */
  function Onto(done: string, r: D.Parsed<string>): D.Parsed<string> {
    if r.Ok? then D.Ok(done + r.value, r.rest) else r
  }

  class JsonParser {
    const input: string
    const bytes: seq<byte>
    var position: nat
    ghost var cursor: nat

    /** The byte position is the boundary before character `cursor`. */
    ghost predicate Valid()
      reads this
    {
      bytes == Encode(input) && cursor <= |input| && position == Offset(input, cursor)
    }

    /** One byte of a multi-byte character has been taken. */
    ghost predicate MidChar()
      reads this
    {
      bytes == Encode(input) && cursor < |input| && position == Offset(input, cursor) + 1
    }

    /** The characters not read yet. */
    ghost function Rest(): string
      reads this
      requires cursor <= |input|
    {
      input[cursor..]
    }

    ghost predicate Matches<T>(expected: D.Parsed<T>, r: Result<T>)
      reads this
    {
      match expected
      case Ok(value, rest) => r == Success(value) && Valid() && Rest() == rest
      case Err(e) => r == Failure(e)
    }

    constructor (input: string)
      ensures Valid() && Rest() == input && this.input == input
    {
      this.input, this.bytes := input, Encode(input);
      this.position, this.cursor := 0, 0;
    }

    // ---- bytes ----

    function Peek(): Option<byte>
      reads this
    {
      if position < |bytes| then Some(bytes[position]) else None
    }

    /** What the next byte says about the next character. */
    lemma PeekIsFirstByte()
      requires Valid()
      ensures Peek().None? <==> Rest() == ""
      ensures Rest() != "" ==> Peek() == Some(EncodeChar(Rest()[0])[0]) && Rest()[1..] == input[cursor + 1..]
      ensures Rest() != "" ==> Offset(input, cursor + 1) == position + Width(Rest()[0]) <= |bytes|
    {
      hide Encode, EncodeChar, Width;
      OffsetAtEnd(input, cursor);
      if cursor < |input| {
        SplitAt(input, cursor);
        OffsetAtEnd(input, cursor + 1);
        FirstOfMiddle(Encode(input[..cursor]), EncodeChar(input[cursor]), Encode(input[cursor + 1..]));
      }
    }

    /** A byte below 0x80 is a whole character; any other byte starts a longer one. */
    predicate PeekIs(c: char)
      reads this
    {
      Peek() == Some(c as int % 256)
    }

    lemma PeekAscii(c: char)
      requires Valid() && c as int < 0x80
      ensures PeekIs(c) <==> D.StartsWith(Rest(), c)
    {
      PeekIsFirstByte();
    }

    /** `next`: one byte; a character only when that byte is ASCII. */
    method Next() returns (r: Option<byte>)
      requires Valid()
      modifies this
      ensures r == old(Peek()) && (r.None? <==> old(Rest()) == "")
      ensures r.None? ==> Valid() && Rest() == old(Rest())
      ensures r.Some? ==> r.value == EncodeChar(old(Rest())[0])[0]
      ensures r.Some? && r.value < 0x80 ==> Valid() && Rest() == old(Rest())[1..] && r.value == old(Rest())[0] as int
      ensures r.Some? && r.value >= 0x80 ==> MidChar() && cursor == old(cursor) && old(Rest())[0] as int >= 0x80
    {
      PeekIsFirstByte();
      r := Peek();
      if r.Some? {
        position := position + 1;
        if r.value < 0x80 {
          cursor := cursor + 1;
        }
      }
    }

    method ConsumeIf(c: char) returns (taken: bool)
      requires Valid() && c as int < 0x80
      modifies this
      ensures Valid() && taken == D.StartsWith(old(Rest()), c)
      ensures Rest() == if taken then old(Rest())[1..] else old(Rest())
    {
      PeekAscii(c);
      taken := PeekIs(c);
      if taken {
        PeekIsFirstByte();
        position, cursor := position + 1, cursor + 1;
      }
    }

    method Expect(c: char) returns (ok: bool)
      requires Valid() && c as int < 0x80
      modifies this
      ensures ok == D.StartsWith(old(Rest()), c)
      ensures ok ==> Valid() && Rest() == old(Rest())[1..]
    {
      var b := Next();
      ok := b == Some(c as int);
    }

    method SkipWhitespace()
      requires Valid()
      modifies this
      ensures Valid() && Rest() == D.SkipWs(old(Rest()))
    {
      PeekWs();
      while PeekIs(' ') || PeekIs('\n') || PeekIs('\r') || PeekIs('\t')
        invariant Valid() && D.SkipWs(Rest()) == D.SkipWs(old(Rest()))
        invariant (PeekIs(' ') || PeekIs('\n') || PeekIs('\r') || PeekIs('\t')) <==> Rest() != "" && G.IsWsChar(Rest()[0])
        decreases |input| - cursor
      {
        PeekIsFirstByte();
        position, cursor := position + 1, cursor + 1;
        PeekWs();
      }
    }

    lemma PeekWs()
      requires Valid()
      ensures (PeekIs(' ') || PeekIs('\n') || PeekIs('\r') || PeekIs('\t')) <==> Rest() != "" && G.IsWsChar(Rest()[0])
    {
      PeekAscii(' ');
      PeekAscii('\n');
      PeekAscii('\r');
      PeekAscii('\t');
    }

    // ---- strings ----

    /** `Next` has just taken `first`, the first byte of character `c`. */
    ghost predicate Taken(first: byte, c: char)
      reads this
    {
      && first == EncodeChar(c)[0]
      && (first < 0x80 ==> Valid())
      && (first >= 0x80 ==> MidChar() && input[cursor] == c)
    }

    method DecodeUtf8At(first: byte, ghost c: char) returns (r: Result<char>)
      requires Taken(first, c)
      modifies this
      ensures Valid() && r == Success(c)
      ensures cursor == old(cursor) + (if first < 0x80 then 0 else 1)
    {
      var width := Utf8Width(first);
      if width.None? {
        return Failure(D.InvalidUtf8Byte);
      }
      if width.value == 1 {
        return Success(first as char);
      }
      CharBounds(input, cursor);
      var start := position - 1;
      var end := start + width.value;
      if end > |bytes| {
        return Failure(D.TruncatedUtf8);
      }
      position := end;
      var slice := Slice(input, start, end);
      if slice == "" {
        return Failure(D.InvalidUtf8Sequence);
      }
      r := Success(slice[0]);
      cursor := cursor + 1;
    }

    method NextHexDigit() returns (r: Result<nat>)
      requires Valid()
      modifies this
      ensures old(Rest()) == "" ==> r == Failure(D.UnterminatedUnicode)
      ensures old(Rest()) != "" && !G.IsHex(old(Rest())[0]) ==> r == Failure(D.BadHexDigit)
      ensures old(Rest()) != "" && G.IsHex(old(Rest())[0]) ==>
        r == Success(G.HexVal(old(Rest())[0])) && Valid() && Rest() == old(Rest())[1..]
    {
      var b := Next();
      if b.None? {
        return Failure(D.UnterminatedUnicode);
      }
      var digit := HexDigit(b.value);
      if digit.None? {
        return Failure(D.BadHexDigit);
      }
      r := Success(digit.value);
    }

    method ParseCodeUnit() returns (r: Result<nat>)
      requires Valid()
      modifies this
      ensures Matches(D.CodeUnit(old(Rest()), 4, 0), r)
    {
      hide Encode, Offset, G.IsHex, G.HexVal;
      var value := 0;
      for i := 0 to 4
        invariant Valid()
        invariant value < (if i == 0 then 1 else if i == 1 then 16 else if i == 2 then 256 else if i == 3 then 4096 else 65536)
        invariant var left: nat := 4 - i; D.CodeUnit(Rest(), left, value) == D.CodeUnit(old(Rest()), 4, 0)
      {
        var digit := NextHexDigit();
        if digit.Failure? {
          return Failure(digit.error);
        }
        value := value * 16 + digit.value;
      }
      r := Success(value);
    }

    method ParseUnicodeEscape() returns (r: Result<char>)
      requires Valid()
      modifies this
      ensures Matches(D.UnicodeEscape(old(Rest())), r)
    {
      hide D.CodeUnit, Encode, Offset, EncodeChar;
      var first := ParseCodeUnit();
      if first.Failure? {
        return Failure(first.error);
      }
      var value := first.value;
      if 0xd800 <= value <= 0xdbff {
        var backslash := Expect('\\');
        if !backslash {
          return Failure(D.UnpairedHighSurrogate);
        }
        var u := Expect('u');
        if !u {
          return Failure(D.UnpairedHighSurrogate);
        }
        var second := ParseCodeUnit();
        if second.Failure? {
          return Failure(second.error);
        }
        if !(0xdc00 <= second.value <= 0xdfff) {
          return Failure(D.UnpairedHighSurrogate);
        }
        value := 0x1_0000 + (value - 0xd800) * 0x400 + (second.value - 0xdc00);
      } else if 0xdc00 <= value <= 0xdfff {
        return Failure(D.UnpairedLowSurrogate);
      }
      if 0xd800 <= value <= 0xdfff || value > 0x10_ffff {
        return Failure(D.InvalidScalar);
      }
      r := Success(value as char);
    }

    method ParseEscape() returns (r: Result<char>)
      requires Valid()
      modifies this
      ensures Matches(D.Escape(old(Rest())), r)
    {
      var b := Next();
      match b
      case None => r := Failure(D.UnterminatedEscape);
      case Some(byte) =>
        if byte == '"' as int { r := Success('"'); }
        else if byte == '\\' as int { r := Success('\\'); }
        else if byte == '/' as int { r := Success('/'); }
        else if byte == 'b' as int { r := Success(8 as char); }
        else if byte == 'f' as int { r := Success(12 as char); }
        else if byte == 'n' as int { r := Success('\n'); }
        else if byte == 'r' as int { r := Success('\r'); }
        else if byte == 't' as int { r := Success('\t'); }
        else if byte == 'u' as int { r := ParseUnicodeEscape(); }
        else { r := Failure(D.BadEscape); }
    }

    method ParseString() returns (r: Result<string>)
      requires Valid()
      modifies this
      ensures Matches(D.StringAt(old(Rest())), r)
    {
      hide D.Escape, Encode, EncodeChar, Offset;
      var quote := Expect('"');
      if !quote {
        return Failure(D.ExpectedByte);
      }
      var output := "";
      ghost var body := Rest();
      OntoNothing(D.Body(body));
      while true
        invariant Valid() && Onto(output, D.Body(Rest())) == D.Body(body)
        decreases |Rest()|
      {
        ghost var before := Rest();
        var b := Next();
        if b.None? {
          return Failure(D.UnterminatedString);
        }
        if b.value == '"' as int {
          assert output + "" == output;
          return Success(output);
        }
        var c: Result<char>;
        if b.value == '\\' as int {
          c := ParseEscape();
        } else if b.value < 0x20 {
          return Failure(D.ControlByte);
        } else {
          c := DecodeUtf8At(b.value, before[0]);
          assert Rest() == before[1..];
        }
        if c.Failure? {
          return Failure(c.error);
        }
        OntoStep(output, c.value, D.Body(Rest()));
        output := output + [c.value];
      }
    }

    // ---- numbers ----

    function PeekDigit(): bool
      reads this
    {
      Peek().Some? && '0' as int <= Peek().value <= '9' as int
    }

    lemma PeekDigitIs()
      requires Valid()
      ensures PeekDigit() <==> Rest() != "" && G.IsDigit(Rest()[0])
    {
      PeekIsFirstByte();
    }

    /** Over one ASCII character that was just peeked. */
    method Step()
      requires Valid() && Rest() != "" && Rest()[0] as int < 0x80
      modifies this
      ensures Valid() && cursor == old(cursor) + 1 && Rest() == old(Rest())[1..]
    {
      PeekIsFirstByte();
      position, cursor := position + 1, cursor + 1;
    }

    method SkipDigits()
      requires Valid()
      modifies this
      ensures Valid() && cursor == old(cursor) + D.DigitRun(old(Rest()))
      ensures Rest() == old(Rest())[D.DigitRun(old(Rest()))..]
    {
      PeekDigitIs();
      while PeekDigit()
        invariant Valid() && old(cursor) <= cursor
        invariant PeekDigit() <==> Rest() != "" && G.IsDigit(Rest()[0])
        invariant cursor + D.DigitRun(Rest()) == old(cursor) + D.DigitRun(old(Rest()))
        decreases |input| - cursor
      {
        Step();
        PeekDigitIs();
      }
    }

    method ParseNumber() returns (r: Result<string>)
      requires Valid()
      modifies this
      ensures Matches(D.NumberAt(old(Rest())), r)
    {
      hide D.NumberAt, Encode, Offset, EncodeChar, IsBoundary, Index;
      var start := position;
      ghost var from := cursor;
      AtOffset();
      var parts := PassNumber();
      if parts.Failure? {
        return Failure(parts.error);
      }
      r := Success(TextBetween(start, from));
    }

    lemma AtOffset()
      requires Valid()
      ensures position == Offset(input, cursor)
    {}

    /** Moves past a number. */
    method PassNumber() returns (r: Result<()>)
      requires Valid()
      modifies this
      ensures r.Success? ==> Valid() && old(cursor) <= cursor && D.NumberAt(old(Rest())) == D.Ok(input[old(cursor)..cursor], Rest())
      ensures r.Failure? ==> D.NumberAt(old(Rest())) == D.Err(r.error)
    {
      hide D.NumberAt, D.WholeRun, D.FractionRun, D.ExponentRun, Encode, Offset, EncodeChar, IsBoundary, Index;
      ghost var from := cursor;
      var minus := ConsumeIf('-');
      ghost var c1 := cursor;
      NumberPasses(input, from, c1);
      var whole := ParseWhole(minus);
      if whole.Failure? {
        return Failure(whole.error);
      }
      var fraction := ParseFraction();
      if fraction.Failure? {
        return Failure(fraction.error);
      }
      var exponent := ParseExponent();
      if exponent.Failure? {
        return Failure(exponent.error);
      }
      r := Success(());
    }

    /** What has been read since character `from`, sliced out by byte offsets. */
    function TextBetween(start: nat, ghost from: nat): (r: string)
      reads this
      requires Valid() && from <= cursor && start == Offset(input, from)
      ensures r == input[from..cursor]
    {
      OffsetIsBoundary(input, from);
      OffsetIsBoundary(input, cursor);
      Slice(input, start, position)
    }

    /** The integer part, required. */
    method ParseWhole(minus: bool) returns (r: Result<()>)
      requires Valid()
      modifies this
      ensures r.Success? ==> Valid() && cursor == old(cursor) + D.WholeRun(old(Rest())) && D.WholeRun(old(Rest())) > 0
      ensures r.Failure? ==> D.WholeRun(old(Rest())) == 0 && r.error == (if minus then D.NoDigitAfterMinus else D.NoNumber)
    {
      PeekDigitIs();
      if minus && !PeekDigit() {
        return Failure(D.NoDigitAfterMinus);
      }
      PeekAscii('0');
      if PeekIs('0') {
        Step();
      } else if PeekDigit() {
        Step();
        SkipDigits();
      } else {
        return Failure(D.NoNumber);
      }
      r := Success(());
    }

    method ParseFraction() returns (r: Result<()>)
      requires Valid()
      modifies this
      ensures r.Success? ==> Valid() && D.FractionRun(old(Rest())).Len? && cursor == old(cursor) + D.FractionRun(old(Rest())).n
      ensures r.Failure? ==> D.FractionRun(old(Rest())) == D.Bad(r.error)
    {
      var point := ConsumeIf('.');
      if point {
        PeekDigitIs();
        if !PeekDigit() {
          return Failure(D.NoFractionDigit);
        }
        SkipDigits();
      }
      r := Success(());
    }

    method ParseExponent() returns (r: Result<()>)
      requires Valid()
      modifies this
      ensures r.Success? ==> Valid() && D.ExponentRun(old(Rest())).Len? && cursor == old(cursor) + D.ExponentRun(old(Rest())).n
      ensures r.Failure? ==> D.ExponentRun(old(Rest())) == D.Bad(r.error)
    {
      PeekAscii('e');
      PeekAscii('E');
      if PeekIs('e') || PeekIs('E') {
        Step();
        PeekAscii('+');
        PeekAscii('-');
        if PeekIs('+') || PeekIs('-') {
          Step();
        }
        PeekDigitIs();
        if !PeekDigit() {
          return Failure(D.NoExponentDigit);
        }
        SkipDigits();
      }
      r := Success(());
    }

    // ---- values ----

    method ParseLiteral(literal: string, value: JsonValue) returns (r: Result<JsonValue>)
      requires Valid() && literal != "" && IsAscii(literal)
      modifies this
      ensures Matches(D.LiteralAt(old(Rest()), literal, value), r)
    {
      if literal <= TextAfter() {
        AsciiAhead(input, cursor, literal);
        position, cursor := position + |literal|, cursor + |literal|;
        r := Success(value);
      } else {
        r := Failure(D.ExpectedLiteral);
      }
    }

    /** The unread text, sliced out by byte offset. */
    function TextAfter(): (r: string)
      reads this
      requires Valid()
      ensures r == Rest()
    {
      OffsetIsBoundary(input, cursor);
      OffsetIsBoundary(input, |input|);
      OffsetAtEnd(input, |input|);
      Slice(input, position, |bytes|)
    }

    method ParseValue(depth: nat) returns (r: Result<JsonValue>)
      requires Valid()
      modifies this
      ensures Matches(D.ValueAt(old(Rest()), depth), r)
      decreases |Rest()|, 2
    {
      hide D.NumberAt, D.StringAt, D.ObjectAt, D.ArrayAt, D.SkipWs, D.LiteralAt, Offset, Encode;
      SkipWhitespace();
      PeekIsFirstByte();
      var b := Peek();
      if b.None? {
        r := Failure(D.UnexpectedEnd);
      } else if b.value == 'n' as int {
        r := ParseLiteral("null", Null);
      } else if b.value == 't' as int {
        r := ParseLiteral("true", Bool(true));
      } else if b.value == 'f' as int {
        r := ParseLiteral("false", Bool(false));
      } else if b.value == '"' as int {
        var s := ParseString();
        r := if s.Success? then Success(String(s.value)) else Failure(s.error);
      } else if b.value == '{' as int {
        if depth >= D.MAX_DEPTH {
          return Failure(D.TooDeep);
        }
        var o := ParseObject(depth + 1);
        r := if o.Success? then Success(Object(o.value)) else Failure(o.error);
      } else if b.value == '[' as int {
        if depth >= D.MAX_DEPTH {
          return Failure(D.TooDeep);
        }
        var a := ParseArray(depth + 1);
        r := if a.Success? then Success(Array(a.value)) else Failure(a.error);
      } else if b.value == '-' as int || '0' as int <= b.value <= '9' as int {
        var n := ParseNumber();
        r := if n.Success? then Success(Number(n.value)) else Failure(n.error);
      } else {
        r := Failure(D.UnexpectedByte);
      }
    }

    method ParseObject(depth: nat) returns (r: Result<map<string, JsonValue>>)
      requires Valid() && D.StartsWith(Rest(), '{')
      modifies this
      ensures Matches(D.ObjectAt(old(Rest())[1..], depth), r)
      decreases |Rest()|, 1
    {
      hide D.ValueAt, D.StringAt, D.SkipWs, Offset, Encode, EncodeChar;
      var open := Expect('{');
      if !open {
        return Failure(D.ExpectedByte);
      }
      SkipWhitespace();
      var fields := map[];
      var empty := ConsumeIf('}');
      if empty {
        return Success(fields);
      }
      ghost var first := Rest();
      while true
        invariant Valid() && |Rest()| < |old(Rest())|
        invariant D.MembersAt(Rest(), depth, fields) == D.MembersAt(first, depth, map[])
        decreases |Rest()|
      {
        SkipWhitespace();
        var key := ParseString();
        if key.Failure? {
          return Failure(key.error);
        }
        SkipWhitespace();
        var colon := Expect(':');
        if !colon {
          return Failure(D.ExpectedByte);
        }
        var value := ParseValue(depth);
        if value.Failure? {
          return Failure(value.error);
        }
        fields := fields[key.value := value.value];
        SkipWhitespace();
        var close := ConsumeIf('}');
        if close {
          return Success(fields);
        }
        var comma := Expect(',');
        if !comma {
          return Failure(D.ExpectedByte);
        }
      }
    }

    method ParseArray(depth: nat) returns (r: Result<seq<JsonValue>>)
      requires Valid() && D.StartsWith(Rest(), '[')
      modifies this
      ensures Matches(D.ArrayAt(old(Rest())[1..], depth), r)
      decreases |Rest()|, 1
    {
      var open := Expect('[');
      if !open {
        return Failure(D.ExpectedByte);
      }
      hide D.ValueAt;
      SkipWhitespace();
      var values := [];
      var empty := ConsumeIf(']');
      if empty {
        return Success(values);
      }
      ghost var first := Rest();
      BeforeNothing(D.ElemsAt(first, depth));
      while true
        invariant Valid() && |Rest()| < |old(Rest())|
        invariant Before(values, D.ElemsAt(Rest(), depth)) == D.ElemsAt(first, depth)
        decreases |Rest()|
      {
        ghost var done, from := values, Rest();
        var value := ParseValue(depth);
        if value.Failure? {
          return Failure(value.error);
        }
        values := values + [value.value];
        SkipWhitespace();
        var close := ConsumeIf(']');
        if close {
          return Success(values);
        }
        var comma := Expect(',');
        if !comma {
          return Failure(D.ExpectedByte);
        }
        BeforeStep(done, value.value, D.ElemsAt(Rest(), depth));
      }
    }
  }

  function HexDigit(b: byte): Option<nat> {
    if '0' as int <= b <= '9' as int then Some(b - '0' as int)
    else if 'a' as int <= b <= 'f' as int then Some(b - 'a' as int + 10)
    else if 'A' as int <= b <= 'F' as int then Some(b - 'A' as int + 10)
    else None
  }

  /** The same for array elements. */
  function Before(done: seq<JsonValue>, r: D.Parsed<seq<JsonValue>>): D.Parsed<seq<JsonValue>> {
    if r.Ok? then D.Ok(done + r.value, r.rest) else r
  }

  /** One character as a byte range: in bounds, on boundaries, and sliced out whole. */
  lemma CharBounds(s: string, k: nat)
    requires k < |s|
    ensures Offset(s, k + 1) == Offset(s, k) + Width(s[k]) <= |Encode(s)|
    ensures IsBoundary(s, Offset(s, k)) && IsBoundary(s, Offset(s, k + 1))
    ensures Index(s, Offset(s, k)) == k && Index(s, Offset(s, k + 1)) == k + 1
  {
    hide Encode, EncodeChar, Offset, IsBoundary, Index, Width;
    SplitAt(s, k);
    OffsetAtEnd(s, k + 1);
    OffsetIsBoundary(s, k);
    OffsetIsBoundary(s, k + 1);
  }

  function Then(v: JsonValue, r: D.Parsed<seq<JsonValue>>): D.Parsed<seq<JsonValue>> {
    if r.Ok? then D.Ok([v] + r.value, r.rest) else r
  }

  lemma BeforeNothing(r: D.Parsed<seq<JsonValue>>)
    ensures Before([], r) == r
  {
    if r.Ok? {
      assert [] + r.value == r.value;
    }
  }

  lemma BeforeStep(done: seq<JsonValue>, v: JsonValue, r: D.Parsed<seq<JsonValue>>)
    ensures Before(done + [v], r) == Before(done, Then(v, r))
  {
    if r.Ok? {
      assert done + [v] + r.value == done + ([v] + r.value);
    }
  }

  lemma AsciiAhead(s: string, k: nat, literal: string)
    requires k <= |s| && literal <= s[k..] && IsAscii(literal)
    ensures k + |literal| <= |s| && Offset(s, k + |literal|) == Offset(s, k) + |literal|
  {
    assert s[..k + |literal|] == s[..k] + literal;
    EncodeAppend(s[..k], literal);
    AsciiLength(literal);
  }

  lemma FirstOfMiddle(a: seq<byte>, b: seq<byte>, c: seq<byte>)
    requires b != []
    ensures (a + b + c)[|a|] == b[0]
  {}

  lemma TailOfTail(s: string, from: nat, n: nat)
    requires from + n <= |s|
    ensures s[from..][n..] == s[from + n..] && s[from..][..n] == s[from..from + n]
  {}

  /** A number that starts at one index of the input and, after an optional sign, at the next. */
  lemma NumberPasses(input: string, from: nat, c1: nat)
    requires from <= c1 <= |input| && c1 == from + (if D.StartsWith(input[from..], '-') then 1 else 0)
    ensures D.WholeRun(input[c1..]) == 0 ==>
      D.NumberAt(input[from..]) == D.Err(if D.StartsWith(input[from..], '-') then D.NoDigitAfterMinus else D.NoNumber)
    ensures D.WholeRun(input[c1..]) > 0 ==>
      var c2 := c1 + D.WholeRun(input[c1..]);
      c2 <= |input|
      && var f := D.FractionRun(input[c2..]);
      if f.Bad? then D.NumberAt(input[from..]) == D.Err(f.error)
      else
        var c3 := c2 + f.n;
        c3 <= |input|
        && var e := D.ExponentRun(input[c3..]);
        if e.Bad? then D.NumberAt(input[from..]) == D.Err(e.error)
        else c3 + e.n <= |input| && D.NumberAt(input[from..]) == D.Ok(input[from..c3 + e.n], input[c3 + e.n..])
  {
    hide D.WholeRun, D.FractionRun, D.ExponentRun, D.NumberAt;
    var s, s1 := input[from..], input[c1..];
    TailOfTail(input, from, c1 - from);
    NumberStarts(s, s1);
    if D.WholeRun(s1) > 0 {
      var c2 := c1 + D.WholeRun(s1);
      TailOfTail(input, c1, D.WholeRun(s1));
      var f := D.FractionRun(input[c2..]);
      if f.Len? {
        TailOfTail(input, c2, f.n);
        var e := D.ExponentRun(input[c2 + f.n..]);
        if e.Len? {
          TailOfTail(input, from, c2 + f.n + e.n - from);
        }
      }
    }
  }

  /** A number is its optional minus and three runs, each starting where the last one ended. */
  lemma NumberStarts(s: string, s1: string)
    requires s1 == if D.StartsWith(s, '-') then s[1..] else s
    ensures D.WholeRun(s1) == 0 ==>
      D.NumberAt(s) == D.Err(if D.StartsWith(s, '-') then D.NoDigitAfterMinus else D.NoNumber)
    ensures D.WholeRun(s1) > 0 ==>
      var s2 := s1[D.WholeRun(s1)..];
      var f := D.FractionRun(s2);
      if f.Bad? then D.NumberAt(s) == D.Err(f.error)
      else
        var e := D.ExponentRun(s2[f.n..]);
        if e.Bad? then D.NumberAt(s) == D.Err(e.error)
        else
          var n := |s| - |s1| + D.WholeRun(s1) + f.n + e.n;
          n <= |s| && D.NumberAt(s) == D.Ok(s[..n], s[n..])
  {
    hide D.WholeRun, D.FractionRun, D.ExponentRun;
  }

  lemma OntoNothing(r: D.Parsed<string>)
    ensures Onto("", r) == r
  {
    if r.Ok? {
      assert "" + r.value == r.value;
    }
  }

  lemma OntoStep(done: string, c: char, r: D.Parsed<string>)
    ensures Onto(done + [c], r) == Onto(done, D.Prepend(c, r))
  {
    if r.Ok? {
      assert done + [c] + r.value == done + ([c] + r.value);
    }
  }

  /** `parse_json`: one value, optional whitespace, and nothing else. */
  method ParseJson(input: string) returns (r: D.Outcome)
    ensures r == D.ParseText(input)
  {
    hide D.ValueAt;
    var parser := new JsonParser(input);
    var value := parser.ParseValue(0);
    if value.Failure? {
      return D.Fails(value.error);
    }
    parser.SkipWhitespace();
    OffsetAtEnd(input, parser.cursor);
    r := if parser.position == |parser.bytes| then D.Parses(value.value) else D.Fails(D.TrailingData);
  }

  /** What a caller of `parse_json` gets: the value the grammar assigns, or an error that is
      never one of the byte-level ones, exactly when the grammar assigns none. */
  method ParseJsonByGrammar(input: string) returns (r: D.Outcome)
    ensures forall v :: r == D.Parses(v) <==> G.Derives(input, v, D.MAX_DEPTH)
    ensures r.Fails? ==> !D.ImpossibleError(r.error)
  {
    r := ParseJson(input);
    forall v ensures r == D.Parses(v) <==> G.Derives(input, v, D.MAX_DEPTH) {
      X.ParseExact(input, v);
    }
  }
}
