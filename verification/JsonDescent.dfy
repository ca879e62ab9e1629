/** The recursive descent of the protocol's JSON parser on character sequences: each function
    takes the unread text and returns a value with the text after it, or an error. The parser
    class refines these functions on UTF-8 bytes; the grammar proofs are about them. */
module JsonDescent {
  import opened Prelude
  import opened JsonValues
  import opened JsonGrammar

  const MAX_DEPTH: nat := 128

  /** The last four are errors the byte-level code can raise but, on valid UTF-8, never does. */
  datatype ParseError =
    | ExpectedLiteral | UnexpectedByte | UnexpectedEnd | TooDeep | ExpectedByte | TrailingData
    | ControlByte | UnterminatedString | BadEscape | UnterminatedEscape
    | UnpairedHighSurrogate | UnpairedLowSurrogate | UnterminatedUnicode | BadHexDigit
    | NoDigitAfterMinus | NoNumber | NoFractionDigit | NoExponentDigit
    | InvalidScalar | InvalidUtf8Byte | TruncatedUtf8 | InvalidUtf8Sequence

  predicate ImpossibleError(e: ParseError) {
    e.InvalidScalar? || e.InvalidUtf8Byte? || e.TruncatedUtf8? || e.InvalidUtf8Sequence?
  }

  datatype Parsed<+T> = Ok(value: T, rest: string) | Err(error: ParseError)

  function SkipWs(s: string): (r: string)
    ensures |r| <= |s|
    ensures r != "" ==> !IsWsChar(r[0])
  {
    if s != "" && IsWsChar(s[0]) then SkipWs(s[1..]) else s
  }

  predicate StartsWith(s: string, c: char) {
    s != "" && s[0] == c
  }

  // ---- strings ----

  function CodeUnit(s: string, digits: nat, value: nat): (r: Parsed<nat>)
    requires digits <= 4 && value < (if digits == 4 then 1 else if digits == 3 then 16
                                     else if digits == 2 then 256 else if digits == 1 then 4096 else 65536)
    ensures r.Ok? ==> r.value < 0x1_0000 && |r.rest| + digits == |s|
    ensures r.Err? ==> !ImpossibleError(r.error)
    decreases digits
  {
    if digits == 0 then Ok(value, s)
    else if s == "" then Err(UnterminatedUnicode)
    else if !IsHex(s[0]) then Err(BadHexDigit)
    else CodeUnit(s[1..], digits - 1, value * 16 + HexVal(s[0]))
  }

  function UnicodeEscape(s: string): (r: Parsed<char>)
    ensures r.Ok? ==> |r.rest| < |s|
    ensures r.Err? ==> !ImpossibleError(r.error)
  {
    match CodeUnit(s, 4, 0)
    case Err(e) => Err(e)
    case Ok(first, s1) =>
      if IsHigh(first) then
        if !StartsWith(s1, '\\') || !StartsWith(s1[1..], 'u') then Err(UnpairedHighSurrogate)
        else
          match CodeUnit(s1[2..], 4, 0) {
            case Err(e) => Err(e)
            case Ok(second, s2) =>
              if !IsLow(second) then Err(UnpairedHighSurrogate)
              else Ok((0x1_0000 + (first - 0xd800) * 0x400 + (second - 0xdc00)) as char, s2)
          }
      else if IsLow(first) then Err(UnpairedLowSurrogate)
      else Ok(first as char, s1)
  }

  function Escape(s: string): (r: Parsed<char>)
    ensures r.Ok? ==> |r.rest| < |s|
    ensures r.Err? ==> !ImpossibleError(r.error)
  {
    if s == "" then Err(UnterminatedEscape)
    else if IsShort(s[0]) then Ok(ShortChar(s[0]), s[1..])
    else if s[0] == 'u' then UnicodeEscape(s[1..])
    else Err(BadEscape)
  }

  /** The characters up to the closing quote. */
  function Body(s: string): (r: Parsed<string>)
    ensures r.Ok? ==> |r.rest| < |s|
    ensures r.Err? ==> !ImpossibleError(r.error)
    decreases |s|
  {
    if s == "" then Err(UnterminatedString)
    else if s[0] == '"' then Ok("", s[1..])
    else if s[0] == '\\' then
      match Escape(s[1..]) {
        case Err(e) => Err(e)
        case Ok(c, s1) => Prepend(c, Body(s1))
      }
    else if s[0] as int < 0x20 then Err(ControlByte)
    else Prepend(s[0], Body(s[1..]))
  }

  function Prepend(c: char, r: Parsed<string>): Parsed<string> {
    if r.Ok? then Ok([c] + r.value, r.rest) else r
  }

  function StringAt(s: string): (r: Parsed<string>)
    ensures r.Ok? ==> |r.rest| < |s|
    ensures r.Err? ==> !ImpossibleError(r.error)
  {
    if StartsWith(s, '"') then Body(s[1..]) else Err(ExpectedByte)
  }

  // ---- numbers: how many characters each part takes ----

  function DigitRun(s: string): (n: nat)
    ensures n <= |s|
  {
    if s != "" && IsDigit(s[0]) then 1 + DigitRun(s[1..]) else 0
  }

  /** The integer part at the start of `s`, or 0 where there is none. */
  function WholeRun(s: string): (n: nat)
    ensures n <= |s|
  {
    if s == "" || !IsDigit(s[0]) then 0 else if s[0] == '0' then 1 else 1 + DigitRun(s[1..])
  }

  /** A run, or the error met while reading it. */
  datatype Run = Len(n: nat) | Bad(error: ParseError)

  function FractionRun(s: string): (r: Run)
    ensures r.Len? ==> r.n <= |s|
    ensures r.Bad? ==> !ImpossibleError(r.error)
  {
    if !StartsWith(s, '.') then Len(0)
    else if DigitRun(s[1..]) == 0 then Bad(NoFractionDigit)
    else Len(1 + DigitRun(s[1..]))
  }

  function SignRun(s: string): (n: nat)
    ensures n <= |s|
  {
    if StartsWith(s, '+') || StartsWith(s, '-') then 1 else 0
  }

  function ExponentRun(s: string): (r: Run)
    ensures r.Len? ==> r.n <= |s|
    ensures r.Bad? ==> !ImpossibleError(r.error)
  {
    if !StartsWith(s, 'e') && !StartsWith(s, 'E') then Len(0)
    else
      var sign := SignRun(s[1..]);
      var digits := DigitRun(s[1..][sign..]);
      if digits == 0 then Bad(NoExponentDigit) else Len(1 + sign + digits)
  }

  /** Fraction and exponent after the integer part. */
  function TailRun(s: string): (r: Run)
    ensures r.Len? ==> r.n <= |s|
    ensures r.Bad? ==> !ImpossibleError(r.error)
  {
    match FractionRun(s)
    case Bad(e) => Bad(e)
    case Len(fraction) => Longer(fraction, ExponentRun(s[fraction..]))
  }

  function Longer(n: nat, r: Run): Run {
    if r.Len? then Len(n + r.n) else r
  }

  function UnsignedRun(s: string): (r: Run)
    ensures r.Len? ==> 0 < r.n <= |s|
    ensures r.Bad? ==> !ImpossibleError(r.error)
  {
    var whole := WholeRun(s);
    if whole == 0 then Bad(NoNumber) else Longer(whole, TailRun(s[whole..]))
  }

  function NumberRun(s: string): (r: Run)
    ensures r.Len? ==> 0 < r.n <= |s|
    ensures r.Bad? ==> !ImpossibleError(r.error)
  {
    if !StartsWith(s, '-') then UnsignedRun(s)
    else if WholeRun(s[1..]) == 0 then Bad(NoDigitAfterMinus)
    else Longer(1, UnsignedRun(s[1..]))
  }

  function NumberAt(s: string): (r: Parsed<string>)
    ensures r.Ok? ==> |r.rest| < |s|
    ensures r.Err? ==> !ImpossibleError(r.error)
  {
    match NumberRun(s)
    case Bad(e) => Err(e)
    case Len(n) => Ok(s[..n], s[n..])
  }

  // ---- values ----

  function LiteralAt(s: string, literal: string, value: JsonValue): (r: Parsed<JsonValue>)
    requires literal != ""
    ensures r.Ok? ==> |r.rest| < |s|
    ensures r.Err? ==> !ImpossibleError(r.error)
  {
    if literal <= s then Ok(value, s[|literal|..]) else Err(ExpectedLiteral)
  }

  function ValueAt(text: string, depth: nat): (r: Parsed<JsonValue>)
    ensures r.Ok? ==> |r.rest| < |text|
    ensures r.Err? ==> !ImpossibleError(r.error)
    decreases |text|, 2
  {
    var s := SkipWs(text);
    if s == "" then Err(UnexpectedEnd)
    else if s[0] == 'n' then LiteralAt(s, "null", Null)
    else if s[0] == 't' then LiteralAt(s, "true", Bool(true))
    else if s[0] == 'f' then LiteralAt(s, "false", Bool(false))
    else if s[0] == '"' then
      match StringAt(s) {
        case Err(e) => Err(e)
        case Ok(v, rest) => Ok(String(v), rest)
      }
    else if s[0] == '{' then
      if depth >= MAX_DEPTH then Err(TooDeep)
      else
        match ObjectAt(s[1..], depth + 1) {
          case Err(e) => Err(e)
          case Ok(v, rest) => Ok(Object(v), rest)
        }
    else if s[0] == '[' then
      if depth >= MAX_DEPTH then Err(TooDeep)
      else
        match ArrayAt(s[1..], depth + 1) {
          case Err(e) => Err(e)
          case Ok(v, rest) => Ok(Array(v), rest)
        }
    else if s[0] == '-' || IsDigit(s[0]) then
      match NumberAt(s) {
        case Err(e) => Err(e)
        case Ok(v, rest) => Ok(Number(v), rest)
      }
    else Err(UnexpectedByte)
  }

  /** After '{'. */
  function ObjectAt(text: string, depth: nat): (r: Parsed<map<string, JsonValue>>)
    ensures r.Ok? ==> |r.rest| < |text|
    ensures r.Err? ==> !ImpossibleError(r.error)
    decreases |text|, 1
  {
    var s := SkipWs(text);
    if StartsWith(s, '}') then Ok(map[], s[1..]) else MembersAt(s, depth, map[])
  }

  function MembersAt(text: string, depth: nat, earlier: map<string, JsonValue>): (r: Parsed<map<string, JsonValue>>)
    ensures r.Ok? ==> |r.rest| < |text|
    ensures r.Err? ==> !ImpossibleError(r.error)
    decreases |text|, 0
  {
    match StringAt(SkipWs(text))
    case Err(e) => Err(e)
    case Ok(key, s1) =>
      var s2 := SkipWs(s1);
      if !StartsWith(s2, ':') then Err(ExpectedByte)
      else
        match ValueAt(s2[1..], depth) {
          case Err(e) => Err(e)
          case Ok(value, s3) =>
            var now := earlier[key := value];
            var s4 := SkipWs(s3);
            if StartsWith(s4, '}') then Ok(now, s4[1..])
            else if StartsWith(s4, ',') then MembersAt(s4[1..], depth, now)
            else Err(ExpectedByte)
        }
  }

  /** After '['. */
  function ArrayAt(text: string, depth: nat): (r: Parsed<seq<JsonValue>>)
    ensures r.Ok? ==> |r.rest| < |text|
    ensures r.Err? ==> !ImpossibleError(r.error)
    decreases |text|, 4
  {
    var s := SkipWs(text);
    if StartsWith(s, ']') then Ok([], s[1..]) else ElemsAt(s, depth)
  }

  function ElemsAt(text: string, depth: nat): (r: Parsed<seq<JsonValue>>)
    ensures r.Ok? ==> |r.rest| < |text|
    ensures r.Err? ==> !ImpossibleError(r.error)
    decreases |text|, 3
  {
    match ValueAt(text, depth)
    case Err(e) => Err(e)
    case Ok(value, s1) =>
      var s2 := SkipWs(s1);
      if StartsWith(s2, ']') then Ok([value], s2[1..])
      else if StartsWith(s2, ',') then
        match ElemsAt(s2[1..], depth) {
          case Err(e) => Err(e)
          case Ok(values, rest) => Ok([value] + values, rest)
        }
      else Err(ExpectedByte)
  }

  datatype Outcome = Parses(value: JsonValue) | Fails(error: ParseError)

  function ParseText(s: string): (r: Outcome)
    ensures r.Fails? ==> !ImpossibleError(r.error)
  {
    match ValueAt(s, 0)
    case Err(e) => Fails(e)
    case Ok(v, rest) => if SkipWs(rest) == "" then Parses(v) else Fails(TrailingData)
  }
}
