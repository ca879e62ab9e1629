/** JSON values as the protocol layer sees them. Numbers keep their source text. */
module JsonValues {
  datatype JsonValue =
    | Null
    | Bool(value: bool)
    | Number(text: string)
    | String(chars: string)
    | Array(values: seq<JsonValue>)
    | Object(fields: map<string, JsonValue>)
}

/** The grammar of RFC 8259 (sections 2 to 7) as concrete syntax trees. `Text` is the text a
    tree derives and `Value` the value it denotes; nothing here mentions a parser. */
module JsonGrammar {
  import opened Prelude
  import opened JsonValues

  // ---- terminals (sections 2, 6 and 7) ----

  predicate IsWsChar(c: char) {
    c == ' ' || c == '\n' || c == '\r' || c == '\t'
  }

  predicate IsWs(s: string) {
    forall i | 0 <= i < |s| :: IsWsChar(s[i])
  }

  predicate IsDigit(c: char) {
    '0' <= c <= '9'
  }

  predicate IsDigits(s: string) {
    forall i | 0 <= i < |s| :: IsDigit(s[i])
  }

  predicate IsHex(c: char) {
    IsDigit(c) || 'a' <= c <= 'f' || 'A' <= c <= 'F'
  }

  function HexVal(c: char): (v: nat)
    requires IsHex(c)
    ensures v < 16
  {
    if IsDigit(c) then c as int - '0' as int
    else if 'a' <= c <= 'f' then c as int - 'a' as int + 10
    else c as int - 'A' as int + 10
  }

  /** The digit of a value, in lower case. */
  function HexChar(d: nat): (c: char)
    requires d < 16
    ensures IsHex(c) && HexVal(c) == d
  {
    if d < 10 then ('0' as int + d) as char else ('a' as int + d - 10) as char
  }

  predicate IsHex4(h: string) {
    |h| == 4 && IsHex(h[0]) && IsHex(h[1]) && IsHex(h[2]) && IsHex(h[3])
  }

  function Hex4(h: string): (v: nat)
    requires IsHex4(h)
    ensures v < 0x1_0000
  {
    ((HexVal(h[0]) * 16 + HexVal(h[1])) * 16 + HexVal(h[2])) * 16 + HexVal(h[3])
  }

  predicate IsHigh(unit: nat) { 0xd800 <= unit <= 0xdbff }
  predicate IsLow(unit: nat) { 0xdc00 <= unit <= 0xdfff }

  // ---- strings (section 7; surrogates paired as in section 8.2) ----

  datatype Item =
    | Plain(c: char)
    | Short(letter: char)
    | Unit(hex: string)
    | Pair(high: string, low: string)

  predicate IsShort(c: char) {
    c == '"' || c == '\\' || c == '/' || c == 'b' || c == 'f' || c == 'n' || c == 'r' || c == 't'
  }

  function ShortChar(letter: char): char
    requires IsShort(letter)
  {
    if letter == 'b' then 8 as char
    else if letter == 'f' then 12 as char
    else if letter == 'n' then '\n'
    else if letter == 'r' then '\r'
    else if letter == 't' then '\t'
    else letter
  }

  predicate ItemOk(i: Item) {
    match i
    case Plain(c) => 0x20 <= c as int && c != '"' && c != '\\'
    case Short(letter) => IsShort(letter)
    case Unit(hex) => IsHex4(hex) && !IsHigh(Hex4(hex)) && !IsLow(Hex4(hex))
    case Pair(high, low) => IsHex4(high) && IsHex4(low) && IsHigh(Hex4(high)) && IsLow(Hex4(low))
  }

  function ItemText(i: Item): string {
    match i
    case Plain(c) => [c]
    case Short(letter) => ['\\', letter]
    case Unit(hex) => "\\u" + hex
    case Pair(high, low) => "\\u" + high + "\\u" + low
  }

  function ItemChar(i: Item): char
    requires ItemOk(i)
  {
    match i
    case Plain(c) => c
    case Short(letter) => ShortChar(letter)
    case Unit(hex) => Hex4(hex) as char
    case Pair(high, low) => (0x1_0000 + (Hex4(high) - 0xd800) * 0x400 + (Hex4(low) - 0xdc00)) as char
  }

  predicate ItemsOk(items: seq<Item>) {
    forall i | 0 <= i < |items| :: ItemOk(items[i])
  }

  function ItemsText(items: seq<Item>): string {
    if items == [] then "" else ItemText(items[0]) + ItemsText(items[1..])
  }

  function ItemsString(items: seq<Item>): string
    requires ItemsOk(items)
  {
    if items == [] then "" else [ItemChar(items[0])] + ItemsString(items[1..])
  }

  function StringText(items: seq<Item>): string {
    "\"" + ItemsText(items) + "\""
  }

  // ---- numbers (section 6) ----

  /** An absent fraction is the empty string; an absent exponent is `NoExp`. */
  datatype Exponent = NoExp | Exp(mark: char, sign: string, digits: string)
  datatype Num = Num(negative: bool, whole: string, fraction: string, exponent: Exponent)

  predicate WholeOk(w: string) {
    |w| >= 1 && IsDigits(w) && (w[0] == '0' ==> |w| == 1)
  }

  predicate ExponentOk(e: Exponent) {
    e.Exp? ==>
      && (e.mark == 'e' || e.mark == 'E')
      && (e.sign == "" || e.sign == "+" || e.sign == "-")
      && |e.digits| >= 1 && IsDigits(e.digits)
  }

  predicate NumOk(n: Num) {
    WholeOk(n.whole) && IsDigits(n.fraction) && ExponentOk(n.exponent)
  }

  function FractionText(f: string): string {
    if f == "" then "" else "." + f
  }

  function ExponentText(e: Exponent): string {
    if e.NoExp? then "" else [e.mark] + e.sign + e.digits
  }

  function NumText(n: Num): string {
    (if n.negative then "-" else "") + n.whole + FractionText(n.fraction) + ExponentText(n.exponent)
  }

  // ---- values, arrays and objects (sections 3 to 5) ----

  datatype Tree =
    | NullT
    | TrueT
    | FalseT
    | NumT(n: Num)
    | StrT(items: seq<Item>)
    | EmptyArr(ws: string)
    | Arr(elems: Elems)
    | EmptyObj(ws: string)
    | Obj(members: Members)

  /** One array element with the whitespace around it. */
  datatype Elems =
    | LastElem(before: string, value: Tree, after: string)
    | MoreElems(before: string, value: Tree, after: string, tail: Elems)

  /** One object member: ws key ws ':' ws value ws. */
  datatype Member = Member(ws1: string, key: seq<Item>, ws2: string, ws3: string, value: Tree, ws4: string)
  datatype Members =
    | LastMember(m: Member)
    | MoreMembers(m: Member, tail: Members)

  predicate TreeOk(t: Tree) {
    match t
    case NullT => true
    case TrueT => true
    case FalseT => true
    case NumT(n) => NumOk(n)
    case StrT(items) => ItemsOk(items)
    case EmptyArr(ws) => IsWs(ws)
    case Arr(elems) => ElemsOk(elems)
    case EmptyObj(ws) => IsWs(ws)
    case Obj(members) => MembersOk(members)
  }

  predicate ElemsOk(es: Elems) {
    IsWs(es.before) && TreeOk(es.value) && IsWs(es.after) && (es.MoreElems? ==> ElemsOk(es.tail))
  }

  predicate ShellOk(m: Member) {
    IsWs(m.ws1) && ItemsOk(m.key) && IsWs(m.ws2) && IsWs(m.ws3) && IsWs(m.ws4)
  }

  predicate MembersOk(ms: Members) {
    ShellOk(ms.m) && TreeOk(ms.m.value) && (ms.MoreMembers? ==> MembersOk(ms.tail))
  }

  function Text(t: Tree): string {
    match t
    case NullT => "null"
    case TrueT => "true"
    case FalseT => "false"
    case NumT(n) => NumText(n)
    case StrT(items) => StringText(items)
    case EmptyArr(ws) => "[" + ws + "]"
    case Arr(elems) => "[" + ElemsText(elems) + "]"
    case EmptyObj(ws) => "{" + ws + "}"
    case Obj(members) => "{" + MembersText(members) + "}"
  }

  function ElemsText(es: Elems): string {
    es.before + Text(es.value) + es.after + (if es.LastElem? then "" else "," + ElemsText(es.tail))
  }

  function KeyText(m: Member): string {
    m.ws1 + StringText(m.key) + m.ws2 + ":" + m.ws3
  }

  function MembersText(ms: Members): string {
    KeyText(ms.m) + Text(ms.m.value) + ms.m.ws4 + (if ms.LastMember? then "" else "," + MembersText(ms.tail))
  }

  function Value(t: Tree): JsonValue
    requires TreeOk(t)
  {
    match t
    case NullT => Null
    case TrueT => Bool(true)
    case FalseT => Bool(false)
    case NumT(n) => Number(NumText(n))
    case StrT(items) => String(ItemsString(items))
    case EmptyArr(_) => Array([])
    case Arr(elems) => Array(ElemsValues(elems))
    case EmptyObj(_) => Object(map[])
    case Obj(members) => Object(MembersMap(members, map[]))
  }

  function ElemsValues(es: Elems): seq<JsonValue>
    requires ElemsOk(es)
  {
    [Value(es.value)] + (if es.LastElem? then [] else ElemsValues(es.tail))
  }

  /** Members in text order over what came before: the last duplicate of a key wins. */
  function MembersMap(ms: Members, earlier: map<string, JsonValue>): map<string, JsonValue>
    requires MembersOk(ms)
  {
    var now := earlier[ItemsString(ms.m.key) := Value(ms.m.value)];
    if ms.LastMember? then now else MembersMap(ms.tail, now)
  }


  /** How deeply containers nest; a scalar is at depth 0. */
  function Depth(t: Tree): nat {
    match t
    case EmptyArr(_) => 1
    case Arr(elems) => 1 + ElemsDepth(elems)
    case EmptyObj(_) => 1
    case Obj(members) => 1 + MembersDepth(members)
    case _ => 0
  }

  function ElemsDepth(es: Elems): nat {
    if es.LastElem? then Depth(es.value) else Max(Depth(es.value), ElemsDepth(es.tail))
  }

  function MembersDepth(ms: Members): nat {
    if ms.LastMember? then Depth(ms.m.value) else Max(Depth(ms.m.value), MembersDepth(ms.tail))
  }

  /** `s` is a JSON text (section 2) for `v` whose containers nest at most `limit` deep. */
  ghost predicate Derives(s: string, v: JsonValue, limit: nat) {
    exists before: string, t: Tree, after: string ::
      IsWs(before) && TreeOk(t) && IsWs(after)
      && s == before + Text(t) + after && Value(t) == v && Depth(t) <= limit
  }
}
