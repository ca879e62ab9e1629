/** What the encoders write: each text derives, in the JSON grammar, the value it stands for. */
module ProtocolText {
  import opened Prelude
  import opened JsonValues
  import opened JsonGrammar
  import opened Decimal
  import opened Protocol
  import StringOrder
  import X = JsonExactness
  import D = JsonDescent

  /** `text` is JSON without surrounding whitespace for `v`, nested at most `depth` deep. */
  ghost predicate Encodes(text: string, v: JsonValue, depth: nat) {
    exists t :: TreeOk(t) && Text(t) == text && Value(t) == v && Depth(t) <= depth
  }

  lemma EncodesTree(t: Tree, depth: nat)
    requires TreeOk(t) && Depth(t) <= depth
    ensures Encodes(Text(t), Value(t), depth)
  {}

  // ---- scalars ----

  function EscapedItem(c: char): (i: Item)
    ensures ItemOk(i) && ItemText(i) == EscapedChar(c) && ItemChar(i) == c
  {
    if c == '"' then Short('"')
    else if c == '\\' then Short('\\')
    else if c == '\n' then Short('n')
    else if c == '\r' then Short('r')
    else if c == '\t' then Short('t')
    else if c as int == 8 then Short('b')
    else if c as int == 12 then Short('f')
    else if IsControl(c) then Unit(HexText(c as int))
    else Plain(c)
  }

  function EscapedItems(s: string): (items: seq<Item>)
    ensures ItemsOk(items)
  {
    if s == "" then [] else [EscapedItem(s[0])] + EscapedItems(s[1..])
  }

  lemma {:induction false} EscapedItemsMean(s: string)
    ensures ItemsText(EscapedItems(s)) == EscapedText(s) && ItemsString(EscapedItems(s)) == s
  {
    hide EscapedItem, ItemText, ItemChar, EscapedChar;
    if s != "" {
      var items, rest := EscapedItems(s), EscapedItems(s[1..]);
      EscapedItemsMean(s[1..]);
      assert items[0] == EscapedItem(s[0]) && items[1..] == rest;
      assert s == [s[0]] + s[1..];
    }
  }

  /** Every string, control and non-BMP characters included, is written so that it reads back. */
  lemma EncodesString(s: string, depth: nat)
    ensures Encodes(JsonString(s), String(s), depth)
  {
    EscapedItemsMean(s);
    EncodesTree(StrT(EscapedItems(s)), depth);
  }

  lemma EncodesNat(n: nat, depth: nat)
    ensures Encodes(DecText(n), Number(DecText(n)), depth)
  {
    var num := Num(false, DecText(n), "", NoExp);
    X.NumTextIs(num);
    assert "" + (DecText(n) + ("" + "")) == DecText(n);
    EncodesTree(NumT(num), depth);
  }

  lemma EncodesDecimal(negative: bool, whole: string, fraction: string, depth: nat)
    requires whole != "" && IsDigits(whole) && (whole[0] == '0' ==> |whole| == 1) && fraction != "" && IsDigits(fraction)
    ensures var text := (if negative then "-" else "") + whole + "." + fraction; Encodes(text, Number(text), depth)
  {
    hide IsDigits, X.Sign;
    var num := Num(negative, whole, fraction, NoExp);
    var text := (if negative then "-" else "") + whole + "." + fraction;
    assert NumText(num) == text + "";
    assert text + "" == text;
    EncodesTree(NumT(num), depth);
  }

  lemma EncodesScale(x: real, depth: nat)
    ensures Encodes(ScaleText(x), Number(ScaleText(x)), depth)
  {
    hide Millionths, WholeDigits, FractionDigits, Encodes;
    var n := Millionths(if x < 0.0 then -x else x);
    EncodesDecimal(x < 0.0, WholeDigits(n), FractionDigits(n), depth);
  }

  lemma EncodesBool(b: bool, depth: nat)
    ensures Encodes(BoolText(b), Bool(b), depth)
  {
    EncodesTree(if b then TrueT else FalseT, depth);
  }

  lemma EncodesNull(depth: nat)
    ensures Encodes("null", Null, depth)
  {
    EncodesTree(NullT, depth);
  }

  // ---- objects ----

  predicate DistinctKeys(fields: seq<(string, string)>) {
    forall i, j | 0 <= i < j < |fields| :: fields[i].0 != fields[j].0
  }

  ghost predicate HasKey(fields: seq<(string, string)>, key: string) {
    exists i :: 0 <= i < |fields| && fields[i].0 == key
  }

  ghost predicate ValuesFit(fields: seq<(string, string)>, m: Fields, depth: nat) {
    forall i | 0 <= i < |fields| :: fields[i].0 in m && Encodes(fields[i].1, m[fields[i].0], depth)
  }

  ghost predicate KeysFit(fields: seq<(string, string)>, m: Fields) {
    forall k | k in m :: HasKey(fields, k)
  }

  ghost predicate Fits(fields: seq<(string, string)>, m: Fields, depth: nat) {
    DistinctKeys(fields) && ValuesFit(fields, m, depth) && KeysFit(fields, m)
  }

  /** Field lists over disjoint keys can be put one after the other. */
  lemma FitsAppend(a: seq<(string, string)>, m: Fields, b: seq<(string, string)>, n: Fields, depth: nat)
    requires Fits(a, m, depth) && Fits(b, n, depth) && m.Keys !! n.Keys
    ensures Fits(a + b, m + n, depth)
  {
    hide Encodes;
    var fields := a + b;
    assert forall i | 0 <= i < |a| :: a[i].0 in m.Keys;
    assert forall i | 0 <= i < |b| :: b[i].0 in n.Keys;
    forall k | k in m + n ensures HasKey(fields, k) {
      if k in n {
        var i :| 0 <= i < |b| && b[i].0 == k;
        assert fields[|a| + i].0 == k;
      } else {
        var i :| 0 <= i < |a| && a[i].0 == k;
        assert fields[i].0 == k;
      }
    }
  }

  /** `m` read through `earlier`: what a parser holds after the fields, if it held `earlier` before. */
  ghost predicate Overlays(result: Fields, fields: seq<(string, string)>, m: Fields, earlier: Fields) {
    forall k :: (k in result <==> HasKey(fields, k) || k in earlier)
      && (HasKey(fields, k) && k in m ==> result[k] == m[k])
      && (k in earlier && !HasKey(fields, k) ==> result[k] == earlier[k])
  }

  lemma HasKeySplit(fields: seq<(string, string)>, key: string)
    requires fields != []
    ensures HasKey(fields, key) <==> fields[0].0 == key || HasKey(fields[1..], key)
  {
    if HasKey(fields, key) && fields[0].0 != key {
      var i :| 0 <= i < |fields| && fields[i].0 == key;
      assert fields[1..][i - 1].0 == key;
    }
  }

  lemma OverlayStep(result: Fields, fields: seq<(string, string)>, m: Fields, earlier: Fields)
    requires fields != [] && DistinctKeys(fields) && fields[0].0 in m
    requires Overlays(result, fields[1..], m, earlier[fields[0].0 := m[fields[0].0]])
    ensures Overlays(result, fields, m, earlier)
  {
    forall k ensures HasKey(fields, k) <==> fields[0].0 == k || HasKey(fields[1..], k) {
      HasKeySplit(fields, k);
    }
    assert !HasKey(fields[1..], fields[0].0);
  }

  /** The member tree of one field. */
  lemma FieldMember(key: string, text: string, v: JsonValue, depth: nat) returns (m: Member)
    requires Encodes(text, v, depth)
    ensures ShellOk(m) && TreeOk(m.value) && Value(m.value) == v && Depth(m.value) <= depth
    ensures ItemsString(m.key) == key && m.ws4 == "" && KeyText(m) + Text(m.value) == FieldText((key, text))
  {
    var t :| TreeOk(t) && Text(t) == text && Value(t) == v && Depth(t) <= depth;
    EscapedItemsMean(key);
    m := Member("", EscapedItems(key), "", "", t, "");
    assert KeyText(m) == JsonString(key) + ":";
  }

  /** A member tree is the one of a field. */
  ghost predicate Spells(member: Member, field: (string, string), v: JsonValue, depth: nat) {
    && ShellOk(member) && TreeOk(member.value) && Value(member.value) == v && Depth(member.value) <= depth
    && ItemsOk(member.key) && ItemsString(member.key) == field.0
    && member.ws4 == "" && KeyText(member) + Text(member.value) == FieldText(field)
  }

  /** A member tree list is the one of a field list. */
  ghost predicate SpellsAll(ms: Members, fields: seq<(string, string)>, m: Fields, earlier: Fields, depth: nat) {
    && MembersOk(ms) && MembersText(ms) == FieldsText(fields) && MembersDepth(ms) <= depth
    && Overlays(MembersMap(ms, earlier), fields, m, earlier)
  }

  lemma LastSpells(member: Member, fields: seq<(string, string)>, m: Fields, earlier: Fields, depth: nat)
    requires |fields| == 1 && fields[0].0 in m && Spells(member, fields[0], m[fields[0].0], depth)
    ensures SpellsAll(LastMember(member), fields, m, earlier, depth)
  {
    hide KeyText, Text, FieldText, ShellOk, TreeOk, ItemsOk;
    MemberTextEnd(member, "");
    var now := earlier[fields[0].0 := m[fields[0].0]];
    assert fields[1..] == [] && Overlays(now, [], m, now);
    OverlayStep(now, fields, m, earlier);
  }

  lemma MoreText(member: Member, tail: Members, fields: seq<(string, string)>)
    requires |fields| > 1 && member.ws4 == "" && KeyText(member) + Text(member.value) == FieldText(fields[0])
    requires MembersText(tail) == FieldsText(fields[1..])
    ensures MembersText(MoreMembers(member, tail)) == FieldsText(fields)
  {
    hide KeyText, Text, FieldText;
    MemberTextEnd(member, "," + MembersText(tail));
    var head := FieldText(fields[0]);
    assert head + ("," + FieldsText(fields[1..])) == head + "," + FieldsText(fields[1..]);
  }

  lemma MoreSpells(member: Member, tail: Members, fields: seq<(string, string)>, m: Fields, earlier: Fields, depth: nat)
    requires |fields| > 1 && DistinctKeys(fields) && fields[0].0 in m && Spells(member, fields[0], m[fields[0].0], depth)
    requires SpellsAll(tail, fields[1..], m, earlier[fields[0].0 := m[fields[0].0]], depth)
    ensures SpellsAll(MoreMembers(member, tail), fields, m, earlier, depth)
  {
    MoreText(member, tail, fields);
    hide KeyText, Text, FieldText, ShellOk, TreeOk, ItemsOk, Overlays, DistinctKeys, MembersText, FieldsText;
    OverlayStep(MembersMap(tail, earlier[fields[0].0 := m[fields[0].0]]), fields, m, earlier);
  }

  lemma {:induction false} FieldsTree(fields: seq<(string, string)>, m: Fields, earlier: Fields, depth: nat) returns (ms: Members)
    requires fields != [] && DistinctKeys(fields) && ValuesFit(fields, m, depth)
    ensures SpellsAll(ms, fields, m, earlier, depth)
    decreases |fields|
  {
    hide KeyText, Text, FieldText, ShellOk, TreeOk, Encodes, SpellsAll;
    var key, text := fields[0].0, fields[0].1;
    var member := FieldMember(key, text, m[key], depth);
    KeyItemsOk(member);
    if |fields| == 1 {
      ms := LastMember(member);
      LastSpells(member, fields, m, earlier, depth);
    } else {
      var tail := FieldsTree(fields[1..], m, earlier[key := m[key]], depth);
      ms := MoreMembers(member, tail);
      MoreSpells(member, tail, fields, m, earlier, depth);
    }
  }

  lemma KeyItemsOk(m: Member)
    requires ShellOk(m)
    ensures ItemsOk(m.key)
  {}

  lemma MemberTextEnd(m: Member, more: string)
    requires m.ws4 == ""
    ensures KeyText(m) + Text(m.value) + m.ws4 + more == KeyText(m) + Text(m.value) + more
  {}

  /** An object text stands for the map of its fields. */
  lemma EncodesObject(fields: seq<(string, string)>, m: Fields, depth: nat)
    requires Fits(fields, m, depth)
    ensures Encodes(ObjectText(fields), Object(m), depth + 1)
  {
    hide FieldsText, KeyText;
    if fields == [] {
      EmptyFieldsText();
      assert m == map[];
      EncodesTree(EmptyObj(""), depth + 1);
    } else {
      var ms := FieldsTree(fields, m, map[], depth);
      var got := MembersMap(ms, map[]);
      forall k | k in got || k in m ensures k in got && k in m && got[k] == m[k] {
        assert HasKey(fields, k);
      }
      assert got == m;
      EncodesTree(Obj(ms), depth + 1);
    }
  }

  lemma EmptyFieldsText()
    ensures ObjectText([]) == "{" + "" + "}"
  {}

  // ---- arrays of strings ----

  lemma StringTree(s: string) returns (t: Tree)
    ensures TreeOk(t) && Text(t) == JsonString(s) && Value(t) == String(s) && Depth(t) == 0
  {
    EscapedItemsMean(s);
    t := StrT(EscapedItems(s));
  }

  lemma ElemTextBare(t: Tree, more: string)
    ensures "" + Text(t) + "" + more == Text(t) + more
  {}

  lemma {:induction false} ItemsTree(items: seq<string>, depth: nat) returns (es: Elems)
    requires items != []
    ensures ElemsOk(es) && ElemsText(es) == ItemsJoined(items) && ElemsDepth(es) <= depth
    ensures ElemsValues(es) == seq(|items|, i requires 0 <= i < |items| => String(items[i]))
    decreases |items|
  {
    hide Text, JsonString;
    var t := StringTree(items[0]);
    if |items| == 1 {
      es := LastElem("", t, "");
      ElemTextBare(t, "");
      assert ElemsText(es) == Text(t);
    } else {
      var tail := ItemsTree(items[1..], depth);
      es := MoreElems("", t, "", tail);
      ElemTextBare(t, "," + ElemsText(tail));
      assert ElemsText(es) == Text(t) + ("," + ElemsText(tail));
    }
  }

  function StringsValue(items: seq<string>): JsonValue {
    Array(seq(|items|, i requires 0 <= i < |items| => String(items[i])))
  }

  lemma EncodesStrings(items: seq<string>, depth: nat)
    ensures Encodes(StringArrayText(items), StringsValue(items), depth + 1)
  {
    if items == [] {
      EncodesTree(EmptyArr(""), depth + 1);
    } else {
      var es := ItemsTree(items, depth);
      EncodesTree(Arr(es), depth + 1);
    }
  }

  // ---- maps ----

  function MapValue(m: map<string, string>): Fields {
    map k | k in m :: String(m[k])
  }

  lemma EncodesMap(m: map<string, string>, depth: nat)
    ensures Encodes(ObjectText(MapFields(m)), Object(MapValue(m)), depth + 1)
  {
    hide Encodes, ObjectText, JsonString, StringOrder.Sorted, StringOrder.Less;
    var keys := StringOrder.Sorted(m.Keys);
    var fields := MapFields(m);
    StringOrder.SortedDistinct(keys);
    forall i | 0 <= i < |fields| ensures fields[i].0 in MapValue(m) && Encodes(fields[i].1, MapValue(m)[fields[i].0], depth) {
      assert keys[i] in keys;
      EncodesString(m[keys[i]], depth);
    }
    forall k | k in MapValue(m) ensures HasKey(fields, k) {
      assert k in keys;
      var i :| 0 <= i < |keys| && keys[i] == k;
      assert fields[i].0 == k;
    }
    EncodesObject(fields, MapValue(m), depth);
  }

  function FocusValue(f: WorldRouteFocus): Fields {
    map["current_index" := Number(DecText(f.current_index)), "target_index" := Number(DecText(f.target_index)),
        "lod" := Number(DecText(f.lod))]
  }

  lemma EncodesFocus(f: WorldRouteFocus, depth: nat)
    ensures Encodes(FocusText(f), Object(FocusValue(f)), depth + 1)
  {
    hide Encodes, ObjectText;
    var fields := [("current_index", DecText(f.current_index)), ("target_index", DecText(f.target_index)), ("lod", DecText(f.lod))];
    EncodesNat(f.current_index, depth);
    EncodesNat(f.target_index, depth);
    EncodesNat(f.lod, depth);
    assert fields[0].0 == "current_index" && fields[1].0 == "target_index" && fields[2].0 == "lod";
    EncodesObject(fields, FocusValue(f), depth);
  }

  function RoutesValue(m: map<string, WorldRouteFocus>): Fields {
    map k | k in m :: Object(FocusValue(m[k]))
  }

  lemma EncodesRoutes(m: map<string, WorldRouteFocus>, depth: nat)
    ensures Encodes(ObjectText(RouteFields(m)), Object(RoutesValue(m)), depth + 2)
  {
    hide FocusText, FocusValue, Encodes, ObjectText, StringOrder.Sorted, StringOrder.Less;
    var keys := StringOrder.Sorted(m.Keys);
    var fields := RouteFields(m);
    StringOrder.SortedDistinct(keys);
    forall i | 0 <= i < |fields| ensures fields[i].0 in RoutesValue(m) && Encodes(fields[i].1, RoutesValue(m)[fields[i].0], depth + 1) {
      assert keys[i] in keys;
      EncodesFocus(m[keys[i]], depth);
    }
    forall k | k in RoutesValue(m) ensures HasKey(fields, k) {
      assert k in keys;
      var i :| 0 <= i < |keys| && keys[i] == k;
      assert fields[i].0 == k;
    }
    EncodesObject(fields, RoutesValue(m), depth + 1);
  }
}
