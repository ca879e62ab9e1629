/** The text builders of the protocol as they are written, pushing onto a growing string. */
module ProtocolWriters {
  import opened Prelude
  import opened Decimal
  import opened Protocol
  import StringOrder

  lemma NextEscaped(input: string, i: nat, encoded: string)
    requires i < |input|
    ensures encoded + EscapedText(input[i..]) == encoded + EscapedChar(input[i]) + EscapedText(input[i + 1..])
  {
    hide EscapedChar;
    assert input[i..][0] == input[i] && input[i..][1..] == input[i + 1..];
  }

  method WriteJsonString(input: string) returns (encoded: string)
    ensures encoded == JsonString(input)
  {
    encoded := "\"";
    var i := 0;
    while i < |input|
      invariant i <= |input| && encoded + EscapedText(input[i..]) == "\"" + EscapedText(input)
    {
      NextEscaped(input, i, encoded);
      encoded := encoded + EscapedChar(input[i]);
      i := i + 1;
    }
    assert encoded + "" == encoded;
    encoded := encoded + "\"";
  }

  /** What is still to come after `i` fields: a comma first unless these are the first ones. */
  function StillToCome(fields: seq<(string, string)>, i: nat): string
    requires i <= |fields|
  {
    if i == |fields| then "" else Comma(i) + FieldsText(fields[i..])
  }

  function Comma(i: nat): string { if i > 0 then "," else "" }

  /** Pushing field `i` moves its text from what is to come to what is written. */
  lemma PushField(encoded: string, fields: seq<(string, string)>, i: nat)
    requires i < |fields|
    ensures (encoded + Comma(i) + JsonString(fields[i].0) + ":" + fields[i].1) + StillToCome(fields, i + 1) == encoded + StillToCome(fields, i)
  {
    hide JsonString, Comma;
    var key, rest := JsonString(fields[i].0), StillToCome(fields, i + 1);
    ToComeStep(fields, i);
    Regroup(encoded, Comma(i), key, fields[i].1, rest);
  }

  lemma ToComeStep(fields: seq<(string, string)>, i: nat)
    requires i < |fields|
    ensures StillToCome(fields, i) == Comma(i) + (FieldText(fields[i]) + StillToCome(fields, i + 1))
  {
    hide JsonString;
    assert fields[i..][1..] == fields[i + 1..];
  }

  lemma Regroup(a: string, comma: string, key: string, value: string, rest: string)
    ensures (a + comma + key + ":" + value) + rest == a + (comma + ((key + ":" + value) + rest))
  {}

  lemma AllToCome(fields: seq<(string, string)>)
    ensures StillToCome(fields, 0) == FieldsText(fields) && StillToCome(fields, |fields|) == ""
  {
    hide FieldsText;
    assert fields[0..] == fields && fields[|fields|..] == [];
    NothingToCome();
  }

  lemma NothingToCome()
    ensures FieldsText([]) == ""
  {}

  method WriteObject(fields: seq<(string, string)>) returns (encoded: string)
    ensures encoded == ObjectText(fields)
  {
    hide FieldsText, StillToCome, JsonString;
    AllToCome(fields);
    encoded := "{";
    for i := 0 to |fields|
      invariant encoded + StillToCome(fields, i) == "{" + FieldsText(fields)
    {
      PushField(encoded, fields, i);
      if i > 0 {
        encoded := encoded + ",";
      } else {
        assert encoded == encoded + "";
      }
      var key := WriteJsonString(fields[i].0);
      encoded := encoded + key;
      encoded := encoded + ":";
      encoded := encoded + fields[i].1;
    }
    assert encoded + "" == encoded;
    encoded := encoded + "}";
  }

  /** `encode_string_map`: the entries of an ordered map in key order. */
  method WriteStringMap(m: map<string, string>) returns (encoded: string)
    ensures encoded == ObjectText(MapFields(m))
  {
    hide FieldsText, StillToCome, JsonString;
    var keys := StringOrder.Sorted(m.Keys);
    ghost var fields := MapFields(m);
    AllToCome(fields);
    encoded := "{";
    for i := 0 to |keys|
      invariant encoded + StillToCome(fields, i) == "{" + FieldsText(fields)
    {
      assert keys[i] in keys;
      PushField(encoded, fields, i);
      if i > 0 {
        encoded := encoded + ",";
      } else {
        assert encoded == encoded + "";
      }
      var key := WriteJsonString(keys[i]);
      var value := WriteJsonString(m[keys[i]]);
      encoded := encoded + key;
      encoded := encoded + ":";
      encoded := encoded + value;
    }
    assert encoded + "" == encoded;
    encoded := encoded + "}";
  }

  function ItemsToCome(items: seq<string>, i: nat): string
    requires i <= |items|
  {
    if i == |items| then "" else Comma(i) + ItemsJoined(items[i..])
  }

  lemma PushItem(encoded: string, items: seq<string>, i: nat)
    requires i < |items|
    ensures (encoded + Comma(i) + JsonString(items[i])) + ItemsToCome(items, i + 1) == encoded + ItemsToCome(items, i)
  {
    hide JsonString;
    var item, rest := JsonString(items[i]), ItemsToCome(items, i + 1);
    assert items[i..][1..] == items[i + 1..];
    assert ItemsToCome(items, i) == Comma(i) + (item + rest);
  }

  lemma AllItemsToCome(items: seq<string>)
    ensures ItemsToCome(items, 0) == ItemsJoined(items) && ItemsToCome(items, |items|) == ""
  {
    assert items[0..] == items;
  }

  method WriteStringArray(items: seq<string>) returns (encoded: string)
    ensures encoded == StringArrayText(items)
  {
    hide JsonString, ItemsJoined, ItemsToCome;
    AllItemsToCome(items);
    encoded := "[";
    for i := 0 to |items|
      invariant encoded + ItemsToCome(items, i) == "[" + ItemsJoined(items)
    {
      PushItem(encoded, items, i);
      if i > 0 {
        encoded := encoded + ",";
      } else {
        assert encoded == encoded + "";
      }
      var item := WriteJsonString(items[i]);
      encoded := encoded + item;
    }
    assert encoded + "" == encoded;
    encoded := encoded + "]";
  }

  /** `format_overview_scale`, from the six-decimal text of a scale that is not negative. */
  method FormatOverviewScale(scale: real) returns (formatted: string)
    requires scale >= 0.0
    ensures formatted == ScaleText(scale)
  {
    hide Millionths, Pad;
    var n := Millionths(scale);
    var whole := WholeDigits(n);
    ghost var padded := Pad(n % 1000000, 6);
    formatted := whole + "." + Pad(n % 1000000, 6);
    ghost var fraction := padded;
    while '.' in formatted && formatted[|formatted| - 1] == '0'
      invariant formatted == whole + "." + fraction && TrimZeros(fraction) == TrimZeros(padded)
      invariant formatted[|formatted| - 1] == if fraction == "" then '.' else fraction[|fraction| - 1]
      decreases |fraction|
    {
      fraction := fraction[..|fraction| - 1];
      formatted := formatted[..|formatted| - 1];
    }
    assert formatted[|whole|] == '.';
    assert TrimZeros(fraction) == fraction;
    if formatted[|formatted| - 1] == '.' {
      assert fraction == "" by { if fraction != "" { TrimDigits(padded); } }
      formatted := formatted + "0";
    }
  }

  lemma TrimDigits(s: string)
    ensures TrimZeros(s) <= s
  {}
}
