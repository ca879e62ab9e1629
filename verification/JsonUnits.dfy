/** The escaped spelling of a character by its UTF-16 code units (section 7 of RFC 8259). */
module JsonUnits {
  import opened Prelude
  import opened JsonGrammar
  import opened JsonDescent
  import X = JsonExactness

  /** UTF-16 (section 2.1 of RFC 2781): a character beyond 16 bits is two surrogates. */
  function Utf16(c: char): (units: seq<nat>)
    ensures forall i | 0 <= i < |units| :: units[i] < 0x1_0000
  {
    var u := c as int;
    if u < 0x1_0000 then [u] else [0xd800 + (u - 0x1_0000) / 0x400, 0xdc00 + (u - 0x1_0000) % 0x400]
  }

  /** Which of the four digits are written in upper case. */
  type Cases = (bool, bool, bool, bool)

  function HexDigit(d: nat, upper: bool): char
    requires d < 16
  {
    if upper then "0123456789ABCDEF"[d] else HexChar(d)
  }

  function UnitText(u: nat, cases: Cases): string
    requires u < 0x1_0000
  {
    [HexDigit(u / 0x1000, cases.0), HexDigit(u / 0x100 % 16, cases.1), HexDigit(u / 16 % 16, cases.2), HexDigit(u % 16, cases.3)]
  }

  function EscapedUnits(c: char, high: Cases, low: Cases): string {
    var units := Utf16(c);
    if |units| == 1 then "\\u" + UnitText(units[0], low) else "\\u" + UnitText(units[0], high) + "\\u" + UnitText(units[1], low)
  }

  lemma DigitReads(d: nat, upper: bool)
    requires d < 16
    ensures IsHex(HexDigit(d, upper)) && HexVal(HexDigit(d, upper)) == d
  {}

  lemma FourDigits(u: nat)
    requires u < 0x1_0000
    ensures ((u / 0x1000 * 16 + u / 0x100 % 16) * 16 + u / 16 % 16) * 16 + u % 16 == u
  {
    var b, c := u / 0x100, u / 16;
    assert c / 16 == b && b / 16 == u / 0x1000;
    assert u == 16 * c + u % 16 && c == 16 * b + c % 16 && b == 16 * (b / 16) + b % 16;
  }

  lemma UnitReads(u: nat, cases: Cases)
    requires u < 0x1_0000
    ensures IsHex4(UnitText(u, cases)) && Hex4(UnitText(u, cases)) == u
  {
    hide HexDigit, HexVal, IsHex;
    FourDigits(u);
    DigitReads(u / 0x1000, cases.0);
    DigitReads(u / 0x100 % 16, cases.1);
    DigitReads(u / 16 % 16, cases.2);
    DigitReads(u % 16, cases.3);
  }

  /** The spelling is an item of the string grammar that denotes the character. */
  lemma UnitsAreItem(c: char, high: Cases, low: Cases) returns (i: Item)
    ensures ItemOk(i) && ItemChar(i) == c && ItemText(i) == EscapedUnits(c, high, low)
  {
    hide UnitText, Hex4, IsHex4;
    var units := Utf16(c);
    if |units| == 1 {
      UnitReads(units[0], low);
      i := Unit(UnitText(units[0], low));
    } else {
      UnitReads(units[0], high);
      UnitReads(units[1], low);
      i := Pair(UnitText(units[0], high), UnitText(units[1], low));
    }
  }

  /** Every character, spelled by its one or two units in digits of either case, is read back. */
  lemma EveryCharReads(c: char, high: Cases, low: Cases, rest: string)
    ensures StringAt("\"" + EscapedUnits(c, high, low) + "\"" + rest) == Ok([c], rest)
  {
    hide StringAt, EscapedUnits, ItemOk, ItemChar, ItemText;
    var i := UnitsAreItem(c, high, low);
    X.StringOf([i], rest);
    assert [i][1..] == [];
    assert ItemsText([i]) == ItemText(i) + ItemsText([]) == ItemText(i);
    assert ItemsString([i]) == [ItemChar(i)] + ItemsString([]) == [c];
    assert StringText([i]) == "\"" + EscapedUnits(c, high, low) + "\"";
  }

  /** An item written by units has exactly the units of the character it denotes. */
  lemma ItemHasUnits(i: Item)
    requires ItemOk(i) && (i.Unit? || i.Pair?)
    ensures Utf16(ItemChar(i)) == match i case Unit(hex) => [Hex4(hex)] case Pair(high, low) => [Hex4(high), Hex4(low)] case _ => []
  {
    hide Hex4, IsHex4;
  }
}
