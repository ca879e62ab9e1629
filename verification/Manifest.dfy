/** The world manifest as text: one `key=value` line per field. */
module Manifests {
  import opened Prelude
  import opened JsonGrammar
  import opened Decimal
  import opened TextLines
  import opened WorldGrid
  import opened Persistence

  const U32_MAX: nat := 0xffff_ffff
  const U64_MAX: nat := 0xffff_ffff_ffff_ffff

  // ---- hexadecimal ----

  predicate IsHexText(s: string) { forall i | 0 <= i < |s| :: IsHex(s[i]) }

  function HexValue(s: string): nat
    requires IsHexText(s)
  {
    if s == "" then 0 else 16 * HexValue(s[..|s| - 1]) + HexVal(s[|s| - 1])
  }

  /** `u64::from_str_radix(value, 16)`. */
  function ParseHex(s: string): Option<nat> {
    var digits := if s != "" && s[0] == '+' then s[1..] else s;
    if digits == "" || !IsHexText(digits) then None
    else if HexValue(digits) > U64_MAX then None
    else Some(HexValue(digits))
  }

  /** `{:016x}` for numbers of at most 16 digits. */
  function HexPad(n: nat, width: nat): (s: string)
    ensures |s| == width && IsHexText(s)
  {
    if width == 0 then "" else HexPad(n / 16, width - 1) + [HexChar(n % 16)]
  }

  function Pow16(k: nat): (p: nat)
    ensures p > 0
  {
    if k == 0 then 1 else 16 * Pow16(k - 1)
  }

  lemma {:induction false} HexPadValue(n: nat, width: nat)
    requires n < Pow16(width)
    ensures HexValue(HexPad(n, width)) == n
  {
    if width > 0 {
      HexPadValue(n / 16, width - 1);
      assert HexPad(n, width)[..width - 1] == HexPad(n / 16, width - 1);
    }
  }

  lemma HexRoundTrip(n: nat)
    requires n <= U64_MAX
    ensures ParseHex(HexPad(n, 16)) == Some(n)
  {
    assert Pow16(4) == 0x1_0000;
    assert Pow16(8) == 0x1_0000_0000;
    assert Pow16(12) == 0x1_0000_0000_0000;
    assert Pow16(16) == U64_MAX + 1;
    HexPadValue(n, 16);
    assert IsHex(HexPad(n, 16)[0]);
  }

  // ---- writing and parsing ----

  function Line(key: string, value: string): string { key + "=" + value }

  function ManifestLines(m: Manifest): seq<string> {
    [Line("version", DecText(m.version)), Line("order_policy", m.order_policy), Line("library_count", DecText(m.library_count)),
     Line("columns", DecText(m.columns)), Line("rows", DecText(m.rows)), Line("fingerprint", HexPad(m.fingerprint, 16))]
  }

  /** What has been read so far; a value that does not parse unsets its field. */
  datatype Partial = Partial(version: Option<nat>, order_policy: Option<string>, library_count: Option<nat>,
                             columns: Option<nat>, rows: Option<nat>, fingerprint: Option<nat>)

  const NOTHING: Partial := Partial(None, None, None, None, None, None)

  function Field(p: Partial, key: string, value: string): Partial {
    if key == "version" then p.(version := ParseUnsigned(value, U32_MAX))
    else if key == "order_policy" then p.(order_policy := Some(value))
    else if key == "library_count" then p.(library_count := ParseUnsigned(value, USIZE_MAX))
    else if key == "columns" then p.(columns := ParseUnsigned(value, USIZE_MAX))
    else if key == "rows" then p.(rows := ParseUnsigned(value, USIZE_MAX))
    else if key == "fingerprint" then p.(fingerprint := ParseHex(value))
    else p
  }

  /** A line without an equals sign makes the whole manifest unreadable. */
  function ParseLines(lines: seq<string>, p: Partial): Option<Partial> {
    if lines == [] then Some(p)
    else
      var key := Before(lines[0], '=');
      if |key| == |lines[0]| then None else ParseLines(lines[1..], Field(p, key, lines[0][|key| + 1..]))
  }

  function Complete(p: Partial): Option<Manifest> {
    if p.version.None? || p.library_count.None? || p.columns.None? || p.rows.None? || p.fingerprint.None? then None
    else Some(Manifest(p.version.value, if p.order_policy.Some? then p.order_policy.value else WORLD_ORDER_POLICY,
                       p.library_count.value, p.columns.value, p.rows.value, p.fingerprint.value))
  }

  function ManifestOf(content: string): Option<Manifest> {
    match ParseLines(Lines(content), NOTHING)
    case None => None
    case Some(p) => Complete(p)
  }

  method ParseManifest(content: string) returns (m: Option<Manifest>)
    ensures m == ManifestOf(content)
  {
    var lines := Lines(content);
    var p := NOTHING;
    for i := 0 to |lines|
      invariant ParseLines(lines[i..], p) == ParseLines(lines, NOTHING)
    {
      var key := Before(lines[i], '=');
      assert lines[i..][1..] == lines[i + 1..];
      if |key| == |lines[i]| {
        return None;
      }
      p := Field(p, key, lines[i][|key| + 1..]);
    }
    m := Complete(p);
  }

  // ---- round trip ----

  predicate InRange(m: Manifest) {
    m.version <= U32_MAX && m.library_count <= USIZE_MAX && m.columns <= USIZE_MAX && m.rows <= USIZE_MAX && m.fingerprint <= U64_MAX
  }

  lemma LineParses(key: string, value: string, rest: seq<string>, p: Partial)
    requires '=' !in key
    ensures ParseLines([Line(key, value)] + rest, p) == ParseLines(rest, Field(p, key, value))
  {
    hide Field;
    var lines := [Line(key, value)] + rest;
    BeforeAt(key, '=', value);
    assert key + ['='] + value == Line(key, value);
    assert lines[0][|key| + 1..] == value && lines[1..] == rest;
  }

  lemma {:induction false} DigitsPlain(s: string, i: nat)
    requires IsDigits(s) && i < |s|
    ensures IsDigit(s[i])
  {
    DigitsNotSpace(s, i);
  }

  /** A line of a key and a printed number is clean. */
  lemma NumberLineClean(key: string, value: string)
    requires '\n' !in key && value != "" && '\n' !in value && value[|value| - 1] != '\r'
    ensures Clean(Line(key, value))
  {}

  lemma DecPlain(n: nat)
    ensures '\n' !in DecText(n) && DecText(n)[|DecText(n)| - 1] != '\r'
  {
    var s := DecText(n);
    DigitsPlain(s, |s| - 1);
    forall i | 0 <= i < |s| ensures s[i] != '\n' {
      DigitsPlain(s, i);
    }
  }

  lemma PolicyLineClean(policy: string)
    ensures Clean(Line("order_policy", policy)) <==> Clean(policy)
  {
    var line := Line("order_policy", policy);
    assert line == "order_policy=" + policy;
    if policy != "" {
      assert line[|line| - 1] == policy[|policy| - 1];
    }
  }

  lemma OtherLinesClean(m: Manifest)
    ensures forall i | 0 <= i < 6 && i != 1 :: Clean(ManifestLines(m)[i])
  {
    hide Clean, DecText, HexPad, Line;
    DecPlain(m.version);
    DecPlain(m.library_count);
    DecPlain(m.columns);
    DecPlain(m.rows);
    HexPlain(m.fingerprint);
    NumberLineClean("version", DecText(m.version));
    NumberLineClean("library_count", DecText(m.library_count));
    NumberLineClean("columns", DecText(m.columns));
    NumberLineClean("rows", DecText(m.rows));
    NumberLineClean("fingerprint", HexPad(m.fingerprint, 16));
  }

  lemma HexPlain(n: nat)
    ensures '\n' !in HexPad(n, 16) && HexPad(n, 16)[15] != '\r'
  {
    var s := HexPad(n, 16);
    assert IsHex(s[15]);
    assert forall i | 0 <= i < 16 :: IsHex(s[i]);
  }

  lemma LinesParse(m: Manifest)
    requires InRange(m)
    ensures ParseLines(ManifestLines(m), NOTHING) ==
      Some(Partial(Some(m.version), Some(m.order_policy), Some(m.library_count), Some(m.columns), Some(m.rows), Some(m.fingerprint)))
  {
    hide DecText, HexPad, Line, ParseUnsigned, ParseHex, Field, ParseLines, InRange;
    var p1 := NOTHING.(version := Some(m.version));
    var p2 := p1.(order_policy := Some(m.order_policy));
    var p3 := p2.(library_count := Some(m.library_count));
    var p4 := p3.(columns := Some(m.columns));
    var p5 := p4.(rows := Some(m.rows));
    FieldIs(NOTHING, m);
    FieldIs(p1, m);
    FieldIs(p2, m);
    FieldIs(p3, m);
    FieldIs(p4, m);
    FieldIs(p5, m);
    var r5: seq<string> := [Line("fingerprint", HexPad(m.fingerprint, 16))] + [];
    var r4 := [Line("rows", DecText(m.rows))] + r5;
    var r3 := [Line("columns", DecText(m.columns))] + r4;
    var r2 := [Line("library_count", DecText(m.library_count))] + r3;
    var r1 := [Line("order_policy", m.order_policy)] + r2;
    LineParses("version", DecText(m.version), r1, NOTHING);
    LineParses("order_policy", m.order_policy, r2, p1);
    LineParses("library_count", DecText(m.library_count), r3, p2);
    LineParses("columns", DecText(m.columns), r4, p3);
    LineParses("rows", DecText(m.rows), r5, p4);
    LineParses("fingerprint", HexPad(m.fingerprint, 16), [], p5);
    assert ManifestLines(m) == [Line("version", DecText(m.version))] + r1;
    NothingLeft(p5.(fingerprint := Some(m.fingerprint)));
  }

  lemma NothingLeft(p: Partial)
    ensures ParseLines([], p) == Some(p)
  {}

  lemma FieldIs(p: Partial, m: Manifest)
    requires InRange(m)
    ensures Field(p, "version", DecText(m.version)) == p.(version := Some(m.version))
    ensures Field(p, "order_policy", m.order_policy) == p.(order_policy := Some(m.order_policy))
    ensures Field(p, "library_count", DecText(m.library_count)) == p.(library_count := Some(m.library_count))
    ensures Field(p, "columns", DecText(m.columns)) == p.(columns := Some(m.columns))
    ensures Field(p, "rows", DecText(m.rows)) == p.(rows := Some(m.rows))
    ensures Field(p, "fingerprint", HexPad(m.fingerprint, 16)) == p.(fingerprint := Some(m.fingerprint))
  {
    hide DecText, HexPad, ParseUnsigned, ParseHex;
    ParsePrinted(m.version, U32_MAX);
    ParsePrinted(m.library_count, USIZE_MAX);
    ParsePrinted(m.columns, USIZE_MAX);
    ParsePrinted(m.rows, USIZE_MAX);
    HexRoundTrip(m.fingerprint);
  }

  /** No policy that is read contains a newline. */
  lemma {:induction false} PolicyHasNoNewline(lines: seq<string>, p: Partial)
    requires forall i | 0 <= i < |lines| :: '\n' !in lines[i]
    requires p.order_policy.Some? ==> '\n' !in p.order_policy.value
    ensures ParseLines(lines, p).Some? && ParseLines(lines, p).value.order_policy.Some? ==> '\n' !in ParseLines(lines, p).value.order_policy.value
  {
    hide ParseUnsigned, ParseHex;
    if lines != [] {
      var key := Before(lines[0], '=');
      if |key| < |lines[0]| {
        PolicyHasNoNewline(lines[1..], Field(p, key, lines[0][|key| + 1..]));
      }
    }
  }

  /** A manifest comes back from its text exactly when its order policy is a clean line. */
  lemma ManifestRoundTrip(m: Manifest)
    requires InRange(m)
    ensures ManifestOf(WriteLines(ManifestLines(m))) == Some(m) <==> Clean(m.order_policy)
  {
    hide ManifestLines, Lines, WriteLines, ParseLines;
    var ls := ManifestLines(m);
    SixLines(m);
    OtherLinesClean(m);
    PolicyLineClean(m.order_policy);
    if Clean(m.order_policy) {
      forall i | 0 <= i < |ls| ensures Clean(ls[i]) {}
      LinesRoundTrip(ls);
      LinesParse(m);
    } else if '\n' in m.order_policy {
      LinesHaveNoNewline(WriteLines(ls));
      PolicyHasNoNewline(Lines(WriteLines(ls)), NOTHING);
      PolicyDefault();
    } else {
      StrippedPolicy(m);
    }
  }

  lemma SixLines(m: Manifest)
    ensures |ManifestLines(m)| == 6 && ManifestLines(m)[1] == Line("order_policy", m.order_policy)
  {}

  lemma PolicyDefault()
    ensures '\n' !in WORLD_ORDER_POLICY
  {}

  /** A policy that ends in a carriage return comes back without it. */
  lemma StrippedPolicy(m: Manifest)
    requires InRange(m) && '\n' !in m.order_policy && EndsInCR(m.order_policy)
    ensures ManifestOf(WriteLines(ManifestLines(m))) == Some(m.(order_policy := StripCR(m.order_policy)))
  {
    hide ManifestLines, Lines, WriteLines, ParseLines, Line, DecText, HexPad;
    var ls := ManifestLines(m);
    var stripped := m.(order_policy := StripCR(m.order_policy));
    SixLines(m);
    SixLines(stripped);
    OtherLinesClean(m);
    PolicyLine(m.order_policy);
    forall i | 0 <= i < |ls| ensures '\n' !in ls[i] {}
    ReadWritten(ls);
    SameOthers(m, stripped);
    assert Lines(WriteLines(ls)) == ManifestLines(stripped);
    LinesParse(stripped);
  }

  lemma PolicyLine(policy: string)
    requires '\n' !in policy && EndsInCR(policy)
    ensures '\n' !in Line("order_policy", policy) && StripCR(Line("order_policy", policy)) == Line("order_policy", StripCR(policy))
  {
    var line := Line("order_policy", policy);
    assert line == "order_policy=" + policy;
    assert line[..|line| - 1] == "order_policy=" + policy[..|policy| - 1];
  }

  lemma SameOthers(m: Manifest, n: Manifest)
    requires n == m.(order_policy := n.order_policy)
    ensures forall i | 0 <= i < 6 && i != 1 :: ManifestLines(n)[i] == ManifestLines(m)[i]
  {}
}
