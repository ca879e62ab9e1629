/** What is stored as text: a layout's history, the world manifest, and the library snapshot. */
module Persistence {
  import opened Prelude
  import opened JsonGrammar
  import opened Decimal
  import opened TextLines
  import opened WorldGrid
  import H = History
  import L = LayoutStates

  // ---- numbers in files ----

  /** Unicode white space, as `trim` removes it. */
  predicate IsSpace(c: char) {
    var n := c as int;
    9 <= n <= 13 || n == 0x20 || n == 0x85 || n == 0xa0 || n == 0x1680 || 0x2000 <= n <= 0x200a
    || n == 0x2028 || n == 0x2029 || n == 0x202f || n == 0x205f || n == 0x3000
  }

  function TrimStart(s: string): string { if s != "" && IsSpace(s[0]) then TrimStart(s[1..]) else s }
  function TrimEnd(s: string): string { if s != "" && IsSpace(s[|s| - 1]) then TrimEnd(s[..|s| - 1]) else s }
  function Trim(s: string): string { TrimEnd(TrimStart(s)) }

  /** `read_usize`. */
  function ReadUsize(text: string): nat {
    match ParseUnsigned(Trim(text), USIZE_MAX)
    case Some(n) => n
    case None => 0
  }

  function WriteUsize(n: nat): string { DecText(n) + "\n" }

  lemma {:induction false} DigitsNotSpace(s: string, i: nat)
    requires IsDigits(s) && i < |s|
    ensures IsDigit(s[i]) && !IsSpace(s[i])
  {
    if i > 0 {
      DigitsNotSpace(s[1..], i - 1);
    }
  }

  lemma UsizeRoundTrip(n: usize)
    ensures ReadUsize(WriteUsize(n)) == n
  {
    var s := DecText(n);
    DigitsNotSpace(s, 0);
    DigitsNotSpace(s, |s| - 1);
    assert (s + "\n")[..|s|] == s && (s + "\n")[|s|] == '\n';
    assert TrimStart(s + "\n") == s + "\n";
    assert TrimEnd(s + "\n") == TrimEnd(s) == s;
    ParsePrinted(n, USIZE_MAX);
  }

  // ---- layouts ----

  datatype LayoutFiles = LayoutFiles(history: string, index: string, offset: string)

  function Joined(rows: seq<H.Row>): seq<string> {
    seq(|rows|, i requires 0 <= i < |rows| => Join(rows[i], '\t'))
  }

  function NonEmpty(lines: seq<string>): (r: seq<string>)
    ensures |r| <= |lines| && forall i | 0 <= i < |r| :: r[i] != "" && r[i] in lines
    ensures |r| == |lines| ==> r == lines
  {
    if lines == [] then []
    else
      assert lines == [lines[0]] + lines[1..];
      if lines[0] == "" then NonEmpty(lines[1..]) else [lines[0]] + NonEmpty(lines[1..])
  }

  function RowsOf(lines: seq<string>): (r: seq<H.Row>)
    ensures |r| == |lines|
  {
    seq(|lines|, i requires 0 <= i < |lines| => Split(lines[i], '\t'))
  }

  function WriteHistory(rows: seq<H.Row>): string { WriteLines(Joined(rows)) }
  function ReadHistory(text: string): seq<H.Row> { RowsOf(NonEmpty(Lines(text))) }

  /** A row that comes back: entries free of tab and newline, not just one empty entry, no carriage
      return at the end. */
  predicate RowOk(row: H.Row) {
    && row != [] && row != [""]
    && (forall i | 0 <= i < |row| :: '\t' !in row[i] && '\n' !in row[i])
    && !EndsInCR(row[|row| - 1])
  }

  lemma {:induction false} JoinEmpty(row: H.Row)
    ensures Join(row, '\t') == "" <==> row == [] || row == [""]
  {
    if |row| > 1 {
      assert Join(row, '\t')[|row[0]|] == '\t';
    }
  }

  lemma {:induction false} JoinEnd(row: H.Row)
    requires row != []
    ensures EndsInCR(Join(row, '\t')) <==> EndsInCR(row[|row| - 1])
  {
    if |row| > 1 {
      JoinEnd(row[1..]);
      var rest := Join(row[1..], '\t');
      if rest == "" {
        JoinEmpty(row[1..]);
        assert Join(row, '\t') == row[0] + ['\t'];
      } else {
        assert Join(row, '\t')[|Join(row, '\t')| - 1] == rest[|rest| - 1];
      }
    }
  }

  lemma {:induction false} NonEmptyAll(lines: seq<string>)
    requires forall i | 0 <= i < |lines| :: lines[i] != ""
    ensures NonEmpty(lines) == lines
  {
    if lines != [] {
      NonEmptyAll(lines[1..]);
    }
  }

  /** Rows that are in order come back. */
  lemma RowsComeBack(rows: seq<H.Row>)
    requires forall i | 0 <= i < |rows| :: RowOk(rows[i])
    ensures ReadHistory(WriteHistory(rows)) == rows
  {
    hide Join, Split, Lines, WriteLines, EndsInCR;
    forall i | 0 <= i < |rows| ensures Clean(Joined(rows)[i]) && Joined(rows)[i] != "" && Split(Joined(rows)[i], '\t') == rows[i] {
      JoinEmpty(rows[i]);
      JoinEnd(rows[i]);
      JoinElements(rows[i], '\t', '\n');
      SplitJoin(rows[i], '\t');
    }
    LinesRoundTrip(Joined(rows));
    NonEmptyAll(Joined(rows));
  }

  /** Every row that is read is in order, but for a carriage return. */
  lemma ReadRows(text: string)
    ensures forall i | 0 <= i < |ReadHistory(text)| ::
      var row := ReadHistory(text)[i];
      row != [] && row != [""] && forall k | 0 <= k < |row| :: '\t' !in row[k] && '\n' !in row[k]
  {
    hide Split, Lines;
    LinesHaveNoNewline(text);
    var lines := NonEmpty(Lines(text));
    forall i | 0 <= i < |lines|
      ensures var row := ReadHistory(text)[i]; row != [] && row != [""] && forall k | 0 <= k < |row| :: '\t' !in row[k] && '\n' !in row[k]
    {
      SplitElements(lines[i], '\t', '\n');
    }
  }

  /** A history comes back from its file exactly when every row is in order. */
  lemma HistoryRoundTrip(rows: seq<H.Row>)
    ensures ReadHistory(WriteHistory(rows)) == rows <==> forall i | 0 <= i < |rows| :: RowOk(rows[i])
  {
    hide Join, Split, Lines, WriteLines, EndsInCR, StripCR;
    if forall i | 0 <= i < |rows| :: RowOk(rows[i]) {
      RowsComeBack(rows);
    } else if ReadHistory(WriteHistory(rows)) == rows {
      ReadRows(WriteHistory(rows));
      NoCarriageReturns(rows);
      forall i | 0 <= i < |rows| ensures RowOk(rows[i]) {
        JoinEnd(rows[i]);
      }
    }
  }

  lemma NoCarriageReturns(rows: seq<H.Row>)
    requires ReadHistory(WriteHistory(rows)) == rows
    requires forall i | 0 <= i < |rows| :: forall k | 0 <= k < |rows[i]| :: '\n' !in rows[i][k]
    ensures forall i | 0 <= i < |rows| :: !EndsInCR(Join(rows[i], '\t'))
  {
    hide Join, Split, Lines, WriteLines;
    var joined := Joined(rows);
    forall i | 0 <= i < |joined| ensures '\n' !in joined[i] {
      JoinElements(rows[i], '\t', '\n');
    }
    ReadWritten(joined);
    var lines := Lines(WriteLines(joined));
    assert |NonEmpty(lines)| == |rows| == |lines|;
    forall i | 0 <= i < |rows| ensures !EndsInCR(Join(rows[i], '\t')) {
      assert Split(lines[i], '\t') == rows[i] && lines[i] == StripCR(joined[i]);
      JoinSplit(lines[i], '\t');
    }
  }

  function WriteLayout(l: H.Layout): LayoutFiles { LayoutFiles(WriteHistory(l.history), WriteUsize(l.idx), WriteUsize(l.offset)) }

  function ReadLayout(files: LayoutFiles, out_count: nat, max_history: nat): H.Layout {
    L.LoadLayout(L.SavedLayout(ReadHistory(files.history), ReadUsize(files.index), ReadUsize(files.offset)), out_count, max_history)
  }

  /** A layout comes back from its files exactly when its rows are in order, its index is at least one
      unless there is no history, and its offset is within a row. */
  lemma LayoutRoundTrip(l: H.Layout)
    requires l.out_count > 0 && l.idx <= USIZE_MAX && l.offset <= USIZE_MAX
    ensures ReadLayout(WriteLayout(l), l.out_count, l.max_history) == l <==>
      (forall i | 0 <= i < |l.history| :: RowOk(l.history[i])) && (l.idx >= 1 || l.history == []) && l.offset < l.out_count
  {
    hide ReadHistory, WriteHistory, RowOk, ReadUsize, WriteUsize;
    HistoryRoundTrip(l.history);
    UsizeRoundTrip(l.idx);
    UsizeRoundTrip(l.offset);
  }

  // ---- the library snapshot ----

  datatype Snapshot = Snapshot(library: seq<string>, columns: nat, rows: nat, fingerprint: nat)
  type Fingerprint = seq<string> -> nat

  /** `world_cache_snapshot_for_library`. */
  function SnapshotFor(library: seq<string>, fingerprint: Fingerprint): Snapshot
    requires |library| <= USIZE_MAX
  {
    var columns := AutoColumns(|library|);
    Snapshot(library, columns, DivCeil(|library|, columns), fingerprint(library))
  }

  datatype Manifest = Manifest(version: nat, order_policy: string, library_count: nat, columns: nat, rows: nat, fingerprint: nat)
  datatype Indexed = Found(snapshot: Snapshot) | NotFound | Mismatch

  const WORLD_CACHE_VERSION: nat := 1
  const WORLD_ORDER_POLICY: string := "path-snapshot-v1"

  function ManifestFor(s: Snapshot): Manifest {
    Manifest(WORLD_CACHE_VERSION, WORLD_ORDER_POLICY, |s.library|, s.columns, s.rows, s.fingerprint)
  }

  /** `read_world_cache_snapshot_by_manifest`: the file is looked up by the manifest's fingerprint. */
  function ReadByManifest(files: map<nat, string>, m: Manifest, fingerprint: Fingerprint): Indexed
    requires forall f | f in files :: |Lines(files[f])| <= USIZE_MAX
  {
    if m.fingerprint !in files then NotFound
    else
      var s := SnapshotFor(Lines(files[m.fingerprint]), fingerprint);
      if |s.library| != m.library_count || s.columns != m.columns || s.rows != m.rows || s.fingerprint != m.fingerprint then Mismatch else Found(s)
  }

  /** An indexed library is found again by its manifest, the same in paths, count, columns, rows and
      fingerprint, if and only if its paths are clean lines. */
  lemma IndexedSnapshotReads(library: seq<string>, fingerprint: Fingerprint, files: map<nat, string>)
    requires |library| <= USIZE_MAX
    requires forall f | f in files :: |Lines(files[f])| <= USIZE_MAX
    requires files.Items >= {(fingerprint(library), WriteLines(library))}
    ensures ReadByManifest(files, ManifestFor(SnapshotFor(library, fingerprint)), fingerprint) == Found(SnapshotFor(library, fingerprint))
      <==> forall i | 0 <= i < |library| :: Clean(library[i])
  {
    LinesRoundTrip(library);
    assert (fingerprint(library), WriteLines(library)) in files.Items;
  }
}
