/** Text files of lines, as they are written one after the other and read back. */
module TextLines {
  import opened Prelude

  /** Up to the first occurrence of a character, or the whole text. */
  function Before(s: string, c: char): (r: string)
    ensures c !in r && |r| <= |s| && r == s[..|r|]
    ensures |r| < |s| ==> s[|r|] == c
    ensures c !in s ==> r == s
  {
    if s == "" || s[0] == c then ""
    else
      assert s == [s[0]] + s[1..];
      [s[0]] + Before(s[1..], c)
  }

  lemma {:induction false} BeforeAt(a: string, c: char, b: string)
    requires c !in a
    ensures Before(a + [c] + b, c) == a
  {
    if a == "" {
      assert (a + [c] + b)[0] == c;
    } else {
      BeforeAt(a[1..], c, b);
      assert (a + [c] + b)[1..] == a[1..] + [c] + b;
      assert a == [a[0]] + a[1..];
    }
  }

  predicate EndsInCR(s: string) { s != "" && s[|s| - 1] == '\r' }
  function StripCR(s: string): string { if EndsInCR(s) then s[..|s| - 1] else s }

  /** `str::lines`: split at newlines, drop one carriage return before each, ignore an empty rest. */
  function Lines(text: string): seq<string> {
    if text == "" then []
    else
      var line := Before(text, '\n');
      if |line| == |text| then [line] else [StripCR(line)] + Lines(text[|line| + 1..])
  }

  function WriteLines(lines: seq<string>): string {
    if lines == [] then "" else lines[0] + "\n" + WriteLines(lines[1..])
  }

  /** The loop of `atomic_write_lines`. */
  method WriteText(lines: seq<string>) returns (text: string)
    ensures text == WriteLines(lines)
  {
    text := "";
    for i := 0 to |lines|
      invariant text == WriteLines(lines[..i])
    {
      WriteAppend(lines[..i], lines[i]);
      assert lines[..i + 1] == lines[..i] + [lines[i]];
      text := text + lines[i] + "\n";
    }
    assert lines[..|lines|] == lines;
  }

  lemma {:induction false} WriteAppend(lines: seq<string>, last: string)
    ensures WriteLines(lines + [last]) == WriteLines(lines) + last + "\n"
  {
    if lines == [] {
      assert lines + [last] == [last];
      assert WriteLines([last]) == last + "\n" + WriteLines([last][1..]);
      assert last + "\n" + "" == "" + last + "\n";
    } else {
      WriteAppend(lines[1..], last);
      assert (lines + [last])[1..] == lines[1..] + [last];
      var head := lines[0] + "\n";
      assert head + (WriteLines(lines[1..]) + last + "\n") == (head + WriteLines(lines[1..])) + last + "\n";
    }
  }

  /** A line that comes back as it was written. */
  predicate Clean(line: string) { '\n' !in line && !EndsInCR(line) }

  lemma LinesStep(line: string, rest: string)
    requires '\n' !in line
    ensures Lines(line + "\n" + rest) == [StripCR(line)] + Lines(rest)
  {
    hide StripCR;
    var all := line + "\n" + rest;
    BeforeAt(line, '\n', rest);
    assert line + ['\n'] + rest == all;
    assert all[|line| + 1..] == rest;
  }

  /** Reading one written line, then the rest. */
  lemma {:induction false} LinesOfWritten(line: string, rest: string)
    ensures Lines(line + "\n" + rest) == Lines(line + "\n") + Lines(rest)
    ensures |Lines(line + "\n")| >= 1
    ensures '\n' !in line ==> Lines(line + "\n") == [StripCR(line)]
    ensures '\n' in line ==> |Lines(line + "\n")| >= 2
    decreases |line|
  {
    hide StripCR, Lines;
    NoLines();
    assert line + "\n" + "" == line + "\n";
    if '\n' !in line {
      LinesStep(line, rest);
      LinesStep(line, "");
    } else {
      var first := Before(line, '\n');
      FirstNewline(line);
      var tail := line[|first| + 1..];
      assert line == first + "\n" + tail;
      LinesStep(first, tail + "\n" + rest);
      LinesStep(first, tail + "\n");
      assert first + "\n" + (tail + "\n" + rest) == line + "\n" + rest;
      assert first + "\n" + (tail + "\n") == line + "\n";
      LinesOfWritten(tail, rest);
      assert [StripCR(first)] + (Lines(tail + "\n") + Lines(rest)) == ([StripCR(first)] + Lines(tail + "\n")) + Lines(rest);
    }
  }

  lemma NoLines()
    ensures Lines("") == []
  {}

  lemma FirstNewline(line: string)
    requires '\n' in line
    ensures |Before(line, '\n')| < |line|
  {}

  lemma {:induction false} CountOfWritten(lines: seq<string>)
    ensures |Lines(WriteLines(lines))| >= |lines|
    ensures (exists i :: 0 <= i < |lines| && '\n' in lines[i]) ==> |Lines(WriteLines(lines))| > |lines|
  {
    hide Lines;
    if lines != [] {
      LinesOfWritten(lines[0], WriteLines(lines[1..]));
      CountOfWritten(lines[1..]);
      if i :| 0 <= i < |lines| && '\n' in lines[i] && i > 0 {
        assert lines[1..][i - 1] == lines[i];
      }
    }
  }

  /** What is read back when no line has a newline in it. */
  function Stripped(lines: seq<string>): (r: seq<string>)
    ensures |r| == |lines| && forall i | 0 <= i < |lines| :: r[i] == StripCR(lines[i])
  {
    seq(|lines|, i requires 0 <= i < |lines| => StripCR(lines[i]))
  }

  lemma {:induction false} ReadWritten(lines: seq<string>)
    requires forall i | 0 <= i < |lines| :: '\n' !in lines[i]
    ensures Lines(WriteLines(lines)) == Stripped(lines)
  {
    hide StripCR, Lines;
    NoLines();
    if lines != [] {
      LinesStep(lines[0], WriteLines(lines[1..]));
      ReadWritten(lines[1..]);
      assert Stripped(lines) == [StripCR(lines[0])] + Stripped(lines[1..]);
    }
  }

  /** Lists of lines come back from their file exactly when every line is clean. */
  lemma LinesRoundTrip(lines: seq<string>)
    ensures Lines(WriteLines(lines)) == lines <==> forall i | 0 <= i < |lines| :: Clean(lines[i])
  {
    if forall i | 0 <= i < |lines| :: '\n' !in lines[i] {
      ReadWritten(lines);
      if i :| 0 <= i < |lines| && EndsInCR(lines[i]) {
        assert |Lines(WriteLines(lines))[i]| < |lines[i]|;
      }
    } else {
      CountOfWritten(lines);
    }
  }

  /** A path that ends in a carriage return comes back without it. */
  lemma CarriageReturnIsLost()
    ensures Lines(WriteLines(["a\r"])) == ["a"]
  {
    LinesStep("a\r", "");
    assert WriteLines(["a\r"]) == "a\r" + "\n" + "";
  }

  // ---- fields separated by a character ----

  function Join(fields: seq<string>, c: char): string {
    if fields == [] then "" else if |fields| == 1 then fields[0] else fields[0] + [c] + Join(fields[1..], c)
  }

  function Split(s: string, c: char): (r: seq<string>)
    ensures r != [] && forall i | 0 <= i < |r| :: c !in r[i]
    ensures r == [""] <==> s == ""
  {
    var field := Before(s, c);
    if |field| == |s| then [field] else [field] + Split(s[|field| + 1..], c)
  }

  lemma {:induction false} SplitJoin(fields: seq<string>, c: char)
    requires fields != [] && forall i | 0 <= i < |fields| :: c !in fields[i]
    ensures Split(Join(fields, c), c) == fields
  {
    hide Before;
    if |fields| > 1 {
      SplitJoin(fields[1..], c);
      var rest, whole := Join(fields[1..], c), Join(fields, c);
      BeforeAt(fields[0], c, rest);
      assert whole == fields[0] + [c] + rest;
      assert whole[|fields[0]| + 1..] == rest;
      assert [fields[0]] + fields[1..] == fields;
    }
  }

  /** The text up to a character it has, the character, and the rest. */
  lemma BeforeParts(s: string, c: char)
    requires c in s
    ensures var n := |Before(s, c)|; n < |s| && Before(s, c) == s[..n] && s == s[..n] + [c] + s[n + 1..]
  {
    hide Before;
    var n := |Before(s, c)|;
    assert n == |s| ==> Before(s, c) == s;
    assert n < |s| ==> s[..n] + [s[n]] + s[n + 1..] == s;
  }

  lemma SplitStep(s: string, c: char)
    requires c in s
    ensures var n := |Before(s, c)|; n < |s| && Split(s, c) == [s[..n]] + Split(s[n + 1..], c)
  {
    hide Before;
    BeforeParts(s, c);
  }

  lemma SplitWhole(s: string, c: char)
    requires c !in s
    ensures Split(s, c) == [s]
  {}

  lemma JoinStep(field: string, fields: seq<string>, c: char)
    requires fields != []
    ensures Join([field] + fields, c) == field + [c] + Join(fields, c)
  {
    assert ([field] + fields)[1..] == fields;
  }

  lemma {:induction false} JoinSplit(s: string, c: char)
    ensures Join(Split(s, c), c) == s
    decreases |s|
  {
    hide Before, Split, Join;
    if c in s {
      BeforeParts(s, c);
      SplitStep(s, c);
      var n := |Before(s, c)|;
      JoinSplit(s[n + 1..], c);
      JoinStep(s[..n], Split(s[n + 1..], c), c);
    } else {
      SplitWhole(s, c);
      JoinOne(s, c);
    }
  }

  lemma JoinOne(field: string, c: char)
    ensures Join([field], c) == field
  {}

  lemma {:induction false} SplitElements(s: string, c: char, x: char)
    requires x !in s
    ensures forall i | 0 <= i < |Split(s, c)| :: x !in Split(s, c)[i]
    decreases |s|
  {
    var field := Before(s, c);
    if |field| < |s| {
      SplitElements(s[|field| + 1..], c, x);
    }
  }

  lemma {:induction false} JoinElements(fields: seq<string>, c: char, x: char)
    requires x != c && forall i | 0 <= i < |fields| :: x !in fields[i]
    ensures x !in Join(fields, c)
  {
    if |fields| > 1 {
      JoinElements(fields[1..], c, x);
    }
  }

  lemma {:induction false} LinesHaveNoNewline(text: string)
    ensures forall i | 0 <= i < |Lines(text)| :: '\n' !in Lines(text)[i]
    decreases |text|
  {
    if text != "" {
      var line := Before(text, '\n');
      if |line| < |text| {
        LinesHaveNoNewline(text[|line| + 1..]);
      }
    }
  }
}
