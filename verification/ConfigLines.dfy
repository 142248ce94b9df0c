/** normalize_config_lines of app/services/backup_diagnostics.py. */
module ConfigLines {
  import opened Text

  /** The two kinds of patterns that mark a line as volatile, left uninterpreted. */
  datatype Patterns = Patterns(timestamp: string -> bool, volatile: string -> bool)

  // ---------------------------------------------------------------- text and lines

  /** text.replace("\r\n", "\n") */
  function ReplaceCrLf(s: string): string {
    if |s| >= 2 && s[0] == '\r' && s[1] == '\n' then ['\n'] + ReplaceCrLf(s[2..])
    else if s == [] then []
    else [s[0]] + ReplaceCrLf(s[1..])
  }

  /** text.replace("\r", "\n") */
  function ReplaceCr(s: string): string {
    seq(|s|, i requires 0 <= i < |s| => if s[i] == '\r' then '\n' else s[i])
  }

  /** text.split("\n") */
  function Split(s: string): (lines: seq<string>)
    ensures lines != []
  {
    if s == [] then [[]]
    else
      var rest := Split(s[1..]);
      if s[0] == '\n' then [[]] + rest else [[s[0]] + rest[0]] + rest[1..]
  }

  function Lines(content: string): (lines: seq<string>)
    ensures lines != []
  {
    Split(ReplaceCr(ReplaceCrLf(content)))
  }

  function Join(lines: seq<string>): string {
    if lines == [] then []
    else if |lines| == 1 then lines[0]
    else lines[0] + ['\n'] + Join(lines[1..])
  }

  // ---------------------------------------------------------------- the two filters

  predicate Volatile(p: Patterns, line: string) {
    p.timestamp(line) || p.volatile(line)
  }

  predicate IsBlank(line: string) {
    Strip(line) == []
  }

  function Stable(p: Patterns, lines: seq<string>): seq<string> {
    if lines == [] then []
    else
      var line := RStrip(lines[|lines| - 1]);
      Stable(p, lines[..|lines| - 1]) + (if Volatile(p, line) then [] else [line])
  }

  /** Drops a blank line that follows a blank line. */
  function Compact(lines: seq<string>): seq<string> {
    if lines == [] then []
    else
      var k := |lines| - 1;
      Compact(lines[..k]) + (if k > 0 && IsBlank(lines[k]) && IsBlank(lines[k - 1]) then [] else [lines[k]])
  }

  function Normalized(p: Patterns, content: string): seq<string> {
    Compact(Stable(p, Lines(content)))
  }

  lemma StableNext(p: Patterns, lines: seq<string>, i: nat)
    requires i < |lines|
    ensures var line := RStrip(lines[i]);
            Stable(p, lines[..i + 1]) == Stable(p, lines[..i]) + (if Volatile(p, line) then [] else [line])
  {
    assert lines[..i + 1][..i] == lines[..i];
  }

  lemma CompactNext(lines: seq<string>, i: nat)
    requires i < |lines|
    ensures Compact(lines[..i + 1]) == Compact(lines[..i])
              + (if i > 0 && IsBlank(lines[i]) && IsBlank(lines[i - 1]) then [] else [lines[i]])
  {
    assert lines[..i + 1][..i] == lines[..i];
  }

  method NormalizeConfigLines(p: Patterns, content: string) returns (compact: seq<string>, dropped: nat)
    ensures compact == Normalized(p, content)
    ensures |compact| + dropped == |Lines(content)|
  {
    var lines := Lines(content);
    dropped := 0;
    var normalized: seq<string> := [];
    for i := 0 to |lines|
      invariant normalized == Stable(p, lines[..i])
      invariant |normalized| + dropped == i
    {
      StableNext(p, lines, i);
      var line := RStrip(lines[i]);
      if p.timestamp(line) {
        dropped := dropped + 1;
        continue;
      }
      if p.volatile(line) {
        dropped := dropped + 1;
        continue;
      }
      normalized := normalized + [line];
    }
    assert lines[..|lines|] == lines;
    compact := [];
    var blankStreak := 0;
    for i := 0 to |normalized|
      invariant compact == Compact(normalized[..i])
      invariant blankStreak > 0 <==> i > 0 && IsBlank(normalized[i - 1])
      invariant blankStreak >= 0
      invariant |compact| + dropped + (|normalized| - i) == |lines|
    {
      CompactNext(normalized, i);
      var line := normalized[i];
      if IsBlank(line) {
        blankStreak := blankStreak + 1;
        if blankStreak > 1 {
          dropped := dropped + 1;
          continue;
        }
      } else {
        blankStreak := 0;
      }
      compact := compact + [line];
    }
    assert normalized[..|normalized|] == normalized;
  }

  // ---------------------------------------------------------------- what comes out

  ghost predicate NoDoubleBlank(lines: seq<string>) {
    forall i | 0 < i < |lines| :: !(IsBlank(lines[i]) && IsBlank(lines[i - 1]))
  }

  lemma {:induction false} CompactShape(lines: seq<string>)
    ensures var c := Compact(lines);
            && NoDoubleBlank(c)
            && (forall l | l in c :: l in lines)
            && (lines != [] ==> c != [] && (IsBlank(c[|c| - 1]) <==> IsBlank(lines[|lines| - 1])))
    decreases |lines|
  {
    if lines != [] {
      CompactShape(lines[..|lines| - 1]);
    }
  }

  lemma {:induction false} CompactIdentity(lines: seq<string>)
    requires NoDoubleBlank(lines)
    ensures Compact(lines) == lines
    decreases |lines|
  {
    if lines != [] {
      CompactIdentity(lines[..|lines| - 1]);
    }
  }

  lemma {:induction false} RStripTwice(s: string)
    ensures RStrip(RStrip(s)) == RStrip(s)
    ensures forall c | c in RStrip(s) :: c in s
    decreases |s|
  {
    if s != [] && IsSpace(s[|s| - 1]) {
      RStripTwice(s[..|s| - 1]);
    }
  }

  /** A stored line: no line break inside, stripped on the right, not volatile. */
  ghost predicate CleanLine(p: Patterns, line: string) {
    '\n' !in line && '\r' !in line && RStrip(line) == line && !Volatile(p, line)
  }

  ghost predicate OneLine(line: string) {
    '\n' !in line && '\r' !in line
  }

  lemma {:induction false} StableShape(p: Patterns, lines: seq<string>)
    requires forall l | l in lines :: OneLine(l)
    ensures forall l | l in Stable(p, lines) :: CleanLine(p, l)
    decreases |lines|
  {
    if lines != [] {
      var last := lines[|lines| - 1];
      StableShape(p, lines[..|lines| - 1]);
      RStripTwice(last);
      assert last in lines;
    }
  }

  lemma {:induction false} StableIdentity(p: Patterns, lines: seq<string>)
    requires forall l | l in lines :: CleanLine(p, l)
    ensures Stable(p, lines) == lines
    decreases |lines|
  {
    if lines != [] {
      assert lines[|lines| - 1] in lines;
      StableIdentity(p, lines[..|lines| - 1]);
    }
  }

  lemma {:induction false} StableConcat(p: Patterns, a: seq<string>, b: seq<string>)
    ensures Stable(p, a + b) == Stable(p, a) + Stable(p, b)
    decreases |b|
  {
    if b == [] {
      assert a + b == a;
    } else {
      assert (a + b)[..|a + b| - 1] == a + b[..|b| - 1];
      StableConcat(p, a, b[..|b| - 1]);
    }
  }

  lemma {:induction false} StableOfVolatile(p: Patterns, lines: seq<string>)
    requires forall l | l in lines :: Volatile(p, RStrip(l))
    ensures Stable(p, lines) == []
    decreases |lines|
  {
    if lines != [] {
      assert lines[|lines| - 1] in lines;
      StableOfVolatile(p, lines[..|lines| - 1]);
    }
  }

  lemma {:induction false} SplitShape(s: string)
    ensures forall l | l in Split(s) :: '\n' !in l && forall c | c in l :: c in s
    decreases |s|
  {
    if s != [] {
      SplitShape(s[1..]);
      var rest := Split(s[1..]);
      assert rest[0] in rest;
      forall l | l in Split(s) ensures '\n' !in l && forall c | c in l :: c in s {
        if s[0] != '\n' && l == [s[0]] + rest[0] {
        } else if l != [] {
          assert l in rest;
        }
      }
    }
  }

  lemma LinesAreLines(content: string)
    ensures forall l | l in Lines(content) :: OneLine(l)
  {
    var text := ReplaceCr(ReplaceCrLf(content));
    SplitShape(text);
    assert '\r' !in text;
  }

  /** Stored lines are clean, and no two blank ones follow each other. */
  lemma NormalizedShape(p: Patterns, content: string)
    ensures NoDoubleBlank(Normalized(p, content))
    ensures forall l | l in Normalized(p, content) :: CleanLine(p, l)
  {
    LinesAreLines(content);
    StableShape(p, Lines(content));
    CompactShape(Stable(p, Lines(content)));
  }

  // ---------------------------------------------------------------- reading back what was stored

  lemma Associate(a: string, b: string, c: string)
    ensures a + (b + c) == (a + b) + c
  {
  }

  lemma {:induction false} ReplaceCrLfConcat(a: string, b: string)
    requires !(a != [] && a[|a| - 1] == '\r' && b != [] && b[0] == '\n')
    ensures ReplaceCrLf(a + b) == ReplaceCrLf(a) + ReplaceCrLf(b)
    decreases |a|
  {
    if a == [] {
      assert a + b == b;
    } else if |a| >= 2 && a[0] == '\r' && a[1] == '\n' {
      assert (a + b)[2..] == a[2..] + b;
      assert ReplaceCrLf(a + b) == ['\n'] + ReplaceCrLf(a[2..] + b);
      ReplaceCrLfConcat(a[2..], b);
      Associate(['\n'], ReplaceCrLf(a[2..]), ReplaceCrLf(b));
    } else {
      assert (a + b)[1..] == a[1..] + b;
      assert ReplaceCrLf(a + b) == [a[0]] + ReplaceCrLf(a[1..] + b);
      ReplaceCrLfConcat(a[1..], b);
      Associate([a[0]], ReplaceCrLf(a[1..]), ReplaceCrLf(b));
    }
  }

  lemma ReplaceCrConcat(a: string, b: string)
    ensures ReplaceCr(a + b) == ReplaceCr(a) + ReplaceCr(b)
  {
  }

  lemma {:induction false} SplitConcat(a: string, b: string)
    ensures Split(a + ['\n'] + b) == Split(a) + Split(b)
    decreases |a|
  {
    if a == [] {
      assert a + ['\n'] + b == ['\n'] + b;
      assert (['\n'] + b)[1..] == b;
    } else {
      assert (a + ['\n'] + b)[1..] == a[1..] + ['\n'] + b;
      SplitConcat(a[1..], b);
    }
  }

  function TrimCr(s: string): string {
    if s != [] && s[|s| - 1] == '\r' then s[..|s| - 1] else s
  }

  /** A line break, written "\n" or "\r\n", separates the lines before it from those after it. */
  lemma LinesConcat(a: string, b: string)
    ensures Lines(a + ['\n'] + b) == Lines(TrimCr(a)) + Lines(b)
  {
    var a' := TrimCr(a);
    var nl := if a' == a then ['\n'] else ['\r', '\n'];
    assert a + ['\n'] + b == a' + (nl + b);
    ReplaceCrLfConcat(a', nl + b);
    assert ReplaceCrLf(nl + b) == ['\n'] + ReplaceCrLf(b) by {
      assert (nl + b)[|nl|..] == b;
    }
    var x, y := ReplaceCrLf(a'), ReplaceCrLf(b);
    ReplaceCrConcat(x, ['\n'] + y);
    ReplaceCrConcat(['\n'], y);
    assert ReplaceCr(['\n']) == ['\n'];
    assert ReplaceCr(x) + (['\n'] + ReplaceCr(y)) == ReplaceCr(x) + ['\n'] + ReplaceCr(y);
    SplitConcat(ReplaceCr(x), ReplaceCr(y));
  }

  lemma {:induction false} LinesOfOneLine(line: string)
    requires OneLine(line)
    ensures ReplaceCrLf(line) == line && ReplaceCr(line) == line && Split(line) == [line]
    decreases |line|
  {
    if line != [] {
      assert line[0] in line;
      assert forall c :: c in line[1..] ==> c in line;
      LinesOfOneLine(line[1..]);
      assert |line| >= 2 ==> line[1] in line;
      assert line == [line[0]] + line[1..];
    }
  }

  lemma {:induction false} LinesOfJoin(lines: seq<string>)
    requires lines != [] && forall l | l in lines :: OneLine(l)
    ensures Lines(Join(lines)) == lines
    decreases |lines|
  {
    assert lines[0] in lines;
    LinesOfOneLine(lines[0]);
    if |lines| == 1 {
      assert lines == [lines[0]];
    } else {
      LinesOfJoin(lines[1..]);
      LinesConcat(lines[0], Join(lines[1..]));
      assert TrimCr(lines[0]) == lines[0] by {
        if lines[0] != [] { assert lines[0][|lines[0]| - 1] in lines[0]; }
      }
      assert lines == [lines[0]] + lines[1..];
    }
  }

  /** Normalising a stored, non-empty result again changes nothing and drops nothing. */
  lemma NormalizeTwice(p: Patterns, content: string)
    requires Normalized(p, content) != []
    ensures var stored := Normalized(p, content);
            Normalized(p, Join(stored)) == stored && Lines(Join(stored)) == stored
  {
    var stored := Normalized(p, content);
    NormalizedShape(p, content);
    LinesOfJoin(stored);
    StableIdentity(p, stored);
    CompactIdentity(stored);
  }

  // ---------------------------------------------------------------- volatile lines do not matter

  /** Volatile lines put in anywhere: the stored lines are the same, and that many more are dropped. */
  lemma VolatileLinesIgnored(p: Patterns, a: seq<string>, extra: seq<string>, b: seq<string>)
    requires a + b != [] && forall l | l in a + extra + b :: OneLine(l)
    requires forall l | l in extra :: Volatile(p, RStrip(l))
    ensures Normalized(p, Join(a + extra + b)) == Normalized(p, Join(a + b))
    ensures |Lines(Join(a + extra + b))| == |Lines(Join(a + b))| + |extra|
  {
    forall l | l in a + b ensures OneLine(l) {
      assert l in a + extra + b;
    }
    LinesOfJoin(a + extra + b);
    LinesOfJoin(a + b);
    StableConcat(p, a + extra, b);
    StableConcat(p, a, extra);
    StableConcat(p, a, b);
    StableOfVolatile(p, extra);
    assert Stable(p, a) + [] == Stable(p, a);
  }

  /** The same for one volatile line put between two arbitrary pieces of text, whatever their line breaks. */
  lemma VolatileLineInText(p: Patterns, x: string, line: string, y: string)
    requires OneLine(line) && Volatile(p, RStrip(line))
    ensures Normalized(p, x + ['\n'] + (line + ['\n'] + y)) == Normalized(p, x + ['\n'] + y)
    ensures |Lines(x + ['\n'] + (line + ['\n'] + y))| == |Lines(x + ['\n'] + y)| + 1
  {
    var before, after := Lines(TrimCr(x)), Lines(y);
    LineBetween(x, line, y);
    StableConcat(p, before, [line] + after);
    StableConcat(p, [line], after);
    StableConcat(p, before, after);
    StableOfVolatile(p, [line]);
    assert [] + Stable(p, after) == Stable(p, after);
  }

  lemma LineBetween(x: string, line: string, y: string)
    requires OneLine(line)
    ensures Lines(x + ['\n'] + (line + ['\n'] + y)) == Lines(TrimCr(x)) + ([line] + Lines(y))
    ensures Lines(x + ['\n'] + y) == Lines(TrimCr(x)) + Lines(y)
  {
    LinesConcat(x, line + ['\n'] + y);
    LinesConcat(line, y);
    LinesConcat(x, y);
    assert TrimCr(line) == line by {
      if line != [] { assert line[|line| - 1] in line; }
    }
    LinesOfOneLine(line);
  }

  // ---------------------------------------------------------------- nothing else is lost

  /** The lines that are not blank. */
  function Solid(lines: seq<string>): seq<string> {
    if lines == [] then []
    else Solid(lines[..|lines| - 1]) + (if IsBlank(lines[|lines| - 1]) then [] else [lines[|lines| - 1]])
  }

  /** The lines of a text that are neither volatile nor blank, without the white space at their ends. */
  function Wanted(p: Patterns, lines: seq<string>): seq<string> {
    if lines == [] then []
    else
      var line := RStrip(lines[|lines| - 1]);
      Wanted(p, lines[..|lines| - 1]) + (if Volatile(p, line) || IsBlank(line) then [] else [line])
  }

  lemma {:induction false} SolidConcat(a: seq<string>, b: seq<string>)
    ensures Solid(a + b) == Solid(a) + Solid(b)
    decreases |b|
  {
    if b == [] {
      assert a + b == a;
    } else {
      assert (a + b)[..|a + b| - 1] == a + b[..|b| - 1];
      SolidConcat(a, b[..|b| - 1]);
    }
  }

  lemma OneSolid(line: string)
    ensures Solid([line]) == if IsBlank(line) then [] else [line]
  {
    assert [line][..0] == [];
  }

  lemma {:induction false} SolidCompact(lines: seq<string>)
    ensures Solid(Compact(lines)) == Solid(lines)
    decreases |lines|
  {
    if lines != [] {
      var k := |lines| - 1;
      var last := if k > 0 && IsBlank(lines[k]) && IsBlank(lines[k - 1]) then [] else [lines[k]];
      SolidCompact(lines[..k]);
      SolidConcat(Compact(lines[..k]), last);
      OneSolid(lines[k]);
      assert Solid(last) == if IsBlank(lines[k]) then [] else [lines[k]];
    }
  }

  lemma {:induction false} SolidStable(p: Patterns, lines: seq<string>)
    ensures Solid(Stable(p, lines)) == Wanted(p, lines)
    decreases |lines|
  {
    if lines != [] {
      var k := |lines| - 1;
      var line := RStrip(lines[k]);
      var last := if Volatile(p, line) then [] else [line];
      SolidStable(p, lines[..k]);
      SolidConcat(Stable(p, lines[..k]), last);
      OneSolid(line);
      assert Solid(last) == if Volatile(p, line) || IsBlank(line) then [] else [line];
    }
  }

  /** Every line that is neither volatile nor blank is stored, in order and once, and nothing else but blank lines. */
  lemma ContentKept(p: Patterns, content: string)
    ensures Solid(Normalized(p, content)) == Wanted(p, Lines(content))
  {
    SolidCompact(Stable(p, Lines(content)));
    SolidStable(p, Lines(content));
  }

  /** A carriage return alone is a line break too. */
  lemma LoneReturnBreaks(a: string, b: string)
    requires b == [] || b[0] != '\n'
    ensures Lines(a + ['\r'] + b) == Lines(a) + Lines(b)
  {
    ReplaceCrLfConcat(a, ['\r'] + b);
    assert a + ['\r'] + b == a + (['\r'] + b);
    assert (['\r'] + b)[1..] == b;
    var x, y := ReplaceCrLf(a), ReplaceCrLf(b);
    assert ReplaceCrLf(['\r'] + b) == ['\r'] + y;
    ReplaceCrConcat(x, ['\r'] + y);
    ReplaceCrConcat(['\r'], y);
    assert ReplaceCr(['\r']) == ['\n'];
    assert ReplaceCr(x) + (['\n'] + ReplaceCr(y)) == ReplaceCr(x) + ['\n'] + ReplaceCr(y);
    SplitConcat(ReplaceCr(x), ReplaceCr(y));
  }
}
