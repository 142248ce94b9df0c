/** A mysqldump-style printer, and the proof that the reader returns exactly what was printed. */
module DumpRoundTrip {
  import opened Text
  import opened Wrappers
  import opened DumpReader

  // ---------------------------------------------------------------- the printer

  predicate Printable(row: Row) {
    forall i | 0 <= i < |row| :: row[i].Null? || row[i].Int? || row[i].Str?
  }

  predicate AllPrintable(rows: seq<Row>) {
    forall i | 0 <= i < |rows| :: Printable(rows[i])
  }

  /** The letter a dump may write after a backslash for c. */
  function Code(c: char): char {
    match c
    case '\0' => '0'
    case '\U{8}' => 'b'
    case '\n' => 'n'
    case '\r' => 'r'
    case '\t' => 't'
    case '\U{1A}' => 'Z'
    case _ => c
  }

  /** Characters that have an escape sequence at all. */
  predicate HasCode(c: char) {
    Code(c) != c || c == '"'
  }

  /** Quotes and backslashes must be escaped; which other special characters are is the dumper's choice. */
  predicate IsEscaped(c: char, extra: set<char>) {
    c == '\\' || c == '\'' || (c in extra && HasCode(c))
  }

  function EscapeChar(c: char, extra: set<char>): string {
    if IsEscaped(c, extra) then ['\\', Code(c)] else [c]
  }

  function Escape(s: string, extra: set<char>): string {
    if s == [] then [] else EscapeChar(s[0], extra) + Escape(s[1..], extra)
  }

  function IntText(n: int): string {
    if n < 0 then "-" + NatText(-n) else NatText(n)
  }

  function ValueText(v: Value, extra: set<char>): string
    requires v.Null? || v.Int? || v.Str?
  {
    match v
    case Null => "NULL"
    case Int(n) => IntText(n)
    case Str(s) => "'" + Escape(s, extra) + "'"
  }

  function Comma(i: nat): string {
    if i == 0 then [] else ","
  }

  /** The cells from index i on, each but the first of the row preceded by a comma. */
  function CellsText(row: Row, i: nat, extra: set<char>): string
    requires Printable(row) && i <= |row|
    decreases |row| - i
  {
    if i == |row| then []
    else Comma(i) + ValueText(row[i], extra) + CellsText(row, i + 1, extra)
  }

  function RowText(row: Row, extra: set<char>): string
    requires Printable(row)
  {
    "(" + CellsText(row, 0, extra) + ")"
  }

  function RowsText(rows: seq<Row>, i: nat, extra: set<char>): string
    requires AllPrintable(rows) && i <= |rows|
    decreases |rows| - i
  {
    if i == |rows| then []
    else Comma(i) + RowText(rows[i], extra) + RowsText(rows, i + 1, extra)
  }

  function Statement(needle: string, rows: seq<Row>, extra: set<char>): string
    requires AllPrintable(rows)
  {
    needle + (" " + RowsText(rows, 0, extra) + ";")
  }

  /** INSERT statements for one table with other text (comments, DDL, other tables) between them. */
  function DumpText(needle: string, stmts: seq<seq<Row>>, gaps: seq<string>, extra: set<char>): string
    requires |gaps| == |stmts| + 1
    requires forall k | 0 <= k < |stmts| :: AllPrintable(stmts[k])
  {
    if stmts == [] then gaps[0]
    else gaps[0] + Statement(needle, stmts[0], extra) + DumpText(needle, stmts[1..], gaps[1..], extra)
  }

  function Flatten(stmts: seq<seq<Row>>): seq<Row> {
    if stmts == [] then [] else stmts[0] + Flatten(stmts[1..])
  }

  // ---------------------------------------------------------------- reading one quoted string

  lemma {:induction false} UnescapeEscape(s: string, extra: set<char>, text: string, i: nat, out: string)
    requires i + |Escape(s, extra)| == |text| && text[i..] == Escape(s, extra)
    ensures UnescapeFrom(text, i, out) == out + s
    decreases |s|
  {
    if s == [] {
    } else {
      var head := EscapeChar(s[0], extra);
      assert text[i..][..|head|] == head;
      assert text[i] == head[0];
      assert IsEscaped(s[0], extra) ==> text[i + 1] == Code(s[0]) && Unescaped(Code(s[0])) == s[0];
      assert text[i + |head|..] == Escape(s[1..], extra);
      UnescapeEscape(s[1..], extra, text, i + |head|, out + [s[0]]);
      assert (out + [s[0]]) + s[1..] == out + s;
    }
  }

  lemma {:induction false} ParseRunConcat(st: ParseState, a: string, b: string)
    ensures ParseRun(st, a + b) == ParseRun(ParseRun(st, a), b)
    decreases |a|
  {
    if a == [] {
      assert a + b == b;
    } else {
      assert (a + b)[1..] == a[1..] + b;
      ParseRunConcat(ParseStep(st, a[0]), a[1..], b);
    }
  }

  function LexRun(lex: Lex, s: string): Lex
    decreases |s|
  {
    if s == [] then lex else LexRun(LexStep(lex, s[0]), s[1..])
  }

  /** No character of s ends a block when reading starts in state lex. */
  predicate Quiet(lex: Lex, s: string)
    decreases |s|
  {
    s == [] || (!Stops(lex, s[0]) && Quiet(LexStep(lex, s[0]), s[1..]))
  }

  lemma {:induction false} QuietConcat(lex: Lex, a: string, b: string)
    requires Quiet(lex, a) && Quiet(LexRun(lex, a), b)
    ensures Quiet(lex, a + b) && LexRun(lex, a + b) == LexRun(LexRun(lex, a), b)
    decreases |a|
  {
    if a == [] {
      assert a + b == b;
    } else {
      assert (a + b)[1..] == a[1..] + b;
      QuietConcat(LexStep(lex, a[0]), a[1..], b);
    }
  }

  /** Reading s from state st appends s to the current cell, changes nothing else and never ends the block. */
  ghost predicate Absorbs(st: ParseState, s: string) {
    && ParseRun(st, s) == st.(cell := st.cell + s)
    && Quiet(st.lex, s) && LexRun(st.lex, s) == st.lex
  }

  lemma AbsorbsConcat(st: ParseState, a: string, b: string)
    requires Absorbs(st, a) && Absorbs(st.(cell := st.cell + a), b)
    ensures Absorbs(st, a + b)
  {
    ParseRunConcat(st, a, b);
    QuietConcat(st.lex, a, b);
    assert (st.cell + a) + b == st.cell + (a + b);
  }

  predicate IsPlain(c: char) {
    c !in {'\\', '\'', '(', ')', ',', ';'}
  }

  lemma {:induction false} AbsorbPlain(st: ParseState, s: string)
    requires st.lex == Lex(false, false, 1)
    requires forall i | 0 <= i < |s| :: IsPlain(s[i])
    ensures Absorbs(st, s)
    decreases |s|
  {
    if s == [] {
      assert st.cell + s == st.cell;
    } else {
      assert IsPlain(s[0]);
      assert ParseStep(st, s[0]) == st.(cell := st.cell + [s[0]]);
      AbsorbPlain(st.(cell := st.cell + [s[0]]), s[1..]);
      assert (st.cell + [s[0]]) + s[1..] == st.cell + s;
    }
  }

  lemma AbsorbInString(st: ParseState, c: char, extra: set<char>)
    requires st.lex == Lex(true, false, 1)
    ensures Absorbs(st, EscapeChar(c, extra))
  {
    if IsEscaped(c, extra) {
      var mid := st.(cell := st.cell + ['\\'], lex := Lex(true, true, 1));
      assert ParseStep(st, '\\') == mid;
      assert ParseStep(mid, Code(c)) == st.(cell := st.cell + ['\\'] + [Code(c)]);
      assert ['\\', Code(c)][1..] == [Code(c)] && [Code(c)][1..] == [];
      assert st.cell + ['\\'] + [Code(c)] == st.cell + ['\\', Code(c)];
      assert ParseRun(mid, [Code(c)]) == ParseRun(ParseStep(mid, Code(c)), []);
      assert LexRun(mid.lex, [Code(c)]) == st.lex && Quiet(mid.lex, [Code(c)]);
    } else {
      assert [c][1..] == [];
      assert ParseRun(st, [c]) == ParseRun(ParseStep(st, c), []);
    }
  }

  lemma {:induction false} AbsorbEscaped(st: ParseState, s: string, extra: set<char>)
    requires st.lex == Lex(true, false, 1)
    ensures Absorbs(st, Escape(s, extra))
    decreases |s|
  {
    if s == [] {
      assert st.cell + [] == st.cell;
    } else {
      var head := EscapeChar(s[0], extra);
      AbsorbInString(st, s[0], extra);
      AbsorbEscaped(st.(cell := st.cell + head), s[1..], extra);
      AbsorbsConcat(st, head, Escape(s[1..], extra));
    }
  }

  lemma AbsorbQuoted(st: ParseState, s: string, extra: set<char>)
    requires st.lex == Lex(false, false, 1)
    ensures Absorbs(st, "'" + Escape(s, extra) + "'")
  {
    var body := Escape(s, extra);
    var open := st.(cell := st.cell + "'", lex := Lex(true, false, 1));
    AbsorbEscaped(open, s, extra);
    var full := open.(cell := open.cell + body);
    ReadOne(st, '\'');
    ReadOne(full, '\'');
    ParseRunConcat(st, "'", body);
    ParseRunConcat(st, "'" + body, "'");
    QuietConcat(st.lex, "'", body);
    QuietConcat(st.lex, "'" + body, "'");
    assert full.cell + "'" == st.cell + ("'" + body + "'");
  }

  lemma ReadOne(st: ParseState, c: char)
    ensures ParseRun(st, [c]) == ParseStep(st, c) && LexRun(st.lex, [c]) == LexStep(st.lex, c)
    ensures Quiet(st.lex, [c]) <==> !Stops(st.lex, c)
  {
    assert [c][0] == c && [c][1..] == [];
    assert ParseRun(ParseStep(st, c), []) == ParseStep(st, c);
  }

  // ---------------------------------------------------------------- one cell

  lemma {:induction false} NatTextPlain(n: nat)
    ensures var t := NatText(n);
            t != [] && IsNatText(t) && NatValue(t) == n
            && forall i | 0 <= i < |t| :: IsPlain(t[i]) && !IsSpace(t[i]) && t[i] != '-'
  {
    NatTextValue(n);
    var t := NatText(n);
    forall i | 0 <= i < |t| ensures IsPlain(t[i]) && !IsSpace(t[i]) && t[i] != '-' {
      assert IsDigit(t[i]);
    }
  }

  lemma IntTextReads(n: int)
    ensures var t := IntText(n);
            t != [] && IsIntText(t) && IntValue(t) == n
            && forall i | 0 <= i < |t| :: IsPlain(t[i]) && !IsSpace(t[i])
  {
    var m := if n < 0 then -n else n;
    NatTextPlain(m);
    var t := IntText(n);
    if n < 0 {
      assert t[1..] == NatText(m);
      forall i | 0 <= i < |t| ensures IsPlain(t[i]) && !IsSpace(t[i]) {
        assert i == 0 ==> t[i] == '-';
        assert i > 0 ==> t[i] == NatText(m)[i - 1];
      }
    }
  }

  /** Every printed cell is recognised as the value it was printed from. */
  lemma ScalarRoundTrip(v: Value, extra: set<char>)
    requires v.Null? || v.Int? || v.Str?
    ensures ValueText(v, extra) != [] && ParseScalar(Strip(ValueText(v, extra))) == v
  {
    var t := ValueText(v, extra);
    match v {
      case Null =>
        StripSolid(t);
      case Int(n) =>
        IntTextReads(n);
        StripSolid(t);
        assert t[0] != '\'' by { assert IsPlain(t[0]); }
        assert t != "NULL" by { assert t[0] == '-' || IsDigit(t[0]); }
      case Str(str) =>
        StripSolid(t);
        assert t[0] == '\'' && t[1..|t| - 1] == Escape(str, extra);
        UnescapeEscape(str, extra, Escape(str, extra), 0, []);
        assert [] + str == str;
    }
  }

  lemma AbsorbValue(st: ParseState, v: Value, extra: set<char>)
    requires st.lex == Lex(false, false, 1)
    requires v.Null? || v.Int? || v.Str?
    ensures Absorbs(st, ValueText(v, extra))
  {
    match v {
      case Null => AbsorbPlain(st, "NULL");
      case Int(n) => IntTextReads(n); AbsorbPlain(st, IntText(n));
      case Str(str) => AbsorbQuoted(st, str, extra);
    }
  }

  // ---------------------------------------------------------------- one row, one block

  /** Reading s takes the parser from st to next, and the block scanner reads s without stopping. */
  ghost predicate Reads(st: ParseState, s: string, next: ParseState) {
    ParseRun(st, s) == next && Quiet(st.lex, s) && LexRun(st.lex, s) == next.lex
  }

  lemma ReadsConcat(st: ParseState, a: string, mid: ParseState, b: string, next: ParseState)
    requires Reads(st, a, mid) && Reads(mid, b, next)
    ensures Reads(st, a + b, next)
  {
    ParseRunConcat(st, a, b);
    QuietConcat(st.lex, a, b);
  }

  /** The parser state in front of cell i of a row: the cells before the last one read are stored. */
  function AtCell(rows: seq<Row>, row: Row, i: nat, extra: set<char>): ParseState
    requires Printable(row) && i <= |row|
  {
    if i == 0 then ParseState(rows, [], [], Lex(false, false, 1))
    else ParseState(rows, row[..i - 1], ValueText(row[i - 1], extra), Lex(false, false, 1))
  }

  lemma ReadCell(rows: seq<Row>, row: Row, i: nat, extra: set<char>)
    requires Printable(row) && i < |row|
    ensures Reads(AtCell(rows, row, i, extra), Comma(i) + ValueText(row[i], extra),
                  AtCell(rows, row, i + 1, extra))
  {
    var st := AtCell(rows, row, i, extra);
    var ready := ParseState(rows, row[..i], [], Lex(false, false, 1));
    var text := ValueText(row[i], extra);
    AbsorbValue(ready, row[i], extra);
    assert [] + text == text;
    if i == 0 {
      assert st == ready;
    } else {
      ScalarRoundTrip(row[i - 1], extra);
      ReadOne(st, ',');
      assert row[..i - 1] + [row[i - 1]] == row[..i];
      ReadsConcat(st, ",", ready, text, AtCell(rows, row, i + 1, extra));
    }
  }

  lemma ConcatAssoc<T>(a: seq<T>, b: seq<T>, c: seq<T>)
    ensures a + b + c == a + (b + c)
  {
  }

  lemma {:induction false} ReadCells(rows: seq<Row>, row: Row, i: nat, extra: set<char>)
    requires Printable(row) && i <= |row|
    ensures Reads(AtCell(rows, row, i, extra), CellsText(row, i, extra) + ")",
                  ParseState(rows + [row], row, [], OUTSIDE))
    decreases |row| - i
  {
    var st := AtCell(rows, row, i, extra);
    var next := ParseState(rows + [row], row, [], OUTSIDE);
    if i == |row| {
      ReadOne(st, ')');
      assert [] + ")" == ")";
      if i > 0 {
        ScalarRoundTrip(row[i - 1], extra);
        assert row[..i - 1] + [row[i - 1]] == row;
      }
    } else {
      var head := Comma(i) + ValueText(row[i], extra);
      var tail := CellsText(row, i + 1, extra) + ")";
      ReadCell(rows, row, i, extra);
      ReadCells(rows, row, i + 1, extra);
      ReadsConcat(st, head, AtCell(rows, row, i + 1, extra), tail, next);
      ConcatAssoc(head, CellsText(row, i + 1, extra), ")");
    }
  }

  lemma ReadRow(st: ParseState, row: Row, extra: set<char>)
    requires Printable(row) && st.lex == OUTSIDE
    ensures Reads(st, RowText(row, extra), ParseState(st.rows + [row], row, [], OUTSIDE))
  {
    ReadOne(st, '(');
    ReadCells(st.rows, row, 0, extra);
    var inner := CellsText(row, 0, extra) + ")";
    ReadsConcat(st, "(", AtCell(st.rows, row, 0, extra), inner, ParseState(st.rows + [row], row, [], OUTSIDE));
    assert RowText(row, extra) == "(" + inner;
  }

  lemma ReadNextRow(st: ParseState, row: Row, i: nat, extra: set<char>)
    requires Printable(row) && st.lex == OUTSIDE
    ensures Reads(st, Comma(i) + RowText(row, extra), ParseState(st.rows + [row], row, [], OUTSIDE))
  {
    ReadRow(st, row, extra);
    var text := RowText(row, extra);
    if i == 0 {
      assert Comma(i) + text == text;
    } else {
      ReadOne(st, ',');
      ReadsConcat(st, ",", st, text, ParseState(st.rows + [row], row, [], OUTSIDE));
    }
  }

  lemma {:induction false} ReadRows(st: ParseState, rows: seq<Row>, i: nat, extra: set<char>) returns (next: ParseState)
    requires AllPrintable(rows) && i <= |rows| && st.lex == OUTSIDE
    ensures Reads(st, RowsText(rows, i, extra), next)
    ensures next.rows == st.rows + rows[i..] && next.lex == OUTSIDE
    decreases |rows| - i
  {
    if i == |rows| {
      next := st;
    } else {
      var after := ParseState(st.rows + [rows[i]], rows[i], [], OUTSIDE);
      ReadNextRow(st, rows[i], i, extra);
      next := ReadRows(after, rows, i + 1, extra);
      ReadsConcat(st, Comma(i) + RowText(rows[i], extra), after, RowsText(rows, i + 1, extra), next);
      assert rows[i..] == [rows[i]] + rows[i + 1..];
      ConcatAssoc(st.rows, [rows[i]], rows[i + 1..]);
    }
  }

  // ---------------------------------------------------------------- the whole dump

  lemma {:induction false} FindFirst(s: string, needle: string, from: nat, k: nat)
    requires from <= k && OccursAt(s, needle, k)
    requires forall i | from <= i < k :: !OccursAt(s, needle, i)
    ensures Find(s, needle, from) == k
    decreases k - from
  {
    if from < k {
      FindFirst(s, needle, from + 1, k);
    }
  }

  lemma {:induction false} FindNone(s: string, needle: string, from: nat)
    requires forall i: nat | from <= i :: !OccursAt(s, needle, i)
    ensures Find(s, needle, from) == -1
    decreases |s| - from
  {
    if from + |needle| <= |s| {
      FindNone(s, needle, from + 1);
    }
  }

  lemma {:induction false} ScanQuiet(s: string, i: nat, body: string, lex: Lex)
    requires i + |body| <= |s| && s[i..i + |body|] == body && Quiet(lex, body)
    ensures ScanEnd(s, i, lex) == ScanEnd(s, i + |body|, LexRun(lex, body))
    decreases |body|
  {
    if body == [] {
    } else {
      assert s[i] == body[0];
      assert s[i + 1..i + 1 + |body[1..]|] == body[1..];
      ScanQuiet(s, i + 1, body[1..], LexStep(lex, body[0]));
    }
  }

  /** The INSERT text starts nowhere inside the gap, not even running over into the statement after it. */
  ghost predicate CleanGap(gap: string, needle: string) {
    forall i: nat | i < |gap| :: !OccursAt(gap + needle, needle, i)
  }

  ghost predicate NeedleFree(gap: string, needle: string) {
    forall i: nat :: !OccursAt(gap, needle, i)
  }

  ghost predicate CleanGaps(gaps: seq<string>, needle: string)
    requires gaps != []
  {
    && (forall k | 0 <= k < |gaps| - 1 :: CleanGap(gaps[k], needle))
    && NeedleFree(gaps[|gaps| - 1], needle)
  }

  lemma OccursSuffix(s: string, pos: nat, needle: string, i: nat)
    requires pos <= |s|
    ensures OccursAt(s, needle, pos + i) <==> OccursAt(s[pos..], needle, i)
  {
    if pos + i + |needle| <= |s| {
      assert s[pos..][i..i + |needle|] == s[pos + i..pos + i + |needle|];
    }
  }

  lemma OccursPrefix(s: string, post: string, needle: string, i: nat)
    requires i + |needle| <= |s|
    ensures OccursAt(s + post, needle, i) <==> OccursAt(s, needle, i)
  {
    assert (s + post)[i..i + |needle|] == s[i..i + |needle|];
  }

  lemma FindAfterGap(s: string, pos: nat, gap: string, needle: string, rest: string)
    requires pos <= |s| && s[pos..] == (gap + needle) + rest && CleanGap(gap, needle)
    ensures Find(s, needle, pos) == pos + |gap|
  {
    var head := gap + needle;
    forall i: nat | i <= |gap| ensures OccursAt(s, needle, pos + i) <==> OccursAt(head, needle, i) {
      OccursSuffix(s, pos, needle, i);
      OccursPrefix(head, rest, needle, i);
    }
    assert OccursAt(head, needle, |gap|);
    forall j | pos <= j < pos + |gap| ensures !OccursAt(s, needle, j) {
      var i := j - pos;
      assert OccursAt(s, needle, pos + i) <==> OccursAt(head, needle, i);
    }
    FindFirst(s, needle, pos, pos + |gap|);
  }

  /** The block found at one printed statement is exactly the text of its rows. */
  lemma BlockAt(s: string, at: nat, rows: seq<Row>, extra: set<char>, tail: string) returns (start: nat, end: nat)
    requires AllPrintable(rows)
    requires at <= |s| && s[at..] == " " + RowsText(rows, 0, extra) + ";" + tail
    ensures start == SkipSpace(s, at) && end == ScanEnd(s, start, OUTSIDE)
    ensures start <= end < |s| && s[start..end] == RowsText(rows, 0, extra) && s[end + 1..] == tail
  {
    var body := RowsText(rows, 0, extra);
    start, end := at + 1, at + 1 + |body|;
    BlockChars(s, at, body, tail);
    assert !IsSpace(s[start]) by {
      if rows == [] {
        assert body == [];
      } else {
        assert body[0] == RowText(rows[0], extra)[0] == '(';
        assert s[start] == s[start..end][0];
      }
    }
    var next := ReadRows(EMPTY, rows, 0, extra);
    ScanQuiet(s, start, body, OUTSIDE);
  }

  lemma BlockChars(s: string, at: nat, body: string, tail: string)
    requires at <= |s| && s[at..] == " " + body + ";" + tail
    ensures var end := at + 1 + |body|;
            && end < |s| && s[at] == ' ' && s[at + 1..end] == body && s[end] == ';' && s[end + 1..] == tail
  {
    var t := " " + body + ";" + tail;
    var end := at + 1 + |body|;
    assert s[at] == s[at..][0] == t[0];
    assert s[at + 1..end] == s[at..][1..1 + |body|] == t[1..1 + |body|] == body;
    assert s[end] == s[at..][1 + |body|] == t[1 + |body|] == ';';
    assert s[end + 1..] == s[at..][2 + |body|..] == t[2 + |body|..] == tail;
  }

  ghost function BlockTexts(stmts: seq<seq<Row>>, extra: set<char>): seq<string>
    requires forall k | 0 <= k < |stmts| :: AllPrintable(stmts[k])
  {
    if stmts == [] then [] else [RowsText(stmts[0], 0, extra)] + BlockTexts(stmts[1..], extra)
  }

  lemma StatementParts(s: string, pos: nat, gap: string, needle: string, body: string, tail: string) returns (at: nat)
    requires pos <= |s| && s[pos..] == gap + (needle + (" " + body + ";")) + tail
    ensures at == pos + |gap| + |needle| <= |s|
    ensures s[pos..] == (gap + needle) + (" " + body + ";" + tail) && s[at..] == " " + body + ";" + tail
  {
    at := pos + |gap| + |needle|;
    var rest := " " + body + ";" + tail;
    assert s[pos..] == (gap + needle) + rest;
    assert s[at..] == s[pos..][|gap| + |needle|..] == rest;
  }

  /** The scanner passes one gap and one statement, and reports the statement's rows as one block. */
  lemma PassStatement(
      s: string, pos: nat, needle: string, gap: string, rows: seq<Row>, tail: string, extra: set<char>)
    returns (start: nat, end: nat)
    requires needle != [] && CleanGap(gap, needle) && AllPrintable(rows)
    requires pos <= |s| && s[pos..] == gap + Statement(needle, rows, extra) + tail
    ensures NextBlock(s, needle, pos) == Some((start, end))
    ensures start <= end < |s| && s[start..end] == RowsText(rows, 0, extra) && s[end + 1..] == tail
  {
    var body := RowsText(rows, 0, extra);
    var at := StatementParts(s, pos, gap, needle, body, tail);
    FindAfterGap(s, pos, gap, needle, " " + body + ";" + tail);
    start, end := BlockAt(s, at, rows, extra, tail);
  }

  lemma BlocksNext(s: string, needle: string, pos: nat, acc: seq<string>, start: nat, end: nat)
    requires needle != [] && NextBlock(s, needle, pos) == Some((start, end))
    ensures BlocksFrom(s, needle, pos, acc) == BlocksFrom(s, needle, end + 1, acc + [s[start..end]])
  {
  }

  lemma BlockTextsStep(stmts: seq<seq<Row>>, extra: set<char>, acc: seq<string>)
    requires stmts != [] && forall k | 0 <= k < |stmts| :: AllPrintable(stmts[k])
    ensures (acc + [RowsText(stmts[0], 0, extra)]) + BlockTexts(stmts[1..], extra) == acc + BlockTexts(stmts, extra)
  {
    var rest := BlockTexts(stmts[1..], extra);
    var body := RowsText(stmts[0], 0, extra);
    assert (acc + [body]) + rest == acc + ([body] + rest);
  }

  lemma {:induction false} BlocksOfDump(
      s: string, pos: nat, needle: string, stmts: seq<seq<Row>>, gaps: seq<string>, extra: set<char>, acc: seq<string>)
    requires needle != [] && |gaps| == |stmts| + 1 && CleanGaps(gaps, needle)
    requires forall k | 0 <= k < |stmts| :: AllPrintable(stmts[k])
    requires pos <= |s| && s[pos..] == DumpText(needle, stmts, gaps, extra)
    ensures BlocksFrom(s, needle, pos, acc) == acc + BlockTexts(stmts, extra)
    decreases |stmts|
  {
    if stmts == [] {
      NoMoreBlocks(s, pos, gaps[0], needle, acc);
    } else {
      var tail := DumpText(needle, stmts[1..], gaps[1..], extra);
      assert CleanGap(gaps[0], needle);
      var start, end := PassStatement(s, pos, needle, gaps[0], stmts[0], tail, extra);
      BlocksNext(s, needle, pos, acc, start, end);
      CleanGapsTail(gaps, needle);
      BlocksOfDump(s, end + 1, needle, stmts[1..], gaps[1..], extra, acc + [s[start..end]]);
      BlockTextsStep(stmts, extra, acc);
    }
  }

  lemma NoMoreBlocks(s: string, pos: nat, gap: string, needle: string, acc: seq<string>)
    requires needle != [] && NeedleFree(gap, needle) && pos <= |s| && s[pos..] == gap
    ensures BlocksFrom(s, needle, pos, acc) == acc + []
  {
    forall j: nat | pos <= j ensures !OccursAt(s, needle, j) {
      OccursSuffix(s, pos, needle, j - pos);
      assert !OccursAt(gap, needle, j - pos);
    }
    FindNone(s, needle, pos);
  }

  lemma CleanGapsTail(gaps: seq<string>, needle: string)
    requires |gaps| > 1 && CleanGaps(gaps, needle)
    ensures CleanGaps(gaps[1..], needle)
  {
    forall k | 0 <= k < |gaps[1..]| - 1 ensures CleanGap(gaps[1..][k], needle) {
      assert CleanGap(gaps[k + 1], needle);
    }
  }

  lemma {:induction false} RowsOfBlocks(stmts: seq<seq<Row>>, extra: set<char>)
    requires forall k | 0 <= k < |stmts| :: AllPrintable(stmts[k])
    ensures BlockRows(BlockTexts(stmts, extra)) == Flatten(stmts)
  {
    if stmts == [] {
    } else {
      var next := ReadRows(EMPTY, stmts[0], 0, extra);
      assert [] + stmts[0][0..] == stmts[0];
      RowsOfBlocks(stmts[1..], extra);
      assert BlockTexts(stmts, extra)[1..] == BlockTexts(stmts[1..], extra);
    }
  }

  /** Printing any rows into any number of INSERT statements and reading the dump back returns those rows in order. */
  lemma DumpRoundTrip(table: string, stmts: seq<seq<Row>>, gaps: seq<string>, extra: set<char>)
    requires |gaps| == |stmts| + 1 && CleanGaps(gaps, Needle(table))
    requires forall k | 0 <= k < |stmts| :: AllPrintable(stmts[k])
    ensures TableRows(DumpText(Needle(table), stmts, gaps, extra), table) == Flatten(stmts)
  {
    DumpBlocks(Needle(table), stmts, gaps, extra);
    RowsOfBlocks(stmts, extra);
  }

  lemma DumpBlocks(needle: string, stmts: seq<seq<Row>>, gaps: seq<string>, extra: set<char>)
    requires needle != [] && |gaps| == |stmts| + 1 && CleanGaps(gaps, needle)
    requires forall k | 0 <= k < |stmts| :: AllPrintable(stmts[k])
    ensures BlocksFrom(DumpText(needle, stmts, gaps, extra), needle, 0, []) == BlockTexts(stmts, extra)
  {
    var dump := DumpText(needle, stmts, gaps, extra);
    assert dump[0..] == dump;
    BlocksOfDump(dump, 0, needle, stmts, gaps, extra, []);
    assert [] + BlockTexts(stmts, extra) == BlockTexts(stmts, extra);
  }
}
