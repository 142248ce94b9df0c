/** The MySQL dump reader of scripts/migrate_old_system_full.py: unescaper, block scanner and row parser. */
module DumpReader {
  import opened Text
  import opened Wrappers

  /** A parsed cell. Decimal numbers keep their text; Raw is anything the reader does not recognise. */
  datatype Value = Null | Int(n: int) | Str(s: string) | Dec(text: string) | Raw(text: string)

  type Row = seq<Value>

  // ---------------------------------------------------------------- cells

  function Unescaped(code: char): char {
    match code
    case '0' => '\0'
    case 'b' => '\U{8}'
    case 'n' => '\n'
    case 'r' => '\r'
    case 't' => '\t'
    case 'Z' => '\U{1A}'
    case _ => code
  }

  /** The text `out` followed by what the rest of the value, from position i on, unescapes to. */
  function UnescapeFrom(value: string, i: nat, out: string): string
    requires i <= |value|
    decreases |value| - i
  {
    if i == |value| then out
    else if value[i] == '\\' && i + 1 < |value| then UnescapeFrom(value, i + 2, out + [Unescaped(value[i + 1])])
    else UnescapeFrom(value, i + 1, out + [value[i]])
  }

  function Unescape(value: string): string {
    UnescapeFrom(value, 0, [])
  }

  method MysqlUnescape(value: string) returns (out: string)
    ensures out == Unescape(value)
  {
    out := [];
    var i := 0;
    while i < |value|
      invariant 0 <= i <= |value|
      invariant UnescapeFrom(value, i, out) == Unescape(value)
    {
      var ch := value[i];
      if ch == '\\' && i + 1 < |value| {
        out := out + [Unescaped(value[i + 1])];
        i := i + 2;
        continue;
      }
      out := out + [ch];
      i := i + 1;
    }
  }

  predicate IsNatText(t: string) {
    t != [] && AllDigits(t)
  }

  predicate IsIntText(t: string) {
    IsNatText(if t != [] && t[0] == '-' then t[1..] else t)
  }

  function IntValue(t: string): int
    requires IsIntText(t)
  {
    if t[0] == '-' then 0 - NatValue(t[1..]) else NatValue(t)
  }

  predicate IsDecText(t: string) {
    exists k | 0 <= k < |t| :: t[k] == '.' && IsIntText(t[..k]) && IsNatText(t[k + 1..])
  }

  function ParseScalar(raw: string): Value {
    var t := Strip(raw);
    if t == "NULL" then Null
    else if t != [] && t[0] == '\'' && t[|t| - 1] == '\'' then
      Str(Unescape(if |t| == 1 then [] else t[1..|t| - 1]))
    else if IsIntText(t) then Int(IntValue(t))
    else if IsDecText(t) then Dec(t)
    else Raw(t)
  }

  // ---------------------------------------------------------------- block scanner

  /** What both character loops remember: inside a quoted string, just after a backslash, open parentheses. */
  datatype Lex = Lex(inStr: bool, esc: bool, depth: int)

  const OUTSIDE := Lex(false, false, 0)

  function LexStep(lex: Lex, ch: char): Lex {
    if lex.esc then lex.(esc := false)
    else if ch == '\\' then lex.(esc := true)
    else if ch == '\'' then lex.(inStr := !lex.inStr)
    else if lex.inStr then lex
    else if ch == '(' then lex.(depth := lex.depth + 1)
    else if ch == ')' then lex.(depth := lex.depth - 1)
    else lex
  }

  /** The scanner ends a block at a semicolon outside strings and parentheses. */
  predicate Stops(lex: Lex, ch: char) {
    lex == OUTSIDE && ch == ';'
  }

  function SkipSpace(s: string, i: nat): (j: nat)
    requires i <= |s|
    ensures i <= j <= |s|
    decreases |s| - i
  {
    if i < |s| && IsSpace(s[i]) then SkipSpace(s, i + 1) else i
  }

  function ScanEnd(s: string, i: nat, lex: Lex): (end: nat)
    requires i <= |s|
    ensures i <= end <= |s|
    decreases |s| - i
  {
    if i == |s| || Stops(lex, s[i]) then i else ScanEnd(s, i + 1, LexStep(lex, s[i]))
  }

  predicate OccursAt(s: string, needle: string, i: nat) {
    i + |needle| <= |s| && s[i..i + |needle|] == needle
  }

  /** str.find: the first occurrence at or after `from`, or -1. */
  function Find(s: string, needle: string, from: nat): (idx: int)
    ensures idx == -1 || from <= idx <= |s| - |needle|
    decreases |s| - from
  {
    if from + |needle| > |s| then -1
    else if OccursAt(s, needle, from) then from
    else Find(s, needle, from + 1)
  }

  function Needle(table: string): (n: string)
  {
    "INSERT INTO `" + table + "` VALUES"
  }

  /** Where the first block at or after pos lies: its text is s[start..end], end its semicolon or the text's end. */
  function NextBlock(s: string, needle: string, pos: nat): (r: Option<(nat, nat)>)
    requires needle != []
    ensures r.Some? ==> pos < r.value.0 <= r.value.1 <= |s|
  {
    var idx := Find(s, needle, pos);
    if idx == -1 then None
    else
      var start := SkipSpace(s, idx + |needle|);
      Some((start, ScanEnd(s, start, OUTSIDE)))
  }

  /** The blocks in `acc` followed by those found from position pos on. */
  function BlocksFrom(s: string, needle: string, pos: nat, acc: seq<string>): seq<string>
    requires needle != []
    decreases |s| - pos
  {
    match NextBlock(s, needle, pos)
    case None => acc
    case Some((start, end)) => BlocksFrom(s, needle, end + 1, acc + [s[start..end]])
  }

  function Blocks(s: string, table: string): seq<string> {
    BlocksFrom(s, Needle(table), 0, [])
  }

  method SkipBlanks(sql: string, i: nat) returns (start: nat)
    requires i <= |sql|
    ensures start == SkipSpace(sql, i)
  {
    start := i;
    while start < |sql| && IsSpace(sql[start])
      invariant i <= start <= |sql|
      invariant SkipSpace(sql, start) == SkipSpace(sql, i)
    {
      start := start + 1;
    }
  }

  /** The character loop that finds where the block starting at `start` ends. */
  method ScanBlock(sql: string, start: nat) returns (end: nat)
    requires start <= |sql|
    ensures end == ScanEnd(sql, start, OUTSIDE)
  {
    var inStr, esc, depth := false, false, 0;
    end := start;
    while end < |sql|
      invariant start <= end <= |sql|
      invariant ScanEnd(sql, end, Lex(inStr, esc, depth)) == ScanEnd(sql, start, OUTSIDE)
    {
      var ch := sql[end];
      ghost var lex := Lex(inStr, esc, depth);
      ghost var next := LexStep(lex, ch);
      assert !Stops(lex, ch) ==> ScanEnd(sql, end, lex) == ScanEnd(sql, end + 1, next);
      if esc {
        esc := false;
      } else if ch == '\\' {
        esc := true;
      } else if ch == '\'' {
        inStr := !inStr;
      } else if !inStr {
        if ch == '(' {
          depth := depth + 1;
        } else if ch == ')' {
          depth := depth - 1;
        } else if ch == ';' && depth == 0 {
          break;
        }
      }
      assert !Stops(lex, ch) && next == Lex(inStr, esc, depth);
      end := end + 1;
    }
  }

  method FindBlock(sql: string, needle: string, pos: nat) returns (r: Option<(nat, nat)>)
    requires needle != []
    ensures r == NextBlock(sql, needle, pos)
  {
    var idx := Find(sql, needle, pos);
    if idx == -1 {
      return None;
    }
    var start := SkipBlanks(sql, idx + |needle|);
    var end := ScanBlock(sql, start);
    return Some((start, end));
  }

  method IterInsertValueBlocks(sql: string, table: string) returns (blocks: seq<string>)
    ensures blocks == Blocks(sql, table)
  {
    blocks := IterBlocks(sql, Needle(table));
  }

  /** The scan position strictly grows: it is the loop's measure. */
  method IterBlocks(sql: string, needle: string) returns (blocks: seq<string>)
    requires needle != []
    ensures blocks == BlocksFrom(sql, needle, 0, [])
  {
    blocks := [];
    var pos := 0;
    while true
      invariant BlocksFrom(sql, needle, pos, blocks) == BlocksFrom(sql, needle, 0, [])
      decreases |sql| - pos
    {
      var next := FindBlock(sql, needle, pos);
      if next.None? {
        break;
      }
      var (start, end) := next.value;
      blocks := blocks + [sql[start..end]];
      pos := end + 1;
    }
  }

  // ---------------------------------------------------------------- row parser

  datatype ParseState = ParseState(rows: seq<Row>, row: Row, cell: string, lex: Lex)

  function Keep(st: ParseState, ch: char): ParseState {
    if st.lex.depth >= 1 then st.(cell := st.cell + [ch]) else st
  }

  function ParseStep(st: ParseState, ch: char): ParseState {
    var lex := LexStep(st.lex, ch);
    var next := st.(lex := lex);
    if st.lex.esc || ch == '\\' then next.(cell := st.cell + [ch])
    else if lex.inStr || ch == '\'' then Keep(next, ch)
    else if ch == '(' && lex.depth == 1 then next.(row := [], cell := [])
    else if ch == ')' && lex.depth == 0 then
      var row := if st.cell != [] || st.row != [] then st.row + [ParseScalar(Strip(st.cell))] else st.row;
      next.(rows := st.rows + [row], row := row, cell := [])
    else if ch == ',' && lex.depth == 1 then next.(row := st.row + [ParseScalar(Strip(st.cell))], cell := [])
    else Keep(next, ch)
  }

  function ParseRun(st: ParseState, s: string): ParseState
    decreases |s|
  {
    if s == [] then st else ParseRun(ParseStep(st, s[0]), s[1..])
  }

  const EMPTY := ParseState([], [], [], OUTSIDE)

  method ParseValuesBlock(values: string) returns (rows: seq<Row>)
    ensures rows == ParseRun(EMPTY, values).rows
  {
    rows := [];
    var currentRow: Row, currentValue: string := [], [];
    var inStr, esc, depth := false, false, 0;
    for i := 0 to |values|
      invariant ParseRun(ParseState(rows, currentRow, currentValue, Lex(inStr, esc, depth)), values[i..])
             == ParseRun(EMPTY, values)
    {
      var ch := values[i];
      assert values[i..][0] == ch && values[i..][1..] == values[i + 1..];
      if esc {
        currentValue := currentValue + [ch];
        esc := false;
        continue;
      }
      if ch == '\\' {
        currentValue := currentValue + [ch];
        esc := true;
        continue;
      }
      if ch == '\'' {
        inStr := !inStr;
      }
      if !inStr {
        if ch == '(' {
          depth := depth + 1;
          if depth == 1 {
            currentRow, currentValue := [], [];
            continue;
          }
        } else if ch == ')' {
          depth := depth - 1;
          if depth == 0 {
            if currentValue != [] || currentRow != [] {
              currentRow := currentRow + [ParseScalar(Strip(currentValue))];
            }
            rows := rows + [currentRow];
            currentValue := [];
            continue;
          }
        } else if ch == ',' && depth == 1 {
          currentRow := currentRow + [ParseScalar(Strip(currentValue))];
          currentValue := [];
          continue;
        }
      }
      if depth >= 1 {
        currentValue := currentValue + [ch];
      }
    }
  }

  function BlockRows(blocks: seq<string>): seq<Row> {
    if blocks == [] then [] else ParseRun(EMPTY, blocks[0]).rows + BlockRows(blocks[1..])
  }

  function TableRows(sql: string, table: string): seq<Row> {
    BlockRows(Blocks(sql, table))
  }

  method ParseTableRows(sql: string, table: string) returns (allRows: seq<Row>)
    ensures allRows == TableRows(sql, table)
  {
    allRows := [];
    var blocks := IterInsertValueBlocks(sql, table);
    for i := 0 to |blocks|
      invariant allRows + BlockRows(blocks[i..]) == BlockRows(blocks)
    {
      assert blocks[i..][1..] == blocks[i + 1..];
      var rows := ParseValuesBlock(blocks[i]);
      allRows := allRows + rows;
    }
  }
}
