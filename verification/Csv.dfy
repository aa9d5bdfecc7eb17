/**
 * Query results as CSV: schema check, header, quoted cells, NULL handling, and a reader that
 * follows section 2 of RFC 4180 with LF row ends.
 */
module Csv {
  import opened Basics

  // ----- writing values -----

  predicate NeedsQuote(c: char)
  {
    c == '"' || c == ',' || c == '\n' || c == '\r'
  }

  predicate Plain(v: string)
  {
    forall i :: 0 <= i < |v| ==> !NeedsQuote(v[i])
  }

  function DoubleQuotes(v: string): string
  {
    if v == "" then "" else (if v[0] == '"' then ['"', '"'] else [v[0]]) + DoubleQuotes(v[1..])
  }

  function CellText(v: string): string
  {
    if Plain(v) then v else ['"'] + DoubleQuotes(v) + ['"']
  }

  lemma {:induction false} DoubleQuotesAppend(v: string, c: char)
    ensures DoubleQuotes(v + [c]) == DoubleQuotes(v) + (if c == '"' then ['"', '"'] else [c])
  {
    if v == "" {
      assert (v + [c])[1..] == "" && DoubleQuotes("") == "";
    } else {
      assert (v + [c])[1..] == v[1..] + [c] && (v + [c])[0] == v[0];
      DoubleQuotesAppend(v[1..], c);
    }
  }

  // ----- reading -----

  /** The rest of a quoted cell after its opening quote, and what follows its closing one. */
  function ParseQuoted(s: string): (r: Option<(string, string)>)
    ensures r.Some? ==> |r.value.1| < |s|
  {
    if s == "" then None
    else if s[0] != '"' then
      var rest := ParseQuoted(s[1..]);
      if rest.None? then None else Some(([s[0]] + rest.value.0, rest.value.1))
    else if |s| >= 2 && s[1] == '"' then
      var rest := ParseQuoted(s[2..]);
      if rest.None? then None else Some((['"'] + rest.value.0, rest.value.1))
    else Some(("", s[1..]))
  }

  function PlainLength(s: string): (n: nat)
    ensures n <= |s|
  {
    if s == "" || NeedsQuote(s[0]) then 0 else 1 + PlainLength(s[1..])
  }

  function ParseCell(s: string): (r: Option<(string, string)>)
    ensures r.Some? ==> |r.value.1| <= |s|
  {
    if s != "" && s[0] == '"' then ParseQuoted(s[1..])
    else Some((s[..PlainLength(s)], s[PlainLength(s)..]))
  }

  function ParseRow(s: string): (r: Option<(seq<string>, string)>)
    ensures r.Some? ==> |r.value.1| < |s|
    decreases |s|
  {
    var cell := ParseCell(s);
    if cell.None? || cell.value.1 == "" then None
    else
      var (v, after) := cell.value;
      if after[0] == '\n' then Some(([v], after[1..]))
      else if after[0] != ',' then None
      else
        var more := ParseRow(after[1..]);
        if more.None? then None else Some(([v] + more.value.0, more.value.1))
  }

  function ParseTable(s: string): Option<seq<seq<string>>>
    decreases |s|
  {
    if s == "" then Some([])
    else
      var row := ParseRow(s);
      if row.None? then None
      else
        var more := ParseTable(row.value.1);
        if more.None? then None else Some([row.value.0] + more.value)
  }

  // ----- reading back -----

  lemma {:induction false} QuotedReadsBack(v: string, rest: string)
    requires rest != "" ==> rest[0] != '"'
    ensures ParseQuoted(DoubleQuotes(v) + ['"'] + rest) == Some((v, rest))
  {
    var s := DoubleQuotes(v) + ['"'] + rest;
    if v == "" {
      assert s[1..] == rest;
    } else {
      QuotedReadsBack(v[1..], rest);
      var tail := DoubleQuotes(v[1..]) + ['"'] + rest;
      if v[0] == '"' {
        assert s == ['"', '"'] + tail;
        assert s[2..] == tail;
      } else {
        assert s == [v[0]] + tail;
        assert s[1..] == tail;
      }
      assert v == [v[0]] + v[1..];
    }
  }

  lemma {:induction false} PlainReadsBack(v: string, rest: string)
    requires Plain(v) && rest != "" && NeedsQuote(rest[0])
    ensures PlainLength(v + rest) == |v|
  {
    if v == "" {
      assert v + rest == rest;
    } else {
      assert (v + rest)[0] == v[0] && (v + rest)[1..] == v[1..] + rest;
      PlainReadsBack(v[1..], rest);
    }
  }

  lemma CellReadsBack(v: string, rest: string)
    requires rest != "" && (rest[0] == ',' || rest[0] == '\n')
    ensures ParseCell(CellText(v) + rest) == Some((v, rest))
  {
    hide ParseQuoted, DoubleQuotes;
    var s := CellText(v) + rest;
    if Plain(v) {
      PlainReadsBack(v, rest);
      assert s[..|v|] == v && s[|v|..] == rest;
      assert s[0] != '"' by {
        if v != "" {
          assert s[0] == v[0];
        }
      }
    } else {
      QuotedReadsBack(v, rest);
      assert s[0] == '"' && s[1..] == DoubleQuotes(v) + ['"'] + rest;
    }
  }

  /** A row of already written cells. */
  function RowText(cells: seq<string>): string
  {
    Joined(cells) + "\n"
  }

  function Joined(cells: seq<string>): string
  {
    if cells == [] then "" else if |cells| == 1 then cells[0] else cells[0] + "," + Joined(cells[1..])
  }

  function CellTexts(values: seq<string>): (r: seq<string>)
    ensures |r| == |values|
  {
    seq(|values|, i requires 0 <= i < |values| => CellText(values[i]))
  }

  lemma {:induction false} RowReadsBack(values: seq<string>, rest: string)
    requires values != []
    ensures ParseRow(RowText(CellTexts(values)) + rest) == Some((values, rest))
  {
    hide ParseCell, CellText;
    var cells := CellTexts(values);
    var s := RowText(cells) + rest;
    if |values| == 1 {
      assert s == cells[0] + ("\n" + rest);
      CellReadsBack(values[0], "\n" + rest);
      assert ("\n" + rest)[1..] == rest && values == [values[0]];
    } else {
      var more := RowText(CellTexts(values[1..])) + rest;
      assert cells[1..] == CellTexts(values[1..]);
      assert s == cells[0] + ("," + more);
      CellReadsBack(values[0], "," + more);
      assert ("," + more)[1..] == more;
      RowReadsBack(values[1..], rest);
      assert values == [values[0]] + values[1..];
    }
  }

  /** A cell is quoted exactly when it has a quote, a comma, an LF or a CR. */
  lemma UnquotedIff(v: string)
    ensures CellText(v) == v <==>
            forall i :: 0 <= i < |v| ==> v[i] != '"' && v[i] != ',' && v[i] != '\n' && v[i] != '\r'
    ensures CellText(v) != v ==> |CellText(v)| >= |v| + 2
  {
    DoubledLength(v);
  }

  lemma {:induction false} DoubledLength(v: string)
    ensures |DoubleQuotes(v)| >= |v|
  {
    if v != "" {
      DoubledLength(v[1..]);
    }
  }

  // ----- names written raw -----

  function LeadingQuotes(s: string): nat
  {
    if s == "" || s[0] != '"' then 0 else 1 + LeadingQuotes(s[1..])
  }

  lemma {:induction false} QuotesStop(n: string, tail: string)
    requires tail != "" && tail[0] != '"'
    ensures LeadingQuotes(n + tail) == LeadingQuotes(n)
  {
    if n == "" {
      assert n + tail == tail;
    } else {
      assert (n + tail)[0] == n[0] && (n + tail)[1..] == n[1..] + tail;
      QuotesStop(n[1..], tail);
    }
  }

  lemma {:induction false} QuotesDouble(v: string, tail: string)
    ensures LeadingQuotes(DoubleQuotes(v) + tail) >= 2 * LeadingQuotes(v)
  {
    if v != "" && v[0] == '"' {
      QuotesDouble(v[1..], tail);
      var more := DoubleQuotes(v[1..]) + tail;
      var s := DoubleQuotes(v) + tail;
      assert s == ['"', '"'] + more;
      assert s[1..] == ['"'] + more && s[1..][1..] == more;
      assert LeadingQuotes(s) == 1 + LeadingQuotes(s[1..]);
    }
  }

  lemma {:induction false} QuotedWritesBack(s: string)
    requires ParseQuoted(s).Some?
    ensures s == DoubleQuotes(ParseQuoted(s).value.0) + ['"'] + ParseQuoted(s).value.1
  {
    if s[0] != '"' {
      QuotedWritesBack(s[1..]);
      var (v, after) := ParseQuoted(s[1..]).value;
      assert ([s[0]] + v)[1..] == v;
      assert s == [s[0]] + s[1..];
    } else if |s| >= 2 && s[1] == '"' {
      QuotedWritesBack(s[2..]);
      var (v, after) := ParseQuoted(s[2..]).value;
      assert (['"'] + v)[1..] == v;
      assert s == ['"', '"'] + s[2..];
    } else {
      assert s == ['"'] + s[1..] && DoubleQuotes("") == "";
    }
  }

  /** A quoted cell is never its own text. */
  lemma QuotedIsNotRaw(n: string, tail: string)
    requires n != "" && n[0] == '"' && tail != "" && tail[0] != '"'
    ensures ParseQuoted((n + tail)[1..]).None? || ParseQuoted((n + tail)[1..]).value.0 != n
  {
    hide ParseQuoted, DoubleQuotes;
    var s := n + tail;
    var r := ParseQuoted(s[1..]);
    if r.Some? && r.value.0 == n {
      QuotedWritesBack(s[1..]);
      assert s[1..] == DoubleQuotes(n) + (['"'] + r.value.1);
      QuotesDouble(n, ['"'] + r.value.1);
      QuotesStop(n, tail);
      assert false;
    }
  }

  lemma {:induction false} PlainLengthStops(n: string, tail: string)
    requires !Plain(n)
    ensures PlainLength(n + tail) < |n|
  {
    assert (n + tail)[0] == n[0];
    if !NeedsQuote(n[0]) {
      assert (n + tail)[1..] == n[1..] + tail;
      assert !Plain(n[1..]) by {
        var i :| 0 <= i < |n| && NeedsQuote(n[i]);
        assert n[1..][i - 1] == n[i];
      }
      PlainLengthStops(n[1..], tail);
    }
  }

  lemma RawNameReadsBackIff(n: string, tail: string)
    requires tail != "" && (tail[0] == ',' || tail[0] == '\n')
    ensures Plain(n) ==> ParseCell(n + tail) == Some((n, tail))
    ensures !Plain(n) ==> ParseCell(n + tail).None? || ParseCell(n + tail).value.0 != n
  {
    hide ParseQuoted, PlainLength, DoubleQuotes;
    if Plain(n) {
      CellReadsBack(n, tail);
    } else if n[0] == '"' {
      assert (n + tail)[0] == '"';
      QuotedIsNotRaw(n, tail);
    } else {
      assert (n + tail)[0] == n[0];
      PlainLengthStops(n, tail);
    }
  }

  predicate AllPlain(names: seq<string>)
  {
    forall i :: 0 <= i < |names| ==> Plain(names[i])
  }

  /** A header of raw names reads back exactly when every name is plain. */
  lemma {:induction false} HeaderReadsBackIff(names: seq<string>, rest: string)
    requires names != []
    ensures AllPlain(names) ==> ParseRow(RowText(names) + rest) == Some((names, rest))
    ensures !AllPlain(names) ==>
              ParseRow(RowText(names) + rest).None? || ParseRow(RowText(names) + rest).value.0 != names
  {
    hide ParseCell, Plain;
    var s := RowText(names) + rest;
    if |names| == 1 {
      assert s == names[0] + ("\n" + rest);
      RawNameReadsBackIff(names[0], "\n" + rest);
      assert ("\n" + rest)[1..] == rest && names == [names[0]];
    } else {
      var more := RowText(names[1..]) + rest;
      assert s == names[0] + ("," + more);
      RawNameReadsBackIff(names[0], "," + more);
      assert ("," + more)[1..] == more;
      HeaderReadsBackIff(names[1..], rest);
      assert names == [names[0]] + names[1..];
    }
  }

  function TableText(rows: seq<seq<string>>): string
  {
    if rows == [] then "" else RowText(CellTexts(rows[0])) + TableText(rows[1..])
  }

  /** Whatever quotes, commas, CRs and LFs the values hold, reading the written rows gives them back. */
  lemma {:induction false} TableReadsBack(rows: seq<seq<string>>)
    requires forall i :: 0 <= i < |rows| ==> rows[i] != []
    ensures ParseTable(TableText(rows)) == Some(rows)
  {
    if rows != [] {
      var cells := CellTexts(rows[0]);
      assert |RowText(cells)| > 0;
      hide ParseRow, RowText, CellTexts;
      TableReadsBack(rows[1..]);
      RowReadsBack(rows[0], TableText(rows[1..]));
      assert TableText(rows) != "";
      assert rows == [rows[0]] + rows[1..];
    }
  }

  // ----- query results -----

  datatype LogicalType = Varchar | UBigInt | Boolean

  datatype Column = Column(name: string, kind: LogicalType, nullable: bool)

  datatype Cell = Null | Text(text: string) | Number(value: nat) | Bool(flag: bool)

  datatype QueryResult = QueryResult(names: seq<string>, kinds: seq<LogicalType>, rows: seq<seq<Cell>>)

  datatype Error = InvalidData

  predicate CellFits(c: Cell, kind: LogicalType)
  {
    match c
    case Null => true
    case Text(_) => kind == Varchar
    case Number(_) => kind == UBigInt
    case Bool(_) => kind == Boolean
  }

  /** What the database guarantees of its results. */
  predicate Consistent(q: QueryResult)
  {
    && |q.names| == |q.kinds|
    && forall r :: 0 <= r < |q.rows| ==> RowFits(q.rows[r], q.kinds)
  }

  predicate RowFits(row: seq<Cell>, kinds: seq<LogicalType>)
  {
    |row| == |kinds| && forall k :: 0 <= k < |kinds| ==> CellFits(row[k], kinds[k])
  }

  predicate SchemaMatches(columns: seq<Column>, q: QueryResult)
  {
    && |q.names| == |columns| && |q.kinds| == |columns|
    && forall k :: 0 <= k < |columns| ==> q.names[k] == columns[k].name && q.kinds[k] == columns[k].kind
  }

  predicate NullsAllowed(columns: seq<Column>, row: seq<Cell>)
  {
    |row| == |columns| && forall k :: 0 <= k < |row| ==> row[k].Null? ==> columns[k].nullable
  }

  predicate AllNullsAllowed(columns: seq<Column>, rows: seq<seq<Cell>>)
  {
    forall i :: 0 <= i < |rows| ==> NullsAllowed(columns, rows[i])
  }

  predicate SameWidth(columns: seq<Column>, rows: seq<seq<Cell>>)
  {
    forall i :: 0 <= i < |rows| ==> |rows[i]| == |columns|
  }

  /** The value a reader of the CSV should see: NULL is the empty text. */
  function CellValue(c: Cell): string
  {
    match c
    case Null => ""
    case Text(text) => text
    case Number(n) => Decimal(n)
    case Bool(b) => if b then "TRUE" else "FALSE"
  }

  function RowValues(row: seq<Cell>): (r: seq<string>)
    ensures |r| == |row|
  {
    seq(|row|, k requires 0 <= k < |row| => CellValue(row[k]))
  }

  function TableValues(rows: seq<seq<Cell>>): (r: seq<seq<string>>)
    ensures |r| == |rows| && forall i :: 0 <= i < |rows| ==> r[i] == RowValues(rows[i])
  {
    seq(|rows|, i requires 0 <= i < |rows| => RowValues(rows[i]))
  }

  function Names(columns: seq<Column>): (r: seq<string>)
    ensures |r| == |columns|
  {
    seq(|columns|, k requires 0 <= k < |columns| => columns[k].name)
  }

  /** Numbers never need quotes. */
  lemma {:induction false} DecimalIsPlain(n: nat)
    ensures Plain(Decimal(n))
  {
    if n >= 10 {
      DecimalIsPlain(n / 10);
    }
  }

  // ----- the writer -----

  class CsvBuffer {
    var text: string

    constructor ()
      ensures text == ""
    {
      text := "";
    }

    method AppendValue(value: string)
      modifies this
      ensures text == old(text) + CellText(value)
    {
      hide DoubleQuotes;
      var needsQuote := false;
      var i := 0;
      while i < |value| && !needsQuote
        invariant i <= |value|
        invariant needsQuote <==> !Plain(value[..i])
      {
        assert value[..i + 1] == value[..i] + [value[i]];
        if value[i] == '"' || value[i] == ',' || value[i] == '\n' || value[i] == '\r' {
          needsQuote := true;
          assert NeedsQuote(value[..i + 1][i]);
        }
        i := i + 1;
      }
      if !needsQuote {
        assert value[..i] == value;
        text := text + value;
        return;
      }
      assert !Plain(value) by {
        var k :| 0 <= k < i && NeedsQuote(value[..i][k]);
        assert NeedsQuote(value[k]);
      }
      text := text + ['"'];
      AppendDoubled(value);
      text := text + ['"'];
    }

    method AppendDoubled(value: string)
      modifies this
      ensures text == old(text) + DoubleQuotes(value)
    {
      assert value[..0] == "" && DoubleQuotes("") == "" && text + "" == text;
      hide DoubleQuotes;
      for i := 0 to |value|
        invariant text == old(text) + DoubleQuotes(value[..i])
      {
        DoubleQuotesAppend(value[..i], value[i]);
        assert value[..i + 1] == value[..i] + [value[i]];
        if value[i] == '"' {
          text := text + ['"'];
        }
        text := text + [value[i]];
      }
      assert value[..|value|] == value;
    }

    /** Numbers and truth values go out unquoted, NULL as nothing. */
    method AppendCell(c: Cell)
      modifies this
      ensures text == old(text) + CellText(CellValue(c))
    {
      hide DoubleQuotes, Decimal;
      match c {
        case Null =>
          assert text + "" == text;
        case Text(v) => AppendValue(v);
        case Number(n) =>
          DecimalIsPlain(n);
          text := text + Decimal(n);
        case Bool(b) => text := text + (if b then "TRUE" else "FALSE");
      }
    }

    /** A row appender: refuses a NULL in a required column before writing anything. */
    method AppendRow(columns: seq<Column>, row: seq<Cell>) returns (ok: bool)
      requires |row| == |columns| && row != []
      modifies this
      ensures ok <==> NullsAllowed(columns, row)
      ensures text == if ok then old(text) + RowText(CellTexts(RowValues(row))) else old(text)
    {
      hide CellText, CellValue, Joined;
      for k := 0 to |row|
        invariant text == old(text)
        invariant forall i :: 0 <= i < k ==> row[i].Null? ==> columns[i].nullable
      {
        if !columns[k].nullable && row[k].Null? {
          return false;
        }
      }
      ghost var cells := CellTexts(RowValues(row));
      AppendCell(row[0]);
      FirstCell(cells);
      for k := 1 to |row|
        invariant text == old(text) + Joined(cells[..k])
      {
        text := text + ",";
        AppendCell(row[k]);
        NextCell(cells, k);
      }
      text := text + "\n";
      assert cells[..|row|] == cells;
      return true;
    }

    /** Stops at the first row that is refused. */
    method AppendRows(columns: seq<Column>, rows: seq<seq<Cell>>) returns (ok: bool)
      requires columns != [] && SameWidth(columns, rows)
      modifies this
      ensures ok <==> AllNullsAllowed(columns, rows)
      ensures ok ==> text == old(text) + TableText(TableValues(rows))
    {
      hide TableText, NullsAllowed, RowText, CellTexts, RowValues;
      ghost var start, table := text, TableValues(rows);
      NoRows();
      assert table[..0] == [] && start + "" == start;
      for i := 0 to |rows|
        invariant AllNullsAllowed(columns, rows[..i])
        invariant text == start + TableText(table[..i])
      {
        var allowed := AppendRow(columns, rows[i]);
        if !allowed {
          return false;
        }
        assert rows[..i + 1] == rows[..i] + [rows[i]];
        NextRow(table, i);
        Assoc(start, TableText(table[..i]), RowText(CellTexts(table[i])));
      }
      assert table[..|rows|] == table && rows[..|rows|] == rows;
      return true;
    }

    /** The names go out as they are. */
    method AppendHeader(columns: seq<Column>)
      modifies this
      ensures text == old(text) + RowText(Names(columns))
    {
      hide Joined;
      ghost var cells := Names(columns);
      FirstCell(cells);
      assert cells[..0] == [] && text + "" == text;
      for k := 0 to |columns|
        invariant text == old(text) + Joined(cells[..k])
      {
        if k > 0 {
          text := text + ",";
          text := text + columns[k].name;
          NextCell(cells, k);
        } else {
          text := text + columns[k].name;
        }
      }
      text := text + "\n";
      assert cells[..|columns|] == cells;
    }
  }

  lemma NoRows()
    ensures TableText([]) == ""
  {
  }

  lemma FirstCell(cells: seq<string>)
    ensures Joined([]) == "" && (cells != [] ==> Joined(cells[..1]) == cells[0])
  {
  }

  lemma {:induction false} NextCell(cells: seq<string>, k: nat)
    requires 0 < k < |cells|
    ensures Joined(cells[..k + 1]) == Joined(cells[..k]) + "," + cells[k]
    decreases k
  {
    if k == 1 {
      assert cells[..2][1..] == [cells[1]];
    } else {
      NextCell(cells[1..], k - 1);
      assert cells[..k][1..] == cells[1..][..k - 1] && cells[..k + 1][1..] == cells[1..][..k];
    }
  }

  /** The whole output for one query. */
  function Output(columns: seq<Column>, q: QueryResult): Result<string, Error>
  {
    if SchemaMatches(columns, q) && AllNullsAllowed(columns, q.rows)
    then Ok(RowText(Names(columns)) + TableText(TableValues(q.rows)))
    else Err(InvalidData)
  }

  method ValidateResultSchema(columns: seq<Column>, q: QueryResult) returns (ok: bool)
    requires Consistent(q)
    ensures ok <==> SchemaMatches(columns, q)
  {
    if |q.names| != |columns| {
      return false;
    }
    for k := 0 to |columns|
      invariant forall i :: 0 <= i < k ==> q.names[i] == columns[i].name && q.kinds[i] == columns[i].kind
    {
      if q.names[k] != columns[k].name {
        return false;
      }
      if q.kinds[k] != columns[k].kind {
        return false;
      }
    }
    return true;
  }

  method WriteResult(columns: seq<Column>, q: QueryResult) returns (res: Result<string, Error>)
    requires columns != [] && Consistent(q)
    ensures res == Output(columns, q)
  {
    hide TableText, AllNullsAllowed, Joined, TableValues, Names, Consistent;
    var schema := ValidateResultSchema(columns, q);
    if !schema {
      return Err(InvalidData);
    }
    var csv := new CsvBuffer();
    csv.AppendHeader(columns);
    ConsistentWidths(columns, q);
    var ok := csv.AppendRows(columns, q.rows);
    if !ok {
      return Err(InvalidData);
    }
    assert "" + RowText(Names(columns)) == RowText(Names(columns));
    return Ok(csv.text);
  }

  lemma ConsistentWidths(columns: seq<Column>, q: QueryResult)
    requires Consistent(q) && SchemaMatches(columns, q)
    ensures SameWidth(columns, q.rows)
  {
    forall i | 0 <= i < |q.rows| ensures |q.rows[i]| == |columns| {
      assert RowFits(q.rows[i], q.kinds);
    }
  }

  lemma {:induction false} NextRow(rows: seq<seq<string>>, k: nat)
    requires k < |rows|
    ensures TableText(rows[..k + 1]) == TableText(rows[..k]) + RowText(CellTexts(rows[k]))
    decreases k
  {
    hide RowText, CellTexts;
    if k == 0 {
      assert rows[..1][1..] == [] && rows[..0] == [] && TableText([]) == "";
    } else {
      NextRow(rows[1..], k - 1);
      assert rows[..k][1..] == rows[1..][..k - 1] && rows[..k + 1][1..] == rows[1..][..k];
      assert rows[..k][0] == rows[0] == rows[..k + 1][0];
    }
  }

  /** For every accepted result a reader recovers the header and every cell of every row in
      order, NULL as the empty text, exactly when the column names are plain. */
  lemma OutputReadsBackIff(columns: seq<Column>, q: QueryResult)
    requires columns != [] && Consistent(q) && Output(columns, q).Ok?
    ensures ParseTable(Output(columns, q).value) == Some([q.names] + TableValues(q.rows)) <==> AllPlain(q.names)
  {
    assert |RowText(q.names)| > 0;
    hide TableText, ParseRow, RowText, AllPlain, NullsAllowed;
    var table := TableValues(q.rows);
    assert Names(columns) == q.names;
    forall i | 0 <= i < |table| ensures table[i] != [] {
      assert table[i] == RowValues(q.rows[i]) && RowFits(q.rows[i], q.kinds);
    }
    TableReadsBack(table);
    HeaderReadsBackIff(q.names, TableText(table));
    var s := Output(columns, q).value;
    assert s != "";
    var row := ParseRow(s);
    if AllPlain(q.names) {
      assert row == Some((q.names, TableText(table)));
    } else if ParseTable(s).Some? {
      assert ParseTable(s).value[0] == row.value.0;
    }
  }

  /** One small table, written out. */
  lemma OutputExample()
    ensures var columns := [Column("a", Varchar, false), Column("b", UBigInt, true), Column("c", Boolean, false)];
            var q := QueryResult(["a", "b", "c"], [Varchar, UBigInt, Boolean], [[Text("x,y"), Null, Bool(true)]]);
            Output(columns, q) ==
            Ok(("a" + "," + "b" + "," + "c" + "\n") + ("\"x,y\"" + "," + "" + "," + "TRUE" + "\n"))
  {
    var columns := [Column("a", Varchar, false), Column("b", UBigInt, true), Column("c", Boolean, false)];
    var row := [Text("x,y"), Null, Bool(true)];
    var q := QueryResult(["a", "b", "c"], [Varchar, UBigInt, Boolean], [row]);
    ExampleRow(row);
    assert SchemaMatches(columns, q) && AllNullsAllowed(columns, q.rows);
    assert Names(columns) == ["a", "b", "c"];
    hide CellTexts, RowValues, Joined, SchemaMatches, AllNullsAllowed;
    assert TableValues([row]) == [RowValues(row)];
    JoinThree("a", "b", "c");
    JoinThree("\"x,y\"", "", "TRUE");
    assert [RowValues(row)][1..] == [] && TableText([]) == "";
    assert TableText([RowValues(row)]) == RowText(CellTexts(RowValues(row)));
  }

  lemma ExampleRow(row: seq<Cell>)
    requires row == [Text("x,y"), Null, Bool(true)]
    ensures CellTexts(RowValues(row)) == ["\"x,y\"", "", "TRUE"]
  {
    assert RowValues(row) == ["x,y", "", "TRUE"];
    UnquotedIff("");
    UnquotedIff("TRUE");
    assert CellText("x,y") == "\"x,y\"" by {
      assert "x,y"[1] == ',' && !Plain("x,y");
      assert "x,y"[1..] == ",y" && ",y"[1..] == "y" && "y"[1..] == "";
      assert DoubleQuotes("y") == "y" && DoubleQuotes(",y") == ",y" && DoubleQuotes("x,y") == "x,y";
    }
    hide CellText, DoubleQuotes;
    assert CellTexts(["x,y", "", "TRUE"]) == ["\"x,y\"", "", "TRUE"];
  }

  lemma JoinThree(a: string, b: string, c: string)
    ensures Joined([a, b, c]) == a + "," + b + "," + c
  {
    assert [a, b, c][1..] == [b, c] && [b, c][1..] == [c];
    assert Joined([b, c]) == b + "," + c;
  }

  /** A result is refused exactly when its columns differ in number, name or type from those
      expected, or a row has a NULL in a column that is not nullable. */
  lemma OutputRefusedIff(columns: seq<Column>, q: QueryResult)
    requires Consistent(q)
    ensures Output(columns, q).Err? <==>
            || |q.names| != |columns|
            || (exists k :: 0 <= k < |columns| && (q.names[k] != columns[k].name || q.kinds[k] != columns[k].kind))
            || (exists i, k :: 0 <= i < |q.rows| && 0 <= k < |columns| && q.rows[i][k].Null? && !columns[k].nullable)
  {
    hide TableText, Joined;
    assert forall i :: 0 <= i < |q.rows| ==> RowFits(q.rows[i], q.kinds);
    if SchemaMatches(columns, q) && !AllNullsAllowed(columns, q.rows) {
      var i :| 0 <= i < |q.rows| && !NullsAllowed(columns, q.rows[i]);
      var k :| 0 <= k < |q.rows[i]| && q.rows[i][k].Null? && !columns[k].nullable;
    }
    if AllNullsAllowed(columns, q.rows) {
      assert forall i :: 0 <= i < |q.rows| ==> NullsAllowed(columns, q.rows[i]);
    }
  }
}
