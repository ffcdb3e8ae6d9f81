/**
 Query results as a CSV table: the header is the union of the items' keys, each row renders one
 item. The text is written by the rules of Go's csv.Writer and can be read back by the grammar
 in section 2 of RFC 4180, with LF as line end.
 */
module Csv {
  import opened Wrappers

  /** A decoded JSON value: `Other` carries the text json.Marshal gives it, if it succeeds. */
  datatype Json = Null | Str(s: string) | Other(text: Option<string>)

  type Item = map<string, Json>

  type Row = seq<string>

  /** json.Unmarshal into a map */
  type Parser = string -> Result<Item, string>

  // ---------------------------------------------------------------- the table

  /** The byte order of Go strings, which for UTF-8 is the order of code points. */
  predicate Before(a: string, b: string) {
    b != [] && (a == [] || a[0] < b[0] || (a[0] == b[0] && Before(a[1..], b[1..])))
  }

  lemma {:induction false} BeforeIsTotal(a: string, b: string)
    ensures Before(a, b) || Before(b, a) || a == b
    ensures !(Before(a, b) && Before(b, a))
    ensures !Before(a, a)
  {
    if a != [] && b != [] && a[0] == b[0] {
      BeforeIsTotal(a[1..], b[1..]);
      assert a == [a[0]] + a[1..] && b == [b[0]] + b[1..];
    }
    if a != [] { BeforeIsTotal(a[1..], a[1..]); }
  }

  lemma {:induction false} BeforeIsTransitive(a: string, b: string, c: string)
    requires Before(a, b) && Before(b, c)
    ensures Before(a, c)
  {
    if a != [] && a[0] == b[0] && b[0] == c[0] { BeforeIsTransitive(a[1..], b[1..], c[1..]); }
  }

  ghost predicate Ascending(keys: Row) { forall i, j | 0 <= i < j < |keys| :: Before(keys[i], keys[j]) }

  ghost predicate IsHeader(keys: Row, items: seq<Item>) {
    Ascending(keys) && forall k :: k in keys <==> exists item <- items :: k in item
  }

  lemma {:induction false} TailOfAscending(a: Row, k: string)
    requires Ascending(a) && a != []
    ensures k in a[1..] <==> k in a && k != a[0]
    ensures k in a ==> k == a[0] || Before(a[0], k)
  {
    BeforeIsTotal(a[0], k);
    assert a == [a[0]] + a[1..];
  }

  /** The items determine the header. */
  lemma {:induction false} AscendingIsUnique(a: Row, b: Row)
    requires Ascending(a) && Ascending(b)
    requires forall k :: k in a <==> k in b
    ensures a == b
  {
    if a == [] {
      var first := if b == [] then "" else b[0];
      assert b == [] || first in b;
    } else {
      assert a[0] in a && a[0] in b && b != [] && b[0] in b && b[0] in a;
      TailOfAscending(a, b[0]);
      TailOfAscending(b, a[0]);
      BeforeIsTotal(a[0], b[0]);
      forall k ensures k in a[1..] <==> k in b[1..] {
        TailOfAscending(a, k);
        TailOfAscending(b, k);
      }
      AscendingIsUnique(a[1..], b[1..]);
    }
  }

  lemma {:induction false} HeaderIsUnique(a: Row, b: Row, items: seq<Item>)
    requires IsHeader(a, items) && IsHeader(b, items)
    ensures a == b
  {
    AscendingIsUnique(a, b);
  }

  function Cell(item: Item, key: string): string {
    if key !in item then ""
    else
      match item[key]
      case Null => ""
      case Str(s) => s
      case Other(Some(text)) => text
      case Other(None) => ""
  }

  /** What a reader of the table learns about an item's value at a key. */
  ghost predicate Shows(cell: string, item: Item, key: string) {
    && (key !in item ==> cell == "")
    && (key in item && item[key].Null? ==> cell == "")
    && (key in item && item[key].Str? ==> cell == item[key].s)
    && (key in item && item[key].Other? && item[key].text.Some? ==> cell == item[key].text.value)
    && (key in item && item[key].Other? && item[key].text.None? ==> cell == "")
  }

  ghost predicate ShowsAll(table: seq<Row>, keys: Row, items: seq<Item>) {
    && |table| == |items| + 1 && table[0] == keys
    && forall i, j | 0 <= i < |items| && 0 <= j < |keys| ::
         |table[i + 1]| == |keys| && Shows(table[i + 1][j], items[i], keys[j])
  }

  /** Two items with different strings at a key have different rows. */
  lemma {:induction false} StringsTellRowsApart(a: Item, b: Item, keys: Row, key: string)
    requires key in keys && key in a && key in b && a[key].Str? && b[key].Str? && a[key].s != b[key].s
    ensures RowOf(a, keys) != RowOf(b, keys)
  {
    var j :| 0 <= j < |keys| && keys[j] == key;
    assert RowOf(a, keys)[j] == a[key].s && RowOf(b, keys)[j] == b[key].s;
  }

  lemma {:induction false} TableShowsAll(keys: Row, items: seq<Item>)
    ensures ShowsAll(Table(keys, items), keys, items)
  {
  }

  function RowOf(item: Item, keys: Row): (row: Row)
    ensures |row| == |keys|
  {
    seq(|keys|, i requires 0 <= i < |keys| => Cell(item, keys[i]))
  }

  function Table(keys: Row, items: seq<Item>): seq<Row> {
    [keys] + seq(|items|, i requires 0 <= i < |items| => RowOf(items[i], keys))
  }

  // ---------------------------------------------------------------- the text

  /** unicode.IsSpace */
  predicate IsSpace(c: char) {
    var u := c as int;
    9 <= u <= 13 || u in {0x20, 0x85, 0xA0, 0x1680, 0x2028, 0x2029, 0x202F, 0x205F, 0x3000} || 0x2000 <= u <= 0x200A
  }

  predicate Special(c: char) { c == '"' || c == ',' || c == '\r' || c == '\n' }

  predicate NeedsQuotes(field: string) {
    field != [] && (field == "\\." || (exists c <- field :: Special(c)) || IsSpace(field[0]))
  }

  function Escaped(field: string): string {
    if field == [] then []
    else (if field[0] == '"' then "\"\"" else [field[0]]) + Escaped(field[1..])
  }

  function FieldText(field: string): string {
    if NeedsQuotes(field) then "\"" + Escaped(field) + "\"" else field
  }

  function Fields(row: Row): string
    requires row != []
  {
    if |row| == 1 then FieldText(row[0]) else FieldText(row[0]) + "," + Fields(row[1..])
  }

  function RowText(row: Row): string { (if row == [] then "" else Fields(row)) + "\n" }

  function TableText(table: seq<Row>): string {
    if table == [] then "" else RowText(table[0]) + TableText(table[1..])
  }

  /** A field is written as it is if nothing in it could mislead a reader, and in quotes otherwise. */
  lemma {:induction false} QuotedWhenNeeded(field: string)
    ensures (forall c <- field :: c !in ",\"\r\n") && field != "\\." && (field == [] || !IsSpace(field[0])) ==> FieldText(field) == field
    ensures (exists c <- field :: c in ",\"\r\n") || field == "\\." || (field != [] && IsSpace(field[0])) ==>
              |FieldText(field)| >= |field| + 2 && FieldText(field)[0] == '"' && FieldText(field)[|FieldText(field)| - 1] == '"'
  {
    EscapedGrows(field);
  }

  lemma {:induction false} EscapedGrows(field: string)
    ensures |Escaped(field)| >= |field|
  {
    if field != [] { EscapedGrows(field[1..]); }
  }

  // ---------------------------------------------------------------- reading it back

  datatype Mode =
    | Start        // where a field may begin
    | Plain        // inside a field without quotes
    | Quoted       // inside quotes
    | QuoteSeen    // after a quote inside quotes: the closing one, or the first of two

  function Read(t: string, mode: Mode, field: string, row: Row, table: seq<Row>): Option<seq<Row>> {
    if t == [] then
      if mode == Quoted then None
      else if mode == Start && row == [] then Some(table)
      else Some(table + [row + [field]])
    else if mode == Quoted then
      if t[0] == '"' then Read(t[1..], QuoteSeen, field, row, table)
      else Read(t[1..], Quoted, field + [t[0]], row, table)
    else if t[0] == ',' then Read(t[1..], Start, "", row + [field], table)
    else if t[0] == '\n' then Read(t[1..], Start, "", [], table + [row + [field]])
    else if t[0] == '"' then
      match mode
      case Start => Read(t[1..], Quoted, "", row, table)
      case QuoteSeen => Read(t[1..], Quoted, field + ['"'], row, table)
      case _ => None
    else if t[0] == '\r' || mode == QuoteSeen then None
    else Read(t[1..], Plain, field + [t[0]], row, table)
  }

  /** What a reader of section 2 makes of a text, or nothing if it breaks the rules. */
  function ReadBack(t: string): Option<seq<Row>> { Read(t, Start, "", [], []) }

  lemma {:induction false} ReadEscaped(f: string, rest: string, field: string, row: Row, table: seq<Row>)
    ensures Read(Escaped(f) + "\"" + rest, Quoted, field, row, table) == Read(rest, QuoteSeen, field + f, row, table)
  {
    var t := Escaped(f) + "\"" + rest;
    if f == [] {
      assert t[1..] == rest && field + f == field;
    } else {
      ReadEscaped(f[1..], rest, field + [f[0]], row, table);
      var after := Escaped(f[1..]) + "\"" + rest;
      assert field + f == field + [f[0]] + f[1..];
      if f[0] == '"' {
        assert t[1..][1..] == after && t[1..][0] == '"';
      } else {
        assert t[1..] == after;
      }
    }
  }

  lemma {:induction false} ReadPlain(f: string, rest: string, field: string, row: Row, table: seq<Row>)
    requires forall c <- f :: !Special(c)
    ensures Read(f + rest, Plain, field, row, table) == Read(rest, Plain, field + f, row, table)
  {
    if f == [] {
      assert f + rest == rest && field + f == field;
    } else {
      assert f[0] in f;
      ReadPlain(f[1..], rest, field + [f[0]], row, table);
      assert (f + rest)[1..] == f[1..] + rest;
      assert field + f == field + [f[0]] + f[1..];
    }
  }

  /** A written field, up to the separator or line end after it. */
  lemma {:induction false} ReadField(f: string, rest: string, row: Row, table: seq<Row>)
    requires rest != [] && (rest[0] == ',' || rest[0] == '\n')
    ensures Read(FieldText(f) + rest, Start, "", row, table) ==
            if rest[0] == ',' then Read(rest[1..], Start, "", row + [f], table)
            else Read(rest[1..], Start, "", [], table + [row + [f]])
  {
    if NeedsQuotes(f) {
      ReadQuotedField(f, rest, row, table);
    } else if f == [] {
      assert f + rest == rest;
    } else {
      ReadPlainField(f, rest, row, table);
    }
  }

  lemma {:induction false} ReadQuotedField(f: string, rest: string, row: Row, table: seq<Row>)
    ensures Read("\"" + Escaped(f) + "\"" + rest, Start, "", row, table) == Read(rest, QuoteSeen, f, row, table)
  {
    ReadEscaped(f, rest, "", row, table);
    assert ("\"" + Escaped(f) + "\"" + rest)[1..] == Escaped(f) + "\"" + rest;
    assert "" + f == f;
  }

  lemma {:induction false} ReadPlainField(f: string, rest: string, row: Row, table: seq<Row>)
    requires f != [] && forall c <- f :: !Special(c)
    ensures Read(f + rest, Start, "", row, table) == Read(rest, Plain, f, row, table)
  {
    assert f[0] in f;
    ReadPlain(f[1..], rest, [f[0]], row, table);
    assert (f + rest)[1..] == f[1..] + rest;
    assert [f[0]] + f[1..] == f && "" + [f[0]] == [f[0]];
  }

  lemma {:induction false} ReadRow(fields: Row, rest: string, row: Row, table: seq<Row>)
    requires fields != []
    ensures Read(Fields(fields) + "\n" + rest, Start, "", row, table) == Read(rest, Start, "", [], table + [row + fields])
  {
    var f := fields[0];
    if |fields| == 1 {
      assert Fields(fields) + "\n" + rest == FieldText(f) + ("\n" + rest);
      ReadField(f, "\n" + rest, row, table);
      assert fields == [f];
    } else {
      var after := Fields(fields[1..]) + "\n" + rest;
      assert Fields(fields) + "\n" + rest == FieldText(f) + ("," + after);
      ReadField(f, "," + after, row, table);
      ReadRow(fields[1..], rest, row + [f], table);
      assert row + [f] + fields[1..] == row + fields;
    }
  }

  lemma {:induction false} ReadTable(rows: seq<Row>, table: seq<Row>)
    requires forall row <- rows :: row != []
    ensures Read(TableText(rows), Start, "", [], table) == Some(table + rows)
  {
    if rows == [] {
      assert table + rows == table;
    } else {
      assert rows[0] in rows;
      var rest := TableText(rows[1..]);
      assert TableText(rows) == Fields(rows[0]) + "\n" + rest;
      ReadRow(rows[0], rest, [], table);
      assert [] + rows[0] == rows[0];
      assert forall row <- rows[1..] :: row in rows;
      ReadTable(rows[1..], table + [rows[0]]);
      assert table + [rows[0]] + rows[1..] == table + rows;
    }
  }

  /** A row without fields is written like a row with one empty field, and read back as that. */
  lemma {:induction false} EmptyRowsAreLost(rows: seq<Row>)
    requires rows != [] && rows[0] == []
    ensures ReadBack(TableText(rows)) != Some(rows)
  {
    var rest := TableText(rows[1..]);
    assert TableText(rows)[1..] == rest;
    ReadKeeps(rest, Start, "", [], [[""]]);
    assert [] + [""] == [""] && [] + [[""]] == [[""]];
  }

  lemma {:induction false} ReadKeeps(t: string, mode: Mode, field: string, row: Row, table: seq<Row>)
    ensures var r := Read(t, mode, field, row, table); r.Some? ==> table <= r.value
    decreases t
  {
    if t != [] {
      ReadKeeps(t[1..], Start, "", row + [field], table);
      ReadKeeps(t[1..], Start, "", [], table + [row + [field]]);
      forall m: Mode, f: string { ReadKeeps(t[1..], m, f, row, table); }
    }
  }

  /** The table can be read back from its text if and only if it has at least one column. */
  lemma {:induction false} RoundTrip(keys: Row, items: seq<Item>)
    ensures ReadBack(TableText(Table(keys, items))) == Some(Table(keys, items)) <==> keys != []
  {
    var table := Table(keys, items);
    if keys == [] {
      assert table[0] == [];
      EmptyRowsAreLost(table);
    } else {
      forall row <- table ensures row != [] {
        var i :| 0 <= i < |table| && table[i] == row;
        assert i > 0 ==> row == RowOf(items[i - 1], keys);
      }
      ReadTable(table, []);
      assert [] + table == table;
    }
  }

  // ---------------------------------------------------------------- csv.Writer

  /** strings.IndexAny for the characters that end a chunk, or the length */
  method IndexOfSpecial(field: string) returns (i: nat)
    ensures i <= |field| && Escaped(field) == field[..i] + Escaped(field[i..])
    ensures i < |field| ==> field[i] in {'"', '\r', '\n'}
  {
    i := 0;
    while i < |field| && field[i] !in {'"', '\r', '\n'}
      invariant 0 <= i <= |field|
      invariant Escaped(field) == field[..i] + Escaped(field[i..])
    {
      assert field[i..][1..] == field[i + 1..];
      assert field[..i] + ([field[i]] + Escaped(field[i + 1..])) == field[..i + 1] + Escaped(field[i + 1..]);
      i := i + 1;
    }
  }

  lemma {:induction false} MoveOver(text: string, part: string, rest: string, end: string, whole: string)
    requires text + (part + rest) + end == whole
    ensures (text + part) + rest + end == whole
  {}

  method WriteField(field: string) returns (text: string)
    ensures text == FieldText(field)
  {
    if !NeedsQuotes(field) {
      return field;
    }
    text := "\"";
    var rest := field;
    while |rest| > 0
      invariant text + Escaped(rest) + "\"" == FieldText(field)
    {
      var i := IndexOfSpecial(rest);
      MoveOver(text, rest[..i], Escaped(rest[i..]), "\"", FieldText(field));
      text := text + rest[..i];
      rest := rest[i..];
      if |rest| > 0 {
        var escape := if rest[0] == '"' then "\"\"" else [rest[0]];
        MoveOver(text, escape, Escaped(rest[1..]), "\"", FieldText(field));
        text := text + escape;
        rest := rest[1..];
      }
    }
    text := text + "\"";
  }

  lemma {:induction false} OneMoreField(row: Row, f: string)
    requires row != []
    ensures Fields(row + [f]) == Fields(row) + "," + FieldText(f)
  {
    if |row| == 1 {
      assert (row + [f])[1..] == [f];
    } else {
      assert (row + [f])[1..] == row[1..] + [f];
      OneMoreField(row[1..], f);
    }
  }

  method WriteRow(row: Row) returns (text: string)
    ensures text == RowText(row)
  {
    text := "";
    var n := 0;
    while n < |row|
      invariant 0 <= n <= |row|
      invariant text == if n == 0 then "" else Fields(row[..n])
    {
      if n > 0 {
        text := text + ",";
        OneMoreField(row[..n], row[n]);
      }
      var field := WriteField(row[n]);
      text := text + field;
      assert row[..n + 1] == row[..n] + [row[n]];
      n := n + 1;
    }
    assert row[..n] == row;
    text := text + "\n";
  }

  lemma {:induction false} OneMoreRow(rows: seq<Row>, row: Row)
    ensures TableText(rows + [row]) == TableText(rows) + RowText(row)
  {
    if rows == [] {
      assert (rows + [row])[1..] == [];
    } else {
      assert (rows + [row])[1..] == rows[1..] + [row];
      OneMoreRow(rows[1..], row);
    }
  }

  // ---------------------------------------------------------------- formatCSVOutput

  /** sort.Strings on distinct strings */
  method SortStrings(keys: set<string>) returns (sorted: Row)
    ensures Ascending(sorted) && forall k :: k in sorted <==> k in keys
  {
    sorted := [];
    var rest := keys;
    while rest != {}
      invariant rest <= keys
      invariant Ascending(sorted) && forall k :: k in sorted <==> k in keys && k !in rest
      decreases |rest|
    {
      var k :| k in rest;
      rest := rest - {k};
      sorted := Insert(sorted, k);
    }
  }

  method Insert(sorted: Row, k: string) returns (r: Row)
    requires Ascending(sorted) && k !in sorted
    ensures Ascending(r) && forall x :: x in r <==> x in sorted || x == k
  {
    var i := 0;
    while i < |sorted| && Before(sorted[i], k)
      invariant 0 <= i <= |sorted|
      invariant forall j | 0 <= j < i :: Before(sorted[j], k)
    {
      i := i + 1;
    }
    r := sorted[..i] + [k] + sorted[i..];
    forall j | i <= j < |sorted| ensures Before(k, sorted[j]) {
      BeforeIsTotal(sorted[i], k);
      if i < j { BeforeIsTransitive(k, sorted[i], sorted[j]); }
    }
  }

  ghost predicate Parsed(items: seq<string>, parse: Parser, parsed: seq<Item>) {
    |parsed| == |items| && forall i | 0 <= i < |items| :: parse(items[i]) == Ok(parsed[i])
  }

  /** The first loop: every item is parsed, and the keys of all of them are collected. */
  method ParseItems(items: seq<string>, parse: Parser)
    returns (parsed: seq<Item>, allKeys: set<string>, failure: Option<string>)
    ensures failure.Some? ==> exists i | 0 <= i < |items| ::
              parse(items[i]) == Err(failure.value) && forall j | 0 <= j < i :: parse(items[j]).Ok?
    ensures failure.None? ==> Parsed(items, parse, parsed) && forall k :: k in allKeys <==> exists item <- parsed :: k in item
  {
    parsed, allKeys, failure := [], {}, None;
    for i := 0 to |items|
      invariant |parsed| == i && forall j | 0 <= j < i :: parse(items[j]) == Ok(parsed[j])
      invariant forall k :: k in allKeys <==> exists item <- parsed :: k in item
    {
      match parse(items[i]) {
        case Err(e) =>
          failure := Some(e);
          return;
        case Ok(item) =>
          ghost var before := parsed;
          parsed := parsed + [item];
          allKeys := allKeys + item.Keys;
          forall k ensures k in allKeys <==> exists x <- parsed :: k in x {
            assert item in parsed && forall x :: x in parsed <==> x in before || x == item;
          }
      }
    }
  }

  method RenderRow(item: Item, keys: Row) returns (row: Row)
    ensures row == RowOf(item, keys)
    ensures |row| == |keys| && forall j | 0 <= j < |keys| :: Shows(row[j], item, keys[j])
  {
    row := [];
    for i := 0 to |keys|
      invariant row == RowOf(item, keys)[..i]
    {
      var cell := "";
      if keys[i] in item {
        match item[keys[i]] {
          case Null => cell := "";
          case Str(s) => cell := s;
          case Other(Some(text)) => cell := text;
          case Other(None) => cell := "";
        }
      }
      row := row + [cell];
    }
  }

  lemma {:induction false} HeaderText(keys: Row, parsed: seq<Item>)
    ensures TableText(Table(keys, parsed[..0])) == RowText(keys)
  {
    assert Table(keys, parsed[..0]) == [keys];
    OneMoreRow([], keys);
    assert [] + [keys] == [keys];
  }

  lemma {:induction false} OneMoreItem(keys: Row, parsed: seq<Item>, n: nat)
    requires n < |parsed|
    ensures TableText(Table(keys, parsed[..n + 1])) == TableText(Table(keys, parsed[..n])) + RowText(RowOf(parsed[n], keys))
  {
    assert Table(keys, parsed[..n + 1]) == Table(keys, parsed[..n]) + [RowOf(parsed[n], keys)];
    OneMoreRow(Table(keys, parsed[..n]), RowOf(parsed[n], keys));
  }

  method WriteTable(keys: Row, parsed: seq<Item>) returns (buf: string)
    ensures buf == TableText(Table(keys, parsed))
  {
    buf := WriteRow(keys);
    HeaderText(keys, parsed);
    var n := 0;
    while n < |parsed|
      invariant 0 <= n <= |parsed|
      invariant buf == TableText(Table(keys, parsed[..n]))
    {
      var row := RenderRow(parsed[n], keys);
      var text := WriteRow(row);
      OneMoreItem(keys, parsed, n);
      buf := buf + text;
      n := n + 1;
    }
    assert parsed[..n] == parsed;
  }

  /** The first item that does not parse stops it; otherwise the text is that of the table of all items. */
  method FormatCSVOutput(items: seq<string>, parse: Parser) returns (r: Result<string, string>)
    ensures items == [] ==> r == Ok("")
    ensures r.Err? <==> exists i | 0 <= i < |items| :: parse(items[i]).Err?
    ensures r.Err? ==> exists i | 0 <= i < |items| ::
              parse(items[i]) == Err(r.error) && forall j | 0 <= j < i :: parse(items[j]).Ok?
    ensures items != [] && r.Ok? ==>
              exists keys, parsed ::
                && Parsed(items, parse, parsed) && IsHeader(keys, parsed) && r.value == TableText(Table(keys, parsed))
                && (keys != [] ==> ReadBack(r.value).Some? && ShowsAll(ReadBack(r.value).value, keys, parsed))
  {
    if |items| == 0 {
      return Ok("");
    }
    var parsed, allKeys, failure := ParseItems(items, parse);
    if failure.Some? {
      return Err(failure.value);
    }
    var keys := SortStrings(allKeys);
    var buf := WriteTable(keys, parsed);
    RoundTrip(keys, parsed);
    TableShowsAll(keys, parsed);
    r := Ok(buf);
    assert keys != [] ==> ReadBack(r.value).Some? && ShowsAll(ReadBack(r.value).value, keys, parsed);
  }
}
