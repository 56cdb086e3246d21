/**
 * The CSV an export is written as (server/src/lib/databaseExport.ts), against a
 * strict reader of section 2 of RFC 4180.
 */
module Csv {
  import opened Common

  const CRLF := "\r\n"

  predicate Special(c: char) {
    c == '"' || c == ',' || c == '\r' || c == '\n'
  }

  predicate NeedsQuotes(s: string) {
    exists i :: 0 <= i < |s| && Special(s[i])
  }

  /** Every quote doubled. */
  function Doubled(s: string): string {
    if s == "" then "" else (if s[0] == '"' then "\"\"" else [s[0]]) + Doubled(s[1..])
  }

  function CsvValue(s: string): string {
    if NeedsQuotes(s) then "\"" + Doubled(s) + "\"" else s
  }

  function Join(parts: seq<string>, sep: string): string {
    if parts == [] then "" else if |parts| == 1 then parts[0] else parts[0] + sep + Join(parts[1..], sep)
  }

  function Values(fields: seq<string>): seq<string> {
    seq(|fields|, i requires 0 <= i < |fields| => CsvValue(fields[i]))
  }

  function Line(fields: seq<string>): string {
    Join(Values(fields), ",")
  }

  function ToCsv(columns: seq<string>, rows: seq<seq<string>>): string {
    Join([Line(columns)] + seq(|rows|, i requires 0 <= i < |rows| => Line(rows[i])), CRLF) + CRLF
  }

  // ---- The reader ----

  /** What was read, and what is left. */
  datatype Read<T> = Read(value: T, rest: string)

  /** The inside of a quoted field, up to and past its closing quote. */
  function ReadQuoted(s: string): (r: Option<Read<string>>)
    ensures r.Some? ==> |r.value.rest| < |s|
  {
    if s == "" then None
    else if s[0] == '"' && |s| > 1 && s[1] == '"' then
      var r := ReadQuoted(s[2..]);
      if r.None? then None else Some(Read(['"'] + r.value.value, r.value.rest))
    else if s[0] == '"' then Some(Read("", s[1..]))
    else
      var r := ReadQuoted(s[1..]);
      if r.None? then None else Some(Read([s[0]] + r.value.value, r.value.rest))
  }

  /** A field without quotes: everything up to the first character that cannot be in one. */
  function ReadPlain(s: string): (r: Read<string>)
    ensures |r.rest| <= |s|
  {
    if s == "" || Special(s[0]) then Read("", s)
    else
      var r := ReadPlain(s[1..]);
      Read([s[0]] + r.value, r.rest)
  }

  function ReadField(s: string): (r: Option<Read<string>>)
    ensures r.Some? ==> |r.value.rest| <= |s|
  {
    if s != "" && s[0] == '"' then ReadQuoted(s[1..]) else Some(ReadPlain(s))
  }

  /** Fields separated by commas, to the end of the line or of the file; anything else after a field is an error. */
  function ReadRecord(s: string): (r: Option<Read<seq<string>>>)
    ensures r.Some? ==> |r.value.rest| <= |s| && r.value.value != []
    ensures r.Some? && s != "" ==> |r.value.rest| < |s|
    decreases |s|
  {
    var field := ReadField(s);
    if field.None? then None
    else
      var f, rest := field.value.value, field.value.rest;
      if rest == "" then Some(Read([f], ""))
      else if rest[0] == ',' then
        var more := ReadRecord(rest[1..]);
        if more.None? then None else Some(Read([f] + more.value.value, more.value.rest))
      else if CRLF <= rest then Some(Read([f], rest[2..]))
      else None
  }

  function ReadCsv(s: string): (r: Option<seq<seq<string>>>)
    decreases |s|
  {
    if s == "" then Some([])
    else
      var record := ReadRecord(s);
      if record.None? then None
      else
        var more := ReadCsv(record.value.rest);
        if more.None? then None else Some([record.value.value] + more.value)
  }

  // ---- Reading undoes writing ----

  /** What may follow a field. */
  predicate Delimited(rest: string) {
    rest == "" || rest[0] == ',' || CRLF <= rest
  }

  /** One character of a quoted value, doubled if it is a quote. */
  lemma OneMoreQuoted(c: char, tail: string, v: string, rest: string)
    requires ReadQuoted(tail) == Some(Read(v, rest))
    ensures ReadQuoted((if c == '"' then ['"', '"'] else [c]) + tail) == Some(Read([c] + v, rest))
  {
    if c == '"' {
      var s := ['"', '"'] + tail;
      assert s[0] == '"' && s[1] == '"' && s[2..] == tail;
    } else {
      var s := [c] + tail;
      assert s[0] == c && s[1..] == tail;
    }
  }

  lemma {:induction false} QuotedIsRead(v: string, rest: string)
    requires rest == "" || rest[0] != '"'
    ensures ReadQuoted(Doubled(v) + "\"" + rest) == Some(Read(v, rest))
  {
    var s := Doubled(v) + "\"" + rest;
    if v == "" {
      assert s == "\"" + rest && s[1..] == rest;
    } else {
      var tail := Doubled(v[1..]) + "\"" + rest;
      QuotedIsRead(v[1..], rest);
      OneMoreQuoted(v[0], tail, v[1..], rest);
      assert v == [v[0]] + v[1..];
      assert s == (if v[0] == '"' then ['"', '"'] else [v[0]]) + tail;
    }
  }

  lemma {:induction false} PlainIsRead(v: string, rest: string)
    requires !NeedsQuotes(v) && (rest == "" || Special(rest[0]))
    ensures ReadPlain(v + rest) == Read(v, rest)
  {
    if v == "" {
      assert "" + rest == rest;
    } else {
      assert !Special(v[0]);
      assert forall i :: 0 <= i < |v| - 1 ==> v[1..][i] == v[i + 1];
      PlainIsRead(v[1..], rest);
      assert (v + rest)[1..] == v[1..] + rest && v == [v[0]] + v[1..];
    }
  }

  lemma Quoting(inside: string, rest: string)
    ensures var s := "\"" + inside + "\"" + rest; s != "" && s[0] == '"' && s[1..] == inside + "\"" + rest
  {
  }

  lemma QuotedValueIsRead(v: string, rest: string)
    requires NeedsQuotes(v) && Delimited(rest)
    ensures ReadField(CsvValue(v) + rest) == Some(Read(v, rest))
  {
    var doubled := Doubled(v);
    QuotedIsRead(v, rest);
    Quoting(doubled, rest);
  }

  lemma PlainValueIsRead(v: string, rest: string)
    requires !NeedsQuotes(v) && Delimited(rest)
    ensures ReadField(v + rest) == Some(Read(v, rest))
  {
    PlainIsRead(v, rest);
    var s := v + rest;
    if v != "" {
      assert !Special(v[0]) && s[0] == v[0];
    } else {
      assert s == rest;
    }
  }

  /** Whatever is in a value, the reader gets it back and stops where it ends. */
  lemma ValueIsRead(v: string, rest: string)
    requires Delimited(rest)
    ensures ReadField(CsvValue(v) + rest) == Some(Read(v, rest))
  {
    if NeedsQuotes(v) {
      QuotedValueIsRead(v, rest);
    } else {
      PlainValueIsRead(v, rest);
    }
  }

  lemma LineMore(fields: seq<string>)
    requires |fields| > 1
    ensures Line(fields) == CsvValue(fields[0]) + "," + Line(fields[1..])
  {
    assert Values(fields)[1..] == Values(fields[1..]);
  }

  /** A field, then the rest of a record. */
  lemma FieldThenRest(s: string, v: string, more: string, rest: seq<string>, tail: string)
    requires s == CsvValue(v) + ("," + more) && ReadRecord(more) == Some(Read(rest, tail))
    ensures ReadRecord(s) == Some(Read([v] + rest, tail))
  {
    ValueIsRead(v, "," + more);
    assert ("," + more)[1..] == more;
  }

  lemma LastField(s: string, v: string, tail: string)
    requires s == CsvValue(v) + (CRLF + tail)
    ensures ReadRecord(s) == Some(Read([v], tail))
  {
    ValueIsRead(v, CRLF + tail);
    assert (CRLF + tail)[2..] == tail;
  }

  lemma LineSplits(fields: seq<string>, tail: string)
    requires |fields| > 1
    ensures Line(fields) + CRLF + tail == CsvValue(fields[0]) + ("," + (Line(fields[1..]) + CRLF + tail))
  {
    LineMore(fields);
    var v, more := CsvValue(fields[0]), Line(fields[1..]);
    assert v + "," + more + CRLF + tail == v + ("," + (more + CRLF + tail));
  }

  lemma {:induction false} LineIsRead(fields: seq<string>, tail: string)
    requires fields != []
    ensures ReadRecord(Line(fields) + CRLF + tail) == Some(Read(fields, tail))
  {
    var s := Line(fields) + CRLF + tail;
    if |fields| == 1 {
      assert s == CsvValue(fields[0]) + (CRLF + tail) && fields == [fields[0]];
      LastField(s, fields[0], tail);
    } else {
      var more := Line(fields[1..]) + CRLF + tail;
      LineIsRead(fields[1..], tail);
      LineSplits(fields, tail);
      FieldThenRest(s, fields[0], more, fields[1..], tail);
      assert fields == [fields[0]] + fields[1..];
    }
  }

  /** The lines of some records, each ended by a line break. */
  function Lines(records: seq<seq<string>>): string {
    if records == [] then "" else Line(records[0]) + CRLF + Lines(records[1..])
  }

  lemma RecordThenRest(s: string, record: seq<string>, tail: string, more: seq<seq<string>>)
    requires s != "" && ReadRecord(s) == Some(Read(record, tail)) && ReadCsv(tail) == Some(more)
    ensures ReadCsv(s) == Some([record] + more)
  {
  }

  lemma {:induction false} LinesAreRead(records: seq<seq<string>>)
    requires forall i :: 0 <= i < |records| ==> records[i] != []
    ensures ReadCsv(Lines(records)) == Some(records)
  {
    if records != [] {
      var first, rest := records[0], records[1..];
      LineIsRead(first, Lines(rest));
      LinesAreRead(rest);
      assert |Line(first) + CRLF + Lines(rest)| >= |CRLF|;
      RecordThenRest(Line(first) + CRLF + Lines(rest), first, Lines(rest), rest);
      assert records == [first] + rest;
    }
  }

  lemma {:induction false} JoinedIsTerminated(records: seq<seq<string>>)
    requires records != []
    ensures Join(seq(|records|, i requires 0 <= i < |records| => Line(records[i])), CRLF) + CRLF == Lines(records)
  {
    var lines := seq(|records|, i requires 0 <= i < |records| => Line(records[i]));
    var rest := records[1..];
    var more := seq(|rest|, i requires 0 <= i < |rest| => Line(rest[i]));
    assert lines[1..] == more;
    if |records| > 1 {
      JoinedIsTerminated(rest);
      assert Join(lines, CRLF) + CRLF == lines[0] + CRLF + (Join(more, CRLF) + CRLF);
    } else {
      assert Lines(rest) == "";
    }
  }

  lemma CsvIsLines(columns: seq<string>, rows: seq<seq<string>>)
    ensures ToCsv(columns, rows) == Lines([columns] + rows)
  {
    var records := [columns] + rows;
    JoinedIsTerminated(records);
    assert seq(|records|, i requires 0 <= i < |records| => Line(records[i]))
        == [Line(columns)] + seq(|rows|, i requires 0 <= i < |rows| => Line(rows[i]));
  }

  lemma {:induction false} RecordsHaveFields(s: string)
    ensures ReadCsv(s).Some? ==> forall i :: 0 <= i < |ReadCsv(s).value| ==> ReadCsv(s).value[i] != []
    decreases |s|
  {
    if s != "" && ReadRecord(s).Some? {
      RecordsHaveFields(ReadRecord(s).value.rest);
    }
  }

  // ---- Main results ----

  lemma {:induction false} DoublingNeverShortens(s: string)
    ensures |Doubled(s)| >= |s|
  {
    if s != "" {
      DoublingNeverShortens(s[1..]);
    }
  }

  /** A value is written as it is exactly when it has no quote, comma or line break in it. */
  lemma QuotedOnlyWhenNeeded(s: string)
    ensures CsvValue(s) == s <==>
      forall i :: 0 <= i < |s| ==> s[i] != '"' && s[i] != ',' && s[i] != '\r' && s[i] != '\n'
  {
    DoublingNeverShortens(s);
    if NeedsQuotes(s) {
      assert |CsvValue(s)| == |Doubled(s)| + 2;
    }
  }

  /**
   * A strict reader recovers a table exactly when it has a column and no row is
   * without cells, whatever the cells hold.
   */
  lemma {:induction false} CsvRoundTrip(columns: seq<string>, rows: seq<seq<string>>)
    ensures ReadCsv(ToCsv(columns, rows)) == Some([columns] + rows) <==>
      columns != [] && forall i :: 0 <= i < |rows| ==> rows[i] != []
  {
    var records := [columns] + rows;
    CsvIsLines(columns, rows);
    assert records[0] == columns && forall i :: 0 <= i < |rows| ==> records[i + 1] == rows[i];
    if columns != [] && forall i :: 0 <= i < |rows| ==> rows[i] != [] {
      LinesAreRead(records);
    } else if ReadCsv(ToCsv(columns, rows)) == Some(records) {
      RecordsHaveFields(ToCsv(columns, rows));
    }
  }

  /** A row without cells is written as a row of one empty cell is. */
  function WithCells(row: seq<string>): seq<string> {
    if row == [] then [""] else row
  }

  function AllWithCells(records: seq<seq<string>>): seq<seq<string>> {
    seq(|records|, i requires 0 <= i < |records| => WithCells(records[i]))
  }

  lemma LineWithCells(row: seq<string>)
    ensures Line(row) == Line(WithCells(row))
  {
    if row == [] {
      assert Values([""]) == [""];
    }
  }

  lemma {:induction false} LinesWithCells(records: seq<seq<string>>)
    ensures Lines(AllWithCells(records)) == Lines(records)
  {
    if records != [] {
      LineWithCells(records[0]);
      assert AllWithCells(records)[1..] == AllWithCells(records[1..]);
      LinesWithCells(records[1..]);
    }
  }

  /** And what it recovers of any table at all: that table, but for an empty cell in each row that had none. */
  lemma {:induction false} EveryTableIsRead(columns: seq<string>, rows: seq<seq<string>>)
    ensures ReadCsv(ToCsv(columns, rows)) == Some([WithCells(columns)] + AllWithCells(rows))
  {
    var records := [columns] + rows;
    CsvIsLines(columns, rows);
    LinesWithCells(records);
    LinesAreRead(AllWithCells(records));
    assert AllWithCells(records) == [WithCells(columns)] + AllWithCells(rows);
  }

  /** So two such tables are written alike only if they are the same. */
  lemma {:induction false} CsvIsInjective(c1: seq<string>, r1: seq<seq<string>>, c2: seq<string>, r2: seq<seq<string>>)
    requires c1 != [] && forall i :: 0 <= i < |r1| ==> r1[i] != []
    requires c2 != [] && forall i :: 0 <= i < |r2| ==> r2[i] != []
    requires ToCsv(c1, r1) == ToCsv(c2, r2)
    ensures c1 == c2 && r1 == r2
  {
    CsvRoundTrip(c1, r1);
    CsvRoundTrip(c2, r2);
    var one, two := [c1] + r1, [c2] + r2;
    assert one == two;
    assert one[0] == c1 && two[0] == c2 && one[1..] == r1 && two[1..] == r2;
  }
}
