/** The two helpers the student-management step definitions use to read Gherkin tables out
    of step text: parse_table_data turns "| key | value |" rows into a dictionary, and
    parse_multiple_students_data turns rows under a header row into one dictionary per row. */
module TableParsers {
  import opened Wrappers
  import opened Strings

  // ---------------------------------------------------------------------------------------
  // Cells.

  /** pieces[1:-1] in Python: everything but the first and the last piece. */
  function Inner(pieces: seq<string>): (r: seq<string>)
    ensures |pieces| <= 2 ==> r == []
    ensures |pieces| > 2 ==> |r| == |pieces| - 2 && forall i :: 0 <= i < |r| ==> r[i] == pieces[i + 1]
  {
    if |pieces| <= 2 then [] else pieces[1..|pieces| - 1]
  }

  /** The stripped cells of a table line: what lies between its first and last '|'. */
  function Cells(line: string): seq<string> {
    StripAll(Inner(Split(line, '|')))
  }

  /** The lines both parsers read: the stripped input split on line feeds. */
  function TableLines(text: string): (lines: seq<string>)
    ensures |lines| >= 1
  {
    Split(PyStrip(text), '\n')
  }

  // ---------------------------------------------------------------------------------------
  // parse_table_data

  /** What one line contributes to the dictionary: its first two cells, if it is a table line
      with at least two cells. */
  function RowEntry(line: string): Option<(string, string)> {
    if '|' in line then
      var parts := Cells(line);
      if |parts| >= 2 then Some((parts[0], parts[1])) else None
    else None
  }

  /** The present values among rows[1..n], in order: row 0 is the header and never read. */
  function Collect<T>(rows: seq<Option<T>>, n: nat): seq<T>
    requires n <= |rows|
  {
    if n <= 1 then []
    else Collect(rows, n - 1) + match rows[n - 1] case Some(e) => [e] case None => []
  }

  /** What each line contributes to the dictionary. */
  function LineEntries(lines: seq<string>): (rows: seq<Option<(string, string)>>)
    ensures EntriesOf(lines, rows)
  {
    seq(|lines|, i requires 0 <= i < |lines| => RowEntry(lines[i]))
  }

  /** rows holds, line by line, what each line contributes. The fact about a line fires only
      where that line's entry is in view, so the loop below never examines the text. */
  ghost predicate EntriesOf(lines: seq<string>, rows: seq<Option<(string, string)>>) {
    |rows| == |lines|
    && forall i {:trigger RowEntry(lines[i])} :: 0 <= i < |lines| ==> rows[i] == RowEntry(lines[i])
  }

  /** The dictionary after the lines before n: each entry of rows[1..n] is stored in turn, so
      a later entry overwrites an earlier one with the same key. */
  function Dictionary(rows: seq<Option<(string, string)>>, n: nat): map<string, string>
    requires n <= |rows|
  {
    if n <= 1 then map[]
    else match rows[n - 1]
      case Some(e) => Dictionary(rows, n - 1)[e.0 := e.1]
      case None => Dictionary(rows, n - 1)
  }

  method ParseTableData(tableData: string) returns (data: map<string, string>)
    ensures var lines := TableLines(tableData);
      data == Dictionary(LineEntries(lines), |lines|)
  {
    var lines := Split(PyStrip(tableData), '\n');
    data := FillTable(lines, LineEntries(lines));
  }

  /** The loop over lines[1:]. */
  method FillTable(lines: seq<string>, ghost rows: seq<Option<(string, string)>>)
    returns (data: map<string, string>)
    requires |lines| >= 1 && EntriesOf(lines, rows)
    ensures data == Dictionary(rows, |lines|)
  {
    data := map[];
    var i := 1;
    while i < |lines|
      invariant 1 <= i <= |lines|
      invariant data == Dictionary(rows, i)
    {
      var entry := ReadEntry(lines, i, rows);
      if entry.Some? {
        data := data[entry.value.0 := entry.value.1];
      }
      i := i + 1;
    }
  }

  /** The body of the loop for one line: a table line with at least two cells yields its first
      two cells. */
  method ReadEntry(lines: seq<string>, i: nat, ghost rows: seq<Option<(string, string)>>)
    returns (entry: Option<(string, string)>)
    requires i < |lines| && EntriesOf(lines, rows)
    ensures entry == rows[i]
  {
    assert rows[i] == RowEntry(lines[i]);
    entry := None;
    var line := lines[i];
    if '|' in line {
      var parts := Cells(line);
      if |parts| >= 2 {
        entry := Some((parts[0], parts[1]));
      }
    }
  }

  /** A key is in the dictionary exactly when some line after the header yields an entry with
      that key. */
  lemma {:induction false} DictionaryKeys(rows: seq<Option<(string, string)>>, n: nat, k: string)
    requires n <= |rows|
    ensures k in Dictionary(rows, n) <==> exists i :: 1 <= i < n && rows[i].Some? && rows[i].value.0 == k
  {
    if n > 1 {
      DictionaryKeys(rows, n - 1, k);
      if k in Dictionary(rows, n) && !(k in Dictionary(rows, n - 1)) {
        assert rows[n - 1].Some? && rows[n - 1].value.0 == k;
      }
    }
  }

  /** A later entry with the same key overwrites an earlier one: the dictionary holds the value
      of the last entry with each key. */
  lemma {:induction false} DictionaryLastWins(rows: seq<Option<(string, string)>>, n: nat, i: nat)
    requires 1 <= i < n <= |rows| && rows[i].Some?
    requires forall j :: i < j < n && rows[j].Some? ==> rows[j].value.0 != rows[i].value.0
    ensures rows[i].value.0 in Dictionary(rows, n)
    ensures Dictionary(rows, n)[rows[i].value.0] == rows[i].value.1
  {
    if i < n - 1 {
      DictionaryLastWins(rows, n - 1, i);
    }
  }

  /** Empty or blank text parses to the empty dictionary. */
  lemma BlankTableIsEmpty(tableData: string)
    requires PyStrip(tableData) == ""
    ensures var lines := TableLines(tableData); Dictionary(LineEntries(lines), |lines|) == map[]
  {
    assert TableLines(tableData) == [""];
  }

  /** The first line never contributes, whatever it holds. */
  lemma {:induction false} HeaderNeverRead(lines1: seq<string>, lines2: seq<string>, n: nat)
    requires 1 <= |lines1| == |lines2| && n <= |lines1| && lines1[1..] == lines2[1..]
    ensures Dictionary(LineEntries(lines1), n) == Dictionary(LineEntries(lines2), n)
  {
    if n > 1 {
      HeaderNeverRead(lines1, lines2, n - 1);
      assert lines1[n - 1] == lines1[1..][n - 2] == lines2[n - 1];
    }
  }

  // ---------------------------------------------------------------------------------------
  // parse_multiple_students_data

  /** dict(zip(headers, values)) for equally long lists: later duplicates of a header win. */
  function ZipMap(headers: seq<string>, values: seq<string>): (m: map<string, string>)
    requires |headers| == |values|
  {
    if headers == [] then map[]
    else
      var n := |headers| - 1;
      ZipMap(headers[..n], values[..n])[headers[n] := values[n]]
  }

  /** The record for one line: present when the line is a table line with exactly as many
      cells as there are headers. */
  function RowRecord(headers: seq<string>, line: string): Option<map<string, string>> {
    if '|' in line then
      var values := Cells(line);
      if |values| == |headers| then Some(ZipMap(headers, values)) else None
    else None
  }

  /** The record each line yields under the given headers. */
  function LineRecords(headers: seq<string>, lines: seq<string>)
    : (rows: seq<Option<map<string, string>>>)
    ensures RecordsOf(headers, lines, rows)
  {
    seq(|lines|, i requires 0 <= i < |lines| => RowRecord(headers, lines[i]))
  }

  ghost predicate RecordsOf(headers: seq<string>, lines: seq<string>,
                            rows: seq<Option<map<string, string>>>) {
    |rows| == |lines|
    && forall i {:trigger RowRecord(headers, lines[i])} :: 0 <= i < |lines| ==>
         rows[i] == RowRecord(headers, lines[i])
  }

  method ParseMultipleStudentsData(studentsData: string) returns (students: seq<map<string, string>>)
    ensures var lines := TableLines(studentsData);
      students == Collect(LineRecords(Cells(lines[0]), lines), |lines|)
  {
    var lines := Split(PyStrip(studentsData), '\n');
    var headers := Cells(lines[0]);
    students := CollectRecords(headers, lines, LineRecords(headers, lines));
  }

  /** The loop over lines[1:]. */
  method CollectRecords(headers: seq<string>, lines: seq<string>,
                        ghost rows: seq<Option<map<string, string>>>)
    returns (students: seq<map<string, string>>)
    requires |lines| >= 1 && RecordsOf(headers, lines, rows)
    ensures students == Collect(rows, |lines|)
  {
    students := [];
    var i := 1;
    while i < |lines|
      invariant 1 <= i <= |lines|
      invariant students == Collect(rows, i)
    {
      var record := ReadRecord(headers, lines, i, rows);
      if record.Some? {
        students := students + [record.value];
      }
      i := i + 1;
    }
  }

  /** The body of the loop for one line: a table line with as many cells as headers yields
      dict(zip(headers, values)). */
  method ReadRecord(headers: seq<string>, lines: seq<string>, i: nat,
                    ghost rows: seq<Option<map<string, string>>>)
    returns (record: Option<map<string, string>>)
    requires i < |lines| && RecordsOf(headers, lines, rows)
    ensures record == rows[i]
  {
    assert rows[i] == RowRecord(headers, lines[i]);
    record := None;
    var line := lines[i];
    if '|' in line {
      var values := Cells(line);
      if |values| == |headers| {
        var studentData := ZipMap(headers, values);
        record := Some(studentData);
      }
    }
  }

  /** Each record has exactly the headers as keys. */
  lemma {:induction false} ZipMapKeys(headers: seq<string>, values: seq<string>)
    requires |headers| == |values|
    ensures ZipMap(headers, values).Keys == set h | h in headers
  {
    if headers != [] {
      var n := |headers| - 1;
      ZipMapKeys(headers[..n], values[..n]);
      assert headers == headers[..n] + [headers[n]];
    }
  }

  /** A header that does not occur again later maps to the value in its column. */
  lemma {:induction false} ZipMapColumn(headers: seq<string>, values: seq<string>, i: nat)
    requires |headers| == |values| && i < |headers|
    requires forall j :: i < j < |headers| ==> headers[j] != headers[i]
    ensures headers[i] in ZipMap(headers, values) && ZipMap(headers, values)[headers[i]] == values[i]
  {
    var n := |headers| - 1;
    if i < n {
      ZipMapColumn(headers[..n], values[..n], i);
    }
  }

  /** At most one value per row after the header. */
  lemma {:induction false} CollectBound<T>(rows: seq<Option<T>>, n: nat)
    requires 1 <= n <= |rows|
    ensures |Collect(rows, n)| <= n - 1
  {
    if n > 1 {
      CollectBound(rows, n - 1);
    }
  }

  /** Every collected value comes from a row after the header. */
  lemma {:induction false} CollectFromRows<T>(rows: seq<Option<T>>, n: nat)
    requires n <= |rows|
    ensures forall x :: x in Collect(rows, n) ==> exists i :: 1 <= i < n && rows[i] == Some(x)
  {
    if n > 1 {
      CollectFromRows(rows, n - 1);
    }
  }

  /** Every record has exactly the header keys and comes from a line after the header. */
  lemma RecordsFromRows(headers: seq<string>, lines: seq<string>)
    requires |lines| >= 1
    ensures forall r :: r in Collect(LineRecords(headers, lines), |lines|) ==>
              r.Keys == (set h | h in headers)
              && exists i :: 1 <= i < |lines| && RowRecord(headers, lines[i]) == Some(r)
  {
    var rows := LineRecords(headers, lines);
    CollectFromRows(rows, |lines|);
    forall r: map<string, string> | r in Collect(rows, |lines|)
      ensures r.Keys == (set h | h in headers)
      ensures exists i :: 1 <= i < |lines| && RowRecord(headers, lines[i]) == Some(r)
    {
      var i :| 1 <= i < |lines| && rows[i] == Some(r);
      assert RowRecord(headers, lines[i]) == Some(r);
      ZipMapKeys(headers, Cells(lines[i]));
    }
  }

  /** Empty or blank text parses to no records. */
  lemma BlankStudentsAreNone(studentsData: string)
    requires PyStrip(studentsData) == ""
    ensures var lines := TableLines(studentsData);
      Collect(LineRecords(Cells(lines[0]), lines), |lines|) == []
  {
    assert TableLines(studentsData) == [""];
  }
}
