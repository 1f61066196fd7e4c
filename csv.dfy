/** `parseCSV` (main.js:104-115): a naive comma-separated table reader. The text is
    split on LF, the first line names the columns, blank lines are dropped and every
    other line becomes one record mapping each column name to the field at the same
    position. No quoting, no CR handling, no type conversion. */
module Csv {
  import opened Wrappers
  import opened Seqs
  import opened JsText

  /** One parsed row: a plain JavaScript object from column name to field. A key
      whose field was missing on the line holds `undefined` (`None`). */
  type Record = map<string, Option<string>>

  /** The one column name an assignment `obj[name] = v` cannot create: the
      `Object.prototype.__proto__` setter takes it and ignores a non-object `v`. */
  const ProtoKey: string := "__proto__"

  /** `record.name`: `undefined` when the record has no such key. */
  function Field(record: Record, name: string): Option<string>
  {
    if name in record then record[name] else None
  }

  /** `values[index]`: the field at that position, `undefined` past the end. */
  function FieldAt(values: seq<string>, index: nat): Option<string>
  {
    if index < |values| then Some(values[index]) else None
  }

  /** The object after the first `n` iterations of
      `headers.forEach((header, index) => { obj[header] = values[index]; })`. */
  function Assigned(headers: seq<string>, values: seq<string>, n: nat): Record
    requires n <= |headers|
  {
    if n == 0 then map[]
    else
      var obj := Assigned(headers, values, n - 1);
      var header := headers[n - 1];
      if header == ProtoKey then obj else obj[header := FieldAt(values, n - 1)]
  }

  /** The record one line yields: all assignments, in column order. */
  function RecordOf(headers: seq<string>, values: seq<string>): Record
  {
    Assigned(headers, values, |headers|)
  }

  /** The column names that become keys. */
  function KeySet(headers: seq<string>): set<string>
  {
    (set h | h in headers) - {ProtoKey}
  }

  /** The record-building loop of main.js:109-112. */
  method BuildRecord(headers: seq<string>, values: seq<string>) returns (obj: Record)
    ensures obj == RecordOf(headers, values)
  {
    obj := map[];
    for index := 0 to |headers|
      invariant obj == Assigned(headers, values, index)
    {
      var header := headers[index];
      if header != ProtoKey {
        obj := obj[header := FieldAt(values, index)];
      }
    }
  }

  /** The keys after `n` assignments are the first `n` column names. */
  lemma {:induction false} AssignedKeys(headers: seq<string>, values: seq<string>, n: nat)
    requires n <= |headers|
    ensures Assigned(headers, values, n).Keys == KeySet(headers[..n])
  {
    if n > 0 {
      AssignedKeys(headers, values, n - 1);
      assert headers[..n] == headers[..n - 1] + [headers[n - 1]];
    }
  }

  /** Every record has exactly the column names as keys, however many fields its
      line had (a `__proto__` column never becomes a key). */
  lemma RecordKeys(headers: seq<string>, values: seq<string>)
    ensures RecordOf(headers, values).Keys == KeySet(headers)
  {
    AssignedKeys(headers, values, |headers|);
    assert headers[..|headers|] == headers;
  }

  /** The value of a key is the field under its LAST column of that name: the
      assignments run in column order and the later one overwrites. The field is
      `undefined` when the line is too short. */
  lemma {:induction false} AssignedValue(headers: seq<string>, values: seq<string>, n: nat, i: nat)
    requires i < n <= |headers| && headers[i] != ProtoKey
    requires forall j :: i < j < n ==> headers[j] != headers[i]
    ensures headers[i] in Assigned(headers, values, n)
    ensures Assigned(headers, values, n)[headers[i]] == FieldAt(values, i)
  {
    if i < n - 1 {
      AssignedValue(headers, values, n - 1, i);
    }
  }

  /** A column's field lands under its name unless a later column has that name. */
  lemma RecordValue(headers: seq<string>, values: seq<string>, i: nat)
    requires i < |headers| && headers[i] != ProtoKey
    requires forall j :: i < j < |headers| ==> headers[j] != headers[i]
    ensures headers[i] in RecordOf(headers, values)
    ensures RecordOf(headers, values)[headers[i]] == FieldAt(values, i)
  {
    AssignedValue(headers, values, |headers|, i);
  }

  /** Fields beyond the number of columns are dropped. */
  lemma {:induction false} AssignedIgnoresExtraFields(headers: seq<string>, values: seq<string>,
                                                     extra: seq<string>, n: nat)
    requires n <= |headers| <= |values|
    ensures Assigned(headers, values + extra, n) == Assigned(headers, values, n)
  {
    if n > 0 {
      AssignedIgnoresExtraFields(headers, values, extra, n - 1);
    }
  }

  lemma RecordIgnoresExtraFields(headers: seq<string>, values: seq<string>, extra: seq<string>)
    requires |headers| <= |values|
    ensures RecordOf(headers, values + extra) == RecordOf(headers, values)
  {
    AssignedIgnoresExtraFields(headers, values, extra, |headers|);
  }

  /** `data.split('\n')`: a CR before the LF stays at the end of the line. */
  function Lines(data: string): (lines: seq<string>)
    ensures |lines| >= 1
  {
    Split(data, '\n')
  }

  /** `lines[0].split(',')`: the column names. */
  function Headers(data: string): seq<string>
  {
    Split(Lines(data)[0], ',')
  }

  /** The filter of main.js:107, `line.trim() !== ''`. */
  function IsDataLine(line: string): bool
  {
    Trim(line) != ""
  }

  /** `lines.slice(1).filter(line => line.trim() !== '')`. */
  function DataLines(data: string): seq<string>
  {
    Filter(Lines(data)[1..], IsDataLine)
  }

  /** `line => RecordOf(headers, line.split(','))`, the map of main.js:107-114. */
  function ToRecord(headers: seq<string>): string -> Record
  {
    line => RecordOf(headers, Split(line, ','))
  }

  /** `parseCSV(data)`. */
  function ParseCSV(data: string): (table: seq<Record>)
    ensures |table| == |DataLines(data)|
  {
    Map(DataLines(data), ToRecord(Headers(data)))
  }

  /** `parseCSV` yields one record per line after the first that is not all white
      space, in line order: record `k` comes from line `lines[k]`, the positions
      increase, and every such line is used. The header line and blank lines give
      no record, and every record has the column names as keys. */
  lemma ParseCSVLines(data: string) returns (lines: seq<int>)
    ensures |lines| == |ParseCSV(data)|
    ensures forall k :: 0 <= k < |lines| ==> 1 <= lines[k] < |Lines(data)|
    ensures forall k, l :: 0 <= k < l < |lines| ==> lines[k] < lines[l]
    ensures forall k :: 0 <= k < |lines| ==>
      && !AllWhiteSpace(Lines(data)[lines[k]])
      && ParseCSV(data)[k] == RecordOf(Headers(data), Split(Lines(data)[lines[k]], ','))
      && ParseCSV(data)[k].Keys == KeySet(Headers(data))
    ensures forall i :: 1 <= i < |Lines(data)| && !AllWhiteSpace(Lines(data)[i]) ==> i in lines
  {
    var all := Lines(data);
    var headers := Headers(data);
    var kept := DataLines(data);
    var table := ParseCSV(data);
    var idx := FilterSelects(all[1..], IsDataLine);
    lines := DataLinePositions(all, idx);
    forall k | 0 <= k < |lines|
      ensures table[k] == RecordOf(headers, Split(all[lines[k]], ','))
      ensures table[k].Keys == KeySet(headers)
    {
      assert table[k] == ToRecord(headers)(kept[k]);
      assert kept[k] == all[lines[k]];
      RecordKeys(headers, Split(all[lines[k]], ','));
    }
  }

  /** The positions of the kept lines, counted from the header line. */
  lemma DataLinePositions(all: seq<string>, idx: seq<int>) returns (lines: seq<int>)
    requires |all| >= 1
    requires Selects(Filter(all[1..], IsDataLine), all[1..], idx, IsDataLine)
    ensures |lines| == |idx|
    ensures forall k :: 0 <= k < |lines| ==> 1 <= lines[k] < |all|
    ensures forall k :: 0 <= k < |lines| ==> Filter(all[1..], IsDataLine)[k] == all[lines[k]]
    ensures forall k :: 0 <= k < |lines| ==> !AllWhiteSpace(all[lines[k]])
    ensures forall k, l :: 0 <= k < l < |lines| ==> lines[k] < lines[l]
    ensures forall i :: 1 <= i < |all| && !AllWhiteSpace(all[i]) ==> i in lines
  {
    lines := SelectsShift(all, IsDataLine, Filter(all[1..], IsDataLine), idx);
    forall k | 0 <= k < |lines|
      ensures !AllWhiteSpace(all[lines[k]])
    {
      TrimEmptyIffAllWhiteSpace(all[lines[k]]);
    }
    forall i | 1 <= i < |all| && !AllWhiteSpace(all[i])
      ensures i in lines
    {
      TrimEmptyIffAllWhiteSpace(all[i]);
    }
  }

  /** Appending one more line (no LF in it) to the text appends one record when the
      line has a non-white-space character and nothing otherwise. */
  lemma ParseCSVAppendLine(data: string, line: string)
    requires '\n' !in line
    ensures ParseCSV(data + "\n" + line)
         == ParseCSV(data) + (if AllWhiteSpace(line) then []
                              else [RecordOf(Headers(data), Split(line, ','))])
  {
    var headers := Headers(data);
    DataLinesAppendLine(data, line);
    if !AllWhiteSpace(line) {
      MapSnoc(DataLines(data), line, ToRecord(headers));
    }
  }

  lemma LinesAppendLine(data: string, line: string)
    requires '\n' !in line
    ensures Lines(data + "\n" + line) == Lines(data) + [line]
  {
    SplitAtSeparator(data, line, '\n');
    SplitWithoutSeparator(line, '\n');
  }

  lemma DataLinesAppendLine(data: string, line: string)
    requires '\n' !in line
    ensures Headers(data + "\n" + line) == Headers(data)
    ensures DataLines(data + "\n" + line)
         == DataLines(data) + (if AllWhiteSpace(line) then [] else [line])
  {
    var all := Lines(data);
    LinesAppendLine(data, line);
    assert Lines(data + "\n" + line)[1..] == all[1..] + [line];
    FilterSnoc(all[1..], line, IsDataLine);
    TrimEmptyIffAllWhiteSpace(line);
  }

  /** Text without a line break is a header line only and gives no record. */
  lemma ParseCSVHeaderOnly(data: string)
    requires '\n' !in data
    ensures ParseCSV(data) == []
  {
    SplitWithoutSeparator(data, '\n');
  }

  /** Text free of both separators. */
  predicate IsPlainField(s: string)
  {
    ',' !in s && '\n' !in s
  }

  /** A two-column header and one data line parse to one record. */
  lemma TwoColumnRow(h1: string, h2: string, v1: string, v2: string)
    requires IsPlainField(h1) && IsPlainField(h2) && IsPlainField(v1) && IsPlainField(v2)
    requires h1 != h2 && h1 != ProtoKey && h2 != ProtoKey
    ensures ParseCSV(h1 + "," + h2 + "\n" + v1 + "," + v2) == [map[h1 := Some(v1), h2 := Some(v2)]]
  {
    var header, row := h1 + "," + h2, v1 + "," + v2;
    assert '\n' !in header && '\n' !in row;
    assert h1 + "," + h2 + "\n" + v1 + "," + v2 == header + "\n" + row;
    ParseCSVHeaderOnly(header);
    assert Headers(header) == [h1, h2] by {
      SplitWithoutSeparator(header, '\n');
      SplitPair(h1, h2);
    }
    assert !AllWhiteSpace(row) by { assert row[|v1|] == ','; }
    ParseCSVAppendLine(header, row);
    SplitPair(v1, v2);
    RecordOfPair(h1, h2, v1, v2);
  }

  /** A two-column header, one data line and a trailing blank line parse to exactly
      one record: the blank line gives none. */
  lemma TwoColumnTable(h1: string, h2: string, v1: string, v2: string, blank: string)
    requires IsPlainField(h1) && IsPlainField(h2) && IsPlainField(v1) && IsPlainField(v2)
    requires h1 != h2 && h1 != ProtoKey && h2 != ProtoKey
    requires '\n' !in blank && AllWhiteSpace(blank)
    ensures ParseCSV(h1 + "," + h2 + "\n" + v1 + "," + v2 + "\n" + blank)
         == [map[h1 := Some(v1), h2 := Some(v2)]]
  {
    TwoColumnRow(h1, h2, v1, v2);
    ParseCSVAppendLine(h1 + "," + h2 + "\n" + v1 + "," + v2, blank);
  }

  /** Windows line endings: the CR stays in the last column name and in the last
      field of each line, and the empty text after the final LF gives no record. */
  lemma CarriageReturnExample()
    ensures ParseCSV("a,b\r\n1,2\r\n") == [map["a" := Some("1"), "b\r" := Some("2\r")]]
  {
    assert "a,b\r\n1,2\r\n" == "a" + "," + "b\r" + "\n" + "1" + "," + "2\r" + "\n" + "";
    TwoColumnTable("a", "b\r", "1", "2\r", "");
  }

  /** A header line and one data line parse to that line's record. */
  lemma ParseCSVOneRow(header: string, row: string)
    requires '\n' !in header && '\n' !in row && !AllWhiteSpace(row)
    ensures ParseCSV(header + "\n" + row) == [RecordOf(Split(header, ','), Split(row, ','))]
  {
    ParseCSVHeaderOnly(header);
    SplitWithoutSeparator(header, '\n');
    ParseCSVAppendLine(header, row);
  }

  /** A header line and two data lines parse to the two lines' records, in order. */
  lemma ParseCSVTwoRows(header: string, row1: string, row2: string)
    requires '\n' !in header && '\n' !in row1 && '\n' !in row2
    requires !AllWhiteSpace(row1) && !AllWhiteSpace(row2)
    ensures ParseCSV(header + "\n" + row1 + "\n" + row2)
         == [RecordOf(Split(header, ','), Split(row1, ',')), RecordOf(Split(header, ','), Split(row2, ','))]
  {
    var data := header + "\n" + row1 + "\n" + row2;
    LinesOfThree(header, row1, row2);
    assert Lines(data)[1..] == [row1, row2];
    TrimEmptyIffAllWhiteSpace(row1);
    TrimEmptyIffAllWhiteSpace(row2);
    FilterKeepsPair(row1, row2, IsDataLine);
    MapPairOf(row1, row2, ToRecord(Split(header, ',')));
  }

  lemma LinesOfThree(header: string, row1: string, row2: string)
    requires '\n' !in header && '\n' !in row1 && '\n' !in row2
    ensures Lines(header + "\n" + row1 + "\n" + row2) == [header, row1, row2]
  {
    LinesAppendLine(header + "\n" + row1, row2);
    LinesAppendLine(header, row1);
    SplitWithoutSeparator(header, '\n');
  }

  /** A three-column header and one data line parse to one record. */
  lemma ThreeColumnOneRow(h1: string, h2: string, h3: string, v1: string, v2: string, v3: string)
    requires IsPlainField(h1) && IsPlainField(h2) && IsPlainField(h3)
    requires IsPlainField(v1) && IsPlainField(v2) && IsPlainField(v3)
    requires h1 != h2 && h1 != h3 && h2 != h3
    requires h1 != ProtoKey && h2 != ProtoKey && h3 != ProtoKey
    ensures ParseCSV((h1 + "," + h2 + "," + h3) + "\n" + (v1 + "," + v2 + "," + v3))
         == [map[h1 := Some(v1), h2 := Some(v2), h3 := Some(v3)]]
  {
    var header, row := h1 + "," + h2 + "," + h3, v1 + "," + v2 + "," + v3;
    ThreeFieldsLine(h1, h2, h3);
    ThreeFieldsLine(v1, v2, v3);
    ParseCSVOneRow(header, row);
    RecordOfTriple(h1, h2, h3, v1, v2, v3);
  }

  /** A three-column header and two data lines parse to two records, in order. */
  lemma ThreeColumnTwoRows(h1: string, h2: string, h3: string, v1: string, v2: string, v3: string,
                           w1: string, w2: string, w3: string)
    requires IsPlainField(h1) && IsPlainField(h2) && IsPlainField(h3)
    requires IsPlainField(v1) && IsPlainField(v2) && IsPlainField(v3)
    requires IsPlainField(w1) && IsPlainField(w2) && IsPlainField(w3)
    requires h1 != h2 && h1 != h3 && h2 != h3
    requires h1 != ProtoKey && h2 != ProtoKey && h3 != ProtoKey
    ensures ParseCSV((h1 + "," + h2 + "," + h3) + "\n" + (v1 + "," + v2 + "," + v3) + "\n" + (w1 + "," + w2 + "," + w3))
         == [map[h1 := Some(v1), h2 := Some(v2), h3 := Some(v3)],
             map[h1 := Some(w1), h2 := Some(w2), h3 := Some(w3)]]
  {
    var header := h1 + "," + h2 + "," + h3;
    var row1, row2 := v1 + "," + v2 + "," + v3, w1 + "," + w2 + "," + w3;
    ThreeFieldsLine(h1, h2, h3);
    ThreeFieldsLine(v1, v2, v3);
    ThreeFieldsLine(w1, w2, w3);
    ParseCSVTwoRows(header, row1, row2);
    RecordOfTriple(h1, h2, h3, v1, v2, v3);
    RecordOfTriple(h1, h2, h3, w1, w2, w3);
  }

  /** A line of three plain fields: no LF, not blank, and it splits back into them. */
  lemma ThreeFieldsLine(x: string, y: string, z: string)
    requires IsPlainField(x) && IsPlainField(y) && IsPlainField(z)
    ensures '\n' !in x + "," + y + "," + z
    ensures !AllWhiteSpace(x + "," + y + "," + z)
    ensures Split(x + "," + y + "," + z, ',') == [x, y, z]
  {
    SplitTriple(x, y, z);
    TripleNotBlank(x, y, z);
  }

  /** Three comma-free fields joined by commas. */
  lemma SplitTriple(x: string, y: string, z: string)
    requires ',' !in x && ',' !in y && ',' !in z
    ensures Split(x + "," + y + "," + z, ',') == [x, y, z]
  {
    SplitAtSeparator(x + "," + y, z, ',');
    SplitPair(x, y);
    SplitWithoutSeparator(z, ',');
  }

  /** A line of three fields has a comma, so it is not blank. */
  lemma TripleNotBlank(x: string, y: string, z: string)
    ensures !AllWhiteSpace(x + "," + y + "," + z)
  {
    assert (x + "," + y + "," + z)[|x|] == ',';
  }

  /** The record of a three-column line with distinct column names. */
  lemma RecordOfTriple(h1: string, h2: string, h3: string, v1: string, v2: string, v3: string)
    requires h1 != h2 && h1 != h3 && h2 != h3
    requires h1 != ProtoKey && h2 != ProtoKey && h3 != ProtoKey
    ensures RecordOf([h1, h2, h3], [v1, v2, v3]) == map[h1 := Some(v1), h2 := Some(v2), h3 := Some(v3)]
  {
    assert Assigned([h1, h2, h3], [v1, v2, v3], 1) == map[h1 := Some(v1)];
    assert Assigned([h1, h2, h3], [v1, v2, v3], 2) == map[h1 := Some(v1), h2 := Some(v2)];
  }

  /** The record of a two-column line. */
  lemma RecordOfPair(h1: string, h2: string, v1: string, v2: string)
    requires h1 != h2 && h1 != ProtoKey && h2 != ProtoKey
    ensures RecordOf([h1, h2], [v1, v2]) == map[h1 := Some(v1), h2 := Some(v2)]
  {
    assert Assigned([h1, h2], [v1, v2], 1) == map[h1 := Some(v1)];
  }

  /** Two comma-free fields joined by a comma. */
  lemma SplitPair(x: string, y: string)
    requires ',' !in x && ',' !in y
    ensures Split(x + "," + y, ',') == [x, y]
  {
    SplitAtSeparator(x, y, ',');
    SplitWithoutSeparator(x, ',');
    SplitWithoutSeparator(y, ',');
  }
}
