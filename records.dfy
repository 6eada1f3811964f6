/**
 * `parseCSVToObjects`: the first CSV row, trimmed, names the columns and every
 * later row that is not blank becomes a record from column name to trimmed cell.
 */
module Records {
  import opened Text
  import opened Csv

  /** A plain object whose values are strings. */
  type Record = map<string, string>

  /** `values[idx] !== undefined ? String(values[idx]).trim() : ""`. */
  function Cell(values: seq<string>, idx: nat): string
  {
    if idx < |values| then Trim(values[idx]) else ""
  }

  /** `obj` after `headers.forEach` has visited the first `n` headers: an empty
      header is skipped, any other one sets its key, a later one overwriting an
      earlier one. */
  function Fill(headers: seq<string>, values: seq<string>, n: nat): Record
    requires n <= |headers|
  {
    if n == 0 then map[]
    else
      var obj := Fill(headers, values, n - 1);
      if headers[n - 1] == "" then obj else obj[headers[n - 1] := Cell(values, n - 1)]
  }

  function RecordOf(headers: seq<string>, values: seq<string>): Record
  {
    Fill(headers, values, |headers|)
  }

  /** `rows[0].map(h => String(h ?? "").trim())`. */
  function Headers(row: seq<string>): (r: seq<string>)
    ensures |r| == |row| && forall k :: 0 <= k < |row| ==> r[k] == Trim(row[k])
  {
    seq(|row|, k requires 0 <= k < |row| => Trim(row[k]))
  }

  /** `rows.filter(r => r.some(c => String(c ?? "").trim() !== ""))`: the rows
      that are not blank, in their order. */
  function NonBlankRows(rows: seq<seq<string>>): (r: seq<seq<string>>)
    ensures |r| <= |rows|
    ensures forall x :: x in r <==> x in rows && !IsBlankRow(x)
  {
    if rows == [] then []
    else
      var last := rows[|rows| - 1];
      assert rows == rows[..|rows| - 1] + [last];
      NonBlankRows(rows[..|rows| - 1]) + (if IsBlankRow(last) then [] else [last])
  }

  /** The records of the data rows under the given headers. */
  function DataRecords(headers: seq<string>, rows: seq<seq<string>>): seq<Record>
  {
    var kept := NonBlankRows(rows);
    seq(|kept|, k requires 0 <= k < |kept| => RecordOf(headers, kept[k]))
  }

  /** `parseCSVToObjects` on the rows `parseCSV` returned. */
  function ToObjects(rows: seq<seq<string>>): seq<Record>
  {
    if rows == [] then [] else DataRecords(Headers(rows[0]), rows[1..])
  }

  /** `parseCSVToObjects(text)`: the filter over the data rows and, for each kept
      row, the record it becomes. */
  method ParseCsvToObjects(text: string) returns (records: seq<Record>)
    ensures records == ToObjects(Parse(text))
  {
    var rows := ParseCsv(text);
    if |rows| == 0 {
      return [];
    }
    var headers := Headers(rows[0]);
    var data := rows[1..];
    records := [];
    var i := 0;
    while i < |data|
      invariant 0 <= i <= |data|
      invariant records == DataRecords(headers, data[..i])
      decreases |data| - i
    {
      var values := data[i];
      DataRecordsSnoc(headers, data[..i], values);
      if !IsBlankRow(values) {
        var obj := FillRecord(headers, values);
        records := records + [obj];
      }
      TakeOneMore(data, i);
      i := i + 1;
    }
    assert data[..|data|] == data;
  }

  /** The `headers.forEach` that fills one record. */
  method FillRecord(headers: seq<string>, values: seq<string>) returns (obj: Record)
    ensures obj == Fill(headers, values, |headers|)
  {
    obj := map[];
    var idx := 0;
    while idx < |headers|
      invariant 0 <= idx <= |headers|
      invariant obj == Fill(headers, values, idx)
    {
      var key := headers[idx];
      FillStep(headers, values, idx);
      if key != "" {
        obj := obj[key := Cell(values, idx)];
      }
      idx := idx + 1;
    }
  }

  lemma FillStep(headers: seq<string>, values: seq<string>, n: nat)
    requires n < |headers|
    ensures Fill(headers, values, n + 1) ==
      if headers[n] == "" then Fill(headers, values, n) else Fill(headers, values, n)[headers[n] := Cell(values, n)]
  {
  }

  lemma TakeOneMore<T>(s: seq<T>, i: nat)
    requires i < |s|
    ensures s[..i + 1] == s[..i] + [s[i]]
  {
  }

  lemma DataRecordsSnoc(headers: seq<string>, rows: seq<seq<string>>, r: seq<string>)
    ensures DataRecords(headers, rows + [r]) ==
      DataRecords(headers, rows) + (if IsBlankRow(r) then [] else [RecordOf(headers, r)])
  {
    assert (rows + [r])[..|rows|] == rows;
  }

  /** No rows, no records. */
  lemma NoRowsNoRecords(text: string)
    requires Parse(text) == []
    ensures ToObjects(Parse(text)) == []
  {
  }

  /** A record's keys are exactly the non-empty headers. */
  lemma {:induction false} FillKeys(headers: seq<string>, values: seq<string>, n: nat)
    requires n <= |headers|
    ensures forall key :: key in Fill(headers, values, n) <==> key != "" && exists i :: 0 <= i < n && headers[i] == key
  {
    if n > 0 {
      FillKeys(headers, values, n - 1);
      var obj := Fill(headers, values, n - 1);
      var h := headers[n - 1];
      assert Fill(headers, values, n).Keys == if h == "" then obj.Keys else obj.Keys + {h};
    }
  }

  /** The value under a header is the trimmed cell of that header's last column,
      `""` when the row is too short. */
  lemma {:induction false} FillValue(headers: seq<string>, values: seq<string>, n: nat, i: nat)
    requires i < n <= |headers|
    requires headers[i] != ""
    requires forall j :: i < j < n ==> headers[j] != headers[i]
    ensures headers[i] in Fill(headers, values, n)
    ensures Fill(headers, values, n)[headers[i]] == Cell(values, i)
  {
    if i < n - 1 {
      FillValue(headers, values, n - 1, i);
    }
  }

  /** A record depends on the row only through the cells under its headers. */
  lemma {:induction false} FillSameCells(headers: seq<string>, values: seq<string>, other: seq<string>, n: nat)
    requires n <= |headers|
    requires forall i :: 0 <= i < n ==> Cell(values, i) == Cell(other, i)
    ensures Fill(headers, values, n) == Fill(headers, other, n)
  {
    if n > 0 {
      FillSameCells(headers, values, other, n - 1);
      var c := Cell(values, n - 1);
      assert c == Cell(other, n - 1);
    }
  }

  /** Cells beyond the last header are ignored. */
  lemma FillIgnoresExtraCells(headers: seq<string>, values: seq<string>)
    requires |headers| <= |values|
    ensures RecordOf(headers, values) == RecordOf(headers, values[..|headers|])
  {
    var short := values[..|headers|];
    forall i | 0 <= i < |headers|
      ensures Cell(values, i) == Cell(short, i)
    {
      assert short[i] == values[i];
    }
    FillSameCells(headers, values, short, |headers|);
  }

  /** Every record of a parse comes from a non-blank data row, and every non-blank
      data row gives one. */
  lemma RecordsOfRows(rows: seq<seq<string>>)
    requires rows != []
    ensures forall obj :: obj in ToObjects(rows) <==>
      exists r :: r in rows[1..] && !IsBlankRow(r) && obj == RecordOf(Headers(rows[0]), r)
  {
    var headers := Headers(rows[0]);
    var kept := NonBlankRows(rows[1..]);
    forall obj | obj in ToObjects(rows)
      ensures exists r :: r in rows[1..] && !IsBlankRow(r) && obj == RecordOf(headers, r)
    {
      var k :| 0 <= k < |kept| && ToObjects(rows)[k] == obj;
      assert kept[k] in kept;
    }
    forall r | r in rows[1..] && !IsBlankRow(r)
      ensures RecordOf(headers, r) in ToObjects(rows)
    {
      var k :| 0 <= k < |kept| && kept[k] == r;
      assert ToObjects(rows)[k] == RecordOf(headers, r);
    }
  }
}
