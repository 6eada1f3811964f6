/**
 * The CSV codec: `escapeCsv` for one field, rows written as fields joined by `,`
 * and rows joined by LF, and `parseCSV`, a character-by-character state machine
 * that reads such text back.
 */
module Csv {
  import opened Text

  /** A field that `escapeCsv` must quote: it holds `"`, `,`, LF or CR. */
  predicate NeedsQuoting(s: string)
  {
    '"' in s || ',' in s || '\n' in s || '\r' in s
  }

  /** `s.replace(/"/g, '""')`. */
  function DoubleQuotes(s: string): string
  {
    if s == [] then []
    else (if s[0] == '"' then "\"\"" else [s[0]]) + DoubleQuotes(s[1..])
  }

  /** `escapeCsv(s)`: the field as it is written into CSV text. The field is kept
      exactly when it needs no quoting; otherwise it is wrapped in quotes. */
  function EscapeCsv(s: string): (r: string)
    ensures r == s <==> !NeedsQuoting(s)
    ensures NeedsQuoting(s) ==> |r| >= 2 && r[0] == '"' && r[|r| - 1] == '"'
  {
    if NeedsQuoting(s) then
      var q := "\"" + DoubleQuotes(s) + "\"";
      DoubleQuotesLength(s);
      q
    else s
  }

  lemma {:induction false} DoubleQuotesLength(s: string)
    ensures |DoubleQuotes(s)| >= |s|
  {
    if s != [] {
      DoubleQuotesLength(s[1..]);
    }
  }

  /** A row as a line of text: `r.map(escapeCsv).join(",")`. */
  function JoinRow(r: seq<string>): string
  {
    Join(seq(|r|, k requires 0 <= k < |r| => EscapeCsv(r[k])), ',')
  }

  /** `rows.map(r => r.map(escapeCsv).join(",")).join("\n")`. */
  function CsvText(rows: seq<seq<string>>): string
  {
    Join(seq(|rows|, k requires 0 <= k < |rows| => JoinRow(rows[k])), '\n')
  }

  /** The variables of `parseCSV`: the finished rows, the row being read, the field
      being read, and whether the scanner is inside quotes. */
  datatype Scan = Scan(rows: seq<seq<string>>, row: seq<string>, field: string, inQuotes: bool)

  const Start := Scan([], [], "", false)

  /** The scanner's loop over the rest `s` of the text, from the state `st`. */
  function Run(s: string, st: Scan): Scan
    decreases |s|
  {
    if s == [] then st
    else if st.inQuotes then
      if s[0] == '"' && |s| >= 2 && s[1] == '"' then Run(s[2..], st.(field := st.field + "\""))
      else if s[0] == '"' then Run(s[1..], st.(inQuotes := false))
      else Run(s[1..], st.(field := st.field + [s[0]]))
    else if s[0] == '"' then Run(s[1..], st.(inQuotes := true))
    else if s[0] == ',' then Run(s[1..], st.(row := st.row + [st.field], field := ""))
    else if s[0] == '\r' then Run(s[1..], st)
    else if s[0] == '\n' then Run(s[1..], Scan(st.rows + [st.row + [st.field]], [], "", false))
    else Run(s[1..], st.(field := st.field + [s[0]]))
  }

  /** After the loop the last field and the last row are always pushed. */
  function Flush(st: Scan): seq<seq<string>>
  {
    st.rows + [st.row + [st.field]]
  }

  /** `row.every(c => String(c ?? "").trim() === "")`. */
  predicate IsBlankRow(row: seq<string>)
  {
    forall k :: 0 <= k < |row| ==> Trim(row[k]) == ""
  }

  /** The final `while` loop: pop rows from the end while the last one is blank.
      What is kept is a prefix, everything removed is blank, and the kept part does
      not end in a blank row. */
  function DropTrailingBlank(rows: seq<seq<string>>): (r: seq<seq<string>>)
    ensures |r| <= |rows| && r == rows[..|r|]
    ensures forall k :: |r| <= k < |rows| ==> IsBlankRow(rows[k])
    ensures r == [] || !IsBlankRow(r[|r| - 1])
  {
    if rows != [] && IsBlankRow(rows[|rows| - 1]) then DropTrailingBlank(rows[..|rows| - 1])
    else rows
  }

  /** `parseCSV(text)` as a value. */
  function Parse(text: string): seq<seq<string>>
  {
    DropTrailingBlank(Flush(Run(text, Start)))
  }

  /** `parseCSV`: the indexed loop with its `i++` skip over a doubled quote, then
      the trailing pops. */
  method ParseCsv(text: string) returns (rows: seq<seq<string>>)
    ensures rows == Parse(text)
  {
    rows := [];
    var row: seq<string> := [];
    var field := "";
    var inQuotes := false;
    var i := 0;
    while i < |text|
      invariant 0 <= i <= |text|
      invariant Run(text, Start) == Run(text[i..], Scan(rows, row, field, inQuotes))
      decreases |text| - i
    {
      var c := text[i];
      assert text[i..][0] == c;
      if inQuotes {
        if c == '"' && i + 1 < |text| && text[i + 1] == '"' {
          assert text[i..][1] == '"' && text[i..][2..] == text[i + 2..];
          field := field + "\"";
          i := i + 2;
        } else if c == '"' {
          assert text[i..][1..] == text[i + 1..];
          inQuotes := false;
          i := i + 1;
        } else {
          assert text[i..][1..] == text[i + 1..];
          field := field + [c];
          i := i + 1;
        }
      } else {
        assert text[i..][1..] == text[i + 1..];
        if c == '"' {
          inQuotes := true;
        } else if c == ',' {
          row := row + [field];
          field := "";
        } else if c == '\r' {
        } else if c == '\n' {
          rows := rows + [row + [field]];
          row := [];
          field := "";
        } else {
          field := field + [c];
        }
        i := i + 1;
      }
    }
    row := row + [field];
    rows := rows + [row];
    assert rows == Flush(Run(text, Start));
    while |rows| > 0 && IsBlankRow(rows[|rows| - 1])
      invariant DropTrailingBlank(rows) == Parse(text)
      decreases |rows|
    {
      rows := rows[..|rows| - 1];
    }
  }

  /** Empty text has no rows. */
  lemma ParseEmpty()
    ensures Parse("") == []
  {
    var none: seq<string> := [];
    var rows := Flush(Run("", Start));
    assert Run("", Start) == Start;
    assert none + [""] == [""];
    assert rows == [[""]];
    assert Trim("") == "";
    assert IsBlankRow(rows[0]);
  }

  /** Reading an unquoted field appends it to the field being read. */
  lemma {:induction false} PlainRun(p: string, rest: string, st: Scan)
    requires !st.inQuotes && !NeedsQuoting(p)
    ensures Run(p + rest, st) == Run(rest, st.(field := st.field + p))
  {
    if p == [] {
      assert p + rest == rest;
      assert st.(field := st.field + p) == st;
    } else {
      assert (p + rest)[1..] == p[1..] + rest;
      assert p[0] in p;
      PlainRun(p[1..], rest, st.(field := st.field + [p[0]]));
      assert st.field + [p[0]] + p[1..] == st.field + p;
    }
  }

  /** Inside quotes, a body with doubled quotes and its closing quote append the
      undoubled body, provided no quote follows the closing one. */
  lemma {:induction false} QuotedRun(p: string, rest: string, st: Scan)
    requires st.inQuotes
    requires rest == [] || rest[0] != '"'
    ensures Run(DoubleQuotes(p) + "\"" + rest, st) == Run(rest, st.(field := st.field + p, inQuotes := false))
  {
    var s := DoubleQuotes(p) + "\"" + rest;
    if p == [] {
      assert s == "\"" + rest;
      assert s[1..] == rest;
      assert st.field + p == st.field;
    } else if p[0] == '"' {
      assert s == "\"\"" + (DoubleQuotes(p[1..]) + "\"" + rest);
      assert s[2..] == DoubleQuotes(p[1..]) + "\"" + rest;
      QuotedRun(p[1..], rest, st.(field := st.field + "\""));
      assert st.field + "\"" + p[1..] == st.field + p;
    } else {
      assert s == [p[0]] + (DoubleQuotes(p[1..]) + "\"" + rest);
      assert s[1..] == DoubleQuotes(p[1..]) + "\"" + rest;
      QuotedRun(p[1..], rest, st.(field := st.field + [p[0]]));
      assert st.field + [p[0]] + p[1..] == st.field + p;
    }
  }

  /** Reading an escaped field gives the field back, provided no quote follows. */
  lemma FieldRun(f: string, rest: string, st: Scan)
    requires !st.inQuotes
    requires rest == [] || rest[0] != '"'
    ensures Run(EscapeCsv(f) + rest, st) == Run(rest, st.(field := st.field + f))
  {
    if NeedsQuoting(f) {
      var body := DoubleQuotes(f) + "\"" + rest;
      assert EscapeCsv(f) + rest == "\"" + body;
      OpenQuoteStep(body, st);
      QuotedRun(f, rest, st.(inQuotes := true));
    } else {
      PlainRun(f, rest, st);
    }
  }

  lemma OpenQuoteStep(t: string, st: Scan)
    requires !st.inQuotes
    ensures Run("\"" + t, st) == Run(t, st.(inQuotes := true))
  {
    assert ("\"" + t)[1..] == t;
  }

  lemma NewlineStep(t: string, st: Scan)
    requires !st.inQuotes
    ensures Run("\n" + t, st) == Run(t, Scan(st.rows + [st.row + [st.field]], [], "", false))
  {
    assert ("\n" + t)[1..] == t;
  }

  /** One comma-separated field followed by a comma pushes that field. */
  lemma FieldThenComma(f: string, rest: string, st: Scan)
    requires !st.inQuotes && st.field == ""
    ensures Run(EscapeCsv(f) + ("," + rest), st) == Run(rest, st.(row := st.row + [f]))
  {
    var t := "," + rest;
    var st2 := st.(field := f);
    assert st.(field := st.field + f) == st2;
    FieldRun(f, t, st);
    CommaStep(rest, st2);
    assert st2.(row := st2.row + [st2.field], field := "") == st.(row := st.row + [f]);
  }

  lemma CommaStep(rest: string, st: Scan)
    requires !st.inQuotes
    ensures Run("," + rest, st) == Run(rest, st.(row := st.row + [st.field], field := ""))
  {
    assert ("," + rest)[1..] == rest;
  }

  /** Outside quotes a CR is skipped and changes nothing. */
  lemma CrStep(rest: string, st: Scan)
    requires !st.inQuotes
    ensures Run("\r" + rest, st) == Run(rest, st)
  {
    assert ("\r" + rest)[1..] == rest;
  }

  lemma Regroup(a: string, b: string, c: string, d: string)
    ensures a + b + c + d == a + (b + (c + d))
  {
  }

  lemma JoinRowOne(r: seq<string>)
    requires |r| == 1
    ensures JoinRow(r) == EscapeCsv(r[0])
  {
  }

  lemma JoinRowCons(r: seq<string>)
    requires |r| >= 2
    ensures JoinRow(r) == EscapeCsv(r[0]) + "," + JoinRow(r[1..])
  {
    var e := seq(|r|, k requires 0 <= k < |r| => EscapeCsv(r[k]));
    var tail := r[1..];
    assert e[1..] == seq(|tail|, k requires 0 <= k < |tail| => EscapeCsv(tail[k]));
  }

  /** Reading a whole line leaves its last field open and the others pushed. */
  lemma {:induction false} RowRun(r: seq<string>, rest: string, st: Scan)
    requires |r| >= 1
    requires !st.inQuotes && st.field == ""
    requires rest == [] || rest[0] == '\n'
    ensures Run(JoinRow(r) + rest, st) == Run(rest, st.(row := st.row + r[..|r| - 1], field := r[|r| - 1]))
  {
    if |r| == 1 {
      JoinRowOne(r);
      FieldRun(r[0], rest, st);
      assert st.(field := st.field + r[0]) == st.(row := st.row + r[..0], field := r[0]);
    } else {
      RowRunCons(r, rest, st);
      RowRun(r[1..], rest, st.(row := st.row + [r[0]]));
      assert st.row + [r[0]] + r[1..][..|r| - 2] == st.row + r[..|r| - 1];
    }
  }

  lemma RowRunCons(r: seq<string>, rest: string, st: Scan)
    requires |r| >= 2
    requires !st.inQuotes && st.field == ""
    ensures Run(JoinRow(r) + rest, st) == Run(JoinRow(r[1..]) + rest, st.(row := st.row + [r[0]]))
  {
    JoinRowCons(r);
    Regroup(EscapeCsv(r[0]), ",", JoinRow(r[1..]), rest);
    FieldThenComma(r[0], JoinRow(r[1..]) + rest, st);
  }

  /** A line and its LF finish the row. */
  lemma RowThenNewline(r: seq<string>, rest: string, acc: seq<seq<string>>)
    requires |r| >= 1
    ensures Run(JoinRow(r) + ("\n" + rest), Scan(acc, [], "", false)) == Run(rest, Scan(acc + [r], [], "", false))
  {
    RowRun(r, "\n" + rest, Scan(acc, [], "", false));
    var open := Scan(acc, r[..|r| - 1], r[|r| - 1], false);
    assert Scan(acc, [], "", false).(row := [] + r[..|r| - 1], field := r[|r| - 1]) == open;
    NewlineStep(rest, open);
    assert r[..|r| - 1] + [r[|r| - 1]] == r;
  }

  /** The scanner state after the last line of the text: the earlier rows pushed,
      the last row's fields but its last pushed, its last field open. */
  function OpenLast(acc: seq<seq<string>>, rows: seq<seq<string>>): Scan
    requires |rows| >= 1 && |rows[|rows| - 1]| >= 1
  {
    var last := rows[|rows| - 1];
    Scan(acc + rows[..|rows| - 1], last[..|last| - 1], last[|last| - 1], false)
  }

  lemma CsvTextOne(rows: seq<seq<string>>)
    requires |rows| == 1
    ensures CsvText(rows) == JoinRow(rows[0])
  {
  }

  lemma CsvTextCons(rows: seq<seq<string>>)
    requires |rows| >= 2
    ensures CsvText(rows) == JoinRow(rows[0]) + ("\n" + CsvText(rows[1..]))
  {
    var lines := seq(|rows|, k requires 0 <= k < |rows| => JoinRow(rows[k]));
    var tail := rows[1..];
    assert lines[1..] == seq(|tail|, k requires 0 <= k < |tail| => JoinRow(tail[k]));
  }

  /** Scanning the text of non-empty rows pushes all rows but the last, which is
      left open. */
  lemma {:induction false} RowsRun(rows: seq<seq<string>>, acc: seq<seq<string>>)
    requires |rows| >= 1
    requires forall k :: 0 <= k < |rows| ==> |rows[k]| >= 1
    ensures Run(CsvText(rows), Scan(acc, [], "", false)) == OpenLast(acc, rows)
  {
    if |rows| == 1 {
      CsvTextOne(rows);
      RowRun(rows[0], [], Scan(acc, [], "", false));
      assert JoinRow(rows[0]) + [] == JoinRow(rows[0]);
      assert acc + rows[..0] == acc;
    } else {
      CsvTextCons(rows);
      RowThenNewline(rows[0], CsvText(rows[1..]), acc);
      RowsRun(rows[1..], acc + [rows[0]]);
      OpenLastCons(acc, rows);
    }
  }

  lemma OpenLastCons(acc: seq<seq<string>>, rows: seq<seq<string>>)
    requires |rows| >= 2 && |rows[|rows| - 1]| >= 1
    ensures OpenLast(acc + [rows[0]], rows[1..]) == OpenLast(acc, rows)
  {
    assert acc + [rows[0]] + rows[1..][..|rows| - 2] == acc + rows[..|rows| - 1];
  }

  /** Parsing the CSV text of rows gives the rows back, provided every row has a
      field and the last row is not blank (a trailing blank row would be dropped). */
  lemma ParseCsvText(rows: seq<seq<string>>)
    requires |rows| >= 1
    requires forall k :: 0 <= k < |rows| ==> |rows[k]| >= 1
    requires !IsBlankRow(rows[|rows| - 1])
    ensures Parse(CsvText(rows)) == rows
  {
    RowsRun(rows, []);
    FlushOpenLast(rows);
  }

  lemma FlushOpenLast(rows: seq<seq<string>>)
    requires |rows| >= 1 && |rows[|rows| - 1]| >= 1
    ensures Flush(OpenLast([], rows)) == rows
  {
    var last := rows[|rows| - 1];
    assert last[..|last| - 1] + [last[|last| - 1]] == last;
    assert [] + rows[..|rows| - 1] + [last] == rows;
  }

  predicate NoCr(s: string)
  {
    '\r' !in s
  }

  predicate NoCrInRow(row: seq<string>)
  {
    forall j :: 0 <= j < |row| ==> NoCr(row[j])
  }

  predicate NoCrInRows(rows: seq<seq<string>>)
  {
    forall i :: 0 <= i < |rows| ==> NoCrInRow(rows[i])
  }

  /** No CR anywhere in the scanner's variables. */
  predicate NoCrScan(st: Scan)
  {
    NoCrInRows(st.rows) && NoCrInRow(st.row) && NoCr(st.field)
  }

  /** Every CR of `s` is read outside quotes, when the scan of `s` starts inside
      quotes exactly when `inQuotes` holds. Quoted `""` and quote marks are
      followed as the scanner follows them. */
  predicate QuotedCrFree(s: string, inQuotes: bool)
    decreases |s|
  {
    if s == [] then true
    else if inQuotes then
      if s[0] == '"' && |s| >= 2 && s[1] == '"' then QuotedCrFree(s[2..], true)
      else if s[0] == '"' then QuotedCrFree(s[1..], false)
      else s[0] != '\r' && QuotedCrFree(s[1..], true)
    else QuotedCrFree(s[1..], s[0] == '"')
  }

  /** Outside quotes a CR is dropped: when every CR is read outside quotes, no
      field the scanner produces holds one. */
  lemma {:induction false} RunDropsCr(s: string, st: Scan)
    requires QuotedCrFree(s, st.inQuotes) && NoCrScan(st)
    ensures NoCrInRows(Flush(Run(s, st)))
    decreases |s|
  {
    if s == [] {
      assert Flush(st)[|st.rows|] == st.row + [st.field];
      assert NoCrInRow(st.row + [st.field]);
    } else if st.inQuotes {
      if s[0] == '"' && |s| >= 2 && s[1] == '"' {
        var next := st.(field := st.field + "\"");
        assert NoCr(next.field);
        RunDropsCr(s[2..], next);
      } else if s[0] == '"' {
        RunDropsCr(s[1..], st.(inQuotes := false));
      } else {
        var next := st.(field := st.field + [s[0]]);
        assert NoCr(next.field);
        RunDropsCr(s[1..], next);
      }
    } else {
      var c := s[0];
      var next: Scan;
      if c == '"' {
        next := st.(inQuotes := true);
      } else if c == ',' {
        next := st.(row := st.row + [st.field], field := "");
        assert NoCrInRow(next.row);
      } else if c == '\r' {
        next := st;
      } else if c == '\n' {
        next := Scan(st.rows + [st.row + [st.field]], [], "", false);
        assert NoCrInRow(st.row + [st.field]);
        assert NoCrInRows(next.rows);
      } else {
        next := st.(field := st.field + [c]);
        assert NoCr(next.field);
      }
      assert Run(s, st) == Run(s[1..], next);
      RunDropsCr(s[1..], next);
    }
  }

  /** In text without quotes every CR is read outside quotes. */
  lemma {:induction false} QuoteFreeCrFree(s: string)
    requires '"' !in s
    ensures QuotedCrFree(s, false)
  {
    if s != [] {
      assert forall c :: c in s[1..] ==> c in s;
      QuoteFreeCrFree(s[1..]);
    }
  }

  /** `parseCSV` never returns a CR inside a field unless the CR was quoted; in
      particular text without quotes parses to fields without CR. */
  lemma ParseDropsCr(text: string)
    ensures QuotedCrFree(text, false) ==> NoCrInRows(Parse(text))
    ensures '"' !in text ==> NoCrInRows(Parse(text))
  {
    if QuotedCrFree(text, false) {
      RunDropsCr(text, Start);
    }
    if '"' !in text {
      QuoteFreeCrFree(text);
      RunDropsCr(text, Start);
    }
  }
}
