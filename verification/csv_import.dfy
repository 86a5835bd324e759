/**
 The CSV import dialog: the file-type check, the parser (byte-order mark,
 line split, blank lines, separator detection, field cleaning, per-row
 column-count, required and validity checks), the error list and the
 import button.
 */
module CsvImport {
  import opened Wrappers
  import opened Strings

  const NotCsv := "Il file deve essere in formato CSV"
  const EmptyFile := "Il file CSV è vuoto o non contiene dati"
  const ReadError := "Errore nella lettura del file"
  const ImportError := "Errore durante l'importazione"
  const Bom: char := '﻿'
  const MaxShownErrors: nat := 10

  /** A column the caller expects; `validate` is applied to non-empty values only. */
  datatype Column = Column(key: string, caption: string, required: bool, validate: Option<string -> bool>)

  /** A parsed row: header cell ↦ value. */
  type Row = map<string, string>

  // ---------------------------------------------------------------- lines

  function StripBom(raw: string): string {
    if |raw| > 0 && raw[0] == Bom then raw[1..] else raw
  }

  /** `lines.filter(line => line.trim())` */
  function NonBlank(lines: seq<string>): (r: seq<string>)
    ensures |r| <= |lines|
    ensures forall k :: 0 <= k < |r| ==> !IsBlank(r[k])
    decreases |lines|
  {
    if |lines| == 0 then []
    else
      var rest := NonBlank(lines[..|lines| - 1]);
      if IsBlank(lines[|lines| - 1]) then rest else rest + [lines[|lines| - 1]]
  }

  /** A line survives exactly when it occurs and is not blank. */
  lemma {:induction false} NonBlankMembers(lines: seq<string>, l: string)
    ensures l in NonBlank(lines) <==> l in lines && !IsBlank(l)
    decreases |lines|
  {
    if |lines| > 0 {
      var init := lines[..|lines| - 1];
      NonBlankMembers(init, l);
      assert lines == init + [lines[|lines| - 1]];
    }
  }

  /** The lines the parser works on: BOM removed, split on `\n` or `\r\n`, blank ones dropped. */
  function TextLines(raw: string): seq<string> {
    NonBlank(SplitLines(StripBom(raw)))
  }

  // ---------------------------------------------------------------- separator and fields

  /** `;` unless the header has strictly more commas than semicolons. */
  function Separator(header: string): (sep: char)
    ensures sep == ';' || sep == ','
    ensures sep == ';' <==> multiset(header)[';'] >= multiset(header)[',']
  {
    if multiset(header)[';'] >= multiset(header)[','] then ';' else ','
  }

  predicate IsQuote(c: char) { c == '\'' || c == '"' }

  function NotQuote(c: char): bool { !IsQuote(c) }

  /** `v.trim().replace(/['"]/g, '')` */
  function Clean(v: string): (r: string)
    ensures |r| <= |Trim(v)|
    ensures forall i :: 0 <= i < |r| ==> !IsQuote(r[i])
  {
    Keep(Trim(v), NotQuote)
  }

  /** Cleaning keeps exactly the non-quote characters of the trimmed value,
      and leaves an already unquoted trimmed value as it is. */
  lemma CleanMembers(v: string, c: char)
    ensures c in Clean(v) <==> c in Trim(v) && !IsQuote(c)
    ensures (forall i :: 0 <= i < |Trim(v)| ==> !IsQuote(Trim(v)[i])) ==> Clean(v) == Trim(v)
  {
    KeepMembers(Trim(v), NotQuote, c);
    if forall i :: 0 <= i < |Trim(v)| ==> !IsQuote(Trim(v)[i]) {
      KeepAll(Trim(v), NotQuote);
    }
  }

  /** The cleaned cells of a line: one more than the separators it holds. */
  function Fields(line: string, sep: char): (cells: seq<string>)
    ensures |cells| == |Split(line, sep)| == multiset(line)[sep] + 1
    ensures forall k :: 0 <= k < |cells| ==> cells[k] == Clean(Split(line, sep)[k])
  {
    var parts := Split(line, sep);
    SplitCount(line, sep);
    seq(|parts|, k requires 0 <= k < |parts| => Clean(parts[k]))
  }

  // ---------------------------------------------------------------- one row

  /** `header.forEach((key, i) => row[key] = values[i])` */
  function BuildRow(header: seq<string>, values: seq<string>): (row: Row)
    requires |header| == |values|
    ensures forall k :: 0 <= k < |header| ==> header[k] in row
    ensures forall key :: key in row ==> key in header
    decreases |header|
  {
    if |header| == 0 then map[]
    else
      var m := |header| - 1;
      var init := BuildRow(header[..m], values[..m]);
      assert forall k :: 0 <= k < m ==> header[..m][k] == header[k];
      init[header[m] := values[m]]
  }

  /** A header cell that is not repeated later maps to the value in its
      column: a repeated cell keeps its last value. */
  lemma {:induction false} BuildRowLastWins(header: seq<string>, values: seq<string>, k: nat)
    requires |header| == |values| && k < |header|
    requires forall j :: k < j < |header| ==> header[j] != header[k]
    ensures BuildRow(header, values)[header[k]] == values[k]
    decreases |header|
  {
    var m := |header| - 1;
    var init := BuildRow(header[..m], values[..m]);
    assert BuildRow(header, values) == init[header[m] := values[m]];
    if k < m {
      assert header[..m][k] == header[k] && values[..m][k] == values[k];
      assert header[m] != header[k];
      forall j | k < j < m ensures header[..m][j] != header[..m][k] {
        assert header[..m][j] == header[j];
      }
      BuildRowLastWins(header[..m], values[..m], k);
    }
  }

  predicate Filled(row: Row, key: string) { key in row && row[key] != "" }

  /** A column is satisfied when a required one is filled and a filled one passes its check. */
  predicate ColumnOk(row: Row, c: Column) {
    (c.required ==> Filled(row, c.key)) &&
    (c.validate.Some? && Filled(row, c.key) ==> c.validate.value(row[c.key]))
  }

  function RowPrefix(n: nat): string { "Riga " + NatToString(n) + ": " }

  function ColumnCountError(n: nat): string { RowPrefix(n) + "numero colonne non corretto" }

  function MissingError(n: nat, caption: string): string {
    RowPrefix(n) + "campo \"" + caption + "\" obbligatorio mancante"
  }

  function InvalidError(n: nat, caption: string): string {
    RowPrefix(n) + "campo \"" + caption + "\" non valido"
  }

  function ColumnError(n: nat, row: Row, c: Column): (errs: seq<string>)
    ensures |errs| <= 1
    ensures |errs| == 0 <==> ColumnOk(row, c)
  {
    (if c.required && !Filled(row, c.key) then [MissingError(n, c.caption)] else []) +
    (if c.validate.Some? && Filled(row, c.key) && !c.validate.value(row[c.key]) then [InvalidError(n, c.caption)] else [])
  }

  /** Every column is checked, in column order; at most one message each. */
  function ColumnErrors(n: nat, row: Row, columns: seq<Column>): (errs: seq<string>)
    ensures |errs| <= |columns|
    ensures |errs| == 0 <==> forall j :: 0 <= j < |columns| ==> ColumnOk(row, columns[j])
    decreases |columns|
  {
    if |columns| == 0 then []
    else
      var m := |columns| - 1;
      var init := ColumnErrors(n, row, columns[..m]);
      assert forall j :: 0 <= j < m ==> columns[..m][j] == columns[j];
      init + ColumnError(n, row, columns[m])
  }

  datatype RowCheck = RowCheck(errors: seq<string>, row: Option<Row>)

  /** The verdict on the data line printed as line `n`. */
  function CheckLine(n: nat, line: string, sep: char, header: seq<string>, columns: seq<Column>): (c: RowCheck)
    ensures |Fields(line, sep)| != |header| ==> c == RowCheck([ColumnCountError(n)], None)
    ensures c.row.Some? <==> |c.errors| == 0
    ensures c.row.Some? ==> (|Fields(line, sep)| == |header| && c.row.value == BuildRow(header, Fields(line, sep)) &&
      forall j :: 0 <= j < |columns| ==> ColumnOk(c.row.value, columns[j]))
  {
    var values := Fields(line, sep);
    if |values| != |header| then RowCheck([ColumnCountError(n)], None)
    else
      var row := BuildRow(header, values);
      var errs := ColumnErrors(n, row, columns);
      RowCheck(errs, if |errs| == 0 then Some(row) else None)
  }

  // ---------------------------------------------------------------- all rows

  /** The verdicts on the data lines; data line k is reported as line k + 2,
      counting from 1 among the non-blank lines with the header first, so
      blank lines in the file do not advance the number. */
  function Checks(data: seq<string>, sep: char, header: seq<string>, columns: seq<Column>): (cs: seq<RowCheck>)
    ensures |cs| == |data|
    ensures forall k :: 0 <= k < |data| ==> cs[k] == CheckLine(k + 2, data[k], sep, header, columns)
  {
    seq(|data|, k requires 0 <= k < |data| => CheckLine(k + 2, data[k], sep, header, columns))
  }

  /** The indices of the accepted lines, increasing. */
  function Accepted(cs: seq<RowCheck>): (idx: seq<nat>)
    ensures |idx| <= |cs|
    ensures forall j :: 0 <= j < |idx| ==> idx[j] < |cs|
    ensures forall j, l :: 0 <= j < l < |idx| ==> idx[j] < idx[l]
    ensures forall k :: 0 <= k < |cs| ==> (k in idx <==> cs[k].row.Some?)
    decreases |cs|
  {
    if |cs| == 0 then []
    else
      var m := |cs| - 1;
      var init := Accepted(cs[..m]);
      assert forall k :: 0 <= k < m ==> cs[..m][k] == cs[k];
      if cs[m].row.Some? then init + [m] else init
  }

  /** The loop body's effect on the accepted rows. */
  function RowsOf(cs: seq<RowCheck>): seq<Row>
    decreases |cs|
  {
    if |cs| == 0 then []
    else
      var m := |cs| - 1;
      RowsOf(cs[..m]) + (if cs[m].row.Some? then [cs[m].row.value] else [])
  }

  /** The loop body's effect on the error list. */
  function ErrorsOf(cs: seq<RowCheck>): seq<string>
    decreases |cs|
  {
    if |cs| == 0 then [] else ErrorsOf(cs[..|cs| - 1]) + cs[|cs| - 1].errors
  }

  /** The accepted rows are the rows of the accepted lines, in file order. */
  lemma {:induction false} RowsAreAccepted(cs: seq<RowCheck>)
    ensures var idx := Accepted(cs); var rows := RowsOf(cs);
      |rows| == |idx| && forall j :: 0 <= j < |idx| ==> cs[idx[j]].row == Some(rows[j])
    decreases |cs|
  {
    if |cs| > 0 {
      var m := |cs| - 1;
      var init := cs[..m];
      RowsAreAccepted(init);
      assert forall k :: 0 <= k < m ==> init[k] == cs[k];
      var idx := Accepted(init);
      var rows := RowsOf(init);
      if cs[m].row.Some? {
        assert Accepted(cs) == idx + [m];
        assert RowsOf(cs) == rows + [cs[m].row.value];
      } else {
        assert Accepted(cs) == idx;
        assert RowsOf(cs) == rows;
      }
    }
  }

  /** No error was reported exactly when every line was accepted, given that
      each line is either accepted or reported. */
  lemma {:induction false} ErrorsIffRejected(cs: seq<RowCheck>)
    requires forall k :: 0 <= k < |cs| ==> (cs[k].row.Some? <==> |cs[k].errors| == 0)
    ensures |ErrorsOf(cs)| == 0 <==> |Accepted(cs)| == |cs|
    decreases |cs|
  {
    if |cs| > 0 {
      var m := |cs| - 1;
      assert forall k :: 0 <= k < m ==> cs[..m][k] == cs[k];
      ErrorsIffRejected(cs[..m]);
    }
  }

  datatype Parse = TooShort | Parsed(header: seq<string>, rows: seq<Row>, errors: seq<string>)

  /** `reader.onload`: fewer than two non-blank lines is one error; otherwise
      the header decides the separator and the cells, and each data line is
      checked against them. */
  function ParseText(raw: string, columns: seq<Column>): (p: Parse)
    ensures p.TooShort? <==> |TextLines(raw)| < 2
    ensures p.Parsed? ==> |p.rows| <= |TextLines(raw)| - 1
    ensures p.Parsed? ==> (|p.errors| == 0 <==> |p.rows| == |TextLines(raw)| - 1)
    ensures p.Parsed? ==> forall k :: 0 <= k < |p.header| ==> forall i :: 0 <= i < |p.header[k]| ==> !IsQuote(p.header[k][i])
  {
    var lines := TextLines(raw);
    if |lines| < 2 then TooShort
    else
      var sep := Separator(lines[0]);
      var header := Fields(lines[0], sep);
      var cs := Checks(lines[1..], sep, header, columns);
      assert forall k :: 0 <= k < |cs| ==> (cs[k].row.Some? <==> |cs[k].errors| == 0);
      RowsAreAccepted(cs);
      ErrorsIffRejected(cs);
      Parsed(header, RowsOf(cs), ErrorsOf(cs))
  }

  // ---------------------------------------------------------------- dialog state

  datatype ImportResult = ImportResult(success: nat, errors: seq<string>)

  datatype ImportState = ImportState(fileName: Option<string>, data: seq<Row>, errors: seq<string>,
                                     importing: bool, result: Option<ImportResult>)

  /**
   `handleFileSelect` then `parseCSV`: a name not ending in ".csv" only sets
   that one error; otherwise the file is taken, and its text (None when it
   cannot be read) either fails with one error, keeping the previous rows,
   or replaces the rows and the errors with the parse's.
   */
  function HandleFileSelect(st: ImportState, name: string, content: Option<string>, columns: seq<Column>): (st': ImportState)
    ensures !EndsWith(name, ".csv") ==> st' == st.(errors := [NotCsv])
    ensures EndsWith(name, ".csv") ==> st'.fileName == Some(name) && st'.importing == st.importing && st'.result == st.result
    ensures EndsWith(name, ".csv") && content.None? ==> st'.errors == [ReadError] && st'.data == st.data
    ensures EndsWith(name, ".csv") && content.Some? && |TextLines(content.value)| < 2 ==>
      st'.errors == [EmptyFile] && st'.data == st.data
    ensures EndsWith(name, ".csv") && content.Some? && |TextLines(content.value)| >= 2 ==>
      var p := ParseText(content.value, columns); st'.data == p.rows && st'.errors == p.errors
  {
    if !EndsWith(name, ".csv") then st.(errors := [NotCsv])
    else
      var taken := st.(fileName := Some(name), errors := []);
      match content
      case None => taken.(errors := [ReadError])
      case Some(text) =>
        match ParseText(text, columns)
        case TooShort => taken.(errors := [EmptyFile])
        case Parsed(_, rows, errs) => taken.(data := rows, errors := errs)
  }

  /** `handleImport`: the caller's import either reports a result or throws. */
  function HandleImport(st: ImportState, outcome: Option<ImportResult>): (st': ImportState)
    ensures !st'.importing && st'.data == st.data
    ensures outcome.Some? ==> st'.result == outcome && st'.errors == st.errors
    ensures outcome.None? ==> st'.result == st.result && st'.errors == [ImportError]
  {
    match outcome
    case Some(r) => st.(result := Some(r), importing := false)
    case None => st.(errors := [ImportError], importing := false)
  }

  datatype ImportButton = Hidden | Disabled(text: string) | Enabled(text: string)

  function ButtonText(st: ImportState): string {
    if st.importing then "Importazione..." else "Importa " + NatToString(|st.data|) + " records"
  }

  /** The button exists only with rows and no result, and is pressable only
      with no error pending and no import running. */
  function Button(st: ImportState): (b: ImportButton)
    ensures b.Hidden? <==> |st.data| == 0 || st.result.Some?
    ensures b.Enabled? <==> |st.data| > 0 && st.result.None? && !st.importing && |st.errors| == 0
  {
    if |st.data| == 0 || st.result.Some? then Hidden
    else if st.importing || |st.errors| > 0 then Disabled(ButtonText(st))
    else Enabled(ButtonText(st))
  }

  /** The first ten errors, and a count line for the rest. */
  function ErrorList(errors: seq<string>): (r: (seq<string>, Option<string>))
    ensures r.0 <= errors && |r.0| == (if |errors| < MaxShownErrors then |errors| else MaxShownErrors)
    ensures r.1.Some? <==> |errors| > MaxShownErrors
    ensures r.1.Some? ==> r.1.value == "... e altri " + NatToString(|errors| - MaxShownErrors) + " errori"
  {
    (Take(errors, MaxShownErrors),
     if |errors| > MaxShownErrors then Some("... e altri " + NatToString(|errors| - MaxShownErrors) + " errori") else None)
  }

  /** The shown errors and the counted rest account for every error. */
  lemma ErrorListAccounts(errors: seq<string>)
    ensures var (shown, more) := ErrorList(errors);
      |shown| + (if more.Some? then |errors| - MaxShownErrors else 0) == |errors|
  {
  }
}
