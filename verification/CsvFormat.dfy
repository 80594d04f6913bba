/** Fields, rows and documents of daemon/src/exporters/export_csv.cpp, and a strict reader
    for section 2 of RFC 4180 (items 1 to 7, with LF as record end) that must undo them. */
module CsvFormat {
  import opened Wrappers

  const QUOTE: char := '\"'
  const LF: char := '\n'
  const CR: char := '\r'

  /** What the code puts in place of a quote, and what RFC 4180 asks for. */
  const AS_WRITTEN: string := ""
  const DOUBLED: string := [QUOTE, QUOTE]

  // ---- Printing ------------------------------------------------------------------

  function ReplaceQuotes(field: string, replacement: string): string {
    if field == "" then ""
    else (if field[0] == QUOTE then replacement else [field[0]]) + ReplaceQuotes(field[1..], replacement)
  }

  predicate NeedsQuotes(field: string, d: char, replacement: string) {
    var escaped := ReplaceQuotes(field, replacement);
    d in escaped || LF in escaped || CR in escaped || QUOTE in field
  }

  function EscapeField(field: string, d: char, replacement: string): string {
    var escaped := ReplaceQuotes(field, replacement);
    if NeedsQuotes(field, d, replacement) then [QUOTE] + escaped + [QUOTE] else escaped
  }

  /** A cell is printed as it is (headers, numbers) or through `escapeCsvField`. */
  datatype Cell = Raw(text: string) | Escaped(field: string)

  function Print(c: Cell, d: char, replacement: string): string {
    match c
    case Raw(text) => text
    case Escaped(field) => EscapeField(field, d, replacement)
  }

  function Join(fields: seq<string>, d: char): string {
    if fields == [] then ""
    else if |fields| == 1 then fields[0]
    else fields[0] + [d] + Join(fields[1..], d)
  }

  function PrintAll(cells: seq<Cell>, d: char, replacement: string): seq<string> {
    seq(|cells|, i requires 0 <= i < |cells| => Print(cells[i], d, replacement))
  }

  function RowText(cells: seq<Cell>, d: char, replacement: string): string {
    Join(PrintAll(cells, d, replacement), d)
  }

  function Document(rows: seq<seq<Cell>>, d: char, replacement: string): string {
    if rows == [] then "" else RowText(rows[0], d, replacement) + [LF] + Document(rows[1..], d, replacement)
  }

  lemma {:induction false} DocumentSnoc(rows: seq<seq<Cell>>, row: seq<Cell>, d: char, replacement: string)
    ensures Document(rows + [row], d, replacement)
         == Document(rows, d, replacement) + RowText(row, d, replacement) + [LF]
  {
    if rows == [] {
      assert [] + [row] == [row] && [row][1..] == [];
    } else {
      assert (rows + [row])[1..] == rows[1..] + [row];
      DocumentSnoc(rows[1..], row, d, replacement);
    }
  }

  // ---- Reading -------------------------------------------------------------------

  datatype Mode = FieldStart | Unquoted | Quoted | QuoteSeen

  datatype Scan =
    | Malformed
    | Scan(mode: Mode, field: string, record: seq<string>, records: seq<seq<string>>)

  function EndField(s: Scan): Scan
    requires s.Scan?
  {
    Scan(FieldStart, "", s.record + [s.field], s.records)
  }

  function EndRecord(s: Scan): Scan
    requires s.Scan?
  {
    Scan(FieldStart, "", [], s.records + [s.record + [s.field]])
  }

  function ReadChar(s: Scan, c: char, d: char): Scan {
    if s.Malformed? then Malformed
    else
      match s.mode
      case Quoted =>
        if c == '\"' then s.(mode := QuoteSeen) else s.(field := s.field + [c])
      case QuoteSeen =>
        if c == '\"' then s.(mode := Quoted, field := s.field + [c])
        else if c == d then EndField(s)
        else if c == '\n' then EndRecord(s)
        else Malformed
      case _ =>
        if c == '\"' then (if s.mode == FieldStart then s.(mode := Quoted) else Malformed)
        else if c == d then EndField(s)
        else if c == '\n' then EndRecord(s)
        else if c == '\r' then Malformed
        else s.(mode := Unquoted, field := s.field + [c])
  }

  function ReadText(s: Scan, text: string, d: char): Scan
    decreases |text|
  {
    if text == "" then s else ReadText(ReadChar(s, text[0], d), text[1..], d)
  }

  const NOTHING_READ: Scan := Scan(FieldStart, "", [], [])

  /** The records of a text, or `None` if it is not CSV.  The last record may end without a
      line break (item 2). */
  function Parse(text: string, d: char): Option<seq<seq<string>>> {
    var s := ReadText(NOTHING_READ, text, d);
    if s.Malformed? || s.mode == Quoted then None
    else if s.mode == FieldStart && s.record == [] then Some(s.records)
    else Some(EndRecord(s).records)
  }

  lemma {:induction false} ReadTextAppend(s: Scan, a: string, b: string, d: char)
    ensures ReadText(s, a + b, d) == ReadText(ReadText(s, a, d), b, d)
    decreases |a|
  {
    if a == "" {
      assert a + b == b;
    } else {
      assert (a + b)[1..] == a[1..] + b;
      ReadTextAppend(ReadChar(s, a[0], d), a[1..], b, d);
    }
  }

  lemma ReadOne(s: Scan, c: char, d: char)
    ensures ReadText(s, [c], d) == ReadChar(s, c, d)
  {
  }

  // ---- The round trip --------------------------------------------------------------

  /** The delimiter cannot be confused with quotes or line breaks. */
  predicate IsDelimiter(d: char) {
    d != '\"' && d != '\n' && d != '\r'
  }

  /** Text that needs no quoting. */
  predicate IsPlain(text: string, d: char) {
    d !in text && '\"' !in text && '\n' !in text && '\r' !in text
  }

  ghost predicate Printable(c: Cell, d: char) {
    c.Raw? ==> IsPlain(c.text, d)
  }

  /** What a reader gets back: the field, without its quotes if they were deleted. */
  function Value(c: Cell, replacement: string): string {
    match c
    case Raw(text) => text
    case Escaped(field) => if replacement == DOUBLED then field else ReplaceQuotes(field, AS_WRITTEN)
  }

  function Values(cells: seq<Cell>, replacement: string): seq<string> {
    seq(|cells|, i requires 0 <= i < |cells| => Value(cells[i], replacement))
  }

  lemma {:induction false} ReplaceInPlain(field: string, replacement: string)
    requires QUOTE !in field
    ensures ReplaceQuotes(field, replacement) == field
  {
    if field != "" {
      ReplaceInPlain(field[1..], replacement);
    }
  }

  lemma {:induction false} ReadPlain(s: Scan, text: string, d: char)
    requires IsPlain(text, d) && text != ""
    requires s.Scan? && s.mode in {FieldStart, Unquoted}
    ensures ReadText(s, text, d) == s.(mode := Unquoted, field := s.field + text)
    decreases |text|
  {
    var s' := ReadChar(s, text[0], d);
    assert text == [text[0]] + text[1..];
    if text[1..] != "" {
      assert IsPlain(text[1..], d);
      ReadPlain(s', text[1..], d);
      assert s.field + [text[0]] + text[1..] == s.field + text;
    } else {
      assert s.field + [text[0]] == s.field + text;
    }
  }

  /** What is left of one character of a quoted field. */
  function Kept(c: char, replacement: string): string {
    if c == QUOTE && replacement != DOUBLED then "" else [c]
  }

  lemma ValueCons(field: string, replacement: string)
    requires field != "" && replacement in {AS_WRITTEN, DOUBLED}
    ensures Value(Escaped(field), replacement) == Kept(field[0], replacement) + Value(Escaped(field[1..]), replacement)
  {
  }

  lemma ReadQuotedChar(s: Scan, c: char, d: char, replacement: string)
    requires replacement in {AS_WRITTEN, DOUBLED} && IsDelimiter(d)
    requires s.Scan? && s.mode == Quoted
    ensures ReadText(s, if c == QUOTE then replacement else [c], d) == s.(field := s.field + Kept(c, replacement))
  {
    if c != QUOTE {
      ReadOne(s, c, d);
    } else if replacement == DOUBLED {
      assert DOUBLED == [QUOTE] + [QUOTE];
      ReadTextAppend(s, [QUOTE], [QUOTE], d);
      ReadOne(s, QUOTE, d);
      ReadOne(ReadChar(s, QUOTE, d), QUOTE, d);
    } else {
      assert s.field + "" == s.field;
    }
  }

  lemma {:induction false} ReadQuotedTail(s: Scan, c: char, tail: string, rest: string, d: char, replacement: string)
    requires replacement in {AS_WRITTEN, DOUBLED} && IsDelimiter(d)
    requires s.Scan? && s.mode == Quoted
    requires var s' := s.(field := s.field + Kept(c, replacement));
             ReadText(s', tail, d) == s'.(field := s'.field + rest)
    ensures ReadText(s, (if c == QUOTE then replacement else [c]) + tail, d)
         == s.(field := s.field + (Kept(c, replacement) + rest))
  {
    ReadTextAppend(s, if c == QUOTE then replacement else [c], tail, d);
    ReadQuotedChar(s, c, d, replacement);
    assert s.field + Kept(c, replacement) + rest == s.field + (Kept(c, replacement) + rest);
  }

  lemma {:induction false} ReadQuoted(s: Scan, field: string, d: char, replacement: string)
    requires replacement in {AS_WRITTEN, DOUBLED} && IsDelimiter(d)
    requires s.Scan? && s.mode == Quoted
    ensures ReadText(s, ReplaceQuotes(field, replacement), d)
         == s.(field := s.field + Value(Escaped(field), replacement))
    decreases |field|
  {
    if field == "" {
      assert s.field + "" == s.field;
    } else {
      var tail := ReplaceQuotes(field[1..], replacement);
      var rest := Value(Escaped(field[1..]), replacement);
      ReadQuoted(s.(field := s.field + Kept(field[0], replacement)), field[1..], d, replacement);
      ReadQuotedTail(s, field[0], tail, rest, d, replacement);
      ValueCons(field, replacement);
    }
  }

  /** A separator: the delimiter ends a field, a line feed ends the record. */
  function Ended(s: Scan, end: char): Scan
    requires s.Scan?
  {
    if end == LF then EndRecord(s) else EndField(s)
  }

  lemma ReadPlainCell(s: Scan, text: string, end: char, d: char)
    requires IsPlain(text, d) && IsDelimiter(d) && end in {d, LF}
    requires s.Scan? && s.mode == FieldStart && s.field == ""
    ensures ReadText(s, text + [end], d) == Ended(s.(field := text), end)
  {
    ReadTextAppend(s, text, [end], d);
    if text != "" {
      ReadPlain(s, text, d);
      assert s.field + text == text;
    }
    ReadOne(ReadText(s, text, d), end, d);
  }

  lemma ReadQuotedCell(s: Scan, field: string, end: char, d: char, replacement: string)
    requires replacement in {AS_WRITTEN, DOUBLED} && IsDelimiter(d) && end in {d, LF}
    requires s.Scan? && s.mode == FieldStart && s.field == ""
    ensures ReadText(s, [QUOTE] + ReplaceQuotes(field, replacement) + [QUOTE] + [end], d)
         == Ended(s.(field := Value(Escaped(field), replacement)), end)
  {
    var body := ReplaceQuotes(field, replacement);
    var s1 := s.(mode := Quoted);
    var s2 := s1.(field := Value(Escaped(field), replacement));
    ReadTextAppend(s, [QUOTE] + body + [QUOTE], [end], d);
    ReadTextAppend(s, [QUOTE] + body, [QUOTE], d);
    ReadTextAppend(s, [QUOTE], body, d);
    ReadOne(s, QUOTE, d);
    ReadQuoted(s1, field, d, replacement);
    assert s1.field + Value(Escaped(field), replacement) == s2.field;
    ReadOne(s2, QUOTE, d);
    ReadOne(s2.(mode := QuoteSeen), end, d);
  }

  lemma ReadCell(s: Scan, c: Cell, end: char, d: char, replacement: string)
    requires replacement in {AS_WRITTEN, DOUBLED} && IsDelimiter(d) && end in {d, LF}
    requires Printable(c, d)
    requires s.Scan? && s.mode == FieldStart && s.field == ""
    ensures ReadText(s, Print(c, d, replacement) + [end], d) == Ended(s.(field := Value(c, replacement)), end)
  {
    match c
    case Raw(text) => ReadPlainCell(s, text, end, d);
    case Escaped(field) =>
      if NeedsQuotes(field, d, replacement) {
        ReadQuotedCell(s, field, end, d, replacement);
      } else {
        ReplaceInPlain(field, replacement);
        ReplaceInPlain(field, AS_WRITTEN);
        ReadPlainCell(s, field, end, d);
      }
  }

  lemma {:induction false} RowTextCons(cells: seq<Cell>, d: char, replacement: string)
    requires |cells| > 1
    ensures RowText(cells, d, replacement) + [LF]
         == (Print(cells[0], d, replacement) + [d]) + (RowText(cells[1..], d, replacement) + [LF])
  {
    var texts := PrintAll(cells, d, replacement);
    assert texts[1..] == PrintAll(cells[1..], d, replacement);
    assert Join(texts, d) == texts[0] + [d] + Join(texts[1..], d);
  }

  lemma {:induction false} ValuesCons(cells: seq<Cell>, replacement: string)
    requires cells != []
    ensures Values(cells, replacement) == [Value(cells[0], replacement)] + Values(cells[1..], replacement)
  {
  }

  lemma {:induction false} ReadRow(s: Scan, cells: seq<Cell>, d: char, replacement: string)
    requires replacement in {AS_WRITTEN, DOUBLED} && IsDelimiter(d)
    requires cells != [] && forall i :: 0 <= i < |cells| ==> Printable(cells[i], d)
    requires s.Scan? && s.mode == FieldStart && s.field == ""
    ensures ReadText(s, RowText(cells, d, replacement) + [LF], d)
         == Scan(FieldStart, "", [], s.records + [s.record + Values(cells, replacement)])
    decreases |cells|
  {
    ValuesCons(cells, replacement);
    if |cells| == 1 {
      ReadCell(s, cells[0], LF, d, replacement);
      assert RowText(cells, d, replacement) == Print(cells[0], d, replacement);
      assert Values(cells, replacement) == [Value(cells[0], replacement)];
    } else {
      var s' := EndField(s.(field := Value(cells[0], replacement)));
      ReadCell(s, cells[0], d, d, replacement);
      ReadRow(s', cells[1..], d, replacement);
      RowTextCons(cells, d, replacement);
      ReadTextAppend(s, Print(cells[0], d, replacement) + [d], RowText(cells[1..], d, replacement) + [LF], d);
      assert s'.record + Values(cells[1..], replacement) == s.record + Values(cells, replacement);
    }
  }

  ghost predicate PrintableRows(rows: seq<seq<Cell>>, d: char) {
    forall r :: 0 <= r < |rows| ==> rows[r] != [] && forall i :: 0 <= i < |rows[r]| ==> Printable(rows[r][i], d)
  }

  function RowValues(rows: seq<seq<Cell>>, replacement: string): seq<seq<string>> {
    seq(|rows|, i requires 0 <= i < |rows| => Values(rows[i], replacement))
  }

  lemma {:induction false} ReadDocument(records: seq<seq<string>>, rows: seq<seq<Cell>>, d: char, replacement: string)
    requires replacement in {AS_WRITTEN, DOUBLED} && IsDelimiter(d) && PrintableRows(rows, d)
    ensures ReadText(Scan(FieldStart, "", [], records), Document(rows, d, replacement), d)
         == Scan(FieldStart, "", [], records + RowValues(rows, replacement))
    decreases |rows|
  {
    var s := Scan(FieldStart, "", [], records);
    if rows == [] {
      assert records + RowValues(rows, replacement) == records;
    } else {
      var line := RowText(rows[0], d, replacement) + [LF];
      ReadTextAppend(s, line, Document(rows[1..], d, replacement), d);
      ReadRow(s, rows[0], d, replacement);
      assert [] + Values(rows[0], replacement) == Values(rows[0], replacement);
      ReadDocument(records + [Values(rows[0], replacement)], rows[1..], d, replacement);
      assert records + [Values(rows[0], replacement)] + RowValues(rows[1..], replacement)
          == records + RowValues(rows, replacement);
    }
  }

  /** Round trip of a document: reading back gives exactly the printed records; with quotes
      doubled these are the fields themselves, and as the code stands each text field has
      lost its quotes. */
  lemma DocumentRoundTrip(rows: seq<seq<Cell>>, d: char, replacement: string)
    requires replacement in {AS_WRITTEN, DOUBLED} && IsDelimiter(d) && PrintableRows(rows, d)
    ensures Parse(Document(rows, d, replacement), d) == Some(RowValues(rows, replacement))
  {
    ReadDocument([], rows, d, replacement);
    assert [] + RowValues(rows, replacement) == RowValues(rows, replacement);
  }

  // ---- When nothing is lost --------------------------------------------------------

  lemma {:induction false} DeletionVisible(field: string)
    ensures |ReplaceQuotes(field, AS_WRITTEN)| <= |field|
    ensures ReplaceQuotes(field, AS_WRITTEN) == field <==> QUOTE !in field
  {
    if field != "" {
      DeletionVisible(field[1..]);
      var rest := ReplaceQuotes(field[1..], AS_WRITTEN);
      assert field == [field[0]] + field[1..];
      if field[0] == QUOTE {
        assert ReplaceQuotes(field, AS_WRITTEN) == rest;
      } else if ReplaceQuotes(field, AS_WRITTEN) == field {
        assert ([field[0]] + rest)[1..] == field[1..];
      }
    }
  }

  ghost predicate QuoteFree(rows: seq<seq<Cell>>) {
    forall r, i :: 0 <= r < |rows| && 0 <= i < |rows[r]| && rows[r][i].Escaped? ==> '\"' !in rows[r][i].field
  }

  lemma {:induction false} ValuesDiffer(rows: seq<seq<Cell>>, r: nat, i: nat)
    requires r < |rows| && i < |rows[r]| && rows[r][i].Escaped? && QUOTE in rows[r][i].field
    ensures RowValues(rows, AS_WRITTEN) != RowValues(rows, DOUBLED)
  {
    DeletionVisible(rows[r][i].field);
    assert RowValues(rows, AS_WRITTEN)[r][i] != RowValues(rows, DOUBLED)[r][i];
  }

  /** Deleting quotes and doubling them print the same values exactly when there are none. */
  lemma {:induction false} SameValuesIffQuoteFree(rows: seq<seq<Cell>>)
    ensures RowValues(rows, AS_WRITTEN) == RowValues(rows, DOUBLED) <==> QuoteFree(rows)
  {
    if QuoteFree(rows) {
      forall r | 0 <= r < |rows| ensures Values(rows[r], AS_WRITTEN) == Values(rows[r], DOUBLED) {
        forall i | 0 <= i < |rows[r]| ensures Value(rows[r][i], AS_WRITTEN) == Value(rows[r][i], DOUBLED) {
          if rows[r][i].Escaped? {
            DeletionVisible(rows[r][i].field);
          }
        }
      }
      assert RowValues(rows, AS_WRITTEN) == RowValues(rows, DOUBLED);
    } else {
      var r, i :| 0 <= r < |rows| && 0 <= i < |rows[r]| && rows[r][i].Escaped? && QUOTE in rows[r][i].field;
      ValuesDiffer(rows, r, i);
    }
  }

  /** As written, the exporter round-trips exactly the documents whose text fields contain
      no quote. */
  lemma {:induction false} AsWrittenIsFaithfulIffQuoteFree(rows: seq<seq<Cell>>, d: char)
    requires IsDelimiter(d) && PrintableRows(rows, d)
    ensures Parse(Document(rows, d, AS_WRITTEN), d) == Some(RowValues(rows, DOUBLED)) <==> QuoteFree(rows)
  {
    DocumentRoundTrip(rows, d, AS_WRITTEN);
    SameValuesIffQuoteFree(rows);
  }

  // ---- What is written ---------------------------------------------------------------

  /** A field without quotes is written as it is, between quotes iff it has the delimiter or a
      line break in it. */
  lemma {:induction false} QuoteFreeText(field: string, d: char, replacement: string)
    requires '\"' !in field
    ensures EscapeField(field, d, replacement) ==
            if d in field || '\n' in field || '\r' in field then "\"" + field + "\"" else field
  {
    ReplaceInPlain(field, replacement);
  }

  lemma {:induction false} ReplaceAppend(a: string, b: string, replacement: string)
    ensures ReplaceQuotes(a + b, replacement) == ReplaceQuotes(a, replacement) + ReplaceQuotes(b, replacement)
  {
    if a == "" {
      assert a + b == b;
    } else {
      assert (a + b)[1..] == a[1..] + b;
      ReplaceAppend(a[1..], b, replacement);
    }
  }

  /** A field with quotes is written between quotes; inside, nothing or two quotes stand for
      each of them. */
  lemma {:induction false} QuotedText(a: string, b: string, d: char)
    requires '\"' !in a
    ensures EscapeField(a + "\"" + b, d, AS_WRITTEN) == "\"" + a + ReplaceQuotes(b, "") + "\""
    ensures EscapeField(a + "\"" + b, d, DOUBLED) == "\"" + a + "\"\"" + ReplaceQuotes(b, "\"\"") + "\""
  {
    QuotedWith(a, b, d, AS_WRITTEN);
    QuotedWith(a, b, d, DOUBLED);
  }

  lemma {:induction false} QuotedWith(a: string, b: string, d: char, replacement: string)
    requires '\"' !in a
    ensures EscapeField(a + "\"" + b, d, replacement) == "\"" + a + replacement + ReplaceQuotes(b, replacement) + "\""
  {
    ReplaceInside(a, b, replacement);
    assert (a + "\"" + b)[|a|] == '\"';
    assert [QUOTE] == "\"";
    assert "\"" + (a + (replacement + ReplaceQuotes(b, replacement)))
        == "\"" + a + replacement + ReplaceQuotes(b, replacement);
  }

  lemma {:induction false} ReplaceInside(a: string, b: string, replacement: string)
    requires '\"' !in a
    ensures ReplaceQuotes(a + "\"" + b, replacement) == a + (replacement + ReplaceQuotes(b, replacement))
  {
    assert a + "\"" + b == a + ("\"" + b);
    ReplaceAppend(a, "\"" + b, replacement);
    ReplaceInPlain(a, replacement);
    assert ("\"" + b)[1..] == b;
  }

  lemma {:induction false} EscapedLineReads(field: string, d: char, replacement: string)
    ensures replacement in {AS_WRITTEN, DOUBLED} && IsDelimiter(d) ==>
              Parse(EscapeField(field, d, replacement) + [LF], d) == Some([[Value(Escaped(field), replacement)]])
  {
    if replacement in {AS_WRITTEN, DOUBLED} && IsDelimiter(d) {
      ReadCell(NOTHING_READ, Escaped(field), LF, d, replacement);
      assert [] + [Value(Escaped(field), replacement)] == [Value(Escaped(field), replacement)];
      assert [] + [[Value(Escaped(field), replacement)]] == [[Value(Escaped(field), replacement)]];
    }
  }

  // ---- The method ------------------------------------------------------------------

  /** `escapeCsvField`: what it returns, put on a line of its own, reads back as the field
      (without its quotes if they are deleted). */
  method EscapeCsvField(field: string, d: char, replacement: string) returns (escaped: string)
    ensures escaped == EscapeField(field, d, replacement)
    ensures replacement in {AS_WRITTEN, DOUBLED} && IsDelimiter(d) ==>
              Parse(escaped + [LF], d) == Some([[Value(Escaped(field), replacement)]])
  {
    escaped := ReplaceQuotes(field, replacement);
    var needsQuotes := d in escaped || LF in escaped || CR in escaped || QUOTE in field;
    if needsQuotes {
      escaped := [QUOTE] + escaped;
      escaped := escaped + [QUOTE];
    }
    EscapedLineReads(field, d, replacement);
  }
}
