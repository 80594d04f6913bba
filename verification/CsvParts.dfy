/** The part files of daemon/src/exporters/export_csv.cpp as the text that is written to
    them: a byte order mark, a header line, and lines until the file has grown past a limit;
    then the next file is opened and gets its own mark and header. */
module CsvParts {
  import opened Wrappers
  import opened CsvFormat
  import opened Utf8

  const SIZE_LIMIT: nat := 10 * 1024 * 1024

  /** The character whose UTF-8 form is the three bytes EF BB BF. */
  const BOM: string := "\U{FEFF}"

  /** How a document is written: its header fields, its delimiter, and what replaces a quote. */
  datatype Format = Format(names: seq<string>, d: char, replacement: string)

  /** What the exporter finds around it.  `position` is what `pos()` says after the header of
      a file was handed to the stream, which may or may not have passed it on yet; `opens`
      says whether a part file can be created. */
  datatype Env = Env(isFile: bool, position: nat -> nat, opens: nat -> bool)

  ghost predicate AllOpen(env: Env) {
    forall i: nat :: env.opens(i)
  }

  /** The text of every file so far, the byte count of the current one, and whether it is open. */
  datatype Output = Output(files: seq<string>, bytesWritten: nat, isOpen: bool)

  // ---- Bytes -----------------------------------------------------------------------

  /** `toUtf8().size()`. */
  function Utf8Size(text: string): nat {
    |ToUtf8(text)|
  }

  lemma {:induction false} Utf8SizeOfLine(line: string)
    ensures Utf8Size(line + [LF]) == Utf8Size(line) + 1
  {
    ToUtf8Append(line, [LF]);
    assert [LF][1..] == "";
  }

  // ---- Writing ---------------------------------------------------------------------

  function HeaderLine(f: Format): string {
    Join(f.names, f.d) + [LF]
  }

  /** A file just opened: the mark, then the header. */
  function NewFile(f: Format): string {
    BOM + HeaderLine(f)
  }

  function Begin(env: Env, f: Format): Output {
    Output([NewFile(f)], env.position(0), true)
  }

  /** One line, and the switch to the next file when this one has grown past the limit. */
  function PutLine(env: Env, f: Format, o: Output, line: string): (r: Output)
    requires o.files != []
    ensures r.files != []
  {
    var last := |o.files| - 1;
    var files := o.files[last := o.files[last] + line + [LF]];
    var bytes := o.bytesWritten + Utf8Size(line) + 1;
    if !env.isFile || bytes <= SIZE_LIMIT then Output(files, bytes, true)
    else if !env.opens(|files|) then Output(files, bytes, false)
    else Output(files + [NewFile(f)], env.position(|files|), true)
  }

  /** Lines are written until they run out or a file cannot be opened. */
  function PutLines(env: Env, f: Format, o: Output, lines: seq<string>): Output
    requires o.files != []
    decreases |lines|
  {
    if lines == [] || !o.isOpen then o
    else PutLines(env, f, PutLine(env, f, o, lines[0]), lines[1..])
  }

  function LinesOf(f: Format, rows: seq<seq<Cell>>): seq<string> {
    seq(|rows|, i requires 0 <= i < |rows| => RowText(rows[i], f.d, f.replacement))
  }

  /** What an export of these rows leaves behind. */
  function Exported(env: Env, f: Format, rows: seq<seq<Cell>>): Output {
    PutLines(env, f, Begin(env, f), LinesOf(f, rows))
  }

  // ---- Which rows went into which file -------------------------------------------------

  /** The same export with rows instead of text. */
  datatype Layout = Layout(parts: seq<seq<seq<Cell>>>, bytesWritten: nat, isOpen: bool)

  function LineBytes(f: Format, row: seq<Cell>): nat {
    Utf8Size(RowText(row, f.d, f.replacement)) + 1
  }

  function AddRow(parts: seq<seq<seq<Cell>>>, row: seq<Cell>): seq<seq<seq<Cell>>>
    requires parts != []
  {
    parts[|parts| - 1 := parts[|parts| - 1] + [row]]
  }

  function PlaceRow(env: Env, f: Format, l: Layout, row: seq<Cell>): (r: Layout)
    requires l.parts != []
    ensures r.parts != []
  {
    var parts := AddRow(l.parts, row);
    var bytes := l.bytesWritten + LineBytes(f, row);
    if !env.isFile || bytes <= SIZE_LIMIT then Layout(parts, bytes, true)
    else if !env.opens(|parts|) then Layout(parts, bytes, false)
    else Layout(parts + [[]], env.position(|parts|), true)
  }

  function PlaceRows(env: Env, f: Format, l: Layout, rows: seq<seq<Cell>>): (r: Layout)
    requires l.parts != []
    ensures r.parts != []
    decreases |rows|
  {
    if rows == [] || !l.isOpen then l
    else PlaceRows(env, f, PlaceRow(env, f, l, rows[0]), rows[1..])
  }

  function Empty(env: Env): Layout {
    Layout([[]], env.position(0), true)
  }

  function Arranged(env: Env, f: Format, rows: seq<seq<Cell>>): (r: Layout)
    ensures r.parts != []
  {
    PlaceRows(env, f, Empty(env), rows)
  }

  function Headers(names: seq<string>): seq<Cell> {
    seq(|names|, i requires 0 <= i < |names| => Raw(names[i]))
  }

  /** The whole text of a file that holds these rows. */
  function FileText(f: Format, part: seq<seq<Cell>>): string {
    BOM + Document([Headers(f.names)] + part, f.d, f.replacement)
  }

  function Texts(f: Format, parts: seq<seq<seq<Cell>>>): seq<string> {
    seq(|parts|, i requires 0 <= i < |parts| => FileText(f, parts[i]))
  }

  function Render(f: Format, l: Layout): Output {
    Output(Texts(f, l.parts), l.bytesWritten, l.isOpen)
  }

  /** The header line that is written is the header row of the document. */
  lemma {:induction false} NewFileText(f: Format)
    ensures FileText(f, []) == NewFile(f)
  {
    var header := Headers(f.names);
    assert PrintAll(header, f.d, f.replacement) == f.names;
    assert [header] + [] == [header] && [header][1..] == [];
    assert Document([header], f.d, f.replacement) == RowText(header, f.d, f.replacement) + [LF] + "";
  }

  lemma {:induction false} FileTextGrows(f: Format, part: seq<seq<Cell>>, row: seq<Cell>)
    ensures FileText(f, part + [row]) == FileText(f, part) + RowText(row, f.d, f.replacement) + [LF]
  {
    assert [Headers(f.names)] + (part + [row]) == ([Headers(f.names)] + part) + [row];
    DocumentSnoc([Headers(f.names)] + part, row, f.d, f.replacement);
  }

  lemma {:induction false} RenderAddRow(f: Format, parts: seq<seq<seq<Cell>>>, row: seq<Cell>, bytes: nat, isOpen: bool)
    requires parts != []
    ensures var files := Render(f, Layout(parts, bytes, isOpen)).files;
            var last := |parts| - 1;
            Render(f, Layout(AddRow(parts, row), bytes, isOpen)).files
            == files[last := files[last] + RowText(row, f.d, f.replacement) + [LF]]
  {
    FileTextGrows(f, parts[|parts| - 1], row);
  }

  lemma {:induction false} RenderNewPart(f: Format, parts: seq<seq<seq<Cell>>>, bytes: nat, isOpen: bool)
    ensures Render(f, Layout(parts + [[]], bytes, isOpen)).files
         == Render(f, Layout(parts, bytes, isOpen)).files + [NewFile(f)]
  {
    NewFileText(f);
  }

  lemma {:induction false} RenderedStep(env: Env, f: Format, l: Layout, row: seq<Cell>)
    requires l.parts != []
    ensures PutLine(env, f, Render(f, l), RowText(row, f.d, f.replacement)) == Render(f, PlaceRow(env, f, l, row))
  {
    var parts := AddRow(l.parts, row);
    var next := PlaceRow(env, f, l, row);
    RenderAddRow(f, l.parts, row, l.bytesWritten, l.isOpen);
    RenderNewPart(f, parts, next.bytesWritten, next.isOpen);
  }

  lemma {:induction false} RenderedRows(env: Env, f: Format, l: Layout, rows: seq<seq<Cell>>)
    requires l.parts != []
    ensures PutLines(env, f, Render(f, l), LinesOf(f, rows)) == Render(f, PlaceRows(env, f, l, rows))
    decreases |rows|
  {
    if rows != [] && l.isOpen {
      RenderedStep(env, f, l, rows[0]);
      RenderedRows(env, f, PlaceRow(env, f, l, rows[0]), rows[1..]);
      assert LinesOf(f, rows)[1..] == LinesOf(f, rows[1..]);
    }
  }

  /** What is written: every file of an export is the mark and the document of its rows
      under the header, and nothing else. */
  lemma {:induction false} FilesAreDocuments(env: Env, f: Format, rows: seq<seq<Cell>>)
    ensures var o := Exported(env, f, rows);
            var l := Arranged(env, f, rows);
            && |o.files| == |l.parts| && o.bytesWritten == l.bytesWritten && o.isOpen == l.isOpen
            && forall i :: 0 <= i < |o.files| ==> o.files[i] == FileText(f, l.parts[i])
  {
    NewFileText(f);
    assert Begin(env, f).files == Render(f, Empty(env)).files;
    RenderedRows(env, f, Empty(env), rows);
  }

  // ---- No row is lost ----------------------------------------------------------------

  lemma {:induction false} FlattenAddRow(parts: seq<seq<seq<Cell>>>, row: seq<Cell>)
    requires parts != []
    ensures Flatten(AddRow(parts, row)) == Flatten(parts) + [row]
    ensures Flatten(AddRow(parts, row) + [[]]) == Flatten(parts) + [row]
  {
    var init, last := parts[..|parts| - 1], parts[|parts| - 1];
    assert parts == init + [last] && AddRow(parts, row) == init + [last + [row]];
    FlattenAppend(init, [last]);
    FlattenAppend(init, [last + [row]]);
    FlattenAppend(AddRow(parts, row), [[]]);
    FlattenOne(last);
    FlattenOne(last + [row]);
    FlattenOne<seq<Cell>>([]);
  }

  /** What one row adds to the rows placed so far. */
  lemma {:induction false} PlacedRow(env: Env, f: Format, l: Layout, row: seq<Cell>)
    requires l.parts != []
    ensures var r := PlaceRow(env, f, l, row);
            && Flatten(r.parts) == Flatten(l.parts) + [row]
            && (!r.isOpen ==> env.isFile && !env.opens(|r.parts|) && r.bytesWritten > 10485760)
  {
    FlattenAddRow(l.parts, row);
  }

  lemma {:induction false} PlacedRows(env: Env, f: Format, l: Layout, rows: seq<seq<Cell>>)
    requires l.parts != [] && l.isOpen
    ensures var r := PlaceRows(env, f, l, rows);
            && Flatten(l.parts) <= Flatten(r.parts) <= Flatten(l.parts) + rows
            && (r.isOpen ==> Flatten(r.parts) == Flatten(l.parts) + rows)
            && (!r.isOpen ==> env.isFile && !env.opens(|r.parts|) && r.bytesWritten > 10485760)
    decreases |rows|
  {
    if rows == [] {
      assert Flatten(l.parts) + rows == Flatten(l.parts);
    } else {
      var l1 := PlaceRow(env, f, l, rows[0]);
      PlacedRow(env, f, l, rows[0]);
      assert Flatten(l.parts) + rows == Flatten(l1.parts) + rows[1..];
      if l1.isOpen {
        PlacedRows(env, f, l1, rows[1..]);
      }
    }
  }

  /** The parts in order hold the rows in order: all of them, or, if a file could not be
      opened, all up to the split at which that happened. */
  lemma {:induction false} RowsConserved(env: Env, f: Format, rows: seq<seq<Cell>>)
    ensures var r := Arranged(env, f, rows);
            && Flatten(r.parts) <= rows
            && (r.isOpen ==> Flatten(r.parts) == rows)
            && (!r.isOpen ==> env.isFile && !env.opens(|r.parts|) && r.bytesWritten > 10485760)
  {
    PlacedRows(env, f, Empty(env), rows);
    FlattenOne<seq<Cell>>([]);
    assert [] + rows == rows;
  }

  // ---- File sizes --------------------------------------------------------------------

  function RowBytes(f: Format, rows: seq<seq<Cell>>): nat {
    if rows == [] then 0
    else RowBytes(f, rows[..|rows| - 1]) + LineBytes(f, rows[|rows| - 1])
  }

  function HeaderBytes(f: Format): nat {
    Utf8Size(HeaderLine(f))
  }

  lemma {:induction false} Utf8SizeOfRow(f: Format, text: string, row: seq<Cell>)
    ensures Utf8Size(text + RowText(row, f.d, f.replacement) + [LF]) == Utf8Size(text) + LineBytes(f, row)
  {
    var line := RowText(row, f.d, f.replacement);
    assert text + line + [LF] == text + (line + [LF]);
    ToUtf8Append(text, line + [LF]);
    Utf8SizeOfLine(line);
  }

  /** The mark on disk is the three bytes that the exporter writes. */
  lemma {:induction false} MarkBytes()
    ensures ToUtf8(BOM) == [0xEF, 0xBB, 0xBF]
  {
    assert BOM[1..] == "";
  }

  lemma {:induction false} NewFileBytes(f: Format)
    ensures Utf8Size(NewFile(f)) == 3 + HeaderBytes(f)
  {
    ToUtf8Append(BOM, HeaderLine(f));
    MarkBytes();
  }

  /** The size of a file on disk: mark, header, and rows. */
  lemma {:induction false} FileBytes(f: Format, part: seq<seq<Cell>>)
    ensures Utf8Size(FileText(f, part)) == 3 + HeaderBytes(f) + RowBytes(f, part)
  {
    if part == [] {
      NewFileText(f);
      NewFileBytes(f);
    } else {
      var init, last := part[..|part| - 1], part[|part| - 1];
      assert part == init + [last];
      FileBytes(f, init);
      FileTextGrows(f, init, last);
      Utf8SizeOfRow(f, FileText(f, init), last);
    }
  }

  lemma {:induction false} OnePartKept(env: Env, f: Format, l: Layout, rows: seq<seq<Cell>>)
    requires !env.isFile && |l.parts| == 1 && l.isOpen
    ensures |PlaceRows(env, f, l, rows).parts| == 1 && PlaceRows(env, f, l, rows).isOpen
    decreases |rows|
  {
    if rows != [] {
      OnePartKept(env, f, PlaceRow(env, f, l, rows[0]), rows[1..]);
    }
  }

  /** A device that is no file is never split: all rows are in the one text. */
  lemma {:induction false} OnlyFilesAreSplit(env: Env, f: Format, rows: seq<seq<Cell>>)
    requires !env.isFile
    ensures Exported(env, f, rows).files == [FileText(f, rows)]
  {
    FilesAreDocuments(env, f, rows);
    OnePartKept(env, f, Empty(env), rows);
    RowsConserved(env, f, rows);
    FlattenOne(Arranged(env, f, rows).parts[0]);
    assert Arranged(env, f, rows).parts == [Arranged(env, f, rows).parts[0]];
  }

  /** The position reported after a header counts the mark and some of the header. */
  ghost predicate PlausiblePositions(env: Env, f: Format) {
    forall i: nat :: 3 <= env.position(i) <= 3 + HeaderBytes(f)
  }

  /** A part that was closed: its last row, and only that one, took it past the limit. */
  ghost predicate ClosedPart(f: Format, part: seq<seq<Cell>>) {
    && part != []
    && RowBytes(f, part) + 3 + HeaderBytes(f) > 10485760
    && 3 + RowBytes(f, part[..|part| - 1]) <= 10485760
  }

  ghost predicate AllClosed(f: Format, parts: seq<seq<seq<Cell>>>) {
    forall i :: 0 <= i < |parts| ==> ClosedPart(f, parts[i])
  }

  /** The part being written: its size, and whether it had to be closed. */
  ghost predicate LastPart(f: Format, position: nat, part: seq<seq<Cell>>, bytesWritten: nat, isOpen: bool) {
    && bytesWritten == position + RowBytes(f, part)
    && (if isOpen then bytesWritten <= 10485760 || part == [] else ClosedPart(f, part))
  }

  ghost predicate PartSizes(env: Env, f: Format, l: Layout) {
    && l.parts != []
    && var last := |l.parts| - 1;
    && AllClosed(f, l.parts[..last])
    && LastPart(f, env.position(last), l.parts[last], l.bytesWritten, l.isOpen)
  }

  lemma {:induction false} LastPartKept(f: Format, position: nat, part: seq<seq<Cell>>, row: seq<Cell>, bytes: nat)
    requires 3 <= position <= 3 + HeaderBytes(f)
    requires LastPart(f, position, part, bytes, true)
    ensures var grown := bytes + LineBytes(f, row);
            LastPart(f, position, part + [row], grown, grown <= 10485760)
  {
    assert (part + [row])[..|part|] == part;
  }

  lemma {:induction false} AllClosedSnoc(f: Format, init: seq<seq<seq<Cell>>>, last: seq<seq<Cell>>)
    requires AllClosed(f, init) && ClosedPart(f, last)
    ensures AllClosed(f, init + [last])
  {
    forall i | 0 <= i < |init + [last]| ensures ClosedPart(f, (init + [last])[i]) {
      if i < |init| {
        assert (init + [last])[i] == init[i];
      } else {
        assert (init + [last])[i] == last;
      }
    }
  }

  lemma {:induction false} AddedRow(parts: seq<seq<seq<Cell>>>, row: seq<Cell>)
    requires parts != []
    ensures var last, more := |parts| - 1, AddRow(parts, row);
            more[last] == parts[last] + [row] && more[..last] == parts[..last] && more == more[..last] + [more[last]]
  {
  }

  lemma {:induction false} NextPartOpened(env: Env, f: Format, parts: seq<seq<seq<Cell>>>)
    requires AllClosed(f, parts)
    ensures PartSizes(env, f, Layout(parts + [[]], env.position(|parts|), true))
  {
    assert (parts + [[]])[..|parts|] == parts;
  }

  lemma {:induction false} PartSizesKept(env: Env, f: Format, l: Layout, row: seq<Cell>)
    requires env.isFile && PlausiblePositions(env, f)
    requires PartSizes(env, f, l) && l.isOpen
    ensures PartSizes(env, f, PlaceRow(env, f, l, row))
  {
    var last, more := |l.parts| - 1, AddRow(l.parts, row);
    AddedRow(l.parts, row);
    LastPartKept(f, env.position(last), l.parts[last], row, l.bytesWritten);
    if l.bytesWritten + LineBytes(f, row) > 10485760 {
      AllClosedSnoc(f, more[..last], more[last]);
      NextPartOpened(env, f, more);
    }
  }

  lemma {:induction false} PartSizesOverRows(env: Env, f: Format, l: Layout, rows: seq<seq<Cell>>)
    requires env.isFile && PlausiblePositions(env, f) && PartSizes(env, f, l)
    ensures PartSizes(env, f, PlaceRows(env, f, l, rows))
    decreases |rows|
  {
    if rows != [] && l.isOpen {
      PartSizesKept(env, f, l, rows[0]);
      PartSizesOverRows(env, f, PlaceRow(env, f, l, rows[0]), rows[1..]);
    }
  }

  /** Every closed part was taken past the limit by its last row and by no earlier one. */
  lemma {:induction false} PartSizesOverExport(env: Env, f: Format, rows: seq<seq<Cell>>)
    requires env.isFile && PlausiblePositions(env, f)
    ensures PartSizes(env, f, Arranged(env, f, rows))
  {
    PartSizesOverRows(env, f, Empty(env), rows);
  }

  /** No file is larger than the limit plus its header and its last row. */
  lemma {:induction false} FilesAreSmall(env: Env, f: Format, rows: seq<seq<Cell>>, i: nat)
    requires env.isFile && PlausiblePositions(env, f)
    requires i < |Exported(env, f, rows).files|
    ensures i < |Arranged(env, f, rows).parts|
    ensures var part := Arranged(env, f, rows).parts[i];
            Utf8Size(Exported(env, f, rows).files[i])
              <= 10485760 + Utf8Size(HeaderLine(f)) + if part == [] then 0 else LineBytes(f, part[|part| - 1])
  {
    PartSizesOverExport(env, f, rows);
    FilesAreDocuments(env, f, rows);
    FileBytes(f, Arranged(env, f, rows).parts[i]);
  }

  lemma {:induction false} RowBytesAppend(f: Format, a: seq<seq<Cell>>, b: seq<seq<Cell>>)
    ensures RowBytes(f, a + b) == RowBytes(f, a) + RowBytes(f, b)
  {
    if b == [] {
      assert a + b == a;
    } else {
      assert (a + b)[..|a + b| - 1] == a + b[..|b| - 1];
      RowBytesAppend(f, a, b[..|b| - 1]);
    }
  }

  /** What the rows of a closed part weigh at least. */
  function ClosedWeight(f: Format): int {
    10485760 - 3 - HeaderBytes(f) + 1
  }

  lemma {:induction false} RowBytesOfLastPart(f: Format, init: seq<seq<seq<Cell>>>, last: seq<seq<Cell>>)
    ensures RowBytes(f, Flatten(init + [last])) == RowBytes(f, Flatten(init)) + RowBytes(f, last)
  {
    FlattenAppend(init, [last]);
    FlattenOne(last);
    RowBytesAppend(f, Flatten(init), last);
  }

  lemma {:induction false} OneMoreWeighs(n: nat, w: int, before: int, last: int)
    requires n > 0 && (n - 1) * w <= before && w <= last
    ensures n * w <= before + last
  {
    assert n * w == (n - 1) * w + w;
  }

  lemma {:induction false} ClosedPartsWeigh(f: Format, parts: seq<seq<seq<Cell>>>)
    requires AllClosed(f, parts)
    ensures |parts| * ClosedWeight(f) <= RowBytes(f, Flatten(parts))
  {
    if parts != [] {
      var init, last := parts[..|parts| - 1], parts[|parts| - 1];
      ClosedPartsWeigh(f, init);
      assert ClosedPart(f, last);
      RowBytesOfLastPart(f, init, last);
      OneMoreWeighs(|parts|, ClosedWeight(f), RowBytes(f, Flatten(init)), RowBytes(f, last));
      assert parts == init + [last];
    }
  }

  lemma {:induction false} PrefixWeighsLess(f: Format, a: seq<seq<Cell>>, b: seq<seq<Cell>>)
    requires a <= b
    ensures RowBytes(f, a) <= RowBytes(f, b)
  {
    assert b == a + b[|a|..];
    RowBytesAppend(f, a, b[|a|..]);
  }

  lemma {:induction false} ClosedPrefixWeighs(f: Format, parts: seq<seq<seq<Cell>>>, n: nat, rows: seq<seq<Cell>>)
    requires n <= |parts| && AllClosed(f, parts[..n]) && Flatten(parts) <= rows
    ensures n * ClosedWeight(f) <= RowBytes(f, rows)
  {
    ClosedPartsWeigh(f, parts[..n]);
    FlattenPrefix(parts, n);
    PrefixWeighsLess(f, Flatten(parts[..n]), rows);
  }

  /** How many parts of a layout are closed. */
  function ClosedCount(l: Layout): nat
    requires l.parts != []
  {
    if l.isOpen then |l.parts| - 1 else |l.parts|
  }

  lemma {:induction false} ClosedPartsAreClosed(env: Env, f: Format, l: Layout)
    requires PartSizes(env, f, l)
    ensures AllClosed(f, l.parts[..ClosedCount(l)])
  {
    if !l.isOpen {
      var last := |l.parts| - 1;
      AllClosedSnoc(f, l.parts[..last], l.parts[last]);
      assert l.parts[..|l.parts|] == l.parts[..last] + [l.parts[last]];
    }
  }

  lemma {:induction false} ClosedPartsOf(env: Env, f: Format, rows: seq<seq<Cell>>)
    requires env.isFile && PlausiblePositions(env, f)
    ensures ClosedCount(Arranged(env, f, rows)) * ClosedWeight(f) <= RowBytes(f, rows)
  {
    var l := Arranged(env, f, rows);
    PartSizesOverExport(env, f, rows);
    RowsConserved(env, f, rows);
    ClosedPartsAreClosed(env, f, l);
    ClosedPrefixWeighs(f, l.parts, ClosedCount(l), rows);
  }

  /** The files of an export that were closed. */
  function ClosedFiles(o: Output): int {
    if o.isOpen then |o.files| - 1 else |o.files|
  }

  lemma {:induction false} ClosedFilesAreParts(env: Env, f: Format, rows: seq<seq<Cell>>)
    ensures ClosedFiles(Exported(env, f, rows)) == ClosedCount(Arranged(env, f, rows))
  {
    FilesAreDocuments(env, f, rows);
  }

  /** Every closed file takes more than the limit without mark and header from the rows, so
      the number of files is bounded by the size of the export. */
  lemma {:induction false} FileCountBounded(env: Env, f: Format, rows: seq<seq<Cell>>)
    requires env.isFile && PlausiblePositions(env, f)
    ensures ClosedFiles(Exported(env, f, rows)) * ClosedWeight(f) <= RowBytes(f, rows)
  {
    ClosedFilesAreParts(env, f, rows);
    ClosedPartsOf(env, f, rows);
  }

  // ---- What a reader finds in the files ------------------------------------------------

  /** The bytes of the files. */
  function OnDisk(files: seq<string>): seq<Bytes> {
    seq(|files|, i requires 0 <= i < |files| => ToUtf8(files[i]))
  }

  /** The records of a file, which must start with the mark. */
  function ReadFile(bytes: Bytes, d: char): Option<seq<seq<string>>> {
    if !([0xEF, 0xBB, 0xBF] <= bytes) then None
    else
      match FromUtf8(bytes[3..])
      case None => None
      case Some(text) => Parse(text, d)
  }

  /** The records of all files behind their first ones. */
  function ReadBodies(files: seq<Bytes>, d: char): seq<seq<string>> {
    if files == [] then []
    else
      (match ReadFile(files[0], d)
       case Some(records) => if records == [] then [] else records[1..]
       case None => [])
      + ReadBodies(files[1..], d)
  }

  // ---- Columns by name ---------------------------------------------------------------

  /** A record with its fields under the names in the header. */
  function Named(header: seq<string>, record: seq<string>): map<string, string> {
    if header == [] || record == [] then map[]
    else Named(header[1..], record[1..])[header[0] := record[0]]
  }

  function NamedAll(header: seq<string>, records: seq<seq<string>>): seq<map<string, string>> {
    seq(|records|, i requires 0 <= i < |records| => Named(header, records[i]))
  }

  /** The records of all files, each under the header of its own file. */
  function ReadNamed(files: seq<Bytes>, d: char): seq<map<string, string>> {
    if files == [] then []
    else
      (match ReadFile(files[0], d)
       case Some(records) => if records == [] then [] else NamedAll(records[0], records[1..])
       case None => [])
      + ReadNamed(files[1..], d)
  }

  ghost predicate StartsWith(files: seq<Bytes>, d: char, header: seq<string>) {
    forall i :: 0 <= i < |files| ==>
      var records := ReadFile(files[i], d);
      records.Some? && records.value != [] && records.value[0] == header
  }

  lemma {:induction false} NamedFromBodies(files: seq<Bytes>, d: char, header: seq<string>)
    requires StartsWith(files, d, header)
    ensures ReadNamed(files, d) == NamedAll(header, ReadBodies(files, d))
  {
    if files != [] {
      assert ReadFile(files[0], d).Some?;
      NamedFromBodies(files[1..], d, header);
    }
  }

  ghost predicate DistinctNames(header: seq<string>) {
    forall i, j :: 0 <= i < j < |header| ==> header[i] != header[j]
  }

  lemma {:induction false} NamedKeys(header: seq<string>, record: seq<string>)
    requires |record| == |header|
    ensures forall name :: name in Named(header, record) <==> name in header
  {
    if header != [] {
      NamedKeys(header[1..], record[1..]);
      assert header == [header[0]] + header[1..];
    }
  }

  lemma {:induction false} NamedAt(header: seq<string>, record: seq<string>, i: nat)
    requires DistinctNames(header) && |record| == |header| && i < |header|
    ensures header[i] in Named(header, record) && Named(header, record)[header[i]] == record[i]
  {
    if i > 0 {
      NamedAt(header[1..], record[1..], i - 1);
    }
  }

  /** Under distinct names, no two records look alike. */
  lemma {:induction false} NamedInjective(header: seq<string>, a: seq<seq<string>>, b: seq<seq<string>>)
    requires DistinctNames(header)
    requires forall i :: 0 <= i < |a| ==> |a[i]| == |header|
    requires forall i :: 0 <= i < |b| ==> |b[i]| == |header|
    ensures NamedAll(header, a) == NamedAll(header, b) <==> a == b
  {
    if NamedAll(header, a) == NamedAll(header, b) {
      assert |NamedAll(header, a)| == |a| && |NamedAll(header, b)| == |b|;
      forall i | 0 <= i < |a| ensures a[i] == b[i] {
        assert NamedAll(header, a)[i] == Named(header, a[i]) && NamedAll(header, b)[i] == Named(header, b[i]);
        forall j | 0 <= j < |header| ensures a[i][j] == b[i][j] {
          NamedAt(header, a[i], j);
          NamedAt(header, b[i], j);
        }
      }
    }
  }

  // ---- Reading back ------------------------------------------------------------------

  ghost predicate HeaderPrints(f: Format) {
    f.names != [] && forall i :: 0 <= i < |f.names| ==> IsPlain(f.names[i], f.d)
  }

  /** The format and the rows can be told apart by a reader. */
  ghost predicate Readable(f: Format, rows: seq<seq<Cell>>) {
    && f.replacement in {AS_WRITTEN, DOUBLED} && IsDelimiter(f.d)
    && HeaderPrints(f) && PrintableRows(rows, f.d)
  }

  /** What follows the mark on disk decodes to what follows it in the text. */
  lemma {:induction false} ReadsWhatWasWritten(text: string, d: char)
    ensures ReadFile(ToUtf8(BOM + text), d) == Parse(text, d)
  {
    ToUtf8Append(BOM, text);
    MarkBytes();
    assert ToUtf8(BOM + text)[3..] == ToUtf8(text);
    DecodesBack(text);
  }

  lemma {:induction false} FileReadsBack(f: Format, part: seq<seq<Cell>>)
    requires Readable(f, part)
    ensures ReadFile(ToUtf8(FileText(f, part)), f.d) == Some([f.names] + RowValues(part, f.replacement))
  {
    var rows := [Headers(f.names)] + part;
    assert forall i :: 0 <= i < |f.names| ==> Headers(f.names)[i] == Raw(f.names[i]);
    assert PrintableRows(rows, f.d);
    DocumentRoundTrip(rows, f.d, f.replacement);
    ReadsWhatWasWritten(Document(rows, f.d, f.replacement), f.d);
    assert Values(Headers(f.names), f.replacement) == f.names;
    assert RowValues(rows, f.replacement) == [f.names] + RowValues(part, f.replacement);
  }

  lemma {:induction false} PrintableSplit(a: seq<seq<Cell>>, b: seq<seq<Cell>>, d: char)
    requires PrintableRows(a + b, d)
    ensures PrintableRows(a, d) && PrintableRows(b, d)
  {
    assert forall i :: 0 <= i < |a| ==> (a + b)[i] == a[i];
    assert forall i :: 0 <= i < |b| ==> (a + b)[|a| + i] == b[i];
  }

  lemma {:induction false} RowValuesAppend(a: seq<seq<Cell>>, b: seq<seq<Cell>>, replacement: string)
    ensures RowValues(a + b, replacement) == RowValues(a, replacement) + RowValues(b, replacement)
  {
  }

  lemma {:induction false} BodiesReadBack(f: Format, parts: seq<seq<seq<Cell>>>)
    requires Readable(f, Flatten(parts))
    ensures ReadBodies(OnDisk(Texts(f, parts)), f.d) == RowValues(Flatten(parts), f.replacement)
  {
    if parts != [] {
      PrintableSplit(parts[0], Flatten(parts[1..]), f.d);
      FileReadsBack(f, parts[0]);
      BodiesReadBack(f, parts[1..]);
      assert OnDisk(Texts(f, parts))[1..] == OnDisk(Texts(f, parts[1..]));
      assert OnDisk(Texts(f, parts))[0] == ToUtf8(FileText(f, parts[0]));
      RowValuesAppend(parts[0], Flatten(parts[1..]), f.replacement);
    }
  }

  lemma {:induction false} PartIsReadable(f: Format, parts: seq<seq<seq<Cell>>>, i: nat)
    requires Readable(f, Flatten(parts)) && i < |parts|
    ensures Readable(f, parts[i])
  {
    PrintableSplit(parts[0], Flatten(parts[1..]), f.d);
    if i > 0 {
      PartIsReadable(f, parts[1..], i - 1);
    }
  }

  lemma {:induction false} ReadablePrefix(f: Format, a: seq<seq<Cell>>, b: seq<seq<Cell>>)
    requires a <= b && Readable(f, b)
    ensures Readable(f, a)
    ensures RowValues(a, f.replacement) <= RowValues(b, f.replacement)
  {
    assert b == a + b[|a|..];
    PrintableSplit(a, b[|a|..], f.d);
    RowValuesAppend(a, b[|a|..], f.replacement);
  }

  /** Every file of an export starts with the mark and the header line, for every format. */
  lemma {:induction false} FilesStartWithHeader(env: Env, f: Format, rows: seq<seq<Cell>>, i: nat)
    requires i < |Exported(env, f, rows).files|
    ensures BOM + HeaderLine(f) <= Exported(env, f, rows).files[i]
  {
    FilesAreDocuments(env, f, rows);
    FileTextStarts(f, Arranged(env, f, rows).parts[i]);
  }

  lemma {:induction false} FileTextStarts(f: Format, part: seq<seq<Cell>>)
    ensures NewFile(f) <= FileText(f, part)
  {
    if part == [] {
      NewFileText(f);
    } else {
      FileTextStarts(f, part[..|part| - 1]);
      FileTextGrows(f, part[..|part| - 1], part[|part| - 1]);
      assert part == part[..|part| - 1] + [part[|part| - 1]];
    }
  }

  /** Splitting and printing together, from rows to bytes and back: every file that is written
      reads back with the header as its first record, and the records behind the headers are
      the rows in order, however they were split; all of them if every file could be opened,
      and a prefix otherwise. */
  lemma {:induction false} SplitExportReadsBack(env: Env, f: Format, rows: seq<seq<Cell>>)
    requires Readable(f, rows)
    ensures var o := Exported(env, f, rows);
            var disk := OnDisk(o.files);
            && StartsWith(disk, f.d, f.names)
            && ReadBodies(disk, f.d) <= RowValues(rows, f.replacement)
            && (o.isOpen ==> ReadBodies(disk, f.d) == RowValues(rows, f.replacement))
  {
    var o, l := Exported(env, f, rows), Arranged(env, f, rows);
    FilesAreDocuments(env, f, rows);
    RowsConserved(env, f, rows);
    ReadablePrefix(f, Flatten(l.parts), rows);
    assert o.files == Texts(f, l.parts);
    BodiesReadBack(f, l.parts);
    forall i | 0 <= i < |o.files|
      ensures ReadFile(OnDisk(o.files)[i], f.d) == Some([f.names] + RowValues(l.parts[i], f.replacement))
    {
      PartIsReadable(f, l.parts, i);
      FileReadsBack(f, l.parts[i]);
    }
  }
}
