/** The two exporters of daemon/src/exporters/export_csv.cpp: which lines they write, how
    they switch to the next file, and what a reader finds in the files afterwards. */
module CsvExport {
  import opened Wrappers
  import opened CsvFormat
  import opened CsvParts
  import opened Utf8

  const NOTE_HEADERS: seq<string> :=
    ["timestamp", "window_title", "app_name", "summary", "enriched_summary", "duration_ms"]
  const PROMPT_HEADERS: seq<string> :=
    ["question", "answer", "timestamp", "context", "confidence"]

  /** A note as the store returns it; the time stamp and the confidence are already text. */
  datatype Note = Note(
    timestamp: string,
    windowTitle: string,
    appName: string,
    summary: string,
    enrichedSummary: string,
    durationMs: int,
    confidence: string
  )

  // ---- Decimal numbers -------------------------------------------------------------

  const DIGITS: string := "0123456789"

  function Digits(n: nat): (s: string)
    ensures s != ""
    ensures forall c :: c in s ==> c in DIGITS
  {
    if n < 10 then [DIGITS[n]] else Digits(n / 10) + [DIGITS[n % 10]]
  }

  /** `QString::number` of an integer. */
  function Decimal(n: int): string {
    if n < 0 then ['-'] + Digits(-n) else Digits(n)
  }

  /** The number that a text denotes in base ten, if it denotes one. */
  function DigitsRead(s: string): Option<nat> {
    if s == "" then Some(0)
    else
      var c := s[|s| - 1];
      match DigitsRead(s[..|s| - 1])
      case None => None
      case Some(n) => if '0' <= c <= '9' then Some(10 * n + (c as nat - '0' as nat)) else None
  }

  function NumberRead(s: string): Option<int> {
    if s == "" || s == "-" then None
    else if s[0] == '-' then
      (match DigitsRead(s[1..])
       case None => None
       case Some(n) => Some(0 - n as int))
    else
      match DigitsRead(s)
      case None => None
      case Some(n) => Some(n as int)
  }

  lemma {:induction false} DigitIs(n: nat)
    requires n < 10
    ensures '0' <= DIGITS[n] <= '9' && DIGITS[n] as nat - '0' as nat == n
  {
  }

  lemma {:induction false} DigitsReadBack(n: nat)
    ensures DigitsRead(Digits(n)) == Some(n)
    ensures Digits(n)[0] == '0' ==> n == 0
    ensures Digits(n)[0] != '-'
  {
    DigitIs(n % 10);
    if n < 10 {
      assert [DIGITS[n]][..0] == "";
    } else {
      DigitsReadBack(n / 10);
      assert Digits(n)[..|Digits(n)| - 1] == Digits(n / 10);
    }
  }

  /** A text denotes this number, without a leading zero. */
  ghost predicate Denotes(s: string, n: int) {
    && NumberRead(s) == Some(n)
    && (n > 0 ==> s != "" && s[0] != '0')
    && (n < 0 ==> |s| > 1 && s[0] == '-' && s[1] != '0')
  }

  lemma {:induction false} PositiveDenotes(n: nat)
    ensures Denotes(Digits(n), n)
  {
    DigitsReadBack(n);
    assert Digits(n) != "-";
  }

  lemma {:induction false} NegativeDenotes(n: nat)
    requires n > 0
    ensures Denotes(['-'] + Digits(n), 0 - n)
  {
    DigitsReadBack(n);
    assert (['-'] + Digits(n))[1..] == Digits(n);
  }

  /** `QString::number` prints what denotes the number. */
  lemma {:induction false} DecimalDenotes(n: int)
    ensures Denotes(Decimal(n), n)
  {
    if n < 0 {
      NegativeDenotes(-n);
    } else {
      PositiveDenotes(n);
    }
  }

  lemma {:induction false} DecimalInjective(m: int, n: int)
    ensures Decimal(m) == Decimal(n) <==> m == n
  {
    DecimalDenotes(m);
    DecimalDenotes(n);
  }

  // ---- Rows ------------------------------------------------------------------------

  function NoteCells(n: Note): seq<Cell> {
    [Escaped(n.timestamp), Escaped(n.windowTitle), Escaped(n.appName),
     Escaped(n.summary), Escaped(n.enrichedSummary), Raw(Decimal(n.durationMs))]
  }

  function PromptCells(n: Note, question: string, answer: string): seq<Cell> {
    [Escaped(question), Escaped(answer), Escaped(n.timestamp), Escaped(n.windowTitle), Escaped(n.confidence)]
  }

  const APPLICATION_QUESTION: string := "What application was active?"
  const ACTIVITY_QUESTION: string := "Describe the activity"

  function TimeQuestion(timestamp: string): string {
    "What was I doing at " + timestamp + "?"
  }

  /** The three rows of structured prompts about one note. */
  function PromptRows(n: Note): seq<seq<Cell>> {
    [PromptCells(n, TimeQuestion(n.timestamp), n.summary),
     PromptCells(n, APPLICATION_QUESTION, n.appName),
     PromptCells(n, ACTIVITY_QUESTION, n.enrichedSummary)]
  }

  function NoteRows(notes: seq<Note>): seq<seq<Cell>> {
    seq(|notes|, i requires 0 <= i < |notes| => NoteCells(notes[i]))
  }

  function AllPromptRows(notes: seq<Note>): seq<seq<Cell>> {
    if notes == [] then [] else PromptRows(notes[0]) + AllPromptRows(notes[1..])
  }

  // ---- Part names --------------------------------------------------------------------

  /** The file of part `i`: the given file for the first one, a numbered one after it. */
  function PartName(base: string, suffix: string, i: nat): string
    requires i > 0
  {
    base + "_part" + Decimal(i) + "." + if suffix == "" then "csv" else suffix
  }

  lemma {:induction false} SamePrefix(a: string, x: string, y: string, z: string)
    requires a + x + z == a + y + z
    ensures x == y
  {
    assert |x| == |y|;
    assert forall i :: 0 <= i < |x| ==> (a + x + z)[|a| + i] == x[i] && (a + y + z)[|a| + i] == y[i];
  }

  /** No part is written over another one, although files are opened with truncation. */
  lemma PartNamesDistinct(base: string, suffix: string, i: nat, j: nat)
    requires i > 0 && j > 0
    ensures PartName(base, suffix, i) == PartName(base, suffix, j) <==> i == j
  {
    if PartName(base, suffix, i) == PartName(base, suffix, j) {
      var rest := "." + if suffix == "" then "csv" else suffix;
      assert PartName(base, suffix, i) == (base + "_part") + Decimal(i) + rest;
      assert PartName(base, suffix, j) == (base + "_part") + Decimal(j) + rest;
      SamePrefix(base + "_part", Decimal(i), Decimal(j), rest);
      DecimalInjective(i, j);
    }
  }

  /** Nor over the first file, which has the same base name and at most a suffix after it. */
  lemma PartNameIsNew(base: string, suffix: string, i: nat, ending: string)
    requires i > 0 && (ending == "" || ending[0] == '.')
    ensures PartName(base, suffix, i) != base + ending
  {
    assert PartName(base, suffix, i)[|base|] == '_';
    if ending != "" {
      assert (base + ending)[|base|] == '.';
    }
  }

  /** What these names look like. */
  lemma {:induction false} PartNameExamples(base: string)
    ensures PartName(base, "", 1) == base + "_part1.csv"
    ensures PartName(base, "tsv", 12) == base + "_part12.tsv"
  {
    assert Decimal(1) == "1" && Decimal(12) == "1" + "2";
    assert base + "_part" + "1" + "." + "csv" == base + "_part1.csv";
    assert base + "_part" + "12" + "." + "tsv" == base + "_part12.tsv";
  }

  /** The name of each file of an export: the given one, whose ending is empty or starts with a
      dot, and then the numbered ones. */
  function FileName(base: string, ending: string, suffix: string, i: nat): string {
    if i == 0 then base + ending else PartName(base, suffix, i)
  }

  /** The directory after the first `n` files were opened with truncation and written. */
  function Directory(name: nat -> string, files: seq<string>, n: nat): map<string, string>
    requires n <= |files|
  {
    if n == 0 then map[] else Directory(name, files, n - 1)[name(n - 1) := files[n - 1]]
  }

  lemma {:induction false} FileNamesDistinct(base: string, ending: string, suffix: string, i: nat, j: nat)
    requires ending == "" || ending[0] == '.'
    ensures FileName(base, ending, suffix, i) == FileName(base, ending, suffix, j) <==> i == j
  {
    if i > 0 && j > 0 {
      PartNamesDistinct(base, suffix, i, j);
    } else if i > 0 {
      PartNameIsNew(base, suffix, i, ending);
    } else if j > 0 {
      PartNameIsNew(base, suffix, j, ending);
    }
  }

  lemma {:induction false} DistinctFilesStay(name: nat -> string, files: seq<string>, n: nat, i: nat)
    requires forall j: nat, k: nat :: name(j) == name(k) ==> j == k
    requires i < n <= |files|
    ensures var directory := Directory(name, files, n);
            name(i) in directory && directory[name(i)] == files[i]
  {
    if i < n - 1 {
      DistinctFilesStay(name, files, n - 1, i);
    }
  }

  /** Although every file is opened with truncation, all of them are there at the end, whole. */
  lemma {:induction false} NoFileOverwritten(base: string, ending: string, suffix: string, files: seq<string>, i: nat)
    requires (ending == "" || ending[0] == '.') && i < |files|
    ensures var name := (k: nat) => FileName(base, ending, suffix, k);
            var directory := Directory(name, files, |files|);
            name(i) in directory && directory[name(i)] == files[i]
  {
    var name := (k: nat) => FileName(base, ending, suffix, k);
    forall j: nat, k: nat | name(j) == name(k) ensures j == k {
      FileNamesDistinct(base, ending, suffix, j, k);
    }
    DistinctFilesStay(name, files, |files|, i);
  }

  // ---- What a reader finds in the files of notes ---------------------------------------

  function NoteFormat(d: char, replacement: string): Format {
    Format(NOTE_HEADERS, d, replacement)
  }

  function PromptFormat(d: char, replacement: string): Format {
    Format(PROMPT_HEADERS, d, replacement)
  }

  predicate SuitsNotes(d: char) {
    IsDelimiter(d) && d !in DIGITS && d != '-'
    && forall i :: 0 <= i < |NOTE_HEADERS| ==> d !in NOTE_HEADERS[i]
  }

  predicate SuitsPrompts(d: char) {
    IsDelimiter(d) && forall i :: 0 <= i < |PROMPT_HEADERS| ==> d !in PROMPT_HEADERS[i]
  }

  lemma {:induction false} NoteRowsPrint(notes: seq<Note>, d: char)
    requires SuitsNotes(d)
    ensures PrintableRows(NoteRows(notes), d)
  {
    forall r | 0 <= r < |notes| ensures forall i :: 0 <= i < 6 ==> Printable(NoteCells(notes[r])[i], d) {
      DecimalIsPlain(notes[r].durationMs, d);
    }
  }

  lemma {:induction false} DecimalIsPlain(n: int, d: char)
    requires d !in DIGITS && d != '-'
    ensures IsPlain(Decimal(n), d)
  {
    var s := Decimal(n);
    assert forall c :: c in s ==> c in DIGITS || c == '-';
  }

  lemma {:induction false} NoteHeaderPrints(d: char, replacement: string)
    requires SuitsNotes(d)
    ensures HeaderPrints(NoteFormat(d, replacement))
  {
  }

  lemma {:induction false} NotesAreReadable(notes: seq<Note>, d: char, replacement: string)
    requires SuitsNotes(d) && replacement in {AS_WRITTEN, DOUBLED}
    ensures Readable(NoteFormat(d, replacement), NoteRows(notes))
  {
    NoteRowsPrint(notes, d);
    NoteHeaderPrints(d, replacement);
  }

  /** Every file opens: then every file is read, and nothing is missing. */
  lemma {:induction false} ExportReadsBack(env: Env, f: Format, rows: seq<seq<Cell>>)
    requires Readable(f, rows) && AllOpen(env)
    ensures ReadNamed(OnDisk(Exported(env, f, rows).files), f.d) == NamedAll(f.names, RowValues(rows, f.replacement))
  {
    RowsConserved(env, f, rows);
    FilesAreDocuments(env, f, rows);
    SplitExportReadsBack(env, f, rows);
    NamedFromBodies(OnDisk(Exported(env, f, rows).files), f.d, f.names);
  }

  /** The fields of a note, each under the name of its column. */
  function NoteRecord(n: Note): map<string, string> {
    map["timestamp" := n.timestamp, "window_title" := n.windowTitle, "app_name" := n.appName,
        "summary" := n.summary, "enriched_summary" := n.enrichedSummary, "duration_ms" := Decimal(n.durationMs)]
  }

  function NoteRecords(notes: seq<Note>): seq<map<string, string>> {
    seq(|notes|, i requires 0 <= i < |notes| => NoteRecord(notes[i]))
  }

  predicate NoteQuoteFree(n: Note) {
    '\"' !in n.timestamp && '\"' !in n.windowTitle && '\"' !in n.appName
    && '\"' !in n.summary && '\"' !in n.enrichedSummary
  }

  lemma {:induction false} NoteNamesDistinct()
    ensures DistinctNames(NOTE_HEADERS)
  {
    assert |NOTE_HEADERS[0]| == 9 && |NOTE_HEADERS[1]| == 12 && |NOTE_HEADERS[2]| == 8;
    assert |NOTE_HEADERS[3]| == 7 && |NOTE_HEADERS[4]| == 16 && |NOTE_HEADERS[5]| == 11;
  }

  lemma {:induction false} NamedSix(h: seq<string>, r: seq<string>)
    requires |h| == 6 && |r| == 6 && DistinctNames(h)
    ensures Named(h, r) == map[h[0] := r[0], h[1] := r[1], h[2] := r[2], h[3] := r[3], h[4] := r[4], h[5] := r[5]]
  {
    NamedKeys(h, r);
    forall i | 0 <= i < 6 ensures h[i] in Named(h, r) && Named(h, r)[h[i]] == r[i] {
      NamedAt(h, r, i);
    }
    assert h == [h[0], h[1], h[2], h[3], h[4], h[5]];
  }

  lemma {:induction false} NoteNamed(n: Note)
    ensures Named(NOTE_HEADERS, Values(NoteCells(n), DOUBLED)) == NoteRecord(n)
  {
    NoteNamesDistinct();
    NamedSix(NOTE_HEADERS, Values(NoteCells(n), DOUBLED));
  }

  lemma {:induction false} NotesNamed(notes: seq<Note>)
    ensures NamedAll(NOTE_HEADERS, RowValues(NoteRows(notes), DOUBLED)) == NoteRecords(notes)
  {
    var values := RowValues(NoteRows(notes), DOUBLED);
    forall i | 0 <= i < |notes| ensures Named(NOTE_HEADERS, values[i]) == NoteRecord(notes[i]) {
      NoteNamed(notes[i]);
    }
  }

  lemma {:induction false} NoteCellsQuoteFree(n: Note)
    ensures QuoteFree([NoteCells(n)]) <==> NoteQuoteFree(n)
  {
    var cells := NoteCells(n);
    RowQuoteFree(cells);
    assert cells[0] == Escaped(n.timestamp) && cells[1] == Escaped(n.windowTitle) && cells[2] == Escaped(n.appName);
    assert cells[3] == Escaped(n.summary) && cells[4] == Escaped(n.enrichedSummary);
  }

  lemma {:induction false} RowQuoteFree(cells: seq<Cell>)
    ensures QuoteFree([cells]) <==> forall i :: 0 <= i < |cells| && cells[i].Escaped? ==> QUOTE !in cells[i].field
  {
    assert [cells][0] == cells;
  }

  lemma {:induction false} NoteRowsQuoteFree(notes: seq<Note>)
    ensures QuoteFree(NoteRows(notes)) <==> forall i :: 0 <= i < |notes| ==> NoteQuoteFree(notes[i])
  {
    if notes != [] {
      NoteCellsQuoteFree(notes[0]);
      NoteRowsQuoteFree(notes[1..]);
      assert NoteRows(notes) == [NoteCells(notes[0])] + NoteRows(notes[1..]);
      QuoteFreeAppend([NoteCells(notes[0])], NoteRows(notes[1..]));
    }
  }

  lemma {:induction false} QuoteFreeAppend(a: seq<seq<Cell>>, b: seq<seq<Cell>>)
    ensures QuoteFree(a + b) <==> QuoteFree(a) && QuoteFree(b)
  {
    assert forall i :: 0 <= i < |a| ==> (a + b)[i] == a[i];
    assert forall i :: 0 <= i < |b| ==> (a + b)[|a| + i] == b[i];
  }

  /** Every file of an export of notes starts with the six column names, in this order. */
  lemma {:induction false} NoteHeader(env: Env, notes: seq<Note>, d: char, replacement: string)
    requires SuitsNotes(d) && replacement in {AS_WRITTEN, DOUBLED}
    ensures StartsWith(OnDisk(Exported(env, NoteFormat(d, replacement), NoteRows(notes)).files), d,
                       ["timestamp", "window_title", "app_name", "summary", "enriched_summary", "duration_ms"])
  {
    NotesAreReadable(notes, d, replacement);
    SplitExportReadsBack(env, NoteFormat(d, replacement), NoteRows(notes));
  }

  /** With quotes doubled, the files of an export of notes read back as the notes: every field
      is found under the name of its column, and the duration denotes the number it was. */
  lemma {:induction false} NotesReadBack(env: Env, notes: seq<Note>, d: char)
    requires SuitsNotes(d) && AllOpen(env)
    ensures ReadNamed(OnDisk(Exported(env, NoteFormat(d, DOUBLED), NoteRows(notes)).files), d) == NoteRecords(notes)
    ensures forall i :: 0 <= i < |notes| ==>
              Denotes(NoteRecords(notes)[i]["duration_ms"], notes[i].durationMs)
  {
    NotesAreReadable(notes, d, DOUBLED);
    ExportReadsBack(env, NoteFormat(d, DOUBLED), NoteRows(notes));
    NotesNamed(notes);
    forall i | 0 <= i < |notes|
      ensures Denotes(NoteRecords(notes)[i]["duration_ms"], notes[i].durationMs)
    {
      DecimalDenotes(notes[i].durationMs);
      assert NoteRecords(notes)[i] == NoteRecord(notes[i]);
    }
  }

  /** As the code stands, they do so exactly when no text field of any note has a quote. */
  lemma {:induction false} NotesReadBackAsWritten(env: Env, notes: seq<Note>, d: char)
    requires SuitsNotes(d) && AllOpen(env)
    ensures ReadNamed(OnDisk(Exported(env, NoteFormat(d, AS_WRITTEN), NoteRows(notes)).files), d) == NoteRecords(notes)
            <==> forall i :: 0 <= i < |notes| ==> NoteQuoteFree(notes[i])
  {
    var rows := NoteRows(notes);
    NotesAreReadable(notes, d, AS_WRITTEN);
    ExportReadsBack(env, NoteFormat(d, AS_WRITTEN), rows);
    NotesNamed(notes);
    NoteNamesDistinct();
    NamedInjective(NOTE_HEADERS, RowValues(rows, AS_WRITTEN), RowValues(rows, DOUBLED));
    SameValuesIffQuoteFree(rows);
    NoteRowsQuoteFree(notes);
  }

  // ---- What a reader finds in the files of prompts -------------------------------------

  function PromptRecord(n: Note, question: string, answer: string): map<string, string> {
    map["question" := question, "answer" := answer, "timestamp" := n.timestamp,
        "context" := n.windowTitle, "confidence" := n.confidence]
  }

  /** The three records about one note. */
  function PromptRecords(n: Note): seq<map<string, string>> {
    [PromptRecord(n, "What was I doing at " + n.timestamp + "?", n.summary),
     PromptRecord(n, "What application was active?", n.appName),
     PromptRecord(n, "Describe the activity", n.enrichedSummary)]
  }

  function AllPromptRecords(notes: seq<Note>): seq<map<string, string>> {
    if notes == [] then [] else PromptRecords(notes[0]) + AllPromptRecords(notes[1..])
  }

  predicate PromptQuoteFree(n: Note) {
    NoteQuoteFree(n) && '\"' !in n.confidence
  }

  lemma {:induction false} PromptRowsPrint(notes: seq<Note>, d: char)
    ensures PrintableRows(AllPromptRows(notes), d)
  {
    if notes != [] {
      PromptRowsPrint(notes[1..], d);
    }
  }

  lemma {:induction false} PromptHeaderPrints(d: char, replacement: string)
    requires SuitsPrompts(d)
    ensures HeaderPrints(PromptFormat(d, replacement))
  {
  }

  lemma {:induction false} PromptsAreReadable(notes: seq<Note>, d: char, replacement: string)
    requires SuitsPrompts(d) && replacement in {AS_WRITTEN, DOUBLED}
    ensures Readable(PromptFormat(d, replacement), AllPromptRows(notes))
  {
    PromptRowsPrint(notes, d);
    PromptHeaderPrints(d, replacement);
  }

  lemma {:induction false} PromptNamesDistinct()
    ensures DistinctNames(PROMPT_HEADERS)
  {
    assert |PROMPT_HEADERS[0]| == 8 && |PROMPT_HEADERS[1]| == 6 && |PROMPT_HEADERS[2]| == 9;
    assert |PROMPT_HEADERS[3]| == 7 && |PROMPT_HEADERS[4]| == 10;
  }

  lemma {:induction false} NamedFive(h: seq<string>, r: seq<string>)
    requires |h| == 5 && |r| == 5 && DistinctNames(h)
    ensures Named(h, r) == map[h[0] := r[0], h[1] := r[1], h[2] := r[2], h[3] := r[3], h[4] := r[4]]
  {
    NamedKeys(h, r);
    forall i | 0 <= i < 5 ensures h[i] in Named(h, r) && Named(h, r)[h[i]] == r[i] {
      NamedAt(h, r, i);
    }
    assert h == [h[0], h[1], h[2], h[3], h[4]];
  }

  lemma {:induction false} PromptNamed(n: Note, question: string, answer: string)
    ensures Named(PROMPT_HEADERS, Values(PromptCells(n, question, answer), DOUBLED))
         == PromptRecord(n, question, answer)
  {
    PromptNamesDistinct();
    NamedFive(PROMPT_HEADERS, Values(PromptCells(n, question, answer), DOUBLED));
  }

  lemma {:induction false} PromptsOfOneNamed(n: Note)
    ensures NamedAll(PROMPT_HEADERS, RowValues(PromptRows(n), DOUBLED)) == PromptRecords(n)
  {
    PromptNamed(n, TimeQuestion(n.timestamp), n.summary);
    PromptNamed(n, APPLICATION_QUESTION, n.appName);
    PromptNamed(n, ACTIVITY_QUESTION, n.enrichedSummary);
  }

  lemma {:induction false} NamedAllAppend(header: seq<string>, a: seq<seq<string>>, b: seq<seq<string>>)
    ensures NamedAll(header, a + b) == NamedAll(header, a) + NamedAll(header, b)
  {
  }

  lemma {:induction false} PromptsNamed(notes: seq<Note>)
    ensures NamedAll(PROMPT_HEADERS, RowValues(AllPromptRows(notes), DOUBLED)) == AllPromptRecords(notes)
  {
    if notes != [] {
      var rest := AllPromptRows(notes[1..]);
      PromptsOfOneNamed(notes[0]);
      PromptsNamed(notes[1..]);
      RowValuesAppend(PromptRows(notes[0]), rest, DOUBLED);
      NamedAllAppend(PROMPT_HEADERS, RowValues(PromptRows(notes[0]), DOUBLED), RowValues(rest, DOUBLED));
    }
  }

  lemma {:induction false} PromptCellsQuoteFree(n: Note, question: string, answer: string)
    ensures QuoteFree([PromptCells(n, question, answer)])
            <==> (QUOTE !in question && QUOTE !in answer && QUOTE !in n.timestamp
                  && QUOTE !in n.windowTitle && QUOTE !in n.confidence)
  {
    var cells := PromptCells(n, question, answer);
    RowQuoteFree(cells);
    assert cells[0] == Escaped(question) && cells[1] == Escaped(answer) && cells[2] == Escaped(n.timestamp);
    assert cells[3] == Escaped(n.windowTitle) && cells[4] == Escaped(n.confidence);
  }

  lemma {:induction false} QuestionsQuoteFree(timestamp: string)
    ensures QUOTE in TimeQuestion(timestamp) <==> QUOTE in timestamp
    ensures QUOTE !in APPLICATION_QUESTION && QUOTE !in ACTIVITY_QUESTION
  {
  }

  lemma {:induction false} QuoteFreeThree(a: seq<Cell>, b: seq<Cell>, c: seq<Cell>)
    ensures QuoteFree([a, b, c]) <==> QuoteFree([a]) && QuoteFree([b]) && QuoteFree([c])
  {
    QuoteFreeAppend([a], [b]);
    QuoteFreeAppend([a] + [b], [c]);
    assert [a, b, c] == [a] + [b] + [c];
  }

  lemma {:induction false} PromptRowsQuoteFree(n: Note)
    ensures QuoteFree(PromptRows(n)) <==> PromptQuoteFree(n)
  {
    var rows := PromptRows(n);
    QuestionsQuoteFree(n.timestamp);
    PromptCellsQuoteFree(n, TimeQuestion(n.timestamp), n.summary);
    PromptCellsQuoteFree(n, APPLICATION_QUESTION, n.appName);
    PromptCellsQuoteFree(n, ACTIVITY_QUESTION, n.enrichedSummary);
    QuoteFreeThree(rows[0], rows[1], rows[2]);
  }

  lemma {:induction false} AllPromptRowsQuoteFree(notes: seq<Note>)
    ensures QuoteFree(AllPromptRows(notes)) <==> forall i :: 0 <= i < |notes| ==> PromptQuoteFree(notes[i])
  {
    if notes != [] {
      PromptRowsQuoteFree(notes[0]);
      AllPromptRowsQuoteFree(notes[1..]);
      QuoteFreeAppend(PromptRows(notes[0]), AllPromptRows(notes[1..]));
    }
  }

  /** Every file of an export of prompts starts with the five column names, in this order. */
  lemma {:induction false} PromptHeader(env: Env, notes: seq<Note>, d: char, replacement: string)
    requires SuitsPrompts(d) && replacement in {AS_WRITTEN, DOUBLED}
    ensures StartsWith(OnDisk(Exported(env, PromptFormat(d, replacement), AllPromptRows(notes)).files), d,
                       ["question", "answer", "timestamp", "context", "confidence"])
  {
    PromptsAreReadable(notes, d, replacement);
    SplitExportReadsBack(env, PromptFormat(d, replacement), AllPromptRows(notes));
  }

  /** With quotes doubled, the files of an export of prompts read back as three records per
      note, in note order, every field under the name of its column. */
  lemma {:induction false} PromptsReadBack(env: Env, notes: seq<Note>, d: char)
    requires SuitsPrompts(d) && AllOpen(env)
    ensures ReadNamed(OnDisk(Exported(env, PromptFormat(d, DOUBLED), AllPromptRows(notes)).files), d)
         == AllPromptRecords(notes)
  {
    PromptsAreReadable(notes, d, DOUBLED);
    ExportReadsBack(env, PromptFormat(d, DOUBLED), AllPromptRows(notes));
    PromptsNamed(notes);
  }

  lemma {:induction false} PromptRowLengths(notes: seq<Note>)
    ensures forall i :: 0 <= i < |AllPromptRows(notes)| ==> |AllPromptRows(notes)[i]| == 5
  {
    if notes != [] {
      PromptRowLengths(notes[1..]);
    }
  }

  /** As the code stands, they do so exactly when nothing that is asked or answered has a quote. */
  lemma {:induction false} PromptsReadBackAsWritten(env: Env, notes: seq<Note>, d: char)
    requires SuitsPrompts(d) && AllOpen(env)
    ensures ReadNamed(OnDisk(Exported(env, PromptFormat(d, AS_WRITTEN), AllPromptRows(notes)).files), d)
              == AllPromptRecords(notes)
            <==> forall i :: 0 <= i < |notes| ==> PromptQuoteFree(notes[i])
  {
    var rows := AllPromptRows(notes);
    PromptsAreReadable(notes, d, AS_WRITTEN);
    ExportReadsBack(env, PromptFormat(d, AS_WRITTEN), rows);
    PromptsNamed(notes);
    PromptNamesDistinct();
    PromptRowLengths(notes);
    NamedInjective(PROMPT_HEADERS, RowValues(rows, AS_WRITTEN), RowValues(rows, DOUBLED));
    SameValuesIffQuoteFree(rows);
    AllPromptRowsQuoteFree(notes);
  }

  // ---- The exporters ---------------------------------------------------------------

  /** The fields of one note, escaped and joined. */
  method NoteLine(n: Note, f: Format) returns (line: string)
    ensures line == RowText(NoteCells(n), f.d, f.replacement)
  {
    var timestamp := EscapeCsvField(n.timestamp, f.d, f.replacement);
    var windowTitle := EscapeCsvField(n.windowTitle, f.d, f.replacement);
    var appName := EscapeCsvField(n.appName, f.d, f.replacement);
    var summary := EscapeCsvField(n.summary, f.d, f.replacement);
    var enriched := EscapeCsvField(n.enrichedSummary, f.d, f.replacement);
    var fields := [timestamp, windowTitle, appName, summary, enriched, Decimal(n.durationMs)];
    assert fields == PrintAll(NoteCells(n), f.d, f.replacement);
    line := Join(fields, f.d);
  }

  /** `writeHeader`: the header line goes to the end of the text written so far. */
  method WriteHeader(text: string, f: Format) returns (extended: string)
    ensures extended == text + HeaderLine(f)
  {
    extended := text + Join(f.names, f.d);
    extended := extended + [LF];
    assert extended == text + (Join(f.names, f.d) + [LF]);
  }

  /** `openNextFile`: the text of the new file, or nothing if it cannot be opened. */
  method OpenNextFile(env: Env, f: Format, index: nat) returns (text: Option<string>)
    ensures text == if env.opens(index) then Some(NewFile(f)) else None
  {
    if !env.opens(index) {
      return None;
    }
    var written := WriteHeader(BOM, f);
    return Some(written);
  }

  lemma {:induction false} WriteCons(env: Env, f: Format, o: Output, line: string, rest: seq<string>)
    requires o.files != [] && o.isOpen
    ensures PutLines(env, f, o, [line] + rest) == PutLines(env, f, PutLine(env, f, o, line), rest)
  {
    assert ([line] + rest)[1..] == rest;
  }

  /** What becomes of an output once the notes from `i` on are written. */
  ghost function Finished(env: Env, f: Format, o: Output, notes: seq<Note>, i: nat): Output
    requires o.files != [] && i <= |notes|
  {
    PutLines(env, f, o, LinesOf(f, NoteRows(notes))[i..])
  }

  lemma {:induction false} FinishedStep(env: Env, f: Format, o: Output, notes: seq<Note>, i: nat)
    requires o.files != [] && o.isOpen && i < |notes|
    ensures var o1 := PutLine(env, f, o, RowText(NoteCells(notes[i]), f.d, f.replacement));
            Finished(env, f, o, notes, i) == if o1.isOpen then Finished(env, f, o1, notes, i + 1) else o1
  {
    var lines := LinesOf(f, NoteRows(notes));
    assert lines[i..] == [lines[i]] + lines[i + 1..];
    WriteCons(env, f, o, lines[i], lines[i + 1..]);
  }

  lemma {:induction false} FinishedAll(env: Env, f: Format, o: Output, notes: seq<Note>)
    requires o.files != []
    ensures Finished(env, f, o, notes, 0) == PutLines(env, f, o, LinesOf(f, NoteRows(notes)))
    ensures Finished(env, f, o, notes, |notes|) == o
  {
    var lines := LinesOf(f, NoteRows(notes));
    assert lines[0..] == lines && lines[|notes|..] == [];
  }

  /** What both exporters do with a line: it goes to the current file, which is closed, and
      the next one opened, when it has grown past the limit. */
  method WriteLine(env: Env, f: Format, files: seq<string>, bytesWritten: nat, fileIndex: nat, line: string)
    returns (files': seq<string>, bytesWritten': nat, fileIndex': nat, ok: bool)
    requires files != [] && fileIndex == |files| - 1
    ensures Output(files', bytesWritten', ok) == PutLine(env, f, Output(files, bytesWritten, true), line)
    ensures files' != [] && (ok ==> fileIndex' == |files'| - 1)
  {
    files' := files[fileIndex := files[fileIndex] + line + [LF]];
    bytesWritten' := bytesWritten + Utf8Size(line) + 1;
    fileIndex' := fileIndex;
    if env.isFile && bytesWritten' > SIZE_LIMIT {
      fileIndex' := fileIndex + 1;
      var text := OpenNextFile(env, f, fileIndex');
      if text.None? {
        return files', bytesWritten', fileIndex', false;
      }
      files' := files' + [text.value];
      bytesWritten' := env.position(fileIndex');
    }
    ok := true;
  }

  lemma {:induction false} NotesReadBackIfOpen(env: Env, notes: seq<Note>, d: char)
    requires SuitsNotes(d)
    ensures AllOpen(env) ==>
              ReadNamed(OnDisk(Exported(env, NoteFormat(d, DOUBLED), NoteRows(notes)).files), d) == NoteRecords(notes)
  {
    if AllOpen(env) {
      NotesReadBack(env, notes, d);
    }
  }

  method ExportCsv(env: Env, notes: seq<Note>, d: char, replacement: string) returns (o: Output)
    ensures o == Exported(env, NoteFormat(d, replacement), NoteRows(notes))
    ensures SuitsNotes(d) && replacement == DOUBLED && AllOpen(env) ==>
              ReadNamed(OnDisk(o.files), d) == NoteRecords(notes)
  {
    o := WriteNotes(env, NoteFormat(d, replacement), notes);
    if SuitsNotes(d) && replacement == DOUBLED {
      NotesReadBackIfOpen(env, notes, d);
    }
  }

  /** The rest of `exportCsv`, for any header. */
  method WriteNotes(env: Env, f: Format, notes: seq<Note>) returns (o: Output)
    ensures o == Exported(env, f, NoteRows(notes))
  {
    var first := WriteHeader(BOM, f);
    var files := [first];
    var bytesWritten: nat := env.position(0);
    var fileIndex: nat := 0;
    FinishedAll(env, f, Begin(env, f), notes);
    for i := 0 to |notes|
      invariant files != [] && fileIndex == |files| - 1
      invariant Finished(env, f, Output(files, bytesWritten, true), notes, i)
             == Finished(env, f, Begin(env, f), notes, 0)
    {
      var line := NoteLine(notes[i], f);
      var ok;
      FinishedStep(env, f, Output(files, bytesWritten, true), notes, i);
      files, bytesWritten, fileIndex, ok := WriteLine(env, f, files, bytesWritten, fileIndex, line);
      if !ok {
        return Output(files, bytesWritten, false);
      }
    }
    FinishedAll(env, f, Output(files, bytesWritten, true), notes);
    return Output(files, bytesWritten, true);
  }

  method PromptLine(n: Note, question: string, answer: string, f: Format) returns (line: string)
    ensures line == RowText(PromptCells(n, question, answer), f.d, f.replacement)
  {
    var context := EscapeCsvField(n.windowTitle, f.d, f.replacement);
    var confidence := EscapeCsvField(n.confidence, f.d, f.replacement);
    var q := EscapeCsvField(question, f.d, f.replacement);
    var a := EscapeCsvField(answer, f.d, f.replacement);
    var timestamp := EscapeCsvField(n.timestamp, f.d, f.replacement);
    var fields := [q, a, timestamp, context, confidence];
    assert fields == PrintAll(PromptCells(n, question, answer), f.d, f.replacement);
    line := Join(fields, f.d);
  }

  /** One call of the row-writing lambda. */
  function PutPrompt(env: Env, f: Format, o: Output, n: Note, question: string, answer: string): (r: Output)
    requires o.files != []
    ensures r.files != []
  {
    PutLine(env, f, o, RowText(PromptCells(n, question, answer), f.d, f.replacement))
  }

  /** The variables that the row-writing lambda of `exportStructuredPrompts` captures. */
  class PromptWriter {
    const env: Env
    const format: Format
    var files: seq<string>
    var bytesWritten: nat
    var fileIndex: nat
    var isOpen: bool

    function State(): Output
      reads this
    {
      Output(files, bytesWritten, isOpen)
    }

    ghost predicate Valid()
      reads this
    {
      files != [] && fileIndex == |files| - 1
    }

    constructor (env: Env, f: Format)
      ensures Valid() && State() == Begin(env, f) && this.env == env && this.format == f
    {
      var first := WriteHeader(BOM, f);
      this.env, this.format := env, f;
      files, bytesWritten, fileIndex, isOpen := [first], env.position(0), 0, true;
    }

    method WriteRow(n: Note, question: string, answer: string) returns (ok: bool)
      requires Valid() && isOpen
      modifies this
      ensures State() == PutPrompt(env, format, old(State()), n, question, answer)
      ensures ok == isOpen && (ok ==> Valid())
    {
      var line := PromptLine(n, question, answer, format);
      files, bytesWritten, fileIndex, isOpen := WriteLine(env, format, files, bytesWritten, fileIndex, line);
      return isOpen;
    }
  }

  /** What becomes of an output once the prompts of the notes from `i` on are written. */
  ghost function PromptsFinished(env: Env, f: Format, o: Output, notes: seq<Note>, i: nat): Output
    requires o.files != [] && i <= |notes|
  {
    PutLines(env, f, o, LinesOf(f, AllPromptRows(notes[i..])))
  }

  lemma {:induction false} PromptsFinishedStep(env: Env, f: Format, o: Output, notes: seq<Note>, i: nat)
    requires o.files != [] && o.isOpen && i < |notes|
    ensures var n := notes[i];
            var o1 := PutPrompt(env, f, o, n, TimeQuestion(n.timestamp), n.summary);
            var o2 := PutPrompt(env, f, o1, n, APPLICATION_QUESTION, n.appName);
            var o3 := PutPrompt(env, f, o2, n, ACTIVITY_QUESTION, n.enrichedSummary);
            PromptsFinished(env, f, o, notes, i) ==
            if !o1.isOpen then o1 else if !o2.isOpen then o2 else PromptsFinished(env, f, o3, notes, i + 1)
  {
    var lines := LinesOf(f, PromptRows(notes[i]));
    var tail := LinesOf(f, AllPromptRows(notes[i + 1..]));
    assert notes[i..][1..] == notes[i + 1..];
    assert LinesOf(f, AllPromptRows(notes[i..])) == [lines[0]] + ([lines[1]] + ([lines[2]] + tail));
    WriteCons(env, f, o, lines[0], [lines[1]] + ([lines[2]] + tail));
    var o1 := PutLine(env, f, o, lines[0]);
    if o1.isOpen {
      WriteCons(env, f, o1, lines[1], [lines[2]] + tail);
      var o2 := PutLine(env, f, o1, lines[1]);
      if o2.isOpen {
        WriteCons(env, f, o2, lines[2], tail);
      }
    }
  }

  lemma {:induction false} PromptsFinishedAll(env: Env, f: Format, o: Output, notes: seq<Note>)
    requires o.files != []
    ensures PromptsFinished(env, f, o, notes, 0) == PutLines(env, f, o, LinesOf(f, AllPromptRows(notes)))
    ensures PromptsFinished(env, f, o, notes, |notes|) == o
  {
    assert notes[0..] == notes && notes[|notes|..] == [];
  }

  lemma {:induction false} PromptsReadBackIfOpen(env: Env, notes: seq<Note>, d: char)
    requires SuitsPrompts(d)
    ensures AllOpen(env) ==>
              ReadNamed(OnDisk(Exported(env, PromptFormat(d, DOUBLED), AllPromptRows(notes)).files), d)
              == AllPromptRecords(notes)
  {
    if AllOpen(env) {
      PromptsReadBack(env, notes, d);
    }
  }

  method ExportStructuredPrompts(env: Env, notes: seq<Note>, d: char, replacement: string) returns (o: Output)
    ensures o == Exported(env, PromptFormat(d, replacement), AllPromptRows(notes))
    ensures SuitsPrompts(d) && replacement == DOUBLED && AllOpen(env) ==>
              ReadNamed(OnDisk(o.files), d) == AllPromptRecords(notes)
  {
    var f := PromptFormat(d, replacement);
    if SuitsPrompts(d) && replacement == DOUBLED {
      PromptsReadBackIfOpen(env, notes, d);
    }
    var writer := new PromptWriter(env, f);
    PromptsFinishedAll(env, f, Begin(env, f), notes);
    for i := 0 to |notes|
      invariant writer.Valid() && writer.isOpen && writer.env == env && writer.format == f
      invariant PromptsFinished(env, f, writer.State(), notes, i) == PromptsFinished(env, f, Begin(env, f), notes, 0)
    {
      var n := notes[i];
      PromptsFinishedStep(env, f, writer.State(), notes, i);
      var ok := writer.WriteRow(n, TimeQuestion(n.timestamp), n.summary);
      if !ok {
        return writer.State();
      }
      ok := writer.WriteRow(n, APPLICATION_QUESTION, n.appName);
      if !ok {
        return writer.State();
      }
      ok := writer.WriteRow(n, ACTIVITY_QUESTION, n.enrichedSummary);
      if !ok {
        return writer.State();
      }
    }
    PromptsFinishedAll(env, f, writer.State(), notes);
    return writer.State();
  }
}
