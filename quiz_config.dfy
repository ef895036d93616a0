// The quiz configuration form (QuizConfig.jsx): its `config` record and the
// handlers that edit it, and the text it extracts from an uploaded document
// page by page, in batches of five pages, before cleaning it up.

module QuizConfigForm {
  import opened Common
  import opened Text
  import opened Settings

  /** The record the form starts with. */
  const DefaultSettings: QuizSettings :=
    QuizSettings("multiple-choice", "medium", 10, 0, "", "", None, false, "english", "speed")

  /** The fields of the record, as `updateConfig` names them. */
  datatype Field =
    | TypeField | DifficultyField | QuestionCountField | TimeLimitField | SubjectField
    | CustomPromptField | PdfFileField | UseCustomPdfField | QuizLanguageField | ProcessingModeField

  datatype FieldValue = Text(s: string) | Number(n: int) | Flag(b: bool) | File(f: Option<PdfFile>)

  /** One call `updateConfig(key, value)`. */
  datatype ConfigUpdate =
    | SetType(quizType: string)
    | SetDifficulty(difficulty: string)
    | SetQuestionCount(questionCount: int)
    | SetTimeLimit(timeLimit: int)
    | SetSubject(subject: string)
    | SetCustomPrompt(customPrompt: string)
    | SetPdfFile(pdfFile: Option<PdfFile>)
    | SetUseCustomPdf(useCustomPDF: bool)
    | SetQuizLanguage(quizLanguage: string)
    | SetProcessingMode(processingMode: string)

  /** `config[key]`. */
  function Get(c: QuizSettings, f: Field): FieldValue
  {
    match f
    case TypeField => Text(c.quizType)
    case DifficultyField => Text(c.difficulty)
    case QuestionCountField => Number(c.questionCount)
    case TimeLimitField => Number(c.timeLimit)
    case SubjectField => Text(c.subject)
    case CustomPromptField => Text(c.customPrompt)
    case PdfFileField => File(c.pdfFile)
    case UseCustomPdfField => Flag(c.useCustomPDF)
    case QuizLanguageField => Text(c.quizLanguage)
    case ProcessingModeField => Text(c.processingMode)
  }

  function KeyOf(u: ConfigUpdate): Field
  {
    match u
    case SetType(_) => TypeField
    case SetDifficulty(_) => DifficultyField
    case SetQuestionCount(_) => QuestionCountField
    case SetTimeLimit(_) => TimeLimitField
    case SetSubject(_) => SubjectField
    case SetCustomPrompt(_) => CustomPromptField
    case SetPdfFile(_) => PdfFileField
    case SetUseCustomPdf(_) => UseCustomPdfField
    case SetQuizLanguage(_) => QuizLanguageField
    case SetProcessingMode(_) => ProcessingModeField
  }

  function ValueOf(u: ConfigUpdate): FieldValue
  {
    match u
    case SetType(v) => Text(v)
    case SetDifficulty(v) => Text(v)
    case SetQuestionCount(v) => Number(v)
    case SetTimeLimit(v) => Number(v)
    case SetSubject(v) => Text(v)
    case SetCustomPrompt(v) => Text(v)
    case SetPdfFile(v) => File(v)
    case SetUseCustomPdf(v) => Flag(v)
    case SetQuizLanguage(v) => Text(v)
    case SetProcessingMode(v) => Text(v)
  }

  /** `{ ...prev, [key]: value }`. */
  function Updated(c: QuizSettings, u: ConfigUpdate): QuizSettings
  {
    match u
    case SetType(v) => c.(quizType := v)
    case SetDifficulty(v) => c.(difficulty := v)
    case SetQuestionCount(v) => c.(questionCount := v)
    case SetTimeLimit(v) => c.(timeLimit := v)
    case SetSubject(v) => c.(subject := v)
    case SetCustomPrompt(v) => c.(customPrompt := v)
    case SetPdfFile(v) => c.(pdfFile := v)
    case SetUseCustomPdf(v) => c.(useCustomPDF := v)
    case SetQuizLanguage(v) => c.(quizLanguage := v)
    case SetProcessingMode(v) => c.(processingMode := v)
  }

  /** An update sets its own field to its value and leaves every other field
      as it was. */
  lemma UpdateTouchesOnlyItsKey(c: QuizSettings, u: ConfigUpdate, f: Field)
    ensures Get(Updated(c, u), f) == if f == KeyOf(u) then ValueOf(u) else Get(c, f)
  {
  }

  /** Two records that agree on every field are the same record. */
  lemma FieldsDetermineRecord(c: QuizSettings, d: QuizSettings)
    requires forall f: Field :: Get(c, f) == Get(d, f)
    ensures c == d
  {
    assert Get(c, TypeField) == Get(d, TypeField);
    assert Get(c, DifficultyField) == Get(d, DifficultyField);
    assert Get(c, QuestionCountField) == Get(d, QuestionCountField);
    assert Get(c, TimeLimitField) == Get(d, TimeLimitField);
    assert Get(c, SubjectField) == Get(d, SubjectField);
    assert Get(c, CustomPromptField) == Get(d, CustomPromptField);
    assert Get(c, PdfFileField) == Get(d, PdfFileField);
    assert Get(c, UseCustomPdfField) == Get(d, UseCustomPdfField);
    assert Get(c, QuizLanguageField) == Get(d, QuizLanguageField);
    assert Get(c, ProcessingModeField) == Get(d, ProcessingModeField);
  }

  // ---------------------------------------------------------------------------
  // Text of the document

  /** The text of one page: its text items joined with spaces and trimmed. */
  function PageText(items: seq<string>): string
  {
    Trim(Join(items, ' '))
  }

  /** What one page adds: nothing when its text is empty, else a marker line
      with its number and the text. */
  function PageBlock(pageNum: nat, text: string): string
  {
    if text == "" then "" else Marked(pageNum, text)
  }

  function Marked(pageNum: nat, text: string): string
  {
    "\n\n--- Page " + NatToString(pageNum) + " ---\n" + text
  }

  /** The text of pages `1..n`, in page order. `pages[k]` holds the text
      items of page `k + 1`. */
  function Assembled(pages: seq<seq<string>>, n: nat): string
    requires n <= |pages|
  {
    if n == 0 then "" else Assembled(pages, n - 1) + PageBlock(n, PageText(pages[n - 1]))
  }

  /** The batches the loop `for (i = 1; i <= total; i += 5)` visits, from `i` on:
      each runs from `i` to `min(i + 4, total)`. */
  function BatchesFrom(total: nat, i: nat): seq<(nat, nat)>
    requires i >= 1
    decreases total + 1 - i
  {
    if i > total then [] else [(i, Min(i + 4, total))] + BatchesFrom(total, i + 5)
  }

  function Batches(total: nat): seq<(nat, nat)>
  {
    BatchesFrom(total, 1)
  }

  /** Batch `k` covers pages `5k + 1` to `min(5k + 5, total)`: the batches cut
      `1..total` into consecutive runs of at most five pages. */
  lemma BatchesPartition(total: nat)
    ensures |Batches(total)| == (total + 4) / 5
    ensures forall k :: 0 <= k < |Batches(total)| ==>
      Batches(total)[k] == (5 * k + 1, Min(5 * k + 5, total)) && 5 * k + 1 <= total
  {
    BatchesFromShape(total, 0);
  }

  lemma {:induction false} BatchesFromShape(total: nat, j: nat)
    ensures var b := BatchesFrom(total, 5 * j + 1);
      && |b| == (if 5 * j + 1 > total then 0 else (total - 5 * j + 4) / 5)
      && forall k :: 0 <= k < |b| ==> b[k] == (5 * (j + k) + 1, Min(5 * (j + k) + 5, total)) && 5 * (j + k) + 1 <= total
    decreases total + 1 - 5 * j
  {
    if 5 * j + 1 <= total {
      BatchesFromShape(total, j + 1);
      var b := BatchesFrom(total, 5 * j + 1);
      assert 5 * (j + 1) + 1 == 5 * j + 6;
      forall k | 1 <= k < |b| ensures b[k] == (5 * (j + k) + 1, Min(5 * (j + k) + 5, total)) {
        assert b[k] == BatchesFrom(total, 5 * (j + 1) + 1)[k - 1];
      }
    }
  }

  /** The page loop of `processPDF`: batch by batch, and within a batch in
      ascending page order, each non-empty page is appended with its marker. */
  method AssemblePages(pages: seq<seq<string>>) returns (fullText: string)
    ensures fullText == Assembled(pages, |pages|)
  {
    var total := |pages|;
    fullText := "";
    var i := 1;
    while i <= total
      invariant i >= 1 && i - 1 <= total + 4
      invariant fullText == Assembled(pages, if i - 1 <= total then i - 1 else total)
      decreases total + 1 - i
    {
      var endPage := Min(i + 4, total);
      fullText := AppendBatch(pages, fullText, i, endPage);
      i := i + 5;
    }
  }

  /** One batch: pages `from..to` in ascending order. */
  method AppendBatch(pages: seq<seq<string>>, before: string, from: nat, to: nat) returns (fullText: string)
    requires 1 <= from <= to <= |pages| && before == Assembled(pages, from - 1)
    ensures fullText == Assembled(pages, to)
  {
    fullText := before;
    var pageNum := from;
    while pageNum <= to
      invariant from <= pageNum <= to + 1
      invariant fullText == Assembled(pages, pageNum - 1)
    {
      fullText := AppendPage(pages, fullText, pageNum);
      pageNum := pageNum + 1;
    }
    assert pageNum == to + 1;
  }

  /** One page: its text, with its marker line, when the text is not empty. */
  method AppendPage(pages: seq<seq<string>>, before: string, pageNum: nat) returns (fullText: string)
    requires 1 <= pageNum <= |pages| && before == Assembled(pages, pageNum - 1)
    ensures fullText == Assembled(pages, pageNum)
  {
    fullText := before;
    var text := PageText(pages[pageNum - 1]);
    if text != "" {
      fullText := fullText + Marked(pageNum, text);
    }
  }

  /** Every space of `s` is the plain space character. */
  ghost predicate OnlyPlainSpaces(s: string)
  {
    forall i :: 0 <= i < |s| && IsSpace(s[i]) ==> s[i] == ' '
  }

  /** No two spaces follow each other in `s`. */
  ghost predicate NoAdjacentSpaces(s: string)
  {
    forall i, j :: 0 <= i < j < |s| && j == i + 1 ==> !(IsSpace(s[i]) && IsSpace(s[j]))
  }

  /** `/\s+/g` replaced by one space: every run of spaces and line ends
      becomes a single space. */
  function Collapse(s: string): (r: string)
    ensures OnlyPlainSpaces(r) && NoAdjacentSpaces(r)
    ensures (r == []) == (s == [])
    ensures r != [] ==> (IsSpace(r[0]) <==> IsSpace(s[0]))
    decreases |s|
  {
    if s == [] then []
    else if IsSpace(s[0]) then [' '] + Collapse(s[SpaceRun(s, 0)..])
    else [s[0]] + Collapse(s[1..])
  }

  /** The last `c` in `s[lo..hi]`, if any. */
  function LastIn(s: string, lo: nat, hi: nat, c: char): (r: Option<nat>)
    requires lo <= hi <= |s|
    ensures r.Some? ==> lo <= r.value < hi && s[r.value] == c
    decreases hi
  {
    if hi == lo then None else if s[hi - 1] == c then Some(hi - 1) else LastIn(s, lo, hi - 1, c)
  }

  /** `/\n\s*\n/g` replaced by one line end. The greedy `\s*` takes every space
      after the first line end and gives back up to the last line end among
      them. */
  function DropBlankLines(s: string): string
    decreases |s|
  {
    if s == [] then []
    else if s[0] == '\n' && LastIn(s, 1, 1 + SpaceRun(s, 1), '\n').Some? then
      ['\n'] + DropBlankLines(s[LastIn(s, 1, 1 + SpaceRun(s, 1), '\n').value + 1..])
    else [s[0]] + DropBlankLines(s[1..])
  }

  /** A text without line ends has no blank line to drop. */
  lemma {:induction false} NoLineEndNothingDropped(s: string)
    requires forall i :: 0 <= i < |s| ==> s[i] != '\n'
    ensures DropBlankLines(s) == s
    decreases |s|
  {
    if s != [] {
      assert forall i :: 0 <= i < |s[1..]| ==> s[1..][i] == s[i + 1];
      NoLineEndNothingDropped(s[1..]);
    }
  }

  /** The cleanup of `processPDF`. */
  function Cleanup(s: string): string
  {
    Trim(DropBlankLines(Collapse(s)))
  }

  /** The cleaned text has no line end, no space other than a single ` `
      between two other characters, and the blank-line replacement has
      nothing left to do. */
  lemma CleanupShape(s: string)
    ensures var c := Cleanup(s);
      && OnlyPlainSpaces(c) && NoAdjacentSpaces(c)
      && (c == [] || (!IsSpace(c[0]) && !IsSpace(c[|c| - 1])))
      && (forall i :: 0 <= i < |c| ==> !IsLineTerminator(c[i]))
      && c == Trim(Collapse(s))
  {
    var x := Collapse(s);
    NoLineEndNothingDropped(x);
    TrimmedCollapse(x);
  }

  lemma TrimmedCollapse(x: string)
    requires OnlyPlainSpaces(x) && NoAdjacentSpaces(x)
    ensures var c := Trim(x);
      && OnlyPlainSpaces(c) && NoAdjacentSpaces(c)
      && forall i :: 0 <= i < |c| ==> !IsLineTerminator(c[i])
  {
    var a := SpaceRun(x, 0);
    var e := |x| - BackSpaceRun(x, a, |x|);
    assert Trim(x) == x[a..e];
    SliceKeepsSpaces(x, a, e);
  }

  /** A slice of a collapsed text is still collapsed. */
  lemma SliceKeepsSpaces(x: string, a: nat, e: nat)
    requires a <= e <= |x| && OnlyPlainSpaces(x) && NoAdjacentSpaces(x)
    ensures var c := x[a..e];
      && OnlyPlainSpaces(c) && NoAdjacentSpaces(c)
      && forall i :: 0 <= i < |c| ==> !IsLineTerminator(c[i])
  {
    var c := x[a..e];
    forall i | 0 <= i < |c| && IsSpace(c[i]) ensures c[i] == ' ' {
      assert c[i] == x[a + i];
    }
    forall i, j | 0 <= i < j < |c| && j == i + 1 ensures !(IsSpace(c[i]) && IsSpace(c[j])) {
      assert c[i] == x[a + i] && c[j] == x[a + j];
    }
    forall i | 0 <= i < |c| ensures !IsLineTerminator(c[i]) {
      assert c[i] == x[a + i];
    }
  }

  /** Text with no space at all is left as it is. */
  lemma {:induction false} CollapseKeepsWords(s: string)
    requires forall i :: 0 <= i < |s| ==> !IsSpace(s[i])
    ensures Collapse(s) == s
    decreases |s|
  {
    if s != [] {
      CollapseKeepsWords(s[1..]);
    }
  }

  // ---------------------------------------------------------------------------
  // The subject taken from a file name

  /** `name.replace('.pdf', '')`: the first occurrence only. */
  function DropFirstPdf(name: string): (r: string)
    ensures |r| == |name| || |r| == |name| - 4
  {
    DropPdfFrom(name, 0)
  }

  function DropPdfFrom(name: string, i: nat): (r: string)
    requires i <= |name|
    ensures |r| == |name| || |r| == |name| - 4
    decreases |name| - i
  {
    if i + 4 > |name| then name
    else if name[i..i + 4] == ".pdf" then name[..i] + name[i + 4..]
    else DropPdfFrom(name, i + 1)
  }

  /** `.replace(/[_-]/g, ' ')`. */
  function Separators(s: string): (r: string)
    ensures |r| == |s|
    ensures forall i :: 0 <= i < |s| ==> r[i] == (if s[i] == '_' || s[i] == '-' then ' ' else s[i])
  {
    seq(|s|, i requires 0 <= i < |s| => if s[i] == '_' || s[i] == '-' then ' ' else s[i])
  }

  /** The subject suggested for an uploaded file. */
  function FileSubject(name: string): (r: string)
  {
    Separators(DropFirstPdf(name))
  }

  /** The subject of `my_notes.pdf`-style names: the base name with its
      separators turned into spaces, and no underscore or hyphen left. */
  lemma FileSubjectOfPdfName(base: string)
    requires '.' !in base
    ensures FileSubject(base + ".pdf") == Separators(base)
    ensures '_' !in FileSubject(base + ".pdf") && '-' !in FileSubject(base + ".pdf")
  {
    var name := base + ".pdf";
    NoPdfBefore(name, |base|);
    assert name[|base|..|base| + 4] == ".pdf";
    assert name[..|base|] == base && name[|base| + 4..] == [];
    assert base + [] == base;
    var r := FileSubject(name);
    forall i | 0 <= i < |r| ensures r[i] != '_' && r[i] != '-' {
    }
  }

  lemma {:induction false} NoPdfBefore(name: string, k: nat)
    requires k <= |name| && forall j :: 0 <= j < k ==> name[j] != '.'
    ensures forall i :: 0 <= i <= k ==> DropPdfFrom(name, i) == DropPdfFrom(name, k)
    decreases k
  {
    if k > 0 {
      NoPdfBefore(name, k - 1);
      if k - 1 + 4 <= |name| {
        assert name[k - 1..k + 3][0] == name[k - 1];
      }
    }
  }

  // ---------------------------------------------------------------------------
  // The form

  class QuizConfigState {
    var config: QuizSettings
    var pdfContent: string

    constructor ()
      ensures config == DefaultSettings && pdfContent == ""
    {
      config := DefaultSettings;
      pdfContent := "";
    }

    /** `updateConfig(key, value)`. */
    method UpdateConfig(u: ConfigUpdate)
      modifies this`config
      ensures config == Updated(old(config), u)
    {
      config := Updated(config, u);
    }

    /** `handleSubmit`: the settings with the extracted text, which is sent only
        while the document is in use. */
    function Submitted(): (sent: SubmittedConfig)
      reads this
      ensures sent.settings == config
      ensures sent.pdfContent.Some? <==> config.useCustomPDF
      ensures sent.pdfContent.Some? ==> sent.pdfContent.value == pdfContent
    {
      SubmittedConfig(config, if config.useCustomPDF then Some(pdfContent) else None)
    }

    /** `processPDF`. `extracted` is what the document library reads, the text
        items of each page in page order, or `None` when it fails. On success
        the cleaned text is kept, the file is in use and an empty subject is
        filled in from the file name; on failure the document state is cleared
        and the subject is kept. */
    method ProcessPdf(file: PdfFile, extracted: Option<seq<seq<string>>>)
      modifies this
      ensures extracted.Some? ==>
        && pdfContent == Cleanup(Assembled(extracted.value, |extracted.value|))
        && config == old(config).(pdfFile := Some(file), useCustomPDF := true,
             subject := if old(config).subject == "" then FileSubject(file.name) else old(config).subject)
      ensures extracted.None? ==>
        pdfContent == "" && config == old(config).(pdfFile := None, useCustomPDF := false)
    {
      if extracted.Some? {
        var fullText := AssemblePages(extracted.value);
        UsePdf(file, Cleanup(fullText));
      } else {
        ClearPdf();
      }
    }

    /** The success path of `processPDF`. */
    method UsePdf(file: PdfFile, content: string)
      modifies this
      ensures pdfContent == content
      ensures config == old(config).(pdfFile := Some(file), useCustomPDF := true,
        subject := if old(config).subject == "" then FileSubject(file.name) else old(config).subject)
    {
      var before := config;
      pdfContent := content;
      UpdateConfig(SetPdfFile(Some(file)));
      assert config == before.(pdfFile := Some(file));
      UpdateConfig(SetUseCustomPdf(true));
      assert config == before.(pdfFile := Some(file), useCustomPDF := true);
      if before.subject == "" {
        UpdateConfig(SetSubject(FileSubject(file.name)));
      }
    }

    /** The failure path of `processPDF`: the document state is cleared. */
    method ClearPdf()
      modifies this
      ensures pdfContent == ""
      ensures config == old(config).(pdfFile := None, useCustomPDF := false)
    {
      var before := config;
      UpdateConfig(SetPdfFile(None));
      assert config == before.(pdfFile := None);
      UpdateConfig(SetUseCustomPdf(false));
      pdfContent := "";
    }

    /** `handleFileUpload`: only a PDF is processed; any other file leaves the
        form as it was. */
    method FileUpload(file: PdfFile, extracted: Option<seq<seq<string>>>)
      modifies this
      ensures file.mimeType != "application/pdf" ==> config == old(config) && pdfContent == old(pdfContent)
      ensures file.mimeType == "application/pdf" && extracted.None? ==>
        pdfContent == "" && !config.useCustomPDF && config.pdfFile.None? && config.subject == old(config).subject
      ensures file.mimeType == "application/pdf" && extracted.Some? ==>
        config.useCustomPDF && config.pdfFile == Some(file) && pdfContent == Cleanup(Assembled(extracted.value, |extracted.value|))
    {
      if file.mimeType == "application/pdf" {
        ProcessPdf(file, extracted);
      }
    }

    /** `removePDF`: the document and the subject are cleared. */
    method RemovePdf()
      modifies this
      ensures config == old(config).(pdfFile := None, useCustomPDF := false, subject := "")
      ensures pdfContent == ""
    {
      UpdateConfig(SetPdfFile(None));
      UpdateConfig(SetUseCustomPdf(false));
      UpdateConfig(SetSubject(""));
      pdfContent := "";
    }
  }
}
