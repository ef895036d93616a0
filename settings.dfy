// The quiz configuration record that the configuration form edits and the chat
// consumes when it builds a prompt and parses the reply.

module Settings {
  import opened Common

  /** The uploaded file, as far as the components look at it. */
  datatype PdfFile = PdfFile(name: string, mimeType: string)

  /** The form's `config` state. `quizType` is the source's `type` field. */
  datatype QuizSettings = QuizSettings(
    quizType: string,
    difficulty: string,
    questionCount: int,
    timeLimit: int,
    subject: string,
    customPrompt: string,
    pdfFile: Option<PdfFile>,
    useCustomPDF: bool,
    quizLanguage: string,
    processingMode: string)

  /** The object handed to the chat on submit: the settings plus the extracted
      document text, which is `null` unless a document is in use. */
  datatype SubmittedConfig = SubmittedConfig(settings: QuizSettings, pdfContent: Option<string>)
}
